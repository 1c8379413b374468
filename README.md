# Fire particle engine and Perlin noise, modelled in Dafny

This project models the two computational engines of a small three.js
scene.

- **The fire particle emitter** (`FireParticle`).
  - It emits particles at a steady rate from a disk.
  - Particles travel along the emitter's direction and lose life by the distance they travel.
  - Dead particles are dropped, and the visible count is clamped to the emitter's capacity.
  - Each survivor is recoloured and resized through two piecewise-linear ramps over its age.
- **Two-dimensional gradient noise** (`Perlin`).
  - A Fisher–Yates-shuffled permutation of 0..255 is doubled into a 512-entry table.
  - The noise at a point hashes the four corners of its lattice cell through that table, takes a gradient from the low two bits of each hash, and blends them with a quintic fade.

All arithmetic is exact (`real`); random draws are parameters.

| file | module | contents |
|---|---|---|
| `vector.dfy` | `Vector` | 3-vectors; a vector's length is carried beside it (`IsLength`) instead of taking square roots |
| `ramp.dfy` | `Ramp` | stops, `normalizeValue`, the two lerps, the segment scan as a function and as the source's loops |
| `emission.dfy` | `Emission` | the emission accumulator and what successive calls add up to |
| `fire.dfy` | `Fire` | particles, the constant ramps, spawn/advance/filter/sort/restyle, and the class `FireParticle` |
| `noise.dfy` | `Noise` | `fade`, `lerp`, `grad`, the shuffle, the table built in place in arrays, and the class `Perlin` |

Modelling decisions:

- **Life is measured in distance.** A particle's direction vector has its length stored with it as `dirLength`, with `dirLength * dirLength == Dot(direction, direction)`. A step then takes `|speed * dt| * dirLength` off the particle's life. This equals `displacement.length()` exactly (`Fire.LifeDropIsDistance`).
- **The pool is a `seq<Particle>` field** of the class, and the methods reassign it.
  - `updateParticles` keeps the source's two loops (`MoveParticles`, `RestyleParticles`).
  - The filter and the sort are modelled as functions.
  - `mesh.count` is the field `meshCount`.
- **The sort comparator is modelled as written** (see Findings). As written, it makes the sort an identity, so the class keeps that behaviour. The intended comparator is modelled and proved separately.
- **`& 255` and `& 3` are Euclidean remainders** (`% 256`, `% 4`). On a two's-complement integer, masking the low bits is the same as the Euclidean remainder, including for negative lattice cells.
- **The random draws are parameters.**
  - `Fire.Draw` holds the life draw `r` in [0, 1) and the particle's start position.
  - `Noise.Perlin` takes 256 draws in [0, 1). Step i of the shuffle uses `draws[i]` for i from 255 down to 1, so `draws[0]` is never used. `Noise.Pick` turns a draw into an index exactly as `Math.floor(Math.random() * (i + 1))` does.

## Model

| member | source | states |
|---|---|---|
| Vector.ScaledLength | fire-particle.js:246-251 | scaling a vector by k multiplies its length by abs(k), so the displacement's length is abs(speed*dt) times the direction's length |
| Vector.NormalizedLength | fire-particle.js:48-50 | dividing a non-zero vector by its length gives a vector of length 1 |
| Ramp.Normalize | fire-particle.js:99-101 | the result r places value at min + r*(max-min): it inverts interpolation, lies in [0,1] when value lies in [min,max], and is 0 at min and 1 at max |
| Ramp.Lerp | fire-particle.js:90 | interpolation returns a at t = 0 and b at t = 1 |
| Ramp.LerpBetween | fire-particle.js:90 | for t in [0,1] the interpolated value lies between the two ends |
| Ramp.LerpColours | fire-particle.js:74 | colour interpolation returns c1 at alpha = 0 and c2 at alpha = 1 |
| Ramp.FirstSegment | fire-particle.js:67-76 | the scan returns the first segment from i on whose closed range contains t, or None exactly when no such segment exists |
| Ramp.SizeAt | fire-particle.js:82-97 | below the first stop or above the last one no segment matches and the size is the last stop's |
| Ramp.ColourAt | fire-particle.js:66-80 | below the first stop or above the last one no segment matches and the colour is the last stop's |
| Ramp.LookupSize | fire-particle.js:82-97 | the loop with early return computes SizeAt: the interpolated size of the first containing segment, else the last stop's size |
| Ramp.LookupColour | fire-particle.js:66-80 | the loop with early return computes ColourAt: the interpolated colour of the first containing segment, else the last stop's colour |
| Ramp.SegmentAtStop | fire-particle.js:67-76 | at a stop's own t the scan stops in the segment that ends there (the first segment for the first stop) |
| Ramp.SizeAtStop | fire-particle.js:82-101 | a size query at a stop's t returns exactly that stop's size |
| Ramp.ColourAtStop | fire-particle.js:66-80 | a colour query at a stop's t returns exactly that stop's colour |
| Ramp.SizeInSegment | fire-particle.js:88-91 | inside segment k the size lies between the sizes at the segment's two ends |
| Ramp.SizeBounded | fire-particle.js:82-97 | any bounds that hold for every stop's size hold for every query |
| Emission.Accumulate | fire-particle.js:189-191 | one call emits count particles whose time count/rate plus the new buffer equals old buffer plus dt; the buffer stays in [0, 1/rate); the count is non-negative when buffer + dt is |
| Emission.StepWorth | fire-particle.js:189-191 | in particle units (w = buffer*rate) a call emits whole particles and keeps a worth in [0,1), conserving w + dw |
| Emission.RunWorth | fire-particle.js:187-193 | successive calls in particle units: the total emitted counts a call with a negative count as 0, as the emission loop does not run, so it is never negative; after at least one call the worth left is in [0,1) |
| Emission.RunWorthTotal | fire-particle.js:187-193 | over any sequence of calls with non-negative elapsed times, starting with less than one particle's worth, the total emitted is floor(w + total worth), total emitted plus final worth equals w plus total worth, and the final worth stays in [0,1) |
| Emission.AccumulateInWorth | fire-particle.js:189-191 | a call of the accumulator in seconds emits the same count as the particle-unit step, and its new buffer times rate is the new worth |
| Emission.SplitIrrelevant | fire-particle.js:187-193 | from an empty buffer and with non-negative elapsed times, the total emitted depends only on the total elapsed worth, not on how it is split into calls |
| Emission.NegativeStepBreaksTotal | fire-particle.js:187-193 | steps of -1.5 then 2.0 emit 2 particles while a single step of 0.5 emits none: with a negative step the total emitted depends on the split |
| Fire.StopsIncreasing | fire-particle.js:7-20 | both constant ramps list their stops with strictly increasing t |
| Fire.ColourAfterLastStop | fire-particle.js:7-12 | every age past 0.75 yields the final grey 0x706E6E |
| Fire.SizeRampBounds | fire-particle.js:14-20 | the drawn size factor always lies in [0.8, 2.0] |
| Fire.Spawn | fire-particle.js:197-215 | a new particle's life lies in [0.75*length, length); it takes the draw's position and the emitter's direction, scale and speed |
| Fire.Batch | fire-particle.js:193-216 | one call emits one particle per draw, each with life in [0.75*length, length) and the emitter's direction |
| Fire.Advance | fire-particle.js:241-252 | a step never increases life and keeps the particle's direction |
| Fire.LifeDropIsDistance | fire-particle.js:246-251 | the life a step takes is exactly the length of the displacement vector |
| Fire.AdvanceAll | fire-particle.js:241-252 | every particle is advanced, none added or dropped |
| Fire.Survivors | fire-particle.js:255-257 | the filter never grows the pool, keeps only particles with life > 0, and keeps a particle exactly when it is in the pool with life > 0 |
| Fire.SurvivorsCount | fire-particle.js:255-257 | each live particle is kept as many times as it occurs, and each dead one is dropped: the survivors' multiset is the pool's restricted to life > 0 |
| Fire.SurvivorsAppend | fire-particle.js:255-257 | the survivors of a + b are those of a followed by those of b, so the filter keeps the survivors' relative order |
| Fire.Insert | fire-particle.js:260-262 | insertion into the sorted prefix adds one slot |
| Fire.InsertPermutes | fire-particle.js:260-262 | insertion adds exactly the inserted particle and keeps all the others |
| Fire.Compare | fire-particle.js:260-262 | as written every pair compares equal (0); the intended comparator puts p2 first exactly when it has more life, and ties compare equal |
| Fire.StableSort | fire-particle.js:260-262 | the sort keeps the pool's length, whatever the comparator |
| Fire.InsertAtMost | fire-particle.js:260-262 | inserting a particle with at most b life into a pool whose lives are at most b keeps every life at most b |
| Fire.InsertNoReturn | fire-particle.js:260-262 | with the comparator as written, insertion appends |
| Fire.NoReturnSortIsIdentity | fire-particle.js:260-262 | with the comparator as written, the stable sort returns the pool unchanged |
| Fire.SortPermutes | fire-particle.js:260-262 | the sort is a permutation for either comparator |
| Fire.InsertDescending | fire-particle.js:260-262 | with the life-descending comparator insertion keeps a descending pool descending |
| Fire.LifeSortIsDescending | fire-particle.js:260-262 | with the life-descending comparator the sort orders by descending life |
| Fire.NoReturnSortKeepsAscendingPair | fire-particle.js:260-262 | as written, two particles with ascending lives stay ascending: the sort does not sort |
| Fire.Age | fire-particle.js:276-278 | the ramp argument t satisfies t*length == length - life: it is the fraction of the length already used up, 0 at full life and 1 at life 0 |
| Fire.AgeInRange | fire-particle.js:276-278 | a particle with 0 < life <= length has a ramp argument in [0,1) |
| Fire.Restyle | fire-particle.js:276-283 | restyling changes only the colour and the drawn scale, and the drawn scale is the mesh scale times a factor in [0.8, 2.0] |
| Fire.RestyleAll | fire-particle.js:275-284 | every particle is restyled, none added or dropped |
| Fire.RestyleOnlyRecolours | fire-particle.js:275-284 | restyling a pool changes only each particle's colour and drawn scale; every other field, and the order, stays as it was |
| Fire.UpdatedPool | fire-particle.js:238-285 | an update never grows the pool and leaves only particles with life > 0 |
| Fire.UpdateKeepsSurvivors | fire-particle.js:238-285 | an update keeps exactly the survivors of the advance step in their order, restyled by age; every kept particle stays alive with life below length, with a ramp argument in [0,1) |
| Fire.IntendedPool | fire-particle.js:238-285 | the update with the intended comparator keeps as many particles as survive the advance step, all with life > 0 |
| Fire.SortedSurvivorsAlive | fire-particle.js:255-262 | sorting live particles by descending life yields only live particles |
| Fire.IntendedPoolSorted | fire-particle.js:255-272 | with the intended comparator the updated pool is ordered by descending life and has as many particles as the pool as written, so the clamped count is unchanged |
| Fire.FireParticle.constructor | fire-particle.js:22-45 | the emitter starts with an empty pool and an empty buffer, and the mesh's count is the capacity |
| Fire.FireParticle.SetDirection | fire-particle.js:48-50 | a non-zero direction is replaced by its unit vector; a zero one stays zero; live particles are untouched |
| Fire.FireParticle.GenerateParticles | fire-particle.js:178-219 | the buffer becomes the accumulator's new buffer and exactly the emitted count of new particles is appended after the old ones, which are unchanged |
| Fire.FireParticle.MoveParticles | fire-particle.js:241-252 | the loop advances every particle in place |
| Fire.RestyleParticle | fire-particle.js:276-283 | one particle's age, looked up through the two ramp loops, gives the colour and drawn scale of Restyle |
| Fire.FireParticle.RestyleParticles | fire-particle.js:275-284 | the loop recolours and resizes every particle from its age through the two ramps |
| Fire.FireParticle.UpdateParticles | fire-particle.js:238-285 | the pool becomes the restyled survivors in their old order, the mesh count becomes min(survivors, capacity), and the emitter stays valid |
| Fire.FireParticle.Update | fire-particle.js:288-292 | emission happens before the advance step, so new particles move in the same frame; count and buffer as above |
| Noise.Fade | perlin.js:7-9 | fade(0) = 0 and fade(1) = 1 |
| Noise.FadeInUnit | perlin.js:7-9 | on [0,1] the fade stays in [0,1] |
| Noise.FadeSameSideOfHalf | perlin.js:7-9 | the fade lies on the same side of 1/2 as its argument: (1 - 2t)(1 - 2 fade(t)) >= 0 |
| Noise.Lerp | perlin.js:11-13 | interpolation returns a at t = 0 and b at t = 1 |
| Noise.LerpWithin | perlin.js:11-13 | for t in [0,1] interpolation of a value within a and one within b stays within (1-t)a + tb |
| Noise.Grad | perlin.js:15-18 | only hash & 3 matters: 0 gives x-y, 1 gives -x+y, 2 and 3 give -x-y |
| Noise.GradAtOrigin | perlin.js:15-18 | every gradient is 0 at offset (0,0) |
| Noise.GradWithin | perlin.js:15-18 | a gradient is at most the sum of the sizes of its two offsets |
| Noise.Lattice | perlin.js:39-40 | the masked lattice cell lies in [0,255] and is congruent to floor(v) modulo 256 |
| Noise.Fraction | perlin.js:42-43 | the offset inside the cell lies in [0,1) and is 0 at integers |
| Noise.Pick | perlin.js:30 | a draw in [0,1) picks a swap partner j with 0 <= j <= i |
| Noise.Picks | perlin.js:29-30 | every step's partner is in range and is the one its draw picks |
| Noise.Identity | perlin.js:21-26 | the filled table holds i in slot i |
| Noise.Swap | perlin.js:31 | slots i and j trade values and every other slot keeps its own |
| Noise.SwapPermutes | perlin.js:31 | a swap neither adds nor loses a value |
| Noise.ShuffleDown | perlin.js:29-32 | the shuffle steps from i down to 1 keep the table's length and never touch a slot above i |
| Noise.ShuffleDownPermutes | perlin.js:29-32 | the shuffle steps from i down to 1 neither add nor lose a value |
| Noise.Shuffled | perlin.js:20-32 | the shuffled table has 256 slots, and its last slot holds the partner picked by the first step (i = 255), which no later step touches |
| Noise.ShuffledIsPermutation | perlin.js:20-32 | the shuffled table has 256 slots, is a permutation of 0..255 and contains every value |
| Noise.FillIdentity | perlin.js:21-26 | the filling loop leaves slot i holding i |
| Noise.ShuffleInPlace | perlin.js:29-32 | the in-place swap loop computes the specified shuffle |
| Noise.Doubled | perlin.js:35 | the 512-slot result is the table followed by itself |
| Noise.GeneratePermutation | perlin.js:20-36 | the result has 512 entries, is the shuffled table twice, and table[i] == table[i-256] for i in [256,512) |
| Noise.Perlin.constructor | perlin.js:3-5 | the generator's table is a fresh array holding the doubled shuffled permutation |
| Noise.Perlin.CornerHashes | perlin.js:48-51 | the four corner hashes, and X+1, are valid indices into the 512-entry table |
| Noise.Perlin.GenerateNoise | perlin.js:38-58 | the noise lies in [-1,1] for every point and every table |
| Noise.BlendBound | perlin.js:53-57 | four corner gradients, each bounded by the sum of its offsets to its corner, blended with weights on the same side of 1/2 as the offsets, give a value in [-1,1] |
| Noise.AxisBlend | perlin.js:53-57 | along one axis, values bounded by s + c and (1 - s) + c and interpolated by w are bounded by c + s + w(1 - 2s) |
| Noise.HalfMargin | perlin.js:45-46 | s + w(1 - 2s) is at most 1/2 when w lies on the same side of 1/2 as s |
| Noise.NoiseAtLattice | perlin.js:38-58 | the noise is exactly 0 at every integer lattice point |
| Noise.CellShift | perlin.js:39-43 | moving 256 units along an axis gives the same masked cell index and the same offset inside the cell |
| Noise.NoisePeriodic | perlin.js:38-58 | the noise repeats with period 256 along both axes |

`Noise.Perlin.GenerateNoise` reads only `permutation` (its `reads`
clause) and cannot change it: for a fixed table it is a function of `(x, y)`.

## Left out

- space.js is not part of this model: it is scene, camera, renderer and DOM plumbing with no logic to verify.
- `setupMesh`, `updateGeometry`, `getMesh`, `getSpline` and `getSplineEndpoint` are left out. They build and upload three.js objects and have no logic of their own. `Update` therefore stops after the advance step.
- `getRandomPointInDisk` and `getRandomQuaternion` are left out. They are trigonometry and square roots fed by `Math.random`. Each particle's start position comes in with its draw, and the random rotation a particle carries is not modelled.
- The rotation of the direction by the mesh's quaternion (fire-particle.js:185) is left out: the mesh is taken as unrotated.
- `getMaxParticles` is left out because it uses π. The capacity is a constructor parameter.
- The constructor's default arguments are left out (fire-particle.js:22-30: direction (1,0,0), scale (1,1,1), length 5, radius 2.5, rate 5, speed 5). `Fire.FireParticle.constructor` takes every value as a required parameter. `radius` is not a field: only the disk sampler and `getMaxParticles` use it, and both are left out.
- `Math.random` is replaced by injected draws in [0, 1).
- IEEE-754 rounding, NaN and infinities are not modelled; arithmetic is exact.
  - Very large coordinates, where `& 255` would first truncate to 32 bits, are not modelled. The result is the same for any integer, since 2^32 is a multiple of 256.
- The sRGB/linear colour-management conversion that `new THREE.Color(hex)` may apply is left out: a hex colour becomes its three channels divided by 255.
- Aliasing is left out.
  - In the source, `scale` is the mesh's own `mesh.scale` (fire-particle.js:181). Every particle from every call shares it with the mesh, both as `scale` and as its first `altScale`. All particles from one call share one per-call clone of the emitter's direction (`rotDirection`, line 185). Nothing changes that clone, since line 246 clones it again before scaling. Values are copied here. That is equivalent because nothing in the modelled code changes `mesh.scale` after `setupMesh`, restyling replaces `altScale` with a fresh clone, and the per-call direction clone is never changed in place.
  - `setDirection` normalises the caller's vector in place; the model only changes the emitter.
- Fire.FireParticle.constructor: requires `rate > 0` and `length > 0`. Only a zero `rate` divides by zero in the source (`pIter / this.rate`, fire-particle.js:191). A negative rate is excluded as well. With `length <= 0` the source does not fail: every particle is born with life at most 0 (line 197), is culled by the filter in the same frame (lines 255-257), and so never reaches the division by `length` at line 278. The model excludes that case so that every pooled particle can satisfy `0 < life < length` (`Fire.Healthy`).
- Fire.FireParticle.Valid: keeps only `particleRateBuffer >= 0`. The bound `particleRateBuffer < 1/rate`, which `Emission.Accumulate` proves for every call, is not carried in the class invariant.
- Emission.RunWorthTotal: requires every elapsed worth to be non-negative. With a negative step, that call emits nothing while its worth still lowers the buffer, so the total emitted is not floor(w + total worth). `Emission.NegativeStepBreaksTotal` shows this: steps -1.5 then 2.0 emit 2 particles, while one step of 0.5 emits none.
- Emission.SplitIrrelevant: same requirement as `Emission.RunWorthTotal`, for the same reason.
- Emission.RunWorthTotal: the sum over successive calls is stated in particle units (buffer*rate, dt*rate). `Emission.AccumulateInWorth` bridges it to one call in seconds, but no lemma chains calls in seconds.
- Ramp.LookupSize: requires strictly increasing stops, which the two constant ramps have (`Fire.StopsIncreasing`). With two equal adjacent stops the source divides by zero.
- Ramp.LookupColour: same requirement as `Ramp.LookupSize`.
- Fire.FireParticle.GenerateParticles: requires at least as many draws as the call emits.
- Fire.FireParticle.Update: same requirement as `GenerateParticles`.

## Findings

| source | as written | input that shows it | evidently intended | confidence | as-written member | corrected member |
|---|---|---|---|---|---|---|
| fire-particle.js:260-262 | the comparator has a block body with no `return`, so it yields `undefined`; the sort treats every pair as equal and, being stable, leaves the pool unchanged | two live particles with lives 1 then 2 stay in ascending order after the sort | sort by descending remaining life (`p2.life - p1.life`) | not executed | Fire.NoReturnSortKeepsAscendingPair | Fire.IntendedPoolSorted |

`Fire.NoReturnSortIsIdentity` shows that the sort as written is the identity on every pool.

The corrected comparator (`Fire.Comparator.LifeDescending`) is proved to sort
(`Fire.LifeSortIsDescending`) and to permute (`Fire.SortPermutes`). The update
with it is `Fire.IntendedPool`, and `Fire.IntendedPoolSorted` proves that its pool is descending.

The class `Fire.FireParticle` keeps the behaviour as written, because that is what runs. Under either comparator the pool keeps the same particles, and the mesh count clamps only how many of them are drawn.
