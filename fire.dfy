/** The fire particle engine: particles are emitted from a disk at a
    steady rate, travel along the emitter's direction, lose life by the
    distance they travel, and are coloured and sized by two ramps over
    their normalised age. Arithmetic is exact (reals). */
module Fire {
  import opened Arith
  import opened Vector
  import opened Ramp
  import Emission

  /** One particle. `dirLength` is the length of `direction`; `scale` is
      the emitter's scale when the particle was made, `altScale` the scale
      it is drawn with. The random rotation a particle also carries is
      not modelled. */
  datatype Particle = Particle(
    position: Vec3,
    direction: Vec3,
    dirLength: real,
    scale: Vec3,
    altScale: Vec3,
    colour: Colour,
    life: real,
    speed: real)

  /** The random inputs of one emitted particle: the draw `r` in [0, 1)
      that sets its life, and the point the disk sampler chose. */
  datatype Draw = Draw(r: real, position: Vec3)

  /** The default colour of a new particle (white). */
  const White := Colour(1.0, 1.0, 1.0)

  /** An RGB colour given as a 24-bit hexadecimal number. */
  function FromHex(h: int): Colour
    requires 0 <= h < 0x100_0000
  {
    Colour((h / 0x1_0000) as real / 255.0, ((h / 0x100) % 0x100) as real / 255.0, (h % 0x100) as real / 255.0)
  }

  const ColourStops: seq<Stop<Colour>> := [
    Stop(0.0, FromHex(0xFFFEBA)),
    Stop(0.25, FromHex(0xFFED59)),
    Stop(0.5, FromHex(0xF88200)),
    Stop(0.75, FromHex(0x706E6E))
  ]

  const SizeStops: seq<Stop<real>> := [
    Stop(0.0, 0.8),
    Stop(0.55, 1.8),
    Stop(0.7, 2.0),
    Stop(0.75, 1.2),
    Stop(1.0, 0.9)
  ]

  lemma StopsIncreasing()
    ensures Increasing(ColourStops) && Increasing(SizeStops)
  {
  }

  /** Past the last colour stop (t > 0.75) every particle is the final grey. */
  lemma ColourAfterLastStop(t: real)
    requires t > 0.75
    ensures ColourAt(ColourStops, t) == FromHex(0x706E6E)
  {
    StopsIncreasing();
  }

  /** Whatever its age, a particle is drawn between 0.8 and 2 times its scale. */
  lemma SizeRampBounds(t: real)
    ensures 0.8 <= SizeAt(SizeStops, t) <= 2.0
  {
    StopsIncreasing();
    SizeBounded(SizeStops, t, 0.8, 2.0);
  }

  /** A new particle: its life is a random 75% to 100% of the emitter's
      length, and it copies the emitter's scale, speed and direction. */
  function Spawn(d: Draw, length: real, scale: Vec3, speed: real, direction: Vec3, dirLength: real): (p: Particle)
    requires 0.0 <= d.r < 1.0 && length > 0.0
    ensures 0.75 * length <= p.life < length
    ensures p.position == d.position && p.direction == direction && p.dirLength == dirLength
    ensures p.scale == scale && p.speed == speed
  {
    var life := ((d.r * 0.25) + 0.75) * length;
    assert life == 0.75 * length + (d.r * 0.25) * length;
    assert (d.r * 0.25) * length < 0.25 * length;
    Particle(d.position, direction, dirLength, scale, scale, White, life, speed)
  }

  /** The particles one call emits, in the order of their draws. */
  function Batch(ds: seq<Draw>, length: real, scale: Vec3, speed: real, direction: Vec3, dirLength: real): (ps: seq<Particle>)
    requires length > 0.0
    requires forall i :: 0 <= i < |ds| ==> 0.0 <= ds[i].r < 1.0
    ensures |ps| == |ds|
    ensures forall i :: 0 <= i < |ps| ==> 0.75 * length <= ps[i].life < length
    ensures forall i :: 0 <= i < |ps| ==> ps[i].direction == direction && ps[i].dirLength == dirLength
    decreases |ds|
  {
    if ds == [] then []
    else Batch(ds[..|ds| - 1], length, scale, speed, direction, dirLength)
         + [Spawn(ds[|ds| - 1], length, scale, speed, direction, dirLength)]
  }

  /** One step of travel: the particle moves by direction * speed * dt and
      loses as much life as the length of that displacement. */
  function Advance(p: Particle, dt: real): (q: Particle)
    ensures p.dirLength >= 0.0 ==> q.life <= p.life
    ensures q.direction == p.direction && q.dirLength == p.dirLength
  {
    var displacement := Scale(p.direction, p.speed * dt);
    ProductNonNegative(Abs(p.speed * dt), if p.dirLength >= 0.0 then p.dirLength else 0.0);
    p.(position := Add(p.position, displacement),
       life := p.life - Abs(p.speed * dt) * p.dirLength)
  }

  /** The life a particle loses in a step is exactly the length of its
      displacement vector. */
  lemma LifeDropIsDistance(p: Particle, dt: real)
    requires IsLength(p.direction, p.dirLength)
    ensures IsLength(Scale(p.direction, p.speed * dt), p.life - Advance(p, dt).life)
  {
    ScaledLength(p.direction, p.dirLength, p.speed * dt);
  }

  function AdvanceAll(ps: seq<Particle>, dt: real): (qs: seq<Particle>)
    ensures |qs| == |ps|
  {
    seq(|ps|, i requires 0 <= i < |ps| => Advance(ps[i], dt))
  }

  /** The filter on `life > 0`, keeping the survivors' order. */
  function Survivors(ps: seq<Particle>): (r: seq<Particle>)
    ensures |r| <= |ps|
    ensures forall i :: 0 <= i < |r| ==> r[i].life > 0.0
    ensures forall p :: p in r <==> p in ps && p.life > 0.0
  {
    if ps == [] then []
    else (if ps[0].life > 0.0 then [ps[0]] else []) + Survivors(ps[1..])
  }

  /** The filter keeps every live particle as often as it occurs and no
      dead one. */
  lemma {:induction false} SurvivorsCount(ps: seq<Particle>)
    ensures forall p :: multiset(Survivors(ps))[p] == if p.life > 0.0 then multiset(ps)[p] else 0
    decreases |ps|
  {
    if ps != [] {
      SurvivorsCount(ps[1..]);
      assert ps == [ps[0]] + ps[1..];
    }
  }

  /** The filter works piece by piece: the survivors of a + b are those of
      a followed by those of b, so survivors keep their relative order. */
  lemma {:induction false} SurvivorsAppend(a: seq<Particle>, b: seq<Particle>)
    ensures Survivors(a + b) == Survivors(a) + Survivors(b)
    decreases |a|
  {
    if a == [] {
      assert a + b == b;
    } else {
      var x, rest := a[0], a[1..];
      var head := if x.life > 0.0 then [x] else [];
      assert a == [x] + rest && a + b == [x] + (rest + b);
      SurvivorsAppend(rest, b);
      calc {
        Survivors(a + b);
        { SurvivorsCons(x, rest + b); }
        head + Survivors(rest + b);
        head + (Survivors(rest) + Survivors(b));
        (head + Survivors(rest)) + Survivors(b);
        { SurvivorsCons(x, rest); }
        Survivors(a) + Survivors(b);
      }
    }
  }

  lemma SurvivorsCons(x: Particle, rest: seq<Particle>)
    ensures Survivors([x] + rest) == (if x.life > 0.0 then [x] else []) + Survivors(rest)
  {
    assert ([x] + rest)[0] == x && ([x] + rest)[1..] == rest;
  }

  /** The comparator handed to the pool's sort. As written it has a block
      body with no `return`, so it yields `undefined`, which the sort reads
      as +0 ("equal"); the evidently intended comparator orders by
      descending life. */
  datatype Comparator = NoReturn | LifeDescending

  /** A positive result puts p2 before p1. As written every pair compares
      equal; the intended comparator puts p2 first exactly when it has more
      life left. */
  function Compare(c: Comparator, p1: Particle, p2: Particle): (r: real)
    ensures c == NoReturn ==> r == 0.0
    ensures c == LifeDescending ==> (r > 0.0 <==> p1.life < p2.life) && (r == 0.0 <==> p1.life == p2.life)
  {
    match c
    case NoReturn => 0.0
    case LifeDescending => p2.life - p1.life
  }

  /** Inserts x, which comes after every particle of s in the original
      order, into the sorted s: it goes before the first particle that the
      comparator says must follow it, and after all the others. */
  function Insert(c: Comparator, x: Particle, s: seq<Particle>): (r: seq<Particle>)
    ensures |r| == |s| + 1
  {
    if s == [] then [x]
    else if Compare(c, s[0], x) > 0.0 then [x] + s
    else [s[0]] + Insert(c, x, s[1..])
  }

  /** Insertion adds exactly the inserted particle. */
  lemma {:induction false} InsertPermutes(c: Comparator, x: Particle, s: seq<Particle>)
    ensures multiset(Insert(c, x, s)) == multiset(s) + multiset{x}
    decreases |s|
  {
    if s != [] && Compare(c, s[0], x) <= 0.0 {
      InsertPermutes(c, x, s[1..]);
      assert s == [s[0]] + s[1..];
    }
  }

  /** The array sort: stable, so particles the comparator calls equal keep
      their order. */
  function StableSort(c: Comparator, s: seq<Particle>): (r: seq<Particle>)
    ensures |r| == |s|
    decreases |s|
  {
    if s == [] then []
    else Insert(c, s[|s| - 1], StableSort(c, s[..|s| - 1]))
  }

  lemma {:induction false} InsertNoReturn(x: Particle, s: seq<Particle>)
    ensures Insert(NoReturn, x, s) == s + [x]
  {
    if s != [] {
      InsertNoReturn(x, s[1..]);
      assert [s[0]] + (s[1..] + [x]) == s + [x];
    }
  }

  /** With the comparator as written the sort leaves the pool as it is. */
  lemma {:induction false} NoReturnSortIsIdentity(s: seq<Particle>)
    ensures StableSort(NoReturn, s) == s
    decreases |s|
  {
    if s != [] {
      var init, last := s[..|s| - 1], s[|s| - 1];
      NoReturnSortIsIdentity(init);
      InsertNoReturn(last, init);
      calc {
        StableSort(NoReturn, s);
        Insert(NoReturn, last, StableSort(NoReturn, init));
        Insert(NoReturn, last, init);
        init + [last];
        { assert init + [last] == s; }
        s;
      }
    }
  }

  /** The sort never adds or loses a particle, whatever the comparator. */
  lemma {:induction false} SortPermutes(c: Comparator, s: seq<Particle>)
    ensures multiset(StableSort(c, s)) == multiset(s)
    decreases |s|
  {
    if s != [] {
      var init, last := s[..|s| - 1], s[|s| - 1];
      SortPermutes(c, init);
      InsertPermutes(c, last, StableSort(c, init));
      assert s == init + [last];
    }
  }

  predicate Descending(s: seq<Particle>) {
    forall i, j :: 0 <= i < j < |s| ==> s[i].life >= s[j].life
  }

  /** No particle of s has more life than b. */
  predicate AllAtMost(s: seq<Particle>, b: real) {
    forall i :: 0 <= i < |s| ==> s[i].life <= b
  }

  /** Inserting a particle with at most b life keeps every life at most b. */
  lemma {:induction false} InsertAtMost(c: Comparator, x: Particle, s: seq<Particle>, b: real)
    requires AllAtMost(s, b) && x.life <= b
    ensures AllAtMost(Insert(c, x, s), b)
    decreases |s|
  {
    if s != [] && Compare(c, s[0], x) <= 0.0 {
      InsertAtMost(c, x, s[1..], b);
      var r := Insert(c, x, s);
      forall i | 0 <= i < |r|
        ensures r[i].life <= b
      {
        if i > 0 {
          assert r[i] == Insert(c, x, s[1..])[i - 1];
        }
      }
    }
  }

  lemma {:induction false} InsertDescending(x: Particle, s: seq<Particle>)
    requires Descending(s)
    ensures Descending(Insert(LifeDescending, x, s))
    decreases |s|
  {
    if s != [] {
      var r := Insert(LifeDescending, x, s);
      if Compare(LifeDescending, s[0], x) <= 0.0 {
        var tail := Insert(LifeDescending, x, s[1..]);
        InsertDescending(x, s[1..]);
        assert AllAtMost(s[1..], s[0].life) by {
          forall i | 0 <= i < |s[1..]|
            ensures s[1..][i].life <= s[0].life
          {
            assert s[1..][i] == s[i + 1];
          }
        }
        InsertAtMost(LifeDescending, x, s[1..], s[0].life);
        assert r == [s[0]] + tail;
        forall i, j | 0 <= i < j < |r|
          ensures r[i].life >= r[j].life
        {
          assert r[j] == tail[j - 1];
          if i > 0 {
            assert r[i] == tail[i - 1];
          }
        }
      } else {
        assert r == [x] + s;
        forall i, j | 0 <= i < j < |r|
          ensures r[i].life >= r[j].life
        {
          assert r[j] == s[j - 1];
          if i > 0 {
            assert r[i] == s[i - 1];
          }
        }
      }
    }
  }

  /** With the intended comparator the sort orders by descending life. */
  lemma {:induction false} LifeSortIsDescending(s: seq<Particle>)
    ensures Descending(StableSort(LifeDescending, s))
    decreases |s|
  {
    if s != [] {
      LifeSortIsDescending(s[..|s| - 1]);
      InsertDescending(s[|s| - 1], StableSort(LifeDescending, s[..|s| - 1]));
    }
  }

  /** As written the sort does not sort: two particles whose lives are in
      ascending order stay that way. */
  lemma NoReturnSortKeepsAscendingPair(p: Particle, q: Particle)
    requires p.life < q.life
    ensures StableSort(NoReturn, [p, q]) == [p, q]
    ensures !Descending(StableSort(NoReturn, [p, q]))
  {
    NoReturnSortIsIdentity([p, q]);
  }

  /** The ramps' argument: how far through its life the particle is. */
  function Age(life: real, length: real): (t: real)
    requires length > 0.0
    ensures t * length == length - life
    ensures life == length ==> t == 0.0
    ensures life == 0.0 ==> t == 1.0
  {
    Normalize(0.0, length, length - life)
  }

  /** For a particle whose life lies in (0, length] the ramps' argument
      lies in [0, 1). */
  lemma AgeInRange(life: real, length: real)
    requires length > 0.0 && 0.0 < life <= length
    ensures 0.0 <= Age(life, length) < 1.0
  {
    var t := Age(life, length);
    assert 0.0 + t * (length - 0.0) == length - life;
  }

  /** The particle's colour and drawn size recomputed from its age: only
      those two change, and the drawn size is the mesh scale times a factor
      between the size ramp's least and greatest stop. */
  function Restyle(p: Particle, length: real): (q: Particle)
    requires length > 0.0
    ensures q == p.(colour := q.colour, altScale := q.altScale)
    ensures exists k :: 0.8 <= k <= 2.0 && q.altScale == Scale(p.scale, k)
  {
    SizeRampBounds(Age(p.life, length));
    StopsIncreasing();
    var t := Age(p.life, length);
    p.(colour := ColourAt(ColourStops, t), altScale := Scale(p.scale, SizeAt(SizeStops, t)))
  }

  function RestyleAll(ps: seq<Particle>, length: real): (qs: seq<Particle>)
    requires length > 0.0
    ensures |qs| == |ps|
  {
    seq(|ps|, i requires 0 <= i < |ps| => Restyle(ps[i], length))
  }

  /** The pool after `updateParticles`, as the code is written. */
  function UpdatedPool(ps: seq<Particle>, dt: real, length: real): (r: seq<Particle>)
    requires length > 0.0
    ensures |r| <= |ps|
    ensures forall i :: 0 <= i < |r| ==> r[i].life > 0.0
  {
    var alive := Survivors(AdvanceAll(ps, dt));
    NoReturnSortIsIdentity(alive);
    RestyleOnlyRecolours(alive, length);
    RestyleAll(StableSort(NoReturn, alive), length)
  }

  /** Restyling a pool changes only each particle's colour and drawn
      scale; everything else, and the order, stays as it was. */
  lemma RestyleOnlyRecolours(ps: seq<Particle>, length: real)
    requires length > 0.0
    ensures var qs := RestyleAll(ps, length);
            forall i :: 0 <= i < |qs| ==> qs[i] == ps[i].(colour := qs[i].colour, altScale := qs[i].altScale)
  {
  }

  /** The pool after `updateParticles` with the evidently intended
      comparator: the survivors sorted by descending life, then restyled. */
  function IntendedPool(ps: seq<Particle>, dt: real, length: real): (r: seq<Particle>)
    requires length > 0.0
    ensures |r| == |Survivors(AdvanceAll(ps, dt))|
    ensures forall i :: 0 <= i < |r| ==> r[i].life > 0.0
  {
    var alive := Survivors(AdvanceAll(ps, dt));
    var sorted := StableSort(LifeDescending, alive);
    SortedSurvivorsAlive(alive, sorted);
    RestyleOnlyRecolours(sorted, length);
    RestyleAll(sorted, length)
  }

  /** A reordering of live particles holds only live particles. */
  lemma SortedSurvivorsAlive(alive: seq<Particle>, sorted: seq<Particle>)
    requires sorted == StableSort(LifeDescending, alive)
    requires forall i :: 0 <= i < |alive| ==> alive[i].life > 0.0
    ensures forall i :: 0 <= i < |sorted| ==> sorted[i].life > 0.0
  {
    SortPermutes(LifeDescending, alive);
    forall i | 0 <= i < |sorted|
      ensures sorted[i].life > 0.0
    {
      assert sorted[i] in multiset(alive);
      var k :| 0 <= k < |alive| && alive[k] == sorted[i];
    }
  }

  /** With the intended comparator the updated pool is ordered by
      descending life and has as many particles as the pool as written,
      so the visible count is the same. */
  lemma IntendedPoolSorted(ps: seq<Particle>, dt: real, length: real)
    requires length > 0.0
    ensures Descending(IntendedPool(ps, dt, length))
    ensures |IntendedPool(ps, dt, length)| == |UpdatedPool(ps, dt, length)|
  {
    var alive := Survivors(AdvanceAll(ps, dt));
    var sorted := StableSort(LifeDescending, alive);
    LifeSortIsDescending(alive);
    RestyleOnlyRecolours(sorted, length);
  }

  /** What the pool keeps between frames: every particle is alive and has
      not yet used up the emitter's length, and its direction's length is
      recorded correctly. */
  predicate Healthy(p: Particle, length: real) {
    0.0 < p.life < length && IsLength(p.direction, p.dirLength)
  }

  predicate AllHealthy(ps: seq<Particle>, length: real) {
    forall i :: 0 <= i < |ps| ==> Healthy(ps[i], length)
  }

  /** An update keeps exactly the particles still alive after their step,
      in their order, restyled from their new age; each of them has a
      ramp argument in [0, 1) and the pool stays healthy. */
  lemma UpdateKeepsSurvivors(ps: seq<Particle>, dt: real, length: real)
    requires length > 0.0
    requires AllHealthy(ps, length)
    ensures var alive := Survivors(AdvanceAll(ps, dt));
            UpdatedPool(ps, dt, length) == RestyleAll(alive, length)
    ensures var r := UpdatedPool(ps, dt, length);
            AllHealthy(r, length) && forall i :: 0 <= i < |r| ==> 0.0 <= Age(r[i].life, length) < 1.0
  {
    var moved := AdvanceAll(ps, dt);
    var alive := Survivors(moved);
    NoReturnSortIsIdentity(alive);
    var r := RestyleAll(alive, length);
    forall i | 0 <= i < |r|
      ensures Healthy(r[i], length) && 0.0 <= Age(r[i].life, length) < 1.0
    {
      assert alive[i] in moved;
      var k :| 0 <= k < |moved| && moved[k] == alive[i];
      assert Healthy(ps[k], length);
      AgeInRange(r[i].life, length);
    }
  }

  /** The body of the last loop of `updateParticles` for one particle:
      its age selects a colour and a size factor from the two ramps. */
  method RestyleParticle(p: Particle, length: real) returns (q: Particle)
    requires length > 0.0
    ensures q == Restyle(p, length)
  {
    StopsIncreasing();
    var reverseLife := length - p.life;
    var t := Normalize(0.0, length, reverseLife);
    var colour := LookupColour(ColourStops, t);
    var size := LookupSize(SizeStops, t);
    assert t == Age(p.life, length);
    q := p.(colour := colour, altScale := Scale(p.scale, size));
  }

  /** The emitter. Its fields are the ones the engine updates each frame
      (the accumulator, the pool and the visible count) and its
      configuration. */
  class FireParticle {
    var direction: Vec3
    var dirLength: real
    const meshScale: Vec3
    const length: real
    const rate: real
    const speed: real
    const maxParticles: real
    var particleRateBuffer: real
    var particles: seq<Particle>
    var meshCount: real

    ghost predicate Valid()
      reads this
    {
      length > 0.0 && rate > 0.0 && IsLength(direction, dirLength) &&
      particleRateBuffer >= 0.0 &&
      AllHealthy(particles, length)
    }

    /** The emitter with its configuration; the capacity bound is given
        (it is derived from the disk's area). The instanced mesh starts
        with room for that many particles. */
    constructor (direction: Vec3, dirLength: real, scale: Vec3, length: real,
                 rate: real, speed: real, maxParticles: real)
      requires length > 0.0 && rate > 0.0 && IsLength(direction, dirLength)
      ensures Valid()
      ensures this.direction == direction && this.dirLength == dirLength
      ensures this.meshScale == scale && this.length == length && this.rate == rate
      ensures this.speed == speed && this.maxParticles == maxParticles
      ensures particleRateBuffer == 0.0 && particles == [] && meshCount == maxParticles
    {
      this.direction := direction;
      this.dirLength := dirLength;
      this.meshScale := scale;
      this.length := length;
      this.rate := rate;
      this.speed := speed;
      this.maxParticles := maxParticles;
      particleRateBuffer := 0.0;
      particles := [];
      meshCount := maxParticles;
      new;
      assert 1.0 / rate > 0.0;
    }

    /** `setDirection`: the new direction is normalised (a zero vector
        stays zero); `norm` is its length. Live particles keep theirs. */
    method SetDirection(newDir: Vec3, norm: real)
      requires Valid() && IsLength(newDir, norm)
      modifies this`direction, this`dirLength
      ensures Valid()
      ensures norm > 0.0 ==> direction == Scale(newDir, 1.0 / norm) && dirLength == 1.0
      ensures norm == 0.0 ==> direction == newDir && dirLength == 0.0
    {
      if norm > 0.0 {
        NormalizedLength(newDir, norm);
        direction := Scale(newDir, 1.0 / norm);
        dirLength := 1.0;
      } else {
        direction := newDir;
        dirLength := 0.0;
      }
    }

    /** `generateParticles`: advance the accumulator and append one particle
        per whole particle it yields; `draws` are the random inputs. */
    method GenerateParticles(timeElapsed: real, draws: seq<Draw>)
      requires Valid()
      requires |draws| >= Emission.Accumulate(particleRateBuffer, timeElapsed, rate).count
      requires forall i :: 0 <= i < |draws| ==> 0.0 <= draws[i].r < 1.0
      modifies this`particleRateBuffer, this`particles
      ensures Valid()
      ensures var s := Emission.Accumulate(old(particleRateBuffer), timeElapsed, rate);
              var n := if s.count < 0 then 0 else s.count;
              particleRateBuffer == s.buffer &&
              particles == old(particles) + Batch(draws[..n], length, meshScale, speed, direction, dirLength)
    {
      var scale := meshScale;
      var rotDirection := direction;
      var s := Emission.Accumulate(particleRateBuffer, timeElapsed, rate);
      var pIter := s.count;
      particleRateBuffer := s.buffer;
      var i := 0;
      while i < pIter
        invariant 0 <= i && (pIter >= 0 ==> i <= pIter) && (pIter < 0 ==> i == 0)
        invariant particles == old(particles) + Batch(draws[..i], length, scale, speed, rotDirection, dirLength)
        invariant forall k :: 0 <= k < |particles| ==> Healthy(particles[k], length)
        invariant particleRateBuffer == s.buffer
      {
        particles := particles + [Spawn(draws[i], length, scale, speed, rotDirection, dirLength)];
        assert draws[..i + 1][..i] == draws[..i];
        i := i + 1;
      }
    }

    /** The first loop of `updateParticles`: move every particle and charge
        its life with the distance it travelled. */
    method MoveParticles(timeElapsed: real)
      modifies this`particles
      ensures particles == AdvanceAll(old(particles), timeElapsed)
    {
      var i := 0;
      while i < |particles|
        invariant 0 <= i <= |particles| == |old(particles)|
        invariant forall k :: 0 <= k < i ==> particles[k] == Advance(old(particles)[k], timeElapsed)
        invariant forall k :: i <= k < |particles| ==> particles[k] == old(particles)[k]
      {
        particles := particles[i := Advance(particles[i], timeElapsed)];
        i := i + 1;
      }
    }

    /** The last loop of `updateParticles`: recompute every particle's
        colour and drawn scale from its age through the two ramps. */
    method RestyleParticles()
      requires length > 0.0
      modifies this`particles
      ensures particles == RestyleAll(old(particles), length)
    {
      var i := 0;
      while i < |particles|
        invariant 0 <= i <= |particles| == |old(particles)|
        invariant forall k :: 0 <= k < i ==> particles[k] == Restyle(old(particles)[k], length)
        invariant forall k :: i <= k < |particles| ==> particles[k] == old(particles)[k]
      {
        var q := RestyleParticle(particles[i], length);
        particles := particles[i := q];
        i := i + 1;
      }
    }

    /** `updateParticles`: move the particles, drop the dead, sort (a no-op
        as written), clamp the visible count to the capacity bound and
        restyle the survivors. */
    method UpdateParticles(timeElapsed: real)
      requires Valid()
      modifies this`particles, this`meshCount
      ensures Valid()
      ensures particles == UpdatedPool(old(particles), timeElapsed, length)
      ensures meshCount == if |particles| as real > maxParticles then maxParticles else |particles| as real
    {
      ghost var before := particles;
      UpdateKeepsSurvivors(before, timeElapsed, length);
      MoveParticles(timeElapsed);
      particles := Survivors(particles);
      particles := StableSort(NoReturn, particles);

      var pLength := |particles| as real;
      if pLength > maxParticles {
        pLength := maxParticles;
      }
      meshCount := pLength;

      RestyleParticles();
    }

    /** `update`: emission, then the advance step (the upload of the
        instance data to the mesh is not modelled). */
    method Update(timeElapsed: real, draws: seq<Draw>)
      requires Valid()
      requires |draws| >= Emission.Accumulate(particleRateBuffer, timeElapsed, rate).count
      requires forall i :: 0 <= i < |draws| ==> 0.0 <= draws[i].r < 1.0
      modifies this`particleRateBuffer, this`particles, this`meshCount
      ensures Valid()
      ensures var s := Emission.Accumulate(old(particleRateBuffer), timeElapsed, rate);
              var n := if s.count < 0 then 0 else s.count;
              particleRateBuffer == s.buffer &&
              particles == UpdatedPool(old(particles) + Batch(draws[..n], length, meshScale, speed, direction, dirLength), timeElapsed, length)
      ensures meshCount == if |particles| as real > maxParticles then maxParticles else |particles| as real
    {
      GenerateParticles(timeElapsed, draws);
      UpdateParticles(timeElapsed);
    }
  }
}
