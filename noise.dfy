/** Two-dimensional gradient noise: a shuffled and doubled permutation
    table, and a noise value built from the four lattice corners around a
    point. Arithmetic is exact (reals). */
module Noise {
  import opened Arith

  /** An element of the table (a slot of an 8-bit unsigned array). */
  type Byte = x: int | 0 <= x < 256

  /** The quintic smoothstep 6t^5 - 15t^4 + 10t^3, in Horner form. */
  function Fade(t: real): (r: real)
    ensures t == 0.0 ==> r == 0.0
    ensures t == 1.0 ==> r == 1.0
  {
    t * t * t * (t * (t * 6.0 - 15.0) + 10.0)
  }

  /** On [0, 1] the fade stays in [0, 1]: it is t^3 times a positive
      quadratic, and 1 minus it is (1 - t)^3 times another. */
  lemma FadeInUnit(t: real)
    requires 0.0 <= t <= 1.0
    ensures 0.0 <= Fade(t) <= 1.0
  {
    var cube := t * t * t;
    var rest := (1.0 - t) * (1.0 - t) * (1.0 - t);
    ProductNonNegative(t, t);
    ProductNonNegative(t * t, t);
    ProductNonNegative(1.0 - t, 1.0 - t);
    ProductNonNegative((1.0 - t) * (1.0 - t), 1.0 - t);
    var q := t * (t * 6.0 - 15.0) + 10.0;
    var d := t - 1.25;
    assert q == 6.0 * (d * d) + 0.625;
    SquareNonNegative(d);
    ProductNonNegative(cube, q);
    var q2 := 6.0 * t * t + 3.0 * t + 1.0;
    ProductNonNegative(t, t);
    assert 1.0 - Fade(t) == rest * q2;
    ProductNonNegative(rest, q2);
  }

  /** The fade never crosses 1/2 away from its argument: it is below 1/2
      on [0, 1/2] and above it from 1/2 on. With w = t - 1/2 the fade is
      1/2 + w * (15/8 - 5w^2 + 6w^4), and that quartic is
      6(w^2 - 5/12)^2 + 5/6 > 0. */
  lemma FadeSameSideOfHalf(t: real)
    ensures (1.0 - 2.0 * t) * (1.0 - 2.0 * Fade(t)) >= 0.0
  {
    var w := t - 0.5;
    var z := w * w;
    var d := z - 5.0 / 12.0;
    var quartic := 6.0 * (d * d) + 5.0 / 6.0;
    assert Fade(t) == 0.5 + w * quartic;
    SquareNonNegative(w);
    SquareNonNegative(d);
    ProductNonNegative(z, quartic);
    assert (1.0 - 2.0 * t) * (1.0 - 2.0 * Fade(t)) == 4.0 * (z * quartic);
  }

  /** `lerp`: a + t * (b - a). */
  function Lerp(a: real, b: real, t: real): (r: real)
    ensures t == 0.0 ==> r == a
    ensures t == 1.0 ==> r == b
  {
    a + t * (b - a)
  }

  /** `grad`: the low two bits of the hash (hash & 3, which for a byte is
      hash % 4) pick one of x - y, -x + y and -x - y. */
  function Grad(hash: Byte, x: real, y: real): (r: real)
    ensures hash % 4 == 0 ==> r == x - y
    ensures hash % 4 == 1 ==> r == -x + y
    ensures hash % 4 >= 2 ==> r == -x - y
  {
    var h := hash % 4;
    (if h == 0 then x else -x) + (if h == 1 then y else -y)
  }

  /** At the lattice point itself the gradient contributes nothing. */
  lemma GradAtOrigin(hash: Byte)
    ensures Grad(hash, 0.0, 0.0) == 0.0
  {
  }

  /** A gradient is at most the sum of the offsets' sizes. */
  lemma GradWithin(hash: Byte, x: real, y: real, a: real, b: real)
    requires -a <= x <= a && -b <= y <= b
    ensures -(a + b) <= Grad(hash, x, y) <= a + b
  {
  }

  /** For t in [0, 1] interpolation between a value within a and one
      within b stays within the interpolated bound. */
  lemma LerpWithin(x: real, y: real, t: real, a: real, b: real)
    requires 0.0 <= t <= 1.0 && -a <= x <= a && -b <= y <= b
    ensures var bound := (1.0 - t) * a + t * b;
            -bound <= Lerp(x, y, t) <= bound
  {
    assert Lerp(x, y, t) == (1.0 - t) * x + t * y;
    ProductNonNegative(1.0 - t, a - x);
    ProductNonNegative(1.0 - t, a + x);
    ProductNonNegative(t, b - y);
    ProductNonNegative(t, b + y);
  }

  /** The bilinear blend of four corner gradients at offsets (x, y) in
      [0, 1)^2, each bounded by the sum of its offsets to its corner, with
      weights u and v in [0, 1] that lie on the same side of 1/2 as x and y,
      lies in [-1, 1]. The bound comes to m + n with m = x + u * (1 - 2x),
      n = y + v * (1 - 2y), and 1/2 - m = (1 - 2x) * (1 - 2u) / 2 >= 0. */
  lemma BlendBound(x: real, y: real, u: real, v: real, g00: real, g10: real, g01: real, g11: real)
    requires 0.0 <= x < 1.0 && 0.0 <= y < 1.0 && 0.0 <= u <= 1.0 && 0.0 <= v <= 1.0
    requires (1.0 - 2.0 * x) * (1.0 - 2.0 * u) >= 0.0 && (1.0 - 2.0 * y) * (1.0 - 2.0 * v) >= 0.0
    requires -(x + y) <= g00 <= x + y
    requires -((1.0 - x) + y) <= g10 <= (1.0 - x) + y
    requires -(x + (1.0 - y)) <= g01 <= x + (1.0 - y)
    requires -((1.0 - x) + (1.0 - y)) <= g11 <= (1.0 - x) + (1.0 - y)
    ensures -1.0 <= Lerp(Lerp(g00, g10, u), Lerp(g01, g11, u), v) <= 1.0
  {
    var m := x + u * (1.0 - 2.0 * x);
    HalfMargin(x, u);
    HalfMargin(y, v);
    AxisBlend(x, u, y, g00, g10);
    AxisBlend(x, u, 1.0 - y, g01, g11);
    AxisBlend(y, v, m, Lerp(g00, g10, u), Lerp(g01, g11, u));
  }

  /** One axis of the blend: values bounded by s + c and (1 - s) + c,
      interpolated by w, are bounded by c + s + w * (1 - 2s). */
  lemma AxisBlend(s: real, w: real, c: real, p: real, q: real)
    requires 0.0 <= w <= 1.0
    requires -(s + c) <= p <= s + c
    requires -((1.0 - s) + c) <= q <= (1.0 - s) + c
    ensures -(c + (s + w * (1.0 - 2.0 * s))) <= Lerp(p, q, w) <= c + (s + w * (1.0 - 2.0 * s))
  {
    LerpWithin(p, q, w, s + c, (1.0 - s) + c);
    AxisSum(s, w, c);
  }

  /** Along one axis the interpolated bound s + w * (1 - 2s) is at most
      1/2 when w lies on the same side of 1/2 as s. */
  lemma HalfMargin(s: real, w: real)
    requires (1.0 - 2.0 * s) * (1.0 - 2.0 * w) >= 0.0
    ensures s + w * (1.0 - 2.0 * s) <= 0.5
  {
    assert 0.5 - (s + w * (1.0 - 2.0 * s)) == 0.5 * ((1.0 - 2.0 * s) * (1.0 - 2.0 * w));
  }

  /** Interpolating the bounds s + c and (1 - s) + c by w gives
      c + s + w * (1 - 2s). */
  lemma AxisSum(s: real, w: real, c: real)
    ensures (1.0 - w) * (s + c) + w * ((1.0 - s) + c) == c + (s + w * (1.0 - 2.0 * s))
  {
  }

  /** `Math.floor(v) & 255`: the lattice cell reduced to the table's range.
      The bitwise and keeps the low eight bits of the two's-complement
      integer, which is the Euclidean remainder by 256, also for negative
      cells. */
  function Lattice(v: real): (X: int)
    ensures 0 <= X <= 255
    ensures (v.Floor - X) % 256 == 0
  {
    v.Floor % 256
  }

  /** `v - Math.floor(v)`: the offset of v inside its lattice cell. */
  function Fraction(v: real): (f: real)
    ensures 0.0 <= f < 1.0
    ensures v == v.Floor as real ==> f == 0.0
  {
    v - v.Floor as real
  }

  /** Math.floor(Math.random() * (i + 1)) for a draw r in [0, 1): an index
      from 0 to i. */
  function Pick(r: real, i: nat): (j: int)
    requires 0.0 <= r < 1.0
    ensures 0 <= j <= i
  {
    var n := (i + 1) as real;
    ProductNonNegative(r, n);
    assert r * n < n by {
      assert n - r * n == (1.0 - r) * n;
      assert (1.0 - r) * n > 0.0;
    }
    (r * n).Floor
  }

  /** The draws of one shuffle: step i of the shuffle uses draws[i]
      (draws[0] is not used, as the loop stops before i = 0). */
  predicate GoodDraws(draws: seq<real>) {
    |draws| == 256 && forall i :: 0 <= i < 256 ==> 0.0 <= draws[i] < 1.0
  }

  /** Swap partners of the shuffle: step i swaps slot i with slot picks[i]. */
  predicate GoodPicks(picks: seq<int>) {
    |picks| == 256 && forall i :: 0 <= i < 256 ==> 0 <= picks[i] <= i
  }

  /** The swap partner each draw selects. */
  function Picks(draws: seq<real>): (picks: seq<int>)
    requires GoodDraws(draws)
    ensures GoodPicks(picks)
    ensures forall i :: 0 <= i < 256 ==> picks[i] == Pick(draws[i], i)
  {
    seq(256, i requires 0 <= i < 256 => Pick(draws[i], i))
  }

  /** The table after the filling loop: slot i holds i. */
  function Identity(): (s: seq<Byte>)
    ensures |s| == 256 && forall i :: 0 <= i < 256 ==> s[i] == i
  {
    seq(256, i requires 0 <= i < 256 => i as Byte)
  }

  /** One step of the shuffle: slots i and j trade values and every other
      slot keeps its own. */
  function Swap(s: seq<Byte>, i: int, j: int): (r: seq<Byte>)
    requires 0 <= i < |s| && 0 <= j < |s|
    ensures |r| == |s| && r[i] == s[j] && r[j] == s[i]
    ensures forall k :: 0 <= k < |s| && k != i && k != j ==> r[k] == s[k]
  {
    s[i := s[j]][j := s[i]]
  }

  lemma SwapPermutes(s: seq<Byte>, i: int, j: int)
    requires 0 <= i < |s| && 0 <= j < |s|
    ensures multiset(Swap(s, i, j)) == multiset(s)
  {
  }

  /** Steps i, i - 1, ..., 1 of the Fisher-Yates shuffle applied to s:
      each swaps slot i with slot picks[i]. Slots above i are never
      touched. */
  function ShuffleDown(s: seq<Byte>, picks: seq<int>, i: nat): (r: seq<Byte>)
    requires GoodPicks(picks) && i < |s| && i < 256
    ensures |r| == |s|
    ensures forall k :: i < k < |s| ==> r[k] == s[k]
    decreases i
  {
    if i == 0 then s
    else ShuffleDown(Swap(s, i, picks[i]), picks, i - 1)
  }

  /** No step of the shuffle adds or loses a value. */
  lemma {:induction false} ShuffleDownPermutes(s: seq<Byte>, picks: seq<int>, i: nat)
    requires GoodPicks(picks) && i < |s| && i < 256
    ensures multiset(ShuffleDown(s, picks, i)) == multiset(s)
    decreases i
  {
    if i > 0 {
      var t := Swap(s, i, picks[i]);
      var r := ShuffleDown(t, picks, i - 1);
      assert ShuffleDown(s, picks, i) == r;
      calc {
        multiset(r);
        { ShuffleDownPermutes(t, picks, i - 1); }
        multiset(t);
        { SwapPermutes(s, i, picks[i]); }
        multiset(s);
      }
    }
  }

  /** The table after the shuffling loop. Step 255 comes first and is the
      only one that touches the last slot, so the last slot holds the value
      that step picked. */
  function Shuffled(draws: seq<real>): (s: seq<Byte>)
    requires GoodDraws(draws)
    ensures |s| == 256
    ensures s[255] == Pick(draws[255], 255)
  {
    var picks := Picks(draws);
    var first := Swap(Identity(), 255, picks[255]);
    assert ShuffleDown(Identity(), picks, 255) == ShuffleDown(first, picks, 254);
    ShuffleDown(Identity(), picks, 255)
  }

  /** The shuffled table is a permutation of 0..255: it has 256 slots, the
      same multiset of values as the identity, and every value occurs. */
  lemma ShuffledIsPermutation(draws: seq<real>)
    requires GoodDraws(draws)
    ensures |Shuffled(draws)| == 256
    ensures multiset(Shuffled(draws)) == multiset(Identity())
    ensures forall v :: 0 <= v < 256 ==> v in Shuffled(draws)
  {
    var s := Shuffled(draws);
    ShuffleDownPermutes(Identity(), Picks(draws), 255);
    forall v | 0 <= v < 256
      ensures v in s
    {
      assert Identity()[v] == v;
      assert v in multiset(Identity());
      assert v in multiset(s);
    }
  }

  /** The filling loop: a fresh 256-slot table holding 0..255 in order. */
  method FillIdentity() returns (p: array<Byte>)
    ensures fresh(p) && p[..] == Identity()
  {
    p := new Byte[256];
    for i := 0 to 256
      invariant forall k :: 0 <= k < i ==> p[k] == k
    {
      p[i] := i;
    }
  }

  /** The shuffling loop: for i from 255 down to 1 draw the partner j in
      0..i and swap slots i and j in place. */
  method ShuffleInPlace(p: array<Byte>, draws: seq<real>)
    requires GoodDraws(draws) && p.Length == 256
    modifies p
    ensures p[..] == ShuffleDown(old(p[..]), Picks(draws), 255)
  {
    ghost var picks := Picks(draws);
    var i := p.Length - 1;
    ghost var goal := ShuffleDown(p[..], picks, i);
    while i > 0
      invariant 0 <= i <= 255
      invariant ShuffleDown(p[..], picks, i) == goal
    {
      var j := Pick(draws[i], i);
      assert j == picks[i];
      ghost var before := p[..];
      p[i], p[j] := p[j], p[i];
      assert p[..] == Swap(before, i, j);
      i := i - 1;
    }
  }

  /** The copy into the final table: slot k holds slot k % 256 of p. */
  method Doubled(p: array<Byte>) returns (table: array<Byte>)
    requires p.Length == 256
    ensures fresh(table) && table[..] == p[..] + p[..]
  {
    table := new Byte[512];
    for k := 0 to 512
      invariant forall m :: 0 <= m < k ==> table[m] == p[m % 256]
    {
      table[k] := p[k % 256];
    }
    assert forall m :: 0 <= m < 512 ==> table[m] == (p[..] + p[..])[m];
  }

  /** `generatePermutation`: fill 0..255, shuffle in place, then lay the
      table out twice in a 512-slot array. */
  method GeneratePermutation(draws: seq<real>) returns (table: array<Byte>)
    requires GoodDraws(draws)
    ensures fresh(table) && table.Length == 512
    ensures table[..] == Shuffled(draws) + Shuffled(draws)
    ensures forall i :: 256 <= i < 512 ==> table[i] == table[i - 256]
  {
    var p := FillIdentity();
    ShuffleInPlace(p, draws);
    table := Doubled(p);
  }

  /** The table positions of the four corners of a lattice cell. */
  datatype Corners = Corners(aa: int, ab: int, ba: int, bb: int)

  /** The noise generator: its permutation table is built once and only
      read afterwards. */
  class Perlin {
    const permutation: array<Byte>

    constructor (draws: seq<real>)
      requires GoodDraws(draws)
      ensures fresh(permutation) && permutation.Length == 512
      ensures permutation[..] == Shuffled(draws) + Shuffled(draws)
    {
      var table := GeneratePermutation(draws);
      permutation := table;
    }

    /** The corner hashes of cell (X, Y): a table entry plus Y (plus 1).
        Because the table is doubled, each of them, and X + 1, is a valid
        index into it. */
    function CornerHashes(X: int, Y: int): (c: Corners)
      reads permutation
      requires permutation.Length == 512 && 0 <= X <= 255 && 0 <= Y <= 255
      ensures 0 <= c.aa <= 510 && c.ab == c.aa + 1
      ensures 0 <= c.ba <= 510 && c.bb == c.ba + 1
      ensures c.aa - Y == permutation[X] && c.ba - Y == permutation[X + 1]
    {
      Corners(permutation[X] + Y, permutation[X] + Y + 1,
              permutation[X + 1] + Y, permutation[X + 1] + Y + 1)
    }

    /** `generateNoise`: hash the four corners of the lattice cell through
        the doubled table and blend their gradients with faded offsets. The
        result lies in [-1, 1] whatever the table holds. */
    function GenerateNoise(x: real, y: real): (r: real)
      reads permutation
      requires permutation.Length == 512
      ensures -1.0 <= r <= 1.0
    {
      var X := Lattice(x);
      var Y := Lattice(y);
      var xf := Fraction(x);
      var yf := Fraction(y);
      var u := Fade(xf);
      var v := Fade(yf);
      var c := CornerHashes(X, Y);
      GradWithin(permutation[c.aa], xf, yf, xf, yf);
      GradWithin(permutation[c.ba], xf - 1.0, yf, 1.0 - xf, yf);
      GradWithin(permutation[c.ab], xf, yf - 1.0, xf, 1.0 - yf);
      GradWithin(permutation[c.bb], xf - 1.0, yf - 1.0, 1.0 - xf, 1.0 - yf);
      FadeInUnit(xf);
      FadeInUnit(yf);
      FadeSameSideOfHalf(xf);
      FadeSameSideOfHalf(yf);
      BlendBound(xf, yf, u, v, Grad(permutation[c.aa], xf, yf), Grad(permutation[c.ba], xf - 1.0, yf),
                      Grad(permutation[c.ab], xf, yf - 1.0), Grad(permutation[c.bb], xf - 1.0, yf - 1.0));
      Lerp(
        Lerp(Grad(permutation[c.aa], xf, yf), Grad(permutation[c.ba], xf - 1.0, yf), u),
        Lerp(Grad(permutation[c.ab], xf, yf - 1.0), Grad(permutation[c.bb], xf - 1.0, yf - 1.0), u),
        v)
    }
  }

  /** At every integer lattice point the noise is exactly 0. */
  lemma NoiseAtLattice(p: Perlin, x: int, y: int)
    requires p.permutation.Length == 512
    ensures p.GenerateNoise(x as real, y as real) == 0.0
  {
    assert (x as real).Floor == x && (y as real).Floor == y;
    var c := p.CornerHashes(Lattice(x as real), Lattice(y as real));
    GradAtOrigin(p.permutation[c.aa]);
  }

  /** Moving 256 units along an axis lands in a cell with the same masked
      index and the same offset. */
  lemma CellShift(v: real)
    ensures Lattice(v + 256.0) == Lattice(v) && Fraction(v + 256.0) == Fraction(v)
  {
    assert (v + 256.0).Floor == v.Floor + 256;
  }

  /** The noise repeats every 256 units along both axes, because the
      lattice cell is reduced modulo 256. */
  lemma NoisePeriodic(p: Perlin, x: real, y: real)
    requires p.permutation.Length == 512
    ensures p.GenerateNoise(x + 256.0, y) == p.GenerateNoise(x, y)
    ensures p.GenerateNoise(x, y + 256.0) == p.GenerateNoise(x, y)
  {
    CellShift(x);
    CellShift(y);
  }
}
