/** Gradient ramps of the fire particle: an ordered list of (t, value)
    stops, looked up by a linear scan that interpolates inside the first
    segment containing t and otherwise falls back to the last stop. */
module Ramp {
  import opened Arith

  datatype Option<T> = None | Some(value: T)

  datatype Stop<V> = Stop(t: real, value: V)

  /** An RGB colour with real channels (the rendering library's Color). */
  datatype Colour = Colour(r: real, g: real, b: real)

  /** Stops are listed with strictly increasing t. */
  predicate Increasing<V>(stops: seq<Stop<V>>) {
    forall i, j :: 0 <= i < j < |stops| ==> stops[i].t < stops[j].t
  }

  /** Segment j, from stop j to stop j + 1, contains t (both ends included). */
  predicate InSegment<V>(stops: seq<Stop<V>>, j: nat, t: real)
    requires j + 1 < |stops|
  {
    stops[j].t <= t <= stops[j + 1].t
  }

  /** `normalizeValue`: where `value` lies between `min` and `max`, as a
      fraction; it is the inverse of linear interpolation. */
  function Normalize(min: real, max: real, value: real): (r: real)
    requires min < max
    ensures min + r * (max - min) == value
    ensures min <= value <= max ==> 0.0 <= r <= 1.0
    ensures value == min ==> r == 0.0
    ensures value == max ==> r == 1.0
  {
    QuotientFacts(value - min, max - min);
    (value - min) / (max - min)
  }

  /** The fraction n / d for d > 0: it times d is n, it is 0 at n = 0 and 1
      at n = d, and it lies in [0, 1] when n lies in [0, d]. */
  lemma QuotientFacts(n: real, d: real)
    requires d > 0.0
    ensures (n / d) * d == n
    ensures n == 0.0 ==> n / d == 0.0
    ensures n == d ==> n / d == 1.0
    ensures 0.0 <= n <= d ==> 0.0 <= n / d <= 1.0
  {
    assert d / d == 1.0;
    if 0.0 <= n <= d {
      DivideMonotone(0.0, n, d);
      DivideMonotone(n, d, d);
    }
  }

  /** `MathUtils.lerp`: (1 - t) * a + t * b. */
  function Lerp(a: real, b: real, t: real): (r: real)
    ensures t == 0.0 ==> r == a
    ensures t == 1.0 ==> r == b
  {
    (1.0 - t) * a + t * b
  }

  /** For t in [0, 1] interpolation stays between its two end points. */
  lemma LerpBetween(a: real, b: real, t: real)
    requires 0.0 <= t <= 1.0
    ensures a <= Lerp(a, b, t) <= b || b <= Lerp(a, b, t) <= a
  {
    var r := Lerp(a, b, t);
    assert r == a + t * (b - a) == b - (1.0 - t) * (b - a);
    if a <= b {
      ProductNonNegative(t, b - a);
      ProductNonNegative(1.0 - t, b - a);
    } else {
      ProductNonNegative(t, a - b);
      ProductNonNegative(1.0 - t, a - b);
    }
  }

  /** `Color.lerpColors`: each channel moves from c1 towards c2 by alpha. */
  function LerpColours(c1: Colour, c2: Colour, alpha: real): (c: Colour)
    ensures alpha == 0.0 ==> c == c1
    ensures alpha == 1.0 ==> c == c2
  {
    Colour(c1.r + (c2.r - c1.r) * alpha,
           c1.g + (c2.g - c1.g) * alpha,
           c1.b + (c2.b - c1.b) * alpha)
  }

  /** The scan of both lookups from index i on: the first segment that
      contains t, or None when no segment from i on does. */
  function FirstSegment<V>(stops: seq<Stop<V>>, t: real, i: nat): (k: Option<nat>)
    ensures k.Some? ==> i <= k.value && k.value + 1 < |stops| && InSegment(stops, k.value, t)
    ensures k.Some? ==> forall j :: i <= j < k.value ==> !InSegment(stops, j, t)
    ensures k.None? ==> forall j :: i <= j && j + 1 < |stops| ==> !InSegment(stops, j, t)
    decreases |stops| - i
  {
    if i + 1 >= |stops| then None
    else if stops[i].t <= t && t <= stops[i + 1].t then Some(i)
    else FirstSegment(stops, t, i + 1)
  }

  /** `getSizeAtT` as a value. Outside the stops' range no segment
      matches and the ramp falls back to the last stop's size. */
  function SizeAt(stops: seq<Stop<real>>, t: real): (size: real)
    requires |stops| > 0 && Increasing(stops)
    ensures t < stops[0].t || t > stops[|stops| - 1].t ==> size == stops[|stops| - 1].value
  {
    match FirstSegment(stops, t, 0)
    case Some(k) =>
      Lerp(stops[k].value, stops[k + 1].value, Normalize(stops[k].t, stops[k + 1].t, t))
    case None => stops[|stops| - 1].value
  }

  /** `getColourAtT` as a value, with the same fallback to the last stop. */
  function ColourAt(stops: seq<Stop<Colour>>, t: real): (colour: Colour)
    requires |stops| > 0 && Increasing(stops)
    ensures t < stops[0].t || t > stops[|stops| - 1].t ==> colour == stops[|stops| - 1].value
  {
    match FirstSegment(stops, t, 0)
    case Some(k) =>
      LerpColours(stops[k].value, stops[k + 1].value, Normalize(stops[k].t, stops[k + 1].t, t))
    case None => stops[|stops| - 1].value
  }

  /** `getSizeAtT`: the scan over the segments, returning from inside the
      loop at the first one that contains t. */
  method LookupSize(stops: seq<Stop<real>>, t: real) returns (size: real)
    requires |stops| > 0 && Increasing(stops)
    ensures size == SizeAt(stops, t)
  {
    var i := 0;
    while i < |stops| - 1
      invariant 0 <= i <= |stops| - 1
      invariant FirstSegment(stops, t, i) == FirstSegment(stops, t, 0)
    {
      var s1, s2 := stops[i], stops[i + 1];
      if s1.t <= t && t <= s2.t {
        var normT := Normalize(s1.t, s2.t, t);
        return Lerp(s1.value, s2.value, normT);
      }
      i := i + 1;
    }
    return stops[|stops| - 1].value;
  }

  /** `getColourAtT`: the same scan over the colour stops. */
  method LookupColour(stops: seq<Stop<Colour>>, t: real) returns (colour: Colour)
    requires |stops| > 0 && Increasing(stops)
    ensures colour == ColourAt(stops, t)
  {
    var i := 0;
    while i < |stops| - 1
      invariant 0 <= i <= |stops| - 1
      invariant FirstSegment(stops, t, i) == FirstSegment(stops, t, 0)
    {
      var c1, c2 := stops[i], stops[i + 1];
      if c1.t <= t && t <= c2.t {
        var normT := Normalize(c1.t, c2.t, t);
        return LerpColours(c1.value, c2.value, normT);
      }
      i := i + 1;
    }
    return stops[|stops| - 1].value;
  }

  /** At the t of stop k the scan stops in the segment that ends at stop k
      (or, for the first stop, in the segment that starts there). */
  lemma {:induction false} SegmentAtStop<V>(stops: seq<Stop<V>>, k: nat)
    requires k < |stops| && |stops| > 1 && Increasing(stops)
    ensures FirstSegment(stops, stops[k].t, 0) == Some(if k == 0 then 0 else k - 1)
  {
    var want := if k == 0 then 0 else k - 1;
    assert InSegment(stops, want, stops[k].t);
  }

  /** A query at a stop's own t returns exactly that stop's size. */
  lemma SizeAtStop(stops: seq<Stop<real>>, k: nat)
    requires k < |stops| && Increasing(stops)
    ensures SizeAt(stops, stops[k].t) == stops[k].value
  {
    if |stops| > 1 {
      SegmentAtStop(stops, k);
    }
  }

  /** A query at a stop's own t returns exactly that stop's colour. */
  lemma ColourAtStop(stops: seq<Stop<Colour>>, k: nat)
    requires k < |stops| && Increasing(stops)
    ensures ColourAt(stops, stops[k].t) == stops[k].value
  {
    if |stops| > 1 {
      SegmentAtStop(stops, k);
    }
  }

  /** Inside segment k the size lies between the sizes at its two ends. */
  lemma SizeInSegment(stops: seq<Stop<real>>, k: nat, t: real)
    requires |stops| > 0 && Increasing(stops)
    requires k + 1 < |stops| && stops[k].t <= t <= stops[k + 1].t
    ensures var lo, hi := stops[k].value, stops[k + 1].value;
            lo <= SizeAt(stops, t) <= hi || hi <= SizeAt(stops, t) <= lo
  {
    assert InSegment(stops, k, t);
    var r := FirstSegment(stops, t, 0);
    var m := r.value;
    if m < k {
      // t lies in two segments only when it is the stop they share
      assert stops[m + 1].t <= stops[k].t;
      assert t == stops[k].t && m + 1 == k;
    }
    LerpBetween(stops[k].value, stops[k + 1].value, Normalize(stops[k].t, stops[k + 1].t, t));
  }

  /** Whatever t is, the size ramp stays within any bounds of its stops' sizes. */
  lemma SizeBounded(stops: seq<Stop<real>>, t: real, lo: real, hi: real)
    requires |stops| > 0 && Increasing(stops)
    requires forall i :: 0 <= i < |stops| ==> lo <= stops[i].value <= hi
    ensures lo <= SizeAt(stops, t) <= hi
  {
    match FirstSegment(stops, t, 0)
    case Some(k) =>
      assert lo <= stops[k].value <= hi && lo <= stops[k + 1].value <= hi;
      LerpBetween(stops[k].value, stops[k + 1].value, Normalize(stops[k].t, stops[k + 1].t, t));
    case None =>
  }
}
