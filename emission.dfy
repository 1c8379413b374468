/** The emission accumulator of the fire particle: a fractional buffer of
    elapsed time from which each call emits the whole particles it has
    accumulated at the emission rate. */
module Emission {
  import opened Arith

  /** What one call leaves behind: the number of particles it emits and
      the new value of the buffer. */
  datatype Step = Step(count: int, buffer: real)

  /** One call of the accumulator: add the elapsed time, take the whole
      number of particles the buffer is worth at `rate`, and subtract the
      time those particles used. The buffer keeps less than one particle's
      worth of time, and no time is lost. */
  function Accumulate(buffer: real, dt: real, rate: real): (s: Step)
    requires rate > 0.0
    ensures s.count as real / rate + s.buffer == buffer + dt
    ensures 0.0 <= s.buffer < 1.0 / rate
    ensures buffer + dt >= 0.0 ==> s.count >= 0
  {
    var b := buffer + dt;
    var n := (b * rate).Floor;
    StepFacts(b, rate, n);
    Step(n, b - n as real / rate)
  }

  lemma StepFacts(b: real, rate: real, n: int)
    requires rate > 0.0 && n == (b * rate).Floor
    ensures n as real / rate <= b < (n as real + 1.0) / rate
    ensures b >= 0.0 ==> n >= 0
  {
    var w := b * rate;
    assert n as real <= w < n as real + 1.0;
    assert b == w / rate;
    DivideMonotone(n as real, w, rate);
    DivideStrict(w, n as real + 1.0, rate);
    if b >= 0.0 {
      assert w >= 0.0;
    }
  }

  function Sum(xs: seq<real>): real {
    if xs == [] then 0.0 else xs[0] + Sum(xs[1..])
  }

  /** The same accumulator measured in particles instead of seconds: the
      buffer's worth w = buffer * rate and the elapsed time's worth
      dw = dt * rate. */
  datatype Tally = Tally(count: int, worth: real)

  function StepWorth(w: real, dw: real): (s: Tally)
    ensures s.count as real + s.worth == w + dw
    ensures 0.0 <= s.worth < 1.0
  {
    var n := (w + dw).Floor;
    Tally(n, w + dw - n as real)
  }

  /** Successive calls, in particles: the number of particles they emit
      in all and the worth left in the buffer. A call whose count is
      negative (a negative elapsed time) emits nothing, as the emission
      loop does not run. */
  function RunWorth(w: real, dws: seq<real>): (t: Tally)
    ensures t.count >= 0
    ensures dws != [] ==> 0.0 <= t.worth < 1.0
    decreases |dws|
  {
    if dws == [] then Tally(0, w)
    else
      var first := StepWorth(w, dws[0]);
      var emitted := if first.count > 0 then first.count else 0;
      var rest := RunWorth(first.worth, dws[1..]);
      Tally(emitted + rest.count, rest.worth)
  }

  /** With non-negative elapsed times, a run measured in particles emits
      floor(w + total) in all and keeps less than one particle's worth,
      whatever the split into calls. */
  lemma {:induction false} RunWorthTotal(w: real, dws: seq<real>)
    requires 0.0 <= w < 1.0
    requires forall i :: 0 <= i < |dws| ==> dws[i] >= 0.0
    ensures RunWorth(w, dws).count == (w + Sum(dws)).Floor
    ensures RunWorth(w, dws).count as real + RunWorth(w, dws).worth == w + Sum(dws)
    ensures 0.0 <= RunWorth(w, dws).worth < 1.0
    decreases |dws|
  {
    if dws != [] {
      var first := StepWorth(w, dws[0]);
      assert first.count >= 0;
      assert forall i :: 0 <= i < |dws[1..]| ==> dws[1..][i] >= 0.0;
      RunWorthTotal(first.worth, dws[1..]);
    }
  }

  /** One call of `Accumulate` is one `StepWorth` on the worths. */
  lemma AccumulateInWorth(buffer: real, dt: real, rate: real)
    requires rate > 0.0
    ensures var s, t := Accumulate(buffer, dt, rate), StepWorth(buffer * rate, dt * rate);
            s.count == t.count && s.buffer * rate == t.worth
  {
    var b := buffer + dt;
    var n := (b * rate).Floor;
    assert b * rate == buffer * rate + dt * rate;
    assert (b - n as real / rate) * rate == b * rate - (n as real / rate) * rate;
    assert (n as real / rate) * rate == n as real;
  }

  /** From an empty buffer and with non-negative elapsed times, the total
      emitted depends only on the total worth of the elapsed time, not on
      how it is split into calls. */
  lemma SplitIrrelevant(dws1: seq<real>, dws2: seq<real>)
    requires forall i :: 0 <= i < |dws1| ==> dws1[i] >= 0.0
    requires forall i :: 0 <= i < |dws2| ==> dws2[i] >= 0.0
    requires Sum(dws1) == Sum(dws2)
    ensures RunWorth(0.0, dws1).count == RunWorth(0.0, dws2).count
  {
    RunWorthTotal(0.0, dws1);
    RunWorthTotal(0.0, dws2);
  }

  /** Why the run lemmas need non-negative steps: a step of -1.5 emits
      nothing yet lowers the worth, so it and a step of 2.0 emit 2 in all,
      while a single step of the same total worth 0.5 emits none. */
  lemma NegativeStepBreaksTotal()
    ensures RunWorth(0.0, [-1.5, 2.0]).count == 2
    ensures RunWorth(0.0, [0.5]).count == 0
  {
    assert StepWorth(0.0, -1.5) == Tally(-2, 0.5);
    assert StepWorth(0.5, 2.0) == Tally(2, 0.5);
    assert [-1.5, 2.0][1..] == [2.0];
  }
}
