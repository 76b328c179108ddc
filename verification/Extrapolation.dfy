/** rate, increase and delta over plain range selectors: the raw increase of the samples, extrapolated
    to the boundaries of the range.  Samples carry no start timestamps. */
module Extrapolation {
  import opened Basics
  import opened CounterIncrease

  function Seconds(ms: int): real {
    ms as real / 1000.0
  }

  /** Samples of a range selector: at least two, ascending, inside (start, end]. */
  ghost predicate InRange(f: seq<FPoint>, start: int, end: int) {
    Ascending(f) && |f| >= 2 && start < f[0].t && f[|f| - 1].t <= end
  }

  /** Difference of last and first sample, plus what was lost at each reset: this is the sum over
      neighbouring samples of the step up, or of the new value after a reset. */
  method RawIncrease(f: seq<FPoint>) returns (r: real)
    requires |f| > 0
    ensures r == Total(f, |f| - 1)
  {
    r := f[|f| - 1].f - f[0].f;
    for i := 0 to |f| - 1
      invariant r == Total(f, i) + f[|f| - 1].f - f[i].f
    {
      if f[i + 1].f < f[i].f {
        r := r + f[i].f;
      }
    }
  }

  function Average(sampled: real, n: int): real
    requires n > 0
  {
    sampled / n as real
  }

  /** How far to extrapolate beyond a boundary sample: up to the boundary if that is close enough,
      otherwise half the average distance between samples. */
  function Reach(toBoundary: real, average: real): real {
    if toBoundary >= average * 1.1 then average / 2.0 else toBoundary
  }

  /** Counters are not extrapolated back beyond the time they would have been zero. */
  function ReachBack(reach: real, sampled: real, raw: real, first: real): real {
    if raw > 0.0 && first >= 0.0 && sampled * (first / raw) < reach then sampled * (first / raw) else reach
  }

  datatype Extrapolated = Extrapolated(raw: real, sampled: real, back: real, forth: real)

  /** The raw increase and the spans it is extrapolated over. */
  ghost predicate IsExtrapolation(f: seq<FPoint>, start: int, end: int, isCounter: bool, x: Extrapolated)
    requires |f| >= 2
  {
    && x.raw == (if isCounter then Total(f, |f| - 1) else f[|f| - 1].f - f[0].f)
    && x.sampled == Seconds(f[|f| - 1].t - f[0].t)
    && x.back == (
      var reach := Reach(Seconds(f[0].t - start), Average(x.sampled, |f| - 1));
      if isCounter then ReachBack(reach, x.sampled, x.raw, f[0].f) else reach)
    && x.forth == Reach(Seconds(end - f[|f| - 1].t), Average(x.sampled, |f| - 1))
  }

  /** Besides, the span extrapolated to lies between the sampled span and the range, and the line
      through a counter that is never negative is not negative at its assumed start. */
  ghost predicate Bounded(f: seq<FPoint>, start: int, end: int, isCounter: bool, x: Extrapolated) {
    && |f| >= 2 && IsExtrapolation(f, start, end, isCounter, x) && x.sampled > 0.0
    && x.sampled <= x.sampled + x.back + x.forth <= Seconds(end - start)
    && (isCounter && NonNegative(f) ==> f[0].f - x.raw / x.sampled * x.back >= 0.0)
  }

  /** What the function returns, given the extrapolation of a range of that many seconds. */
  function RateOf(x: Extrapolated, isRate: bool, range: real): real
    requires x.sampled > 0.0 && range > 0.0
  {
    var factor := (x.sampled + x.back + x.forth) / x.sampled;
    x.raw * if isRate then factor / range else factor
  }

  method Extrapolate(f: seq<FPoint>, start: int, end: int, isCounter: bool) returns (x: Extrapolated)
    requires InRange(f, start, end)
    ensures IsExtrapolation(f, start, end, isCounter, x) && x.sampled > 0.0
  {
    var raw := f[|f| - 1].f - f[0].f;
    if isCounter {
      raw := RawIncrease(f);
    }
    var sampled := Seconds(f[|f| - 1].t - f[0].t);
    var average := Average(sampled, |f| - 1);
    var back := Reach(Seconds(f[0].t - start), average);
    if isCounter {
      back := ReachBack(back, sampled, raw, f[0].f);
    }
    x := Extrapolated(raw, sampled, back, Reach(Seconds(end - f[|f| - 1].t), average));
  }

  /** rate, increase or delta; nothing if there are fewer than two samples.  The span extrapolated to
      lies between the sampled span and the range, a counter that was never negative is not taken
      below zero at its assumed start, and its increase is at least the raw one. */
  method ExtrapolatedRate(f: seq<FPoint>, start: int, end: int, isCounter: bool, isRate: bool) returns (r: Option<real>)
    requires Ascending(f) && start < end && (|f| > 0 ==> start < f[0].t && f[|f| - 1].t <= end)
    ensures r.Some? <==> |f| >= 2
    ensures r.Some? ==> exists x :: Bounded(f, start, end, isCounter, x) && r.value == RateOf(x, isRate, Seconds(end - start))
    ensures r.Some? && isCounter && !isRate && NonNegative(f) ==> r.value >= Total(f, |f| - 1) >= 0.0
  {
    if |f| < 2 {
      return None;
    }
    var x := Extrapolate(f, start, end, isCounter);
    ExtrapolationBounded(f, start, end, isCounter, x);
    r := Some(RateOf(x, isRate, Seconds(end - start)));
    if isCounter && !isRate && NonNegative(f) {
      IncreaseAtLeastRaw(f, start, end, x);
    }
  }

  // ---------------------------------------------------------------- bounds

  lemma {:induction false} TotalNonNegative(f: seq<FPoint>, i: nat)
    requires NonNegative(f) && i < |f|
    ensures Total(f, i) >= 0.0
  {
    if i > 0 {
      TotalNonNegative(f, i - 1);
    }
  }

  lemma ReachBounds(toBoundary: real, sampled: real, n: int)
    requires toBoundary >= 0.0 && sampled > 0.0 && n > 0
    ensures 0.0 <= Reach(toBoundary, Average(sampled, n)) <= toBoundary
  {
    assert Average(sampled, n) > 0.0;
  }

  lemma ReachBackBounds(reach: real, sampled: real, raw: real, first: real)
    requires reach >= 0.0 && sampled > 0.0
    ensures 0.0 <= ReachBack(reach, sampled, raw, first) <= reach
  {
    if raw > 0.0 && first >= 0.0 {
      assert first / raw >= 0.0;
      assert sampled * (first / raw) >= 0.0;
    }
  }

  lemma FactorAtLeastOne(sampled: real, extra: real)
    requires sampled > 0.0 && extra >= 0.0
    ensures (sampled + extra) / sampled >= 1.0
  {}

  lemma Grows(x: real, factor: real)
    requires x >= 0.0 && factor >= 1.0
    ensures x * factor >= x
  {}

  /** The extrapolated span is at least the sampled span and at most the range. */
  lemma SpanBounds(f: seq<FPoint>, start: int, end: int, isCounter: bool, x: Extrapolated)
    requires InRange(f, start, end) && IsExtrapolation(f, start, end, isCounter, x)
    ensures x.back >= 0.0 && x.forth >= 0.0
    ensures x.sampled <= x.sampled + x.back + x.forth <= Seconds(end - start)
  {
    var n := |f| - 1;
    var toStart, toEnd := Seconds(f[0].t - start), Seconds(end - f[n].t);
    ReachBounds(toStart, x.sampled, n);
    ReachBounds(toEnd, x.sampled, n);
    ReachBackBounds(Reach(toStart, Average(x.sampled, n)), x.sampled, x.raw, f[0].f);
    assert toStart + x.sampled + toEnd == Seconds(end - start);
  }

  lemma LineAtStart(sampled: real, raw: real, first: real, back: real)
    requires sampled > 0.0 && raw > 0.0 && back <= sampled * (first / raw)
    ensures raw / sampled * back <= first
  {
    var slope := raw / sampled;
    assert slope > 0.0;
    assert slope * back <= slope * (sampled * (first / raw));
    assert slope * (sampled * (first / raw)) == first;
  }

  lemma BackToZero(reach: real, sampled: real, raw: real, first: real)
    requires raw > 0.0 && first >= 0.0
    ensures ReachBack(reach, sampled, raw, first) <= sampled * (first / raw)
  {}

  lemma FlatLine(sampled: real, back: real)
    requires sampled > 0.0
    ensures 0.0 / sampled * back == 0.0
  {}

  lemma LineNotNegative(reach: real, sampled: real, raw: real, first: real)
    requires sampled > 0.0 && raw >= 0.0 && first >= 0.0
    ensures first - raw / sampled * ReachBack(reach, sampled, raw, first) >= 0.0
  {
    var back := ReachBack(reach, sampled, raw, first);
    if raw > 0.0 {
      BackToZero(reach, sampled, raw, first);
      LineAtStart(sampled, raw, first, back);
    } else {
      FlatLine(sampled, back);
    }
  }

  /** A non-negative counter extrapolated back to the assumed start of the series is not negative. */
  lemma StartNotNegative(f: seq<FPoint>, start: int, end: int, x: Extrapolated)
    requires InRange(f, start, end) && NonNegative(f) && IsExtrapolation(f, start, end, true, x)
    ensures x.sampled > 0.0 && f[0].f - x.raw / x.sampled * x.back >= 0.0
  {
    TotalNonNegative(f, |f| - 1);
    LineNotNegative(Reach(Seconds(f[0].t - start), Average(x.sampled, |f| - 1)), x.sampled, x.raw, f[0].f);
  }

  lemma ExtrapolationBounded(f: seq<FPoint>, start: int, end: int, isCounter: bool, x: Extrapolated)
    requires InRange(f, start, end) && IsExtrapolation(f, start, end, isCounter, x)
    ensures Bounded(f, start, end, isCounter, x)
  {
    SpanBounds(f, start, end, isCounter, x);
    if isCounter && NonNegative(f) {
      StartNotNegative(f, start, end, x);
    }
  }

  /** The increase of a non-negative counter is at least its raw increase, which is not negative. */
  lemma IncreaseAtLeastRaw(f: seq<FPoint>, start: int, end: int, x: Extrapolated)
    requires InRange(f, start, end) && NonNegative(f) && IsExtrapolation(f, start, end, true, x) && x.sampled > 0.0
    ensures RateOf(x, false, Seconds(end - start)) >= Total(f, |f| - 1) >= 0.0
  {
    SpanBounds(f, start, end, true, x);
    TotalNonNegative(f, |f| - 1);
    FactorAtLeastOne(x.sampled, x.back + x.forth);
    Grows(x.raw, (x.sampled + x.back + x.forth) / x.sampled);
  }
}
