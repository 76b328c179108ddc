/** What the increase over a range is in every mode: between the values at the ends of the range, as far as
    there are samples, for smoothed selectors; between samples for anchored ones; and the extrapolated
    one in terms of the times of the samples alone. */
module IncreaseLaws {
  import opened Basics
  import opened CounterIncrease
  import opened Extrapolation

  // ---------------------------------------------------------------- smoothed, beyond the samples

  lemma LeadingRepeat(x: real, p: FPoint, points: seq<FPoint>, right: real)
    requires p.f == x
    ensures Corrections(x, [p] + points, right) == Corrections(x, points, right)
  {
    assert ([p] + points)[1..] == points;
  }

  lemma {:induction false} TrailingRepeat(left: real, points: seq<FPoint>, p: FPoint)
    ensures Corrections(left, points + [p], p.f) == Corrections(left, points, p.f)
    decreases |points|
  {
    if |points| == 0 {
      assert points + [p] == [p] && [p][1..] == [];
    } else {
      assert (points + [p])[1..] == points[1..] + [p];
      TrailingRepeat(points[0].f, points[1..], p);
    }
  }

  /** A range that begins before the first sample counts from the first sample on. */
  lemma FromFirstSample(f: seq<FPoint>, start: int, end: int, isCounter: bool)
    requires Ascending(f) && |f| >= 2 && start < f[0].t < end
    ensures IncreaseOf(f, start, end, true, isCounter) == IncreaseOf(f, f[0].t, end, true, isCounter)
  {
    var last := RangeWindow(f, start, end, true).last;
    assert RangeWindow(f, start, end, true) == RangeWindow(f, f[0].t, end, true) == Window(0, last);
    var hi := if f[last].t >= end then last else last + 1;
    assert hi > 0 && f[0..hi] == [f[0]] + f[1..hi];
    LeadingRepeat(f[0].f, f[0], f[1..hi], PickOrInterpolateRight(f, last, end, true, isCounter));
  }

  /** A range that ends after the last sample counts up to the last sample. */
  lemma UpToLastSample(f: seq<FPoint>, start: int, end: int, isCounter: bool)
    requires Ascending(f) && |f| >= 2 && f[0].t <= start < f[|f| - 1].t < end
    ensures IncreaseOf(f, start, end, true, isCounter) == IncreaseOf(f, start, f[|f| - 1].t, true, isCounter)
  {
    var n := |f| - 1;
    var first := RangeWindow(f, start, end, true).first;
    assert RangeWindow(f, start, end, true) == RangeWindow(f, start, f[n].t, true) == Window(first, n);
    assert f[first].t <= start && first < n;
    assert f[first + 1..n + 1] == f[first + 1..n] + [f[n]];
    TrailingRepeat(PickOrInterpolateLeft(f, first, start, true, isCounter), f[first + 1..n], f[n]);
  }

  /** Where the range and the sampled time overlap. */
  ghost function OverlapStart(f: seq<FPoint>, start: int): int
    requires |f| > 0
  {
    if start < f[0].t then f[0].t else start
  }

  ghost function OverlapEnd(f: seq<FPoint>, end: int): int
    requires |f| > 0
  {
    if f[|f| - 1].t < end then f[|f| - 1].t else end
  }

  /** There is an increase unless all samples are at or before the start, or all are after the end. */
  lemma SmoothedCovers(f: seq<FPoint>, start: int, end: int, isCounter: bool)
    requires Ascending(f) && |f| > 0 && start < end
    ensures IncreaseOf(f, start, end, true, isCounter).None? <==> f[|f| - 1].t <= start || f[0].t > end
  {
    var w := RangeWindow(f, start, end, true);
    var n := |f| - 1;
    assert w.last < n ==> f[w.last].t >= end;
    assert w.first > 0 ==> f[w.first].t <= start;
  }

  lemma Nothing(f: seq<FPoint>, start: int, end: int, isCounter: bool)
    requires Ascending(f) && |f| > 0 && start < f[0].t <= end && (|f| == 1 || end == f[0].t)
    ensures IncreaseOf(f, start, end, true, isCounter) == Some(0.0)
  {
    assert RangeWindow(f, start, end, true) == Window(0, 0);
    var points: seq<FPoint> := if f[0].t < end then f[0..1] else f[0..0];
    var none: seq<FPoint> := [];
    if f[0].t < end {
      assert points == [f[0]] + none;
      LeadingRepeat(f[0].f, f[0], none, f[0].f);
    }
    assert Corrections(f[0].f, points, f[0].f) == 0.0;
  }

  /** To the overlap of the range with the sampled time. */
  lemma IncreaseOfOverlap(f: seq<FPoint>, start: int, end: int, isCounter: bool)
    requires Ascending(f) && |f| > 0 && start < end && f[0].t <= end && start < f[|f| - 1].t
    ensures OverlapStart(f, start) <= OverlapEnd(f, end)
    ensures
      var a, b := OverlapStart(f, start), OverlapEnd(f, end);
      IncreaseOf(f, start, end, true, isCounter) ==
      if a == b then Some(0.0) else IncreaseOf(f, a, b, true, isCounter)
  {
    var a := OverlapStart(f, start);
    if |f| == 1 || end == f[0].t {
      Nothing(f, start, end, isCounter);
    } else {
      assert f[0].t < f[|f| - 1].t;
      if start < f[0].t {
        FromFirstSample(f, start, end, isCounter);
      }
      if f[|f| - 1].t < end {
        UpToLastSample(f, a, end, isCounter);
      }
    }
  }

  /** The smoothed increase of a counter is that of its cumulative increase over the overlap. */
  lemma SmoothedCounter(f: seq<FPoint>, start: int, end: int)
    requires Ascending(f) && NonNegative(f) && |f| > 0 && start < end && f[0].t <= end && start < f[|f| - 1].t
    ensures OverlapStart(f, start) <= OverlapEnd(f, end)
    ensures IncreaseOf(f, start, end, true, true) ==
      Some(CumulativeAt(f, OverlapEnd(f, end)) - CumulativeAt(f, OverlapStart(f, start)))
  {
    IncreaseOfOverlap(f, start, end, true);
    if OverlapStart(f, start) < OverlapEnd(f, end) {
      IncreaseIsDifference(f, OverlapStart(f, start), OverlapEnd(f, end));
    }
  }

  // ---------------------------------------------------------------- smoothed gauges

  /** The point (t, v) is on the line between two neighbouring samples. */
  ghost predicate Between(p: FPoint, q: FPoint, t: int, v: real) {
    p.t <= t <= q.t && (v - p.f) * ((q.t - p.t) as real) == (q.f - p.f) * ((t - p.t) as real)
  }

  ghost predicate OnLine(f: seq<FPoint>, t: int, v: real) {
    exists i :: 0 <= i < |f| - 1 && Between(f[i], f[i + 1], t, v)
  }

  lemma InterpolateBetween(p: FPoint, q: FPoint, t: int)
    requires p.t <= t <= q.t && p.t < q.t
    ensures Between(p, q, t, Interpolate(p, q, t, false))
  {
    var y, d, w := (q.f - p.f), (t - p.t) as real, (q.t - p.t) as real;
    assert y * d / w * w == y * d;
  }

  lemma GaugeWithin(f: seq<FPoint>, a: int, b: int) returns (x: real, y: real)
    requires Ascending(f) && |f| > 0 && f[0].t <= a < b <= f[|f| - 1].t
    ensures IncreaseOf(f, a, b, true, false) == Some(y - x) && OnLine(f, a, x) && OnLine(f, b, y)
  {
    SmoothedWindow(f, a, b);
    var Window(i, j) := RangeWindow(f, a, b, true);
    x := PickOrInterpolateLeft(f, i, a, true, false);
    y := PickOrInterpolateRight(f, j, b, true, false);
    AfterAt(f, a);
    LeftBetween(f, i, a);
    RightBetween(f, j - 1, b);
  }

  lemma LeftBetween(f: seq<FPoint>, i: nat, a: int)
    requires Ascending(f) && i + 1 < |f| && f[i].t <= a < f[i + 1].t
    ensures OnLine(f, a, PickOrInterpolateLeft(f, i, a, true, false))
  {
    var x := PickOrInterpolateLeft(f, i, a, true, false);
    InterpolateBetween(f[i], f[i + 1], a);
    assert Between(f[i], f[i + 1], a, x);
  }

  lemma RightBetween(f: seq<FPoint>, i: nat, b: int)
    requires Ascending(f) && i + 1 < |f| && f[i].t < b <= f[i + 1].t
    ensures OnLine(f, b, PickOrInterpolateRight(f, i + 1, b, true, false))
  {
    var y := PickOrInterpolateRight(f, i + 1, b, true, false);
    InterpolateBetween(f[i], f[i + 1], b);
    assert Between(f[i], f[i + 1], b, y);
  }

  lemma AfterAt(f: seq<FPoint>, a: int)
    requires Ascending(f) && |f| > 0 && f[0].t <= a < f[|f| - 1].t
    ensures
      var i := At(f, a);
      i + 1 < |f| && f[i].t <= a < f[i + 1].t
  {
    var i := At(f, a);
    assert i + 1 < |f| && f[i + 1].t <= a ==> i + 1 <= i;
  }

  /** The smoothed increase of a gauge is the difference of its values, on the lines between the samples,
      at the ends of the overlap. */
  lemma SmoothedGauge(f: seq<FPoint>, start: int, end: int) returns (x: real, y: real)
    requires Ascending(f) && |f| >= 2 && start < end && f[0].t <= end && start < f[|f| - 1].t
    ensures IncreaseOf(f, start, end, true, false) == Some(y - x)
    ensures OnLine(f, OverlapStart(f, start), x) && OnLine(f, OverlapEnd(f, end), y)
  {
    IncreaseOfOverlap(f, start, end, false);
    if OverlapStart(f, start) < OverlapEnd(f, end) {
      x, y := GaugeWithin(f, OverlapStart(f, start), OverlapEnd(f, end));
    } else {
      x, y := f[0].f, f[0].f;
      assert f[0].t < f[|f| - 1].t;
      assert OverlapStart(f, start) == f[0].t == OverlapEnd(f, end);
      assert Between(f[0], f[1], f[0].t, x);
    }
  }

  // ---------------------------------------------------------------- anchored

  /** The sample that an anchored range starts from: the last one at or before its start, or the first. */
  ghost predicate Anchors(f: seq<FPoint>, start: int, i: nat) {
    i < |f| && (f[i].t <= start || i == 0) && (i + 1 < |f| ==> f[i + 1].t > start)
  }

  lemma RisesFrom(f: seq<FPoint>, i: nat, lo: nat, hi: nat)
    requires Ascending(f) && i < |f| && (lo == i || lo == i + 1) && lo <= hi
    requires hi == |f| || (hi == |f| - 1 && i < hi)
    ensures RiseSum(f[i].f, f[lo..hi], f[|f| - 1].f) == Total(f, |f| - 1) - Total(f, i)
  {
    var n := |f| - 1;
    if lo == i && i < hi {
      assert f[i..hi][1..] == f[i + 1..hi] && f[i..hi][0] == f[i];
    }
    if i + 1 <= hi {
      RisesBetweenSamples(f, i, hi, f[n].f);
    }
  }

  /** The anchored increase is that from the anchoring sample to the last one: the difference of the two for
      a gauge, the sum of the rises between for a counter. */
  lemma Anchored(f: seq<FPoint>, start: int, end: int, isCounter: bool, i: nat)
    requires Ascending(f) && |f| > 0 && start < end && Anchors(f, start, i)
    ensures
      var n := |f| - 1;
      IncreaseOf(f, start, end, false, isCounter) ==
        if f[n].t <= start then None
        else Some(if isCounter then Total(f, n) - Total(f, i) else f[n].f - f[i].f)
  {
    var n := |f| - 1;
    var w := RangeWindow(f, start, end, false);
    if f[n].t > start {
      assert w == Window(i, n);
      if isCounter {
        var lo := if f[i].t <= start then i + 1 else i;
        var hi := if f[n].t >= end then n else n + 1;
        if i < hi {
          RisesFrom(f, i, lo, hi);
        }
        CorrectedDifference(f[i].f, f[lo..hi], f[n].f);
      }
    }
  }

  // ---------------------------------------------------------------- extrapolated

  /** A stretch of that many milliseconds to a boundary, in seconds: the whole of it if it is shorter than
      1.1 times the average distance of the n + 1 samples, otherwise half that distance. */
  ghost predicate Reaches(reach: real, toBoundary: int, sampled: int, n: int) {
    if 10 * toBoundary * n >= 11 * sampled then reach * (2000 * n) as real == sampled as real
    else reach * 1000.0 == toBoundary as real
  }

  lemma ReachIs(toBoundary: int, sampled: int, n: int)
    requires n > 0
    ensures Reaches(Reach(Seconds(toBoundary), Average(Seconds(sampled), n)), toBoundary, sampled, n)
  {
    var a := Average(Seconds(sampled), n);
    assert a * n as real == sampled as real / 1000.0;
    ReachThreshold(toBoundary as real, sampled as real, n as real, a);
    assert (10 * toBoundary * n) as real == 10.0 * toBoundary as real * n as real;
    assert (2000 * n) as real == 2000.0 * n as real;
    HalfOf(a, n as real, sampled as real);
  }

  lemma ReachThreshold(b: real, s: real, n: real, a: real)
    requires n > 0.0 && a * n == s / 1000.0
    ensures b / 1000.0 >= a * 1.1 <==> 10.0 * b * n >= 11.0 * s
  {
    var x, y := b / 1000.0, a * 1.1;
    assert y * n == 1.1 * (a * n);
    TimesPositive(x, y, n);
    assert x * n * 10_000.0 == 10.0 * b * n;
  }

  lemma TimesPositive(x: real, y: real, n: real)
    requires n > 0.0
    ensures x >= y <==> x * n >= y * n
  {
  }

  lemma HalfOf(a: real, n: real, s: real)
    requires a * n == s / 1000.0
    ensures a / 2.0 * (2000.0 * n) == s
  {
    assert a / 2.0 * (2000.0 * n) == 1000.0 * (a * n);
  }

  /** The part of an extrapolation before the first sample, given how far it may reach: a counter with a
      first value that is not negative is not taken back beyond the time at which its line reaches zero. */
  ghost predicate ReachesBack(x: Extrapolated, reach: real, isCounter: bool, first: real) {
    if isCounter && x.raw > 0.0 && first >= 0.0 && x.sampled * first < reach * x.raw
    then x.back * x.raw == x.sampled * first
    else x.back == reach
  }

  lemma ReachBackIs(x: Extrapolated, reach: real, isCounter: bool, first: real)
    requires x.back == if isCounter then ReachBack(reach, x.sampled, x.raw, first) else reach
    ensures ReachesBack(x, reach, isCounter, first)
  {
    if isCounter && x.raw > 0.0 {
      BackIs(x.sampled, first, x.raw, reach);
    }
  }

  /** The extrapolation in terms of the samples. */
  lemma ExtrapolationIs(f: seq<FPoint>, start: int, end: int, isCounter: bool, x: Extrapolated) returns (reach: real)
    requires InRange(f, start, end) && IsExtrapolation(f, start, end, isCounter, x)
    ensures
      var n := |f| - 1;
      var sampled := f[n].t - f[0].t;
      && x.sampled * 1000.0 == sampled as real
      && x.raw == (if isCounter then Total(f, n) else f[n].f - f[0].f)
      && Reaches(x.forth, end - f[n].t, sampled, n) && Reaches(reach, f[0].t - start, sampled, n)
      && ReachesBack(x, reach, isCounter, f[0].f)
  {
    var n := |f| - 1;
    reach := Reach(Seconds(f[0].t - start), Average(x.sampled, n));
    ReachIs(end - f[n].t, f[n].t - f[0].t, n);
    ReachIs(f[0].t - start, f[n].t - f[0].t, n);
    ReachBackIs(x, reach, isCounter, f[0].f);
  }

  lemma BackIs(sampled: real, first: real, raw: real, reach: real)
    requires raw > 0.0
    ensures
      var back := sampled * (first / raw);
      back * raw == sampled * first && (back < reach <==> sampled * first < reach * raw)
  {
    var back := sampled * (first / raw);
    assert first / raw * raw == first;
    assert back * raw == sampled * (first / raw * raw);
    TimesPositive(back, reach, raw);
  }

  /** The increase is the raw one scaled from the sampled span to the extrapolated one, and the rate is that
      per second. */
  lemma RateIs(x: Extrapolated, range: real)
    requires x.sampled > 0.0 && range > 0.0
    ensures RateOf(x, false, range) * x.sampled == x.raw * (x.sampled + x.back + x.forth)
    ensures RateOf(x, true, range) * range == RateOf(x, false, range)
  {
    var whole := x.sampled + x.back + x.forth;
    var factor := whole / x.sampled;
    assert factor * x.sampled == whole;
    assert x.raw * factor * x.sampled == x.raw * (factor * x.sampled);
    assert factor / range * range == factor;
    assert x.raw * (factor / range) * range == x.raw * (factor / range * range);
  }
}
