/** Smoothed and anchored increase of a counter: interpolation at the range boundaries plus a
    correction for counter resets.  The smoothed increase is proved to be the difference of one
    cumulative function of time, hence additive over adjacent ranges. */
module CounterIncrease {
  import opened Basics

  datatype FPoint = FPoint(t: int, f: real)

  ghost predicate Ascending(f: seq<FPoint>) {
    forall i, j :: 0 <= i < j < |f| ==> f[i].t < f[j].t
  }

  // ---------------------------------------------------------------- the code

  /** Linear interpolation; a counter that went down is taken to start from zero. */
  function Interpolate(p1: FPoint, p2: FPoint, t: int, isCounter: bool): real
    requires p1.t < p2.t
  {
    var y1 := if isCounter && p2.f < p1.f then 0.0 else p1.f;
    y1 + (p2.f - y1) * ((t - p1.t) as real) / ((p2.t - p1.t) as real)
  }

  function PickOrInterpolateLeft(f: seq<FPoint>, first: nat, start: int, smoothed: bool, isCounter: bool): real
    requires Ascending(f) && first < |f| && (smoothed && f[first].t < start ==> first + 1 < |f|)
  {
    if smoothed && f[first].t < start then Interpolate(f[first], f[first + 1], start, isCounter) else f[first].f
  }

  function PickOrInterpolateRight(f: seq<FPoint>, last: nat, end: int, smoothed: bool, isCounter: bool): real
    requires Ascending(f) && last < |f|
  {
    if smoothed && last > 0 && f[last].t > end then Interpolate(f[last - 1], f[last], end, isCounter) else f[last].f
  }

  /** The amounts lost at each step down from left through points to right. */
  function Corrections(left: real, points: seq<FPoint>, right: real): real
    decreases |points|
  {
    if |points| == 0 then if right < left then left else 0.0
    else (if points[0].f < left then left else 0.0) + Corrections(points[0].f, points[1..], right)
  }

  method CorrectForCounterResets(left: real, right: real, points: seq<FPoint>) returns (correction: real)
    ensures correction == Corrections(left, points, right)
  {
    correction := 0.0;
    var prev := left;
    for i := 0 to |points|
      invariant correction + Corrections(prev, points[i..], right) == Corrections(left, points, right)
    {
      if points[i].f < prev {
        correction := correction + prev;
      }
      assert points[i..][1..] == points[i + 1..];
      prev := points[i].f;
    }
    if right < prev {
      correction := correction + prev;
    }
  }

  /** Binary search as sort.Search does it: the least i below n with f[i].t > x, or n. */
  function SearchAfter(f: seq<FPoint>, n: nat, x: int): (i: nat)
    requires Ascending(f) && n <= |f|
    ensures i <= n && (forall j :: 0 <= j < i ==> f[j].t <= x) && (forall j :: i <= j < n ==> f[j].t > x)
  {
    if n == 0 then 0 else if f[n - 1].t > x then SearchAfter(f, n - 1, x) else n
  }

  lemma SearchOrder(f: seq<FPoint>, n: nat, x: int, y: int)
    requires Ascending(f) && n <= |f| && x <= y
    ensures SearchAfter(f, n, x) <= SearchAfter(f, n, y)
  {}

  datatype Window = Window(first: nat, last: nat)

  /** The samples that bound a range. */
  function RangeWindow(f: seq<FPoint>, start: int, end: int, smoothed: bool): (w: Window)
    requires Ascending(f) && |f| > 0 && start < end
    ensures w.first <= w.last < |f|
  {
    var after := SearchAfter(f, |f| - 1, start);
    var first := if after > 0 then after - 1 else 0;
    var reach := SearchAfter(f, |f| - 1, end - 1);
    assert after <= reach by { SearchOrder(f, |f| - 1, start, end - 1); }
    Window(first, if smoothed then reach else |f| - 1)
  }

  /** The increase over (start, end], or nothing if the samples do not cover any of it.  Every index
      used for interpolation and for slicing is in bounds for any non-empty sequence.  Inside the
      sampled time the smoothed increase of a counter is the difference of its cumulative increase. */
  method ExtendedIncrease(f: seq<FPoint>, start: int, end: int, smoothed: bool, isCounter: bool) returns (r: Option<real>)
    requires Ascending(f) && |f| > 0 && start < end
    ensures r == IncreaseOf(f, start, end, smoothed, isCounter)
    ensures smoothed && isCounter && Covered(f, start, end) ==>
            r == Some(CumulativeAt(f, end) - CumulativeAt(f, start))
  {
    r := ComputeIncrease(f, start, end, smoothed, isCounter);
    if smoothed && isCounter && Covered(f, start, end) {
      IncreaseIsDifference(f, start, end);
    }
  }

  method ComputeIncrease(f: seq<FPoint>, start: int, end: int, smoothed: bool, isCounter: bool) returns (r: Option<real>)
    requires Ascending(f) && |f| > 0 && start < end
    ensures r == IncreaseOf(f, start, end, smoothed, isCounter)
  {
    var w := RangeWindow(f, start, end, smoothed);
    var first, last := w.first, w.last;
    if f[last].t <= start || (smoothed && f[first].t > end) {
      return None;
    }
    var left := PickOrInterpolateLeft(f, first, start, smoothed, isCounter);
    var right := PickOrInterpolateRight(f, last, end, smoothed, isCounter);
    var result := right - left;
    if isCounter {
      var lo := if f[first].t <= start then first + 1 else first;
      var hi := if f[last].t >= end then last else last + 1;
      var correction := CorrectForCounterResets(left, right, f[lo..hi]);
      result := result + correction;
    }
    r := Some(result);
  }

  /** The value ExtendedIncrease computes. */
  function IncreaseOf(f: seq<FPoint>, start: int, end: int, smoothed: bool, isCounter: bool): Option<real>
    requires Ascending(f) && |f| > 0 && start < end
  {
    var Window(first, last) := RangeWindow(f, start, end, smoothed);
    if f[last].t <= start || (smoothed && f[first].t > end) then None
    else
      var left := PickOrInterpolateLeft(f, first, start, smoothed, isCounter);
      var right := PickOrInterpolateRight(f, last, end, smoothed, isCounter);
      if !isCounter then Some(right - left)
      else
        var lo := if f[first].t <= start then first + 1 else first;
        var hi := if f[last].t >= end then last else last + 1;
        Some(right - left + Corrections(left, f[lo..hi], right))
  }

  // ---------------------------------------------------------------- the reference definition

  /** Increase from one sample value to the next: after a reset the counter starts from zero. */
  function Rise(x: real, y: real): real {
    if y < x then y else y - x
  }

  /** Total increase from the first sample to sample i. */
  function Total(f: seq<FPoint>, i: nat): real
    requires i < |f|
  {
    if i == 0 then 0.0 else Total(f, i - 1) + Rise(f[i - 1].f, f[i].f)
  }

  function Fraction(p: FPoint, q: FPoint, t: int): real
    requires p.t < q.t
  {
    ((t - p.t) as real) / ((q.t - p.t) as real)
  }

  /** The part of a segment's increase gained by time t. */
  function Gain(p: FPoint, q: FPoint, t: int): real
    requires p.t < q.t
  {
    Rise(p.f, q.f) * Fraction(p, q, t)
  }

  /** Cumulative increase at time t, where sample i is the last at or before t: within a segment the
      counter rises linearly. */
  function Cumulative(f: seq<FPoint>, i: nat, t: int): real
    requires Ascending(f) && i < |f| && f[i].t <= t && (f[i].t < t ==> i + 1 < |f|)
  {
    if f[i].t == t then Total(f, i)
    else Total(f, i) + Gain(f[i], f[i + 1], t)
  }

  /** Index of the last sample at or before t. */
  function At(f: seq<FPoint>, t: int): (i: nat)
    requires Ascending(f) && |f| > 0 && f[0].t <= t <= f[|f| - 1].t
    ensures i < |f| && f[i].t <= t && (f[i].t < t ==> i + 1 < |f| && t < f[i + 1].t)
    ensures forall j :: 0 <= j < |f| && f[j].t <= t ==> j <= i
  {
    SearchAfter(f, |f|, t) - 1
  }

  function CumulativeAt(f: seq<FPoint>, t: int): real
    requires Ascending(f) && |f| > 0 && f[0].t <= t <= f[|f| - 1].t
  {
    Cumulative(f, At(f, t), t)
  }

  // ---------------------------------------------------------------- proofs

  /** The range lies inside the sampled time of a counter that is never negative. */
  ghost predicate Covered(f: seq<FPoint>, start: int, end: int) {
    NonNegative(f) && |f| > 0 && f[0].t <= start && end <= f[|f| - 1].t
  }

  ghost predicate NonNegative(f: seq<FPoint>) {
    forall i :: 0 <= i < |f| ==> f[i].f >= 0.0
  }

  /** Sum of the rises along left, points, right. */
  function RiseSum(left: real, points: seq<FPoint>, right: real): real
    decreases |points|
  {
    if |points| == 0 then Rise(left, right) else Rise(left, points[0].f) + RiseSum(points[0].f, points[1..], right)
  }

  /** Adding back what was lost at resets turns the difference into the sum of the rises. */
  lemma {:induction false} CorrectedDifference(left: real, points: seq<FPoint>, right: real)
    ensures right - left + Corrections(left, points, right) == RiseSum(left, points, right)
    decreases |points|
  {
    if |points| > 0 {
      CorrectedDifference(points[0].f, points[1..], right);
    }
  }

  lemma {:induction false} RisesBetweenSamples(f: seq<FPoint>, i: nat, j: nat, right: real)
    requires i < j <= |f|
    ensures RiseSum(f[i].f, f[i + 1..j], right) == Total(f, j - 1) - Total(f, i) + Rise(f[j - 1].f, right)
    decreases j - i
  {
    if i + 1 < j {
      assert f[i + 1..j][1..] == f[i + 2..j];
      RisesBetweenSamples(f, i + 1, j, right);
    }
  }

  /** Value of the counter at t inside the segment from p to q, as the boundary helpers compute it. */
  function SegmentValue(p: FPoint, q: FPoint, t: int): real
    requires p.t < q.t
  {
    if t == p.t then p.f else Interpolate(p, q, t, true)
  }

  lemma MulDiv(a: real, b: real, c: real)
    requires c != 0.0
    ensures a * b / c == a * (b / c)
  {}

  lemma FractionBounds(p: FPoint, q: FPoint, t: int)
    requires p.t < q.t && p.t <= t <= q.t
    ensures 0.0 <= Fraction(p, q, t) <= 1.0
    ensures t == p.t ==> Fraction(p, q, t) == 0.0
    ensures t == q.t ==> Fraction(p, q, t) == 1.0
  {}

  lemma FractionOrder(p: FPoint, q: FPoint, s: int, t: int)
    requires p.t < q.t && s <= t
    ensures Fraction(p, q, s) <= Fraction(p, q, t)
  {}

  lemma Scale(y: real, a: real, b: real)
    requires y >= 0.0 && a <= b
    ensures y * a <= y * b
  {}

  lemma InterpolateByGain(p: FPoint, q: FPoint, t: int)
    requires p.t < q.t
    ensures Interpolate(p, q, t, true) == (if q.f < p.f then 0.0 else p.f) + Gain(p, q, t)
  {
    var y1 := if q.f < p.f then 0.0 else p.f;
    MulDiv(q.f - y1, (t - p.t) as real, (q.t - p.t) as real);
  }

  lemma GainAtEnds(p: FPoint, q: FPoint)
    requires p.t < q.t
    ensures Gain(p, q, p.t) == 0.0 && Gain(p, q, q.t) == Rise(p.f, q.f)
  {
    FractionBounds(p, q, p.t);
    FractionBounds(p, q, q.t);
  }

  lemma GainOrder(p: FPoint, q: FPoint, s: int, t: int)
    requires p.t < q.t && s <= t && Rise(p.f, q.f) >= 0.0
    ensures Gain(p, q, s) <= Gain(p, q, t)
  {
    FractionOrder(p, q, s, t);
    Scale(Rise(p.f, q.f), Fraction(p, q, s), Fraction(p, q, t));
  }

  /** Without a reset the segment's value is the first sample plus the gain. */
  lemma ValueWithoutReset(p: FPoint, q: FPoint, t: int)
    requires p.t < q.t && p.f <= q.f
    ensures SegmentValue(p, q, t) == p.f + Gain(p, q, t)
  {
    InterpolateByGain(p, q, t);
    GainAtEnds(p, q);
  }

  /** After a reset it is the gain alone, and below the value before the reset. */
  lemma ValueAfterReset(p: FPoint, q: FPoint, t: int)
    requires p.t < q.t && p.t < t <= q.t && 0.0 <= q.f < p.f
    ensures SegmentValue(p, q, t) == Gain(p, q, t) < p.f
  {
    InterpolateByGain(p, q, t);
    GainAtEnds(p, q);
    GainOrder(p, q, t, q.t);
  }

  /** Within one segment the rise from s to t is the proportional part of the segment's rise,
      whether or not the counter was reset in it. */
  lemma RiseInSegment(p: FPoint, q: FPoint, s: int, t: int)
    requires p.t < q.t && p.t <= s < t <= q.t && p.f >= 0.0 && q.f >= 0.0
    ensures Rise(SegmentValue(p, q, s), SegmentValue(p, q, t)) == Gain(p, q, t) - Gain(p, q, s)
  {
    GainOrder(p, q, s, t);
    if p.f <= q.f {
      ValueWithoutReset(p, q, s);
      ValueWithoutReset(p, q, t);
    } else {
      ValueAfterReset(p, q, t);
      if s == p.t {
        GainAtEnds(p, q);
      } else {
        ValueAfterReset(p, q, s);
      }
    }
  }

  lemma InterpolateEnd(p: FPoint, q: FPoint)
    requires p.t < q.t
    ensures Interpolate(p, q, q.t, true) == q.f
  {
    InterpolateByGain(p, q, q.t);
    GainAtEnds(p, q);
  }

  /** The window of a smoothed range: the last sample at or before its start and the first at or
      after its end. */
  lemma SmoothedWindow(f: seq<FPoint>, a: int, b: int)
    requires Ascending(f) && |f| > 0 && f[0].t <= a < b <= f[|f| - 1].t
    ensures
      var w := RangeWindow(f, a, b, true);
      && w.first == At(f, a) && w.first < w.last && f[w.last].t >= b && f[w.last - 1].t < b
      && At(f, b) == if f[w.last].t == b then w.last else w.last - 1
  {
    var after, reach := SearchAfter(f, |f| - 1, a), SearchAfter(f, |f| - 1, b - 1);
    assert f[after].t > a && f[reach].t >= b;
    assert reach > 0 && f[reach - 1].t < b;
    assert At(f, a) == after - 1;
  }

  lemma CumulativeFromSegment(f: seq<FPoint>, i: nat, t: int)
    requires Ascending(f) && i + 1 < |f| && f[i].t <= t <= f[i + 1].t
    ensures CumulativeAt(f, t) == Total(f, i) + Gain(f[i], f[i + 1], t)
  {
    FractionBounds(f[i], f[i + 1], t);
    var k := At(f, t);
    if t == f[i + 1].t {
      assert k == i + 1;
    } else {
      assert k == i;
    }
  }

  lemma LeftValue(f: seq<FPoint>, i: nat, a: int)
    requires Ascending(f) && i + 1 < |f| && f[i].t <= a < f[i + 1].t
    ensures PickOrInterpolateLeft(f, i, a, true, true) == SegmentValue(f[i], f[i + 1], a)
  {}

  lemma RightValue(f: seq<FPoint>, j: nat, b: int)
    requires Ascending(f) && 0 < j < |f| && f[j - 1].t < b <= f[j].t
    ensures PickOrInterpolateRight(f, j, b, true, true) == SegmentValue(f[j - 1], f[j], b)
  {
    InterpolateEnd(f[j - 1], f[j]);
  }

  /** What remains to be gained from time a on in its segment. */
  lemma RiseToNext(p: FPoint, q: FPoint, a: int)
    requires p.t < q.t && p.t <= a < q.t && p.f >= 0.0 && q.f >= 0.0
    ensures Rise(SegmentValue(p, q, a), q.f) == Rise(p.f, q.f) - Gain(p, q, a)
  {
    RiseInSegment(p, q, a, q.t);
    InterpolateEnd(p, q);
    GainAtEnds(p, q);
  }

  lemma RiseFromPrevious(p: FPoint, q: FPoint, b: int)
    requires p.t < q.t && p.t < b <= q.t && p.f >= 0.0 && q.f >= 0.0
    ensures Rise(p.f, SegmentValue(p, q, b)) == Gain(p, q, b)
  {
    RiseInSegment(p, q, p.t, b);
    GainAtEnds(p, q);
  }

  /** Rises along a range that starts in segment i and ends in segment j - 1, in terms of what the
      boundaries contribute. */
  lemma RisesAcrossRange(f: seq<FPoint>, i: nat, j: nat, left: real, right: real, atStart: real, atEnd: real)
    requires i < j < |f|
    requires j == i + 1 ==> Rise(left, right) == atEnd - atStart
    requires j > i + 1 ==> Rise(left, f[i + 1].f) == Total(f, i + 1) - atStart
    requires j > i + 1 ==> Rise(f[j - 1].f, right) == atEnd - Total(f, j - 1)
    ensures RiseSum(left, f[i + 1..j], right) == atEnd - atStart
  {
    if j > i + 1 {
      assert f[i + 1..j][1..] == f[i + 2..j];
      RisesBetweenSamples(f, i + 1, j, right);
    }
  }

  /** The same with the contributions of the two boundary segments. */
  lemma RangeRises(f: seq<FPoint>, i: nat, j: nat, a: int, b: int)
    requires Ascending(f) && NonNegative(f) && i < j < |f| && a < b
    requires f[i].t <= a < f[i + 1].t && f[j - 1].t < b <= f[j].t
    ensures RiseSum(SegmentValue(f[i], f[i + 1], a), f[i + 1..j], SegmentValue(f[j - 1], f[j], b)) ==
            Total(f, j - 1) + Gain(f[j - 1], f[j], b) - (Total(f, i) + Gain(f[i], f[i + 1], a))
  {
    if j == i + 1 {
      RiseInSegment(f[i], f[j], a, b);
    } else {
      RiseToNext(f[i], f[i + 1], a);
      RiseFromPrevious(f[j - 1], f[j], b);
    }
    RisesAcrossRange(f, i, j, SegmentValue(f[i], f[i + 1], a), SegmentValue(f[j - 1], f[j], b),
                     Total(f, i) + Gain(f[i], f[i + 1], a), Total(f, j - 1) + Gain(f[j - 1], f[j], b));
  }

  /** The smoothed increase of a non-negative counter over a range inside the sampled time is the
      difference of its cumulative increase, whatever resets fall inside, at or across the
      boundaries. */
  lemma IncreaseIsDifference(f: seq<FPoint>, a: int, b: int)
    requires Ascending(f) && NonNegative(f) && |f| > 0 && f[0].t <= a < b <= f[|f| - 1].t
    ensures IncreaseOf(f, a, b, true, true) == Some(CumulativeAt(f, b) - CumulativeAt(f, a))
  {
    SmoothedWindow(f, a, b);
    var Window(i, j) := RangeWindow(f, a, b, true);
    var left := PickOrInterpolateLeft(f, i, a, true, true);
    var right := PickOrInterpolateRight(f, j, b, true, true);
    CorrectedDifference(left, f[i + 1..j], right);
    LeftValue(f, i, a);
    RightValue(f, j, b);
    RangeRises(f, i, j, a, b);
    CumulativeFromSegment(f, i, a);
    CumulativeFromSegment(f, j - 1, b);
  }

  /** Increases over adjacent ranges add up. */
  lemma IncreaseIsAdditive(f: seq<FPoint>, a: int, b: int, c: int)
    requires Ascending(f) && NonNegative(f) && |f| > 0 && f[0].t <= a < b < c <= f[|f| - 1].t
    ensures
      var ab, bc, ac := IncreaseOf(f, a, b, true, true), IncreaseOf(f, b, c, true, true), IncreaseOf(f, a, c, true, true);
      ab.Some? && bc.Some? && ac.Some? && ab.value + bc.value == ac.value
  {
    IncreaseIsDifference(f, a, b);
    IncreaseIsDifference(f, b, c);
    IncreaseIsDifference(f, a, c);
  }
}
