/** Evaluation grids of the PromQL evaluator and the arithmetic that derives the grid of a
    subquery from the grid of the query around it.  All times are milliseconds. */
module Grid {
  import opened Basics

  /** The steps `start`, `start + step`, ... that do not exceed `end`. */
  datatype Steps = Steps(start: int, end: int, step: int) {
    predicate Valid() {
      step > 0
    }

    /** Number of steps: the evaluator produces nothing when `end` precedes `start`. */
    function Count(): (n: nat)
      requires Valid()
      ensures n == 0 <==> end < start
    {
      if end < start then 0 else (end - start) / step + 1
    }

    function At(k: int): int {
      start + k * step
    }

    /** `t` is one of the steps. */
    predicate Has(t: int)
      requires Valid()
    {
      start <= t <= end && (t - start) % step == 0
    }
  }

  /** Go's integer division, which truncates toward zero. */
  function TruncDiv(a: int, b: int): int
    requires b > 0
  {
    if a >= 0 then a / b else -((-a) / b)
  }

  /** The grid of a child evaluator that runs a subquery for a whole parent grid. */
  function SubqueryTimeRange(parent: Steps, offset: int, range: int, interval: int): Steps
    requires parent.Valid() && interval > 0
  {
    var parentEnd := parent.start + TruncDiv(parent.end - parent.start, parent.step) * parent.step;
    var bound := parent.start - offset - range;
    var first := interval * TruncDiv(bound, interval);
    Steps(if first <= bound then first + interval else first, parentEnd - offset, interval)
  }

  /** The time that a selector or subquery refers to when evaluated at t. */
  function Reference(at: Option<int>, t: int): int {
    if at.Some? then at.value else t
  }

  /** The offset at which the first step of a grid refers to the @ timestamp, if there is one. */
  function EffectiveOffset(at: Option<int>, offset: int, start: int): int {
    if at.Some? then offset + (start - at.value) else offset
  }

  /** The offset that the pass before evaluation stores in a node.  With an @ timestamp it is less than the
      effective one by the offsets of the subqueries between the node and the place where the pass began:
      the drift. */
  function StoredOffset(at: Option<int>, offset: int, start: int, drift: int): int {
    EffectiveOffset(at, offset, start) - if at.Some? then drift else 0
  }

  /** The grid that a subquery is run on when its parent is evaluated over g.  An @ timestamp moves the
      start; the grid is still as long as the parent's. */
  function ChildGrid(g: Steps, at: Option<int>, offset: int, range: int, interval: int, drift: int): Steps
    requires g.Valid() && interval > 0
  {
    SubqueryTimeRange(g, StoredOffset(at, offset, g.start, drift), range, interval)
  }

  /** The drift below a subquery.  The pass is repeated for the child grid, unless that starts where the
      parent's starts. */
  function ChildDrift(g: Steps, at: Option<int>, offset: int, child: Steps, drift: int): int {
    if child.start != g.start then 0
    else if at.Some? then EffectiveOffset(at, offset, g.start)
    else drift + offset
  }

  /** The grid of a step-invariant expression: the first step only. */
  function Once(g: Steps): Steps {
    Steps(g.start, g.start, g.step)
  }

  lemma MulAtLeast(a: int, d: int)
    requires a >= 1 && d > 0
    ensures a * d >= d
  {}

  lemma DivModUnique(a: int, d: int, q: int, r: int)
    requires d > 0 && a == q * d + r && 0 <= r < d
    ensures a / d == q && a % d == r
  {
    var q', r' := a / d, a % d;
    assert a == q' * d + r';
    assert (q - q') * d == q * d - q' * d == r' - r;
    if q > q' {
      MulAtLeast(q - q', d);
    } else if q < q' {
      MulAtLeast(q' - q, d);
    }
  }

  lemma MulOrder(a: int, b: int, d: int)
    requires a < b && d > 0
    ensures a * d + d <= b * d
  {
    MulAtLeast(b - a, d);
  }

  /** Counting steps is division with remainder: step k lies in the grid iff k is in range. */
  lemma AtHas(g: Steps, k: int)
    requires g.Valid()
    ensures 0 <= k < g.Count() <==> g.Has(g.At(k))
  {
    DivModUnique(k * g.step, g.step, k, 0);
    var last := (g.end - g.start) / g.step;
    assert g.end - g.start == last * g.step + (g.end - g.start) % g.step;
    if k < 0 {
      MulOrder(k, 0, g.step);
    } else if last < k {
      MulOrder(last, k, g.step);
    } else if k < last {
      MulOrder(k, last, g.step);
    }
  }

  lemma HasAt(g: Steps, t: int) returns (k: int)
    requires g.Valid() && g.Has(t)
    ensures 0 <= k < g.Count() && g.At(k) == t
  {
    k := (t - g.start) / g.step;
    AtHas(g, k);
  }

  /** The child grid starts at the least multiple of its step after the start of the first window. */
  lemma SubqueryStart(parent: Steps, offset: int, range: int, interval: int)
    requires parent.Valid() && interval > 0
    ensures
      var s := SubqueryTimeRange(parent, offset, range, interval).start;
      var bound := parent.start - offset - range;
      s % interval == 0 && s - interval <= bound < s
  {
    var bound := parent.start - offset - range;
    var q := TruncDiv(bound, interval);
    DivModUnique(interval * q, interval, q, 0);
    DivModUnique(interval * q + interval, interval, q + 1, 0);
  }

  lemma MultipleGap(a: int, b: int, d: int)
    requires d > 0 && a % d == 0
    ensures (b - a) % d == 0 <==> b % d == 0
  {
    var qa, qb := a / d, b / d;
    DivModUnique(b - a, d, qb - qa, b % d);
  }

  /** The parent's last aligned step bounds every parent step. */
  lemma ParentEnd(parent: Steps, t: int)
    requires parent.Valid() && parent.Has(t)
    ensures
      var e := parent.start + TruncDiv(parent.end - parent.start, parent.step) * parent.step;
      t <= e <= parent.end
  {
    var k := HasAt(parent, t);
    var last := (parent.end - parent.start) / parent.step;
    if k < last {
      MulOrder(k, last, parent.step);
    }
  }

  /** What a subquery yields inside the window of a parent step does not depend on where the
      parent query starts or ends: it is exactly the multiples of the subquery step. */
  lemma SubqueryWindow(parent: Steps, offset: int, range: int, interval: int, t: int, u: int)
    requires parent.Valid() && interval > 0
    requires parent.Has(t) && t - offset - range < u <= t - offset
    ensures SubqueryTimeRange(parent, offset, range, interval).Has(u) <==> u % interval == 0
  {
    var child := SubqueryTimeRange(parent, offset, range, interval);
    SubqueryStart(parent, offset, range, interval);
    ParentEnd(parent, t);
    MultipleGap(child.start, u, interval);
    if u % interval == 0 && u < child.start {
      // two multiples of interval less than one interval apart
      MultipleGap(u, child.start, interval);
      var d := child.start - u;
      assert 0 < d < interval;
      DivModUnique(d, interval, 0, d);
    }
  }

  /** The steps of a window, listed: the k-th multiple of `interval` after `lo`. */
  function WindowStart(lo: int, interval: int): (s: int)
    requires interval > 0
    ensures s % interval == 0 && s - interval <= lo < s
  {
    DivModUnique((lo / interval + 1) * interval, interval, lo / interval + 1, 0);
    (lo / interval + 1) * interval
  }
}
