/** Series, instant vectors and the consuming cursors with which range evaluation reads them. */
module Series {
  import opened Basics
  import opened Grid

  type Labels = string

  /** Sample values: only the distinction between NaN and numbers matters to ordering. */
  datatype Float = NaN | Num(v: real)

  /** A native histogram is opaque here. */
  type Histogram = nat

  datatype Value = FloatValue(f: Float) | HistogramValue(h: Histogram)

  datatype Series = Series(metric: Labels, floats: seq<Point<Float>>, histograms: seq<Point<Histogram>>)

  type Matrix = seq<Series>

  datatype Sample = Sample(metric: Labels, value: Value)

  type Vector = seq<Sample>

  // ---------------------------------------------------------------- points

  ghost predicate Ascending<T>(ps: seq<Point<T>>) {
    forall i, j :: 0 <= i < j < |ps| ==> ps[i].t < ps[j].t
  }

  ghost predicate OnGrid<T>(ps: seq<Point<T>>, g: Steps)
    requires g.Valid()
  {
    forall i :: 0 <= i < |ps| ==> g.Has(ps[i].t)
  }

  function Lookup<T>(ps: seq<Point<T>>, t: int): (r: Option<T>)
    ensures r.Some? <==> exists i :: 0 <= i < |ps| && ps[i].t == t
  {
    if |ps| == 0 then None else if ps[0].t == t then Some(ps[0].v) else Lookup(ps[1..], t)
  }

  /** The points after t, given that points ascend. */
  function Later<T>(ps: seq<Point<T>>, t: int): seq<Point<T>> {
    if |ps| > 0 && ps[0].t <= t then Later(ps[1..], t) else ps
  }

  /** Reading the head of the remaining points is looking up the whole sequence, provided nothing
      was left unread between the previous time and this one. */
  lemma {:induction false} HeadIsLookup<T>(ps: seq<Point<T>>, prev: int, t: int)
    requires Ascending(ps) && prev < t
    requires forall i :: 0 <= i < |ps| ==> !(prev < ps[i].t < t)
    ensures
      var rest := Later(ps, prev);
      var hit := |rest| > 0 && rest[0].t == t;
      && Lookup(ps, t) == (if hit then Some(rest[0].v) else None)
      && Later(ps, t) == (if hit then rest[1..] else rest)
  {
    if |ps| > 0 && ps[0].t <= prev {
      HeadIsLookup(ps[1..], prev, t);
    }
  }

  lemma {:induction false} LookupAppend<T>(ps: seq<Point<T>>, p: Point<T>, t: int)
    requires forall i :: 0 <= i < |ps| ==> ps[i].t < p.t
    ensures Lookup(ps + [p], t) == if t == p.t then Some(p.v) else Lookup(ps, t)
  {
    if |ps| == 0 {
    } else {
      assert (ps + [p])[1..] == ps[1..] + [p];
      LookupAppend(ps[1..], p, t);
    }
  }

  lemma {:induction false} LaterAll<T>(ps: seq<Point<T>>, t: int)
    requires forall i :: 0 <= i < |ps| ==> ps[i].t > t
    ensures Later(ps, t) == ps
  {}

  // ---------------------------------------------------------------- series

  ghost predicate ValidSeries(s: Series, g: Steps)
    requires g.Valid()
  {
    && Ascending(s.floats) && Ascending(s.histograms)
    && OnGrid(s.floats, g) && OnGrid(s.histograms, g)
    && forall i, j :: 0 <= i < |s.floats| && 0 <= j < |s.histograms| ==> s.floats[i].t != s.histograms[j].t
  }

  /** The value of a series at time t. */
  function ValueAt(s: Series, t: int): Option<Value> {
    match Lookup(s.floats, t)
    case Some(f) => Some(FloatValue(f))
    case None =>
      match Lookup(s.histograms, t)
      case Some(h) => Some(HistogramValue(h))
      case None => None
  }

  lemma {:induction false} LookupIff<T>(ps: seq<Point<T>>, t: int, v: T)
    requires Ascending(ps)
    ensures Lookup(ps, t) == Some(v) <==> Point(t, v) in ps
  {
    if |ps| > 0 && ps[0].t != t {
      LookupIff(ps[1..], t, v);
      assert ps == [ps[0]] + ps[1..];
    }
  }

  /** A series has a value at a time iff the value is stored for that time among the points of its kind. */
  lemma ValueAtIff(s: Series, g: Steps, t: int, v: Value)
    requires g.Valid() && ValidSeries(s, g)
    ensures ValueAt(s, t) == Some(v) <==>
      match v
      case FloatValue(f) => Point(t, f) in s.floats
      case HistogramValue(h) => Point(t, h) in s.histograms
  {
    match v
    case FloatValue(f) =>
      LookupIff(s.floats, t, f);
    case HistogramValue(h) =>
      LookupIff(s.histograms, t, h);
  }

  /** What a cursor over s has left once everything up to t is consumed. */
  function Remaining(s: Series, t: int): Series {
    Series(s.metric, Later(s.floats, t), Later(s.histograms, t))
  }

  /** One read through a cursor: the value at t if the cursor stands on it, and the moved cursor. */
  function NextValue(cursor: Series, t: int): (Option<Value>, Series) {
    if |cursor.floats| > 0 && cursor.floats[0].t == t then
      (Some(FloatValue(cursor.floats[0].v)), cursor.(floats := cursor.floats[1..]))
    else if |cursor.histograms| > 0 && cursor.histograms[0].t == t then
      (Some(HistogramValue(cursor.histograms[0].v)), cursor.(histograms := cursor.histograms[1..]))
    else
      (None, cursor)
  }

  /** Nothing lies strictly between neighbouring steps of a grid. */
  lemma NoStepBetween(g: Steps, k: int, t: int)
    requires g.Valid() && g.Has(t)
    ensures !(g.At(k - 1) < t < g.At(k))
  {
    var j := HasAt(g, t);
    PreviousStep(g, k);
    if j < k {
      if j < k - 1 { MulOrder(j, k - 1, g.step); }
    } else if j > k {
      MulOrder(k, j, g.step);
    }
  }

  lemma CursorRead(s: Series, prev: int, t: int)
    requires prev < t && Ascending(s.floats) && Ascending(s.histograms)
    requires forall i :: 0 <= i < |s.floats| ==> !(prev < s.floats[i].t < t)
    requires forall i :: 0 <= i < |s.histograms| ==> !(prev < s.histograms[i].t < t)
    requires Lookup(s.floats, t).None? || Lookup(s.histograms, t).None?
    ensures NextValue(Remaining(s, prev), t) == (ValueAt(s, t), Remaining(s, t))
  {
    HeadIsLookup(s.floats, prev, t);
    HeadIsLookup(s.histograms, prev, t);
  }

  /** A cursor that has consumed everything up to the previous step delivers exactly the value of
      the series at this step, and afterwards has consumed everything up to this step. */
  lemma CursorStep(s: Series, g: Steps, k: int)
    requires g.Valid() && ValidSeries(s, g)
    ensures NextValue(Remaining(s, g.At(k - 1)), g.At(k)) == (ValueAt(s, g.At(k)), Remaining(s, g.At(k)))
  {
    forall i | 0 <= i < |s.floats| ensures !(g.At(k - 1) < s.floats[i].t < g.At(k)) {
      NoStepBetween(g, k, s.floats[i].t);
    }
    forall i | 0 <= i < |s.histograms| ensures !(g.At(k - 1) < s.histograms[i].t < g.At(k)) {
      NoStepBetween(g, k, s.histograms[i].t);
    }
    PreviousStep(g, k);
    CursorRead(s, g.At(k - 1), g.At(k));
  }

  lemma PreviousStep(g: Steps, k: int)
    requires g.Valid()
    ensures g.At(k - 1) == g.At(k) - g.step
  {
    assert (k - 1) * g.step == k * g.step - g.step;
  }

  /** Before the first step a fresh series is a cursor that has consumed nothing. */
  lemma FreshCursor(s: Series, g: Steps)
    requires g.Valid() && ValidSeries(s, g)
    ensures Remaining(s, g.At(-1)) == s
  {
    LaterAll(s.floats, g.At(-1));
    LaterAll(s.histograms, g.At(-1));
  }

  // ---------------------------------------------------------------- columns

  /** The instant vector of a matrix at time t: the samples of the first n series that have one. */
  function ColumnUpTo(m: Matrix, t: int, n: nat): Vector
    requires n <= |m|
  {
    if n == 0 then []
    else
      var before := ColumnUpTo(m, t, n - 1);
      match ValueAt(m[n - 1], t)
      case Some(v) => before + [Sample(m[n - 1].metric, v)]
      case None => before
  }

  lemma ColumnStep(m: Matrix, t: int, n: nat, v: Option<Value>)
    requires n < |m| && v == ValueAt(m[n], t)
    ensures ColumnUpTo(m, t, n + 1) == if v.Some? then ColumnUpTo(m, t, n) + [Sample(m[n].metric, v.value)] else ColumnUpTo(m, t, n)
  {}

  function Column(m: Matrix, t: int): Vector {
    ColumnUpTo(m, t, |m|)
  }

  lemma {:induction false} InColumn(m: Matrix, t: int, n: nat, x: Sample)
    requires n <= |m|
    ensures x in ColumnUpTo(m, t, n) <==>
            exists i :: 0 <= i < n && m[i].metric == x.metric && ValueAt(m[i], t) == Some(x.value)
  {
    if n > 0 {
      InColumn(m, t, n - 1, x);
    }
  }

  ghost predicate ValidMatrix(m: Matrix, g: Steps)
    requires g.Valid()
  {
    forall i :: 0 <= i < |m| ==> ValidSeries(m[i], g)
  }

  ghost predicate UniqueMetrics(v: Vector) {
    forall i, j :: 0 <= i < j < |v| ==> v[i].metric != v[j].metric
  }

  ghost predicate UniqueSeries(m: Matrix) {
    forall i, j :: 0 <= i < j < |m| ==> m[i].metric != m[j].metric
  }

  /** Equality of instant vectors up to order. */
  ghost predicate SameVector(a: Vector, b: Vector) {
    UniqueMetrics(a) && UniqueMetrics(b) && forall x :: x in a <==> x in b
  }

  lemma {:induction false} UniqueColumn(m: Matrix, t: int, n: nat)
    requires n <= |m| && UniqueSeries(m)
    ensures UniqueMetrics(ColumnUpTo(m, t, n))
    ensures forall x :: x in ColumnUpTo(m, t, n) ==> exists i :: 0 <= i < n && m[i].metric == x.metric
  {
    if n > 0 {
      UniqueColumn(m, t, n - 1);
    }
  }
}
