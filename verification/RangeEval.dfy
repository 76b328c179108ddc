/** Range evaluation: one pass over all steps that reads its inputs through consuming cursors and
    assembles the per-step results into series.  It is proved to be the pointwise family of the
    instant evaluations. */
module RangeEval {
  import opened Basics
  import opened Grid
  import opened Series

  /** Result of a range evaluation; the error is a repeated label set within one step. */
  datatype Result = DuplicateLabelset | Ok(matrix: Matrix)

  /** The input vectors of a step. */
  function Columns(ms: seq<Matrix>, t: int): seq<Vector> {
    seq(|ms|, i requires 0 <= i < |ms| => Column(ms[i], t))
  }

  function RemainingMatrix(m: Matrix, t: int): Matrix {
    seq(|m|, i requires 0 <= i < |m| => Remaining(m[i], t))
  }

  /** Each cursor stands where reading it at time t yields the value of its series at t. */
  ghost predicate InStep(source: Matrix, input: Matrix, t: int) {
    |input| == |source| && forall j {:trigger CursorInStep(source[j], input[j], t)} :: 0 <= j < |source| ==> CursorInStep(source[j], input[j], t)
  }

  ghost predicate CursorInStep(source: Series, input: Series, t: int) {
    input.metric == source.metric && NextValue(input, t) == (ValueAt(source, t), Remaining(source, t))
  }

  lemma CursorsInStep(source: Matrix, g: Steps, i: int)
    requires g.Valid() && ValidMatrix(source, g)
    ensures InStep(source, RemainingMatrix(source, g.At(i - 1)), g.At(i))
  {
    forall j | 0 <= j < |source| ensures CursorInStep(source[j], RemainingMatrix(source, g.At(i - 1))[j], g.At(i)) {
      CursorStep(source[j], g, i);
    }
  }

  /** Reads a cursor at time t and moves it on. */
  method ReadCursor(input: Series, t: int, ghost source: Series) returns (value: Option<Value>, cursor: Series)
    requires CursorInStep(source, input, t)
    ensures value == ValueAt(source, t) && cursor == Remaining(source, t) && input.metric == source.metric
  {
    var next := NextValue(input, t);
    value, cursor := next.0, next.1;
  }

  /** The first cursors, moved past time t. */
  ghost predicate Moved(source: Matrix, t: int, rest: Matrix) {
    |rest| <= |source| && forall j :: 0 <= j < |rest| ==> rest[j] == Remaining(source[j], t)
  }

  lemma MovedOne(source: Matrix, t: int, rest: Matrix, cursor: Series)
    requires Moved(source, t, rest) && |rest| < |source| && cursor == Remaining(source[|rest|], t)
    ensures Moved(source, t, rest + [cursor])
  {}

  lemma MovedAll(source: Matrix, t: int, rest: Matrix)
    requires Moved(source, t, rest) && |rest| == |source|
    ensures rest == RemainingMatrix(source, t)
  {}

  /** Gathers the vector at time t and advances the cursors. */
  method GatherVector(t: int, input: Matrix, ghost source: Matrix) returns (output: Vector, rest: Matrix)
    requires InStep(source, input, t)
    ensures output == Column(source, t) && rest == RemainingMatrix(source, t)
  {
    output, rest := [], [];
    for i := 0 to |input|
      invariant output == ColumnUpTo(source, t, i)
      invariant |rest| == i && Moved(source, t, rest)
    {
      var value, cursor := ReadCursor(input[i], t, source[i]);
      ColumnStep(source, t, i, value);
      if value.Some? {
        output := output + [Sample(input[i].metric, value.value)];
      }
      MovedOne(source, t, rest, cursor);
      rest := rest + [cursor];
    }
    MovedAll(source, t, rest);
  }

  ghost predicate AllInStep(sources: seq<Matrix>, inputs: seq<Matrix>, t: int) {
    |inputs| == |sources| && forall i :: 0 <= i < |sources| ==> InStep(sources[i], inputs[i], t)
  }

  /** Gathers one vector per argument. */
  method GatherAll(t: int, inputs: seq<Matrix>, ghost sources: seq<Matrix>) returns (outputs: seq<Vector>, rests: seq<Matrix>)
    requires AllInStep(sources, inputs, t)
    ensures outputs == Columns(sources, t)
    ensures |rests| == |sources| && forall i :: 0 <= i < |sources| ==> rests[i] == RemainingMatrix(sources[i], t)
  {
    outputs, rests := [], [];
    for i := 0 to |inputs|
      invariant |outputs| == |rests| == i
      invariant forall j :: 0 <= j < i ==> outputs[j] == Column(sources[j], t)
      invariant forall j :: 0 <= j < i ==> rests[j] == RemainingMatrix(sources[j], t)
    {
      var output, rest := GatherVector(t, inputs[i], sources[i]);
      outputs, rests := outputs + [output], rests + [rest];
    }
  }

  // ---------------------------------------------------------------- assembling the output

  /** An output series together with the last step it was written at. */
  datatype Pending = Pending(series: Series, ts: int)

  function AddToSeries(s: Series, t: int, v: Value): Series {
    match v
    case FloatValue(f) => s.(floats := s.floats + [Point(t, f)])
    case HistogramValue(h) => s.(histograms := s.histograms + [Point(t, h)])
  }

  ghost predicate PointsBefore(s: Series, g: Steps, t: int)
    requires g.Valid()
  {
    && ValidSeries(s, g)
    && (forall i :: 0 <= i < |s.floats| ==> s.floats[i].t < t)
    && (forall i :: 0 <= i < |s.histograms| ==> s.histograms[i].t < t)
  }

  lemma AddedValue(s: Series, g: Steps, t: int, v: Value)
    requires g.Valid() && PointsBefore(s, g, t) && g.Has(t)
    ensures PointsBefore(AddToSeries(s, t, v), g, t + 1)
    ensures ValueAt(AddToSeries(s, t, v), t) == Some(v)
    ensures forall u :: u != t ==> ValueAt(AddToSeries(s, t, v), u) == ValueAt(s, u)
  {
    forall u ensures ValueAt(AddToSeries(s, t, v), u) == if u == t then Some(v) else ValueAt(s, u) {
      match v
      case FloatValue(f) => LookupAppend(s.floats, Point(t, f), u);
      case HistogramValue(h) => LookupAppend(s.histograms, Point(t, h), u);
    }
  }

  function OutputAt(out: map<Labels, Pending>, m: Labels, t: int): Option<Value> {
    if m in out then ValueAt(out[m].series, t) else None
  }

  /** Series under construction: everything written so far lies before `now`. */
  ghost predicate Assembling(out: map<Labels, Pending>, g: Steps, now: int)
    requires g.Valid()
  {
    forall m :: m in out ==> out[m].series.metric == m && PointsBefore(out[m].series, g, now) && out[m].ts < now
  }

  /** The output holds, at time t, exactly the samples of v. */
  ghost predicate Holds(out: map<Labels, Pending>, t: int, v: Vector) {
    forall m, x :: OutputAt(out, m, t) == Some(x) <==> Sample(m, x) in v
  }

  ghost predicate UnwrittenBefore(now: map<Labels, Pending>, g: Steps, t: int)
    requires g.Valid()
  {
    forall m :: m in now && now[m].ts != t ==> PointsBefore(now[m].series, g, t)
  }

  ghost predicate Mentions(part: Vector, m: Labels) {
    exists j :: 0 <= j < |part| && part[j].metric == m
  }

  /** The series stamped with t are those of the samples added so far. */
  ghost predicate Stamped(now: map<Labels, Pending>, t: int, part: Vector) {
    forall m :: m in now && now[m].ts == t <==> Mentions(part, m)
  }

  ghost predicate SameElsewhere(out: map<Labels, Pending>, now: map<Labels, Pending>, t: int) {
    forall m, u :: u != t ==> OutputAt(now, m, u) == OutputAt(out, m, u)
  }

  /** The first part of a step's result has been added to `out`, giving `now`. */
  ghost predicate PartlyAdded(out: map<Labels, Pending>, now: map<Labels, Pending>, g: Steps, t: int, part: Vector)
    requires g.Valid()
  {
    && Assembling(now, g, t + 1) && UniqueMetrics(part) && Holds(now, t, part)
    && UnwrittenBefore(now, g, t) && Stamped(now, t, part) && SameElsewhere(out, now, t)
  }

  function Base(now: map<Labels, Pending>, s: Sample): Series {
    if s.metric in now then now[s.metric].series else Series(s.metric, [], [])
  }

  function Extended(now: map<Labels, Pending>, t: int, s: Sample): map<Labels, Pending> {
    now[s.metric := Pending(AddToSeries(Base(now, s), t, s.value), t)]
  }

  lemma StampedStep(now: map<Labels, Pending>, t: int, part: Vector, s: Sample)
    requires Stamped(now, t, part) && !(s.metric in now && now[s.metric].ts == t) && UniqueMetrics(part)
    ensures Stamped(Extended(now, t, s), t, part + [s]) && UniqueMetrics(part + [s])
  {
    var longer := part + [s];
    forall m ensures Mentions(longer, m) <==> Mentions(part, m) || m == s.metric {
      assert longer[|part|].metric == s.metric;
      if Mentions(part, m) {
        var j :| 0 <= j < |part| && part[j].metric == m;
        assert longer[j].metric == m;
      }
    }
    assert !Mentions(part, s.metric);
  }

  lemma BaseBefore(now: map<Labels, Pending>, g: Steps, t: int, s: Sample)
    requires g.Valid() && UnwrittenBefore(now, g, t) && !(s.metric in now && now[s.metric].ts == t)
    ensures PointsBefore(Base(now, s), g, t)
  {}

  lemma AddedAssembles(now: map<Labels, Pending>, g: Steps, t: int, s: Sample)
    requires g.Valid() && g.Has(t) && Assembling(now, g, t + 1) && UnwrittenBefore(now, g, t) && PointsBefore(Base(now, s), g, t)
    ensures Assembling(Extended(now, t, s), g, t + 1) && UnwrittenBefore(Extended(now, t, s), g, t)
  {
    AddedValue(Base(now, s), g, t, s.value);
  }

  lemma AddedOutput(now: map<Labels, Pending>, g: Steps, t: int, s: Sample)
    requires g.Valid() && g.Has(t) && PointsBefore(Base(now, s), g, t)
    ensures OutputAt(now, s.metric, t).None? && OutputAt(Extended(now, t, s), s.metric, t) == Some(s.value)
    ensures forall m, u :: m != s.metric || u != t ==> OutputAt(Extended(now, t, s), m, u) == OutputAt(now, m, u)
  {
    AddedValue(Base(now, s), g, t, s.value);
    NoValueYet(Base(now, s), g, t);
  }

  lemma NoValueYet(s: Series, g: Steps, t: int)
    requires g.Valid() && PointsBefore(s, g, t)
    ensures ValueAt(s, t).None?
  {}

  lemma AddOne(out: map<Labels, Pending>, now: map<Labels, Pending>, g: Steps, t: int, part: Vector, s: Sample)
    requires g.Valid() && g.Has(t) && PartlyAdded(out, now, g, t, part)
    requires !(s.metric in now && now[s.metric].ts == t)
    ensures PartlyAdded(out, Extended(now, t, s), g, t, part + [s])
  {
    BaseBefore(now, g, t, s);
    AddedAssembles(now, g, t, s);
    AddedOutput(now, g, t, s);
    StampedStep(now, t, part, s);
    HoldsStep(now, Extended(now, t, s), t, part, s);
  }

  lemma NothingAdded(out: map<Labels, Pending>, g: Steps, t: int)
    requires g.Valid() && Assembling(out, g, t)
    ensures PartlyAdded(out, out, g, t, [])
  {
    assert forall m :: m in out ==> ValueAt(out[m].series, t).None?;
  }

  /** Whether a label set has occurred before can be seen from the stamps. */
  lemma StampMeansRepeated(out: map<Labels, Pending>, now: map<Labels, Pending>, g: Steps, t: int, part: Vector, s: Sample)
    requires g.Valid() && PartlyAdded(out, now, g, t, part)
    ensures s.metric in now && now[s.metric].ts == t <==> !UniqueMetrics(part + [s])
  {
    var all := part + [s];
    if Mentions(part, s.metric) {
      var j :| 0 <= j < |part| && part[j].metric == s.metric;
      assert all[j].metric == all[|part|].metric;
    }
  }

  lemma UniquePrefix(v: Vector, n: nat)
    requires n <= |v| && !UniqueMetrics(v[..n])
    ensures !UniqueMetrics(v)
  {
    var i, j :| 0 <= i < j < n && v[..n][i].metric == v[..n][j].metric;
    assert v[i].metric == v[j].metric;
  }

  /** Adds one sample, unless its label set has occurred at this step. */
  method AddSample(g: Steps, t: int, s: Sample, now: map<Labels, Pending>, ghost out: map<Labels, Pending>, ghost part: Vector)
    returns (ok: bool, next: map<Labels, Pending>)
    requires g.Valid() && g.Has(t) && PartlyAdded(out, now, g, t, part)
    ensures ok <==> UniqueMetrics(part + [s])
    ensures ok ==> PartlyAdded(out, next, g, t, part + [s])
  {
    StampMeansRepeated(out, now, g, t, part, s);
    if s.metric in now && now[s.metric].ts == t {
      return false, now;
    }
    AddOne(out, now, g, t, part, s);
    return true, Extended(now, t, s);
  }

  /** Adds the result of one step; fails exactly on a repeated label set. */
  method AddStep(g: Steps, t: int, result: Vector, out: map<Labels, Pending>) returns (ok: bool, out': map<Labels, Pending>)
    requires g.Valid() && g.Has(t) && Assembling(out, g, t)
    ensures ok <==> UniqueMetrics(result)
    ensures ok ==> PartlyAdded(out, out', g, t, result)
  {
    out' := out;
    NothingAdded(out, g, t);
    ghost var part: Vector := [];
    for i := 0 to |result|
      invariant part == result[..i] && PartlyAdded(out, out', g, t, part)
    {
      assert result[..i + 1] == part + [result[i]];
      ok, out' := AddSample(g, t, result[i], out', out, part);
      if !ok {
        UniquePrefix(result, i + 1);
        return;
      }
      part := part + [result[i]];
    }
    ok := true;
    assert part == result;
  }

  lemma HoldsStep(before: map<Labels, Pending>, after: map<Labels, Pending>, t: int, v: Vector, s: Sample)
    requires Holds(before, t, v) && OutputAt(before, s.metric, t).None?
    requires OutputAt(after, s.metric, t) == Some(s.value)
    requires forall m :: m != s.metric ==> OutputAt(after, m, t) == OutputAt(before, m, t)
    ensures Holds(after, t, v + [s])
  {
    forall m, x ensures OutputAt(after, m, t) == Some(x) <==> Sample(m, x) in v + [s] {
      if m == s.metric {
        assert Sample(m, x) !in v;
      }
    }
  }

  /** Lists the assembled series in some order. */
  method Collect(out: map<Labels, Pending>) returns (mat: Matrix)
    requires forall m :: m in out ==> out[m].series.metric == m
    ensures UniqueSeries(mat)
    ensures forall s :: s in mat <==> s.metric in out && out[s.metric].series == s
  {
    mat := [];
    var todo := out.Keys;
    while todo != {}
      invariant todo <= out.Keys && UniqueSeries(mat)
      invariant forall s :: s in mat <==> s.metric in out && s.metric !in todo && out[s.metric].series == s
      decreases |todo|
    {
      var m :| m in todo;
      mat := mat + [out[m].series];
      todo := todo - {m};
    }
  }

  lemma CollectedColumn(out: map<Labels, Pending>, mat: Matrix, t: int, v: Vector)
    requires forall m :: m in out ==> out[m].series.metric == m
    requires UniqueSeries(mat) && forall s :: s in mat <==> s.metric in out && out[s.metric].series == s
    requires Holds(out, t, v) && UniqueMetrics(v)
    ensures SameVector(Column(mat, t), v)
  {
    UniqueColumn(mat, t, |mat|);
    forall x ensures x in Column(mat, t) <==> x in v {
      InColumn(mat, t, |mat|, x);
      assert OutputAt(out, x.metric, t) == Some(x.value) <==> Sample(x.metric, x.value) in v;
      if x in Column(mat, t) {
        var i :| 0 <= i < |mat| && mat[i].metric == x.metric && ValueAt(mat[i], t) == Some(x.value);
        assert mat[i] in mat;
      }
      if x in v {
        assert out[x.metric].series in mat;
      }
    }
  }

  /** The single-step result keeps the order of the vector. */
  function InstantMatrix(t: int, v: Vector): Matrix {
    seq(|v|, i requires 0 <= i < |v| => AddToSeries(Series(v[i].metric, [], []), t, v[i].value))
  }

  lemma {:induction false} InstantColumn(t: int, v: Vector, n: nat)
    requires n <= |v|
    ensures ColumnUpTo(InstantMatrix(t, v), t, n) == v[..n]
  {
    if n > 0 {
      InstantColumn(t, v, n - 1);
      var s := InstantMatrix(t, v)[n - 1];
      assert ValueAt(s, t) == Some(v[n - 1].value);
    }
  }

  // ---------------------------------------------------------------- the range evaluation

  /** The result of f at step k on the input columns of that step. */
  function StepResult(f: (int, seq<Vector>) -> Vector, ms: seq<Matrix>, g: Steps, k: int): Vector {
    f(g.At(k), Columns(ms, g.At(k)))
  }

  /** The result of a range evaluation is the pointwise family of the instant results: the column at
      each step is f applied to the input columns at that time. */
  ghost predicate Pointwise(f: (int, seq<Vector>) -> Vector, ms: seq<Matrix>, g: Steps, mat: Matrix)
    requires g.Valid()
  {
    && UniqueSeries(mat)
    && (forall k :: 0 <= k < g.Count() ==> SameVector(Column(mat, g.At(k)), StepResult(f, ms, g, k)))
    && (g.start == g.end ==> Column(mat, g.start) == StepResult(f, ms, g, 0))
  }

  /** Steps below k have been evaluated and assembled. */
  ghost predicate Evaluated(f: (int, seq<Vector>) -> Vector, ms: seq<Matrix>, g: Steps, k: nat, out: map<Labels, Pending>)
    requires g.Valid()
  {
    && Assembling(out, g, g.At(k))
    && (forall j :: 0 <= j < k ==> UniqueMetrics(StepResult(f, ms, g, j)) && Holds(out, g.At(j), StepResult(f, ms, g, j)))
  }

  /** The cursors have consumed everything before step k and nothing else. */
  ghost predicate Consumed(ms: seq<Matrix>, cursors: seq<Matrix>, g: Steps, k: nat) {
    |cursors| == |ms| && forall i :: 0 <= i < |ms| ==> cursors[i] == RemainingMatrix(ms[i], g.At(k - 1))
  }

  lemma NothingConsumed(ms: seq<Matrix>, g: Steps)
    requires g.Valid() && forall i :: 0 <= i < |ms| ==> ValidMatrix(ms[i], g)
    ensures Consumed(ms, ms, g, 0)
  {
    forall i, j | 0 <= i < |ms| && 0 <= j < |ms[i]| ensures Remaining(ms[i][j], g.At(-1)) == ms[i][j] {
      FreshCursor(ms[i][j], g);
    }
    forall i | 0 <= i < |ms| ensures ms[i] == RemainingMatrix(ms[i], g.At(-1)) {}
  }

  lemma Unread(m: Matrix, g: Steps)
    requires g.Valid() && ValidMatrix(m, g)
    ensures m == RemainingMatrix(m, g.At(-1))
  {
    NothingConsumed([m], g);
    assert m == [m][0];
  }

  lemma ConsumedInStep(ms: seq<Matrix>, cursors: seq<Matrix>, g: Steps, k: nat)
    requires g.Valid() && Consumed(ms, cursors, g, k) && forall i :: 0 <= i < |ms| ==> ValidMatrix(ms[i], g)
    ensures AllInStep(ms, cursors, g.At(k))
  {
    forall i | 0 <= i < |ms| ensures InStep(ms[i], cursors[i], g.At(k)) {
      CursorsInStep(ms[i], g, k);
    }
  }

  /** Evaluates f at every step.  Fails exactly if some step yields two samples with the same label
      set; otherwise the result is pointwise f. */
  method RangeEval(f: (int, seq<Vector>) -> Vector, ms: seq<Matrix>, g: Steps) returns (r: Result)
    requires g.Valid() && g.Count() > 0 && forall i :: 0 <= i < |ms| ==> ValidMatrix(ms[i], g)
    ensures r.DuplicateLabelset? <==> exists k :: 0 <= k < g.Count() && !UniqueMetrics(StepResult(f, ms, g, k))
    ensures r.Ok? ==> Pointwise(f, ms, g, r.matrix)
  {
    var cursors := ms;
    NothingConsumed(ms, g);
    var out: map<Labels, Pending> := map[];
    var k := 0;
    while k < g.Count()
      invariant 0 <= k <= g.Count()
      invariant g.start == g.end ==> k == 0
      invariant Consumed(ms, cursors, g, k)
      invariant Evaluated(f, ms, g, k, out)
    {
      var vectors;
      ConsumedInStep(ms, cursors, g, k);
      vectors, cursors := GatherAll(g.At(k), cursors, ms);
      var result := f(g.At(k), vectors);
      assert result == StepResult(f, ms, g, k);
      if g.start == g.end {
        r := Instant(g, result);
        InstantPointwise(f, ms, g);
        return;
      }
      var ok;
      ok, out := EvaluateStep(f, ms, g, k, result, out);
      if !ok {
        return DuplicateLabelset;
      }
      k := k + 1;
    }
    var mat := CollectAll(f, ms, g, out);
    r := Ok(mat);
  }

  /** Adds the result of step k. */
  method EvaluateStep(ghost f: (int, seq<Vector>) -> Vector, ghost ms: seq<Matrix>, g: Steps, k: nat, result: Vector,
                      out: map<Labels, Pending>)
    returns (ok: bool, out': map<Labels, Pending>)
    requires g.Valid() && k < g.Count() && Evaluated(f, ms, g, k, out) && result == StepResult(f, ms, g, k)
    ensures ok <==> UniqueMetrics(result)
    ensures ok ==> Evaluated(f, ms, g, k + 1, out')
  {
    AtHas(g, k);
    ok, out' := AddStep(g, g.At(k), result, out);
    if ok {
      Advance(g, k, out, out', f, ms);
    }
  }

  /** Lists the series after the last of several steps. */
  method CollectAll(ghost f: (int, seq<Vector>) -> Vector, ghost ms: seq<Matrix>, g: Steps, out: map<Labels, Pending>)
    returns (mat: Matrix)
    requires g.Valid() && g.start != g.end && Evaluated(f, ms, g, g.Count(), out)
    ensures Pointwise(f, ms, g, mat)
  {
    mat := Collect(out);
    forall j | 0 <= j < g.Count() ensures SameVector(Column(mat, g.At(j)), StepResult(f, ms, g, j)) {
      CollectedColumn(out, mat, g.At(j), StepResult(f, ms, g, j));
    }
  }

  lemma InstantPointwise(f: (int, seq<Vector>) -> Vector, ms: seq<Matrix>, g: Steps)
    requires g.Valid() && g.start == g.end
    ensures g.Count() == 1
    ensures
      var v := StepResult(f, ms, g, 0);
      UniqueMetrics(v) ==> Pointwise(f, ms, g, InstantMatrix(g.start, v))
  {
    var v := StepResult(f, ms, g, 0);
    InstantColumn(g.start, v, |v|);
    assert v[..|v|] == v;
  }

  /** The shortcut for a single step. */
  method Instant(g: Steps, v: Vector) returns (r: Result)
    ensures r.DuplicateLabelset? <==> !UniqueMetrics(v)
    ensures r.Ok? ==> r.matrix == InstantMatrix(g.start, v) && UniqueSeries(r.matrix)
  {
    for i := 0 to |v|
      invariant UniqueMetrics(v[..i])
    {
      for j := 0 to i
        invariant forall l :: 0 <= l < j ==> v[l].metric != v[i].metric
      {
        if v[j].metric == v[i].metric {
          return DuplicateLabelset;
        }
      }
      assert v[..i + 1] == v[..i] + [v[i]];
    }
    assert v[..|v|] == v;
    r := Ok(InstantMatrix(g.start, v));
  }

  lemma Advance(g: Steps, k: nat, out: map<Labels, Pending>, out': map<Labels, Pending>, f: (int, seq<Vector>) -> Vector, ms: seq<Matrix>)
    requires g.Valid() && k < g.Count() && Evaluated(f, ms, g, k, out)
    requires Assembling(out', g, g.At(k) + 1) && SameElsewhere(out, out', g.At(k))
    requires UniqueMetrics(StepResult(f, ms, g, k)) && Holds(out', g.At(k), StepResult(f, ms, g, k))
    ensures Evaluated(f, ms, g, k + 1, out')
  {
    PreviousStep(g, k + 1);
    forall j | 0 <= j < k ensures Holds(out', g.At(j), StepResult(f, ms, g, j)) {
      MulOrder(j, k, g.step);
      assert g.At(j) != g.At(k);
    }
  }

  // ---------------------------------------------------------------- assembling given results

  ghost function Given(results: seq<Vector>, g: Steps): (int, seq<Vector>) -> Vector
    requires g.Valid()
  {
    (t, _) =>
      var k := if g.step > 0 then (t - g.start) / g.step else 0;
      if 0 <= k < |results| then results[k] else []
  }

  lemma GivenAt(results: seq<Vector>, g: Steps, k: nat)
    requires g.Valid() && k < |results|
    ensures StepResult(Given(results, g), [], g, k) == results[k]
  {
    DivModUnique(g.At(k) - g.start, g.step, k, 0);
  }

  /** Puts the results of all steps together into series. */
  method Assemble(g: Steps, results: seq<Vector>) returns (mat: Matrix)
    requires g.Valid() && |results| == g.Count() && forall k :: 0 <= k < |results| ==> UniqueMetrics(results[k])
    ensures UniqueSeries(mat) && forall k :: 0 <= k < |results| ==> SameVector(Column(mat, g.At(k)), results[k])
  {
    ghost var f := Given(results, g);
    var out: map<Labels, Pending> := map[];
    for k := 0 to |results|
      invariant Evaluated(f, [], g, k, out)
    {
      GivenAt(results, g, k);
      AtHas(g, k);
      var ok, out' := AddStep(g, g.At(k), results[k], out);
      Advance(g, k, out, out', f, []);
      out := out';
    }
    mat := Collect(out);
    forall k | 0 <= k < |results| ensures SameVector(Column(mat, g.At(k)), results[k]) {
      GivenAt(results, g, k);
      CollectedColumn(out, mat, g.At(k), results[k]);
    }
  }
}
