/** Aggregations that combine the samples of a group into one value (sum, avg, count, quantile and so on)
    over a range: one accumulator per group, reused from step to step, and one output series per group. */
module Aggregation {
  import opened Basics
  import opened Grid
  import opened Series
  import RangeEval

  /** How an operator accumulates.  `first` may ignore a sample, in which case the group is not yet seen;
      `finish` gets the parameter of the step and may yield nothing. */
  datatype Aggregator<!A> = Aggregator(
    first: Value -> Option<A>,
    next: (A, Value) -> A,
    finish: (real, A) -> Option<Value>)

  /** State of one group; `acc` is left over from earlier steps until `seen`. */
  datatype Group<A> = Group(seen: bool, acc: Option<A>)

  // ---------------------------------------------------------------- the definition

  function Absorb<A>(agg: Aggregator<A>, acc: Option<A>, v: Value): Option<A> {
    if acc.None? then agg.first(v) else Some(agg.next(acc.value, v))
  }

  /** The values of group gi at time t among the first n series, accumulated in order. */
  function Accumulated<A>(agg: Aggregator<A>, m: Matrix, group: seq<nat>, gi: nat, t: int, n: nat): Option<A>
    requires n <= |m| == |group|
  {
    if n == 0 then None
    else
      var before := Accumulated(agg, m, group, gi, t, n - 1);
      var v := ValueAt(m[n - 1], t);
      if group[n - 1] == gi && v.Some? then Absorb(agg, before, v.value) else before
  }

  /** The instant result of a group. */
  function GroupValue<A>(agg: Aggregator<A>, param: real, m: Matrix, group: seq<nat>, gi: nat, t: int): Option<Value>
    requires |m| == |group|
  {
    var acc := Accumulated(agg, m, group, gi, t, |m|);
    if acc.None? then None else agg.finish(param, acc.value)
  }

  // ---------------------------------------------------------------- one step

  ghost predicate GroupOk<A>(gr: Group<A>, acc: Option<A>) {
    gr.seen == acc.Some? && (gr.seen ==> gr.acc == acc)
  }

  ghost predicate GroupsOk<A>(agg: Aggregator<A>, m: Matrix, group: seq<nat>, t: int, n: nat, groups: seq<Group<A>>)
    requires n <= |m| == |group|
  {
    forall gi :: 0 <= gi < |groups| ==> GroupOk(groups[gi], Accumulated(agg, m, group, gi, t, n))
  }

  lemma OfferedOk<A>(agg: Aggregator<A>, gr: Group<A>, acc: Option<A>, v: Value)
    requires GroupOk(gr, acc)
    ensures gr.seen ==> gr.acc.Some?
    ensures GroupOk(if !gr.seen then Group(agg.first(v).Some?, agg.first(v)) else Group(true, Some(agg.next(gr.acc.value, v))), Absorb(agg, acc, v))
  {}

  /** Reads all series at time t into the accumulators of their groups. */
  method ReadStep<A>(agg: Aggregator<A>, t: int, input: Matrix, group: seq<nat>, stale: seq<Group<A>>, ghost source: Matrix)
    returns (groups: seq<Group<A>>, rest: Matrix)
    requires RangeEval.InStep(source, input, t) && |group| == |source|
    requires forall j :: 0 <= j < |group| ==> group[j] < |stale|
    ensures |groups| == |stale| && GroupsOk(agg, source, group, t, |source|, groups)
    ensures rest == RangeEval.RemainingMatrix(source, t)
  {
    groups := seq(|stale|, gi requires 0 <= gi < |stale| => stale[gi].(seen := false));
    rest := [];
    for j := 0 to |input|
      invariant |groups| == |stale| && GroupsOk(agg, source, group, t, j, groups)
      invariant |rest| == j && RangeEval.Moved(source, t, rest)
    {
      var value, cursor := RangeEval.ReadCursor(input[j], t, source[j]);
      RangeEval.MovedOne(source, t, rest, cursor);
      rest := rest + [cursor];
      if value.Some? {
        var gr := groups[group[j]];
        OfferedOk(agg, gr, Accumulated(agg, source, group, group[j], t, j), value.value);
        gr := if !gr.seen then Group(agg.first(value.value).Some?, agg.first(value.value))
              else Group(true, Some(agg.next(gr.acc.value, value.value)));
        GroupsStep(agg, source, group, t, j, groups, gr);
        groups := groups[group[j] := gr];
      } else {
        NothingToAdd(agg, source, group, t, j, groups);
      }
    }
    RangeEval.MovedAll(source, t, rest);
  }

  lemma GroupsStep<A>(agg: Aggregator<A>, m: Matrix, group: seq<nat>, t: int, j: nat, groups: seq<Group<A>>, gr: Group<A>)
    requires j < |m| == |group| && group[j] < |groups| && GroupsOk(agg, m, group, t, j, groups) && ValueAt(m[j], t).Some?
    requires GroupOk(gr, Absorb(agg, Accumulated(agg, m, group, group[j], t, j), ValueAt(m[j], t).value))
    ensures GroupsOk(agg, m, group, t, j + 1, groups[group[j] := gr])
  {}

  lemma NothingToAdd<A>(agg: Aggregator<A>, m: Matrix, group: seq<nat>, t: int, j: nat, groups: seq<Group<A>>)
    requires j < |m| == |group| && GroupsOk(agg, m, group, t, j, groups) && ValueAt(m[j], t).None?
    ensures GroupsOk(agg, m, group, t, j + 1, groups)
  {}

  // ---------------------------------------------------------------- the output rows

  /** Row gi holds the results of its group at the first k steps. */
  ghost predicate RowOk<A>(agg: Aggregator<A>, params: seq<real>, g: Steps, m: Matrix, group: seq<nat>, k: nat, gi: nat,
                           row: Series, metric: Labels)
    requires g.Valid() && |m| == |group| && k <= |params|
  {
    && row.metric == metric && RangeEval.PointsBefore(row, g, g.At(k))
    && forall i :: 0 <= i < k ==> ValueAt(row, g.At(i)) == GroupValue(agg, params[i], m, group, gi, g.At(i))
  }

  ghost predicate RowsOk<A>(agg: Aggregator<A>, params: seq<real>, g: Steps, m: Matrix, group: seq<nat>, k: nat,
                            rows: Matrix, labels: seq<Labels>)
    requires g.Valid() && |m| == |group| && k <= |params|
  {
    |rows| == |labels| && forall gi :: 0 <= gi < |rows| ==> RowOk(agg, params, g, m, group, k, gi, rows[gi], labels[gi])
  }

  function Extended(row: Series, t: int, v: Option<Value>): Series {
    if v.Some? then RangeEval.AddToSeries(row, t, v.value) else row
  }

  lemma RowStep<A>(agg: Aggregator<A>, params: seq<real>, g: Steps, m: Matrix, group: seq<nat>, k: nat, gi: nat,
                   row: Series, metric: Labels, v: Option<Value>)
    requires g.Valid() && |m| == |group| && k < |params| && k < g.Count() && RowOk(agg, params, g, m, group, k, gi, row, metric)
    requires v == GroupValue(agg, params[k], m, group, gi, g.At(k))
    ensures RowOk(agg, params, g, m, group, k + 1, gi, Extended(row, g.At(k), v), metric)
  {
    AtHas(g, k);
    PreviousStep(g, k + 1);
    var row' := Extended(row, g.At(k), v);
    if v.Some? {
      RangeEval.AddedValue(row, g, g.At(k), v.value);
    }
    NothingAt(row, g.At(k));
    forall i | 0 <= i < k + 1 ensures ValueAt(row', g.At(i)) == GroupValue(agg, params[i], m, group, gi, g.At(i)) {
      if i < k {
        MulOrder(i, k, g.step);
        assert g.At(i) < g.At(k);
      }
    }
  }

  /** A series whose points are all before t has no value at t. */
  lemma NothingAt(s: Series, t: int)
    requires (forall i :: 0 <= i < |s.floats| ==> s.floats[i].t < t) && (forall i :: 0 <= i < |s.histograms| ==> s.histograms[i].t < t)
    ensures ValueAt(s, t) == None
  {
    LookupBefore(s.floats, t);
    LookupBefore(s.histograms, t);
  }

  lemma {:induction false} LookupBefore<T>(ps: seq<Point<T>>, t: int)
    requires forall i :: 0 <= i < |ps| ==> ps[i].t < t
    ensures Lookup(ps, t).None?
  {
    if |ps| > 0 {
      LookupBefore(ps[1..], t);
    }
  }

  /** Adds the results of a step to the rows of the groups. */
  method FinishStep<A>(agg: Aggregator<A>, params: seq<real>, g: Steps, k: nat, groups: seq<Group<A>>, rows: Matrix,
                       ghost source: Matrix, ghost group: seq<nat>, ghost labels: seq<Labels>)
    returns (rows': Matrix)
    requires g.Valid() && |source| == |group| && k < |params| && k < g.Count() && |groups| == |rows|
    requires GroupsOk(agg, source, group, g.At(k), |source|, groups) && RowsOk(agg, params, g, source, group, k, rows, labels)
    ensures RowsOk(agg, params, g, source, group, k + 1, rows', labels)
  {
    rows' := [];
    for gi := 0 to |groups|
      invariant |rows'| == gi
      invariant forall i :: 0 <= i < gi ==> RowOk(agg, params, g, source, group, k + 1, i, rows'[i], labels[i])
    {
      var gr := groups[gi];
      assert GroupOk(gr, Accumulated(agg, source, group, gi, g.At(k), |source|));
      var v := if gr.seen then agg.finish(params[k], gr.acc.value) else None;
      RowStep(agg, params, g, source, group, k, gi, rows[gi], labels[gi], v);
      rows' := rows' + [Extended(rows[gi], g.At(k), v)];
    }
  }

  /** Rows without points are removed. */
  method RemoveEmpty(rows: Matrix) returns (mat: Matrix)
    ensures forall t, x :: x in Column(mat, t) <==> x in Column(rows, t)
  {
    mat := [];
    for i := 0 to |rows|
      invariant forall t, x :: x in Column(mat, t) <==> x in ColumnUpTo(rows, t, i)
    {
      ghost var before := mat;
      if |rows[i].floats| > 0 || |rows[i].histograms| > 0 {
        mat := mat + [rows[i]];
      }
      forall t, x ensures x in Column(mat, t) <==> x in ColumnUpTo(rows, t, i + 1) {
        if mat == before {
          NothingAt(rows[i], t);
        } else {
          ColumnAppend(before, rows[i], t);
        }
      }
    }
  }

  lemma ColumnAppend(m: Matrix, s: Series, t: int)
    ensures Column(m + [s], t) == Column(m, t) + if ValueAt(s, t).Some? then [Sample(s.metric, ValueAt(s, t).value)] else []
  {
    ColumnOfPrefix(m, s, t, |m|);
  }

  lemma {:induction false} ColumnOfPrefix(m: Matrix, s: Series, t: int, n: nat)
    requires n <= |m|
    ensures ColumnUpTo(m + [s], t, n) == ColumnUpTo(m, t, n)
  {
    if n > 0 {
      ColumnOfPrefix(m, s, t, n - 1);
    }
  }

  /** One row per group, over all steps. */
  method AggregateRows<A>(agg: Aggregator<A>, params: seq<real>, g: Steps, source: Matrix, group: seq<nat>, labels: seq<Labels>)
    returns (rows: Matrix)
    requires g.Valid() && ValidMatrix(source, g) && |group| == |source| && |params| == g.Count()
    requires forall j :: 0 <= j < |group| ==> group[j] < |labels|
    ensures RowsOk(agg, params, g, source, group, |params|, rows, labels)
  {
    var cursors := source;
    RangeEval.Unread(source, g);
    var groups: seq<Group<A>> := seq(|labels|, gi => Group(false, None));
    rows := seq(|labels|, gi requires 0 <= gi < |labels| => Series(labels[gi], [], []));
    for k := 0 to g.Count()
      invariant |groups| == |labels| && cursors == RangeEval.RemainingMatrix(source, g.At(k - 1))
      invariant RowsOk(agg, params, g, source, group, k, rows, labels)
    {
      RangeEval.CursorsInStep(source, g, k);
      groups, cursors := ReadStep(agg, g.At(k), cursors, group, groups, source);
      rows := FinishStep(agg, params, g, k, groups, rows, source, group, labels);
    }
  }

  /** x is the instant value of some group. */
  ghost predicate IsGroupSample<A>(agg: Aggregator<A>, param: real, m: Matrix, group: seq<nat>, labels: seq<Labels>, t: int, x: Sample)
    requires |m| == |group|
  {
    exists gi :: 0 <= gi < |labels| && x.metric == labels[gi] && GroupValue(agg, param, m, group, gi, t) == Some(x.value)
  }

  /** A range query with such an aggregation: at every step the column of the result has a sample for
      exactly the groups that have a value there, and it is the group's instant value. */
  method AggregateRange<A>(agg: Aggregator<A>, params: seq<real>, g: Steps, source: Matrix, group: seq<nat>, labels: seq<Labels>)
    returns (mat: Matrix)
    requires g.Valid() && ValidMatrix(source, g) && |group| == |source| && |params| == g.Count()
    requires forall j :: 0 <= j < |group| ==> group[j] < |labels|
    ensures forall k, x :: 0 <= k < g.Count() ==>
      (x in Column(mat, g.At(k)) <==> IsGroupSample(agg, params[k], source, group, labels, g.At(k), x))
  {
    var rows := AggregateRows(agg, params, g, source, group, labels);
    mat := RemoveEmpty(rows);
    forall k, x | 0 <= k < g.Count()
      ensures x in Column(mat, g.At(k)) <==> IsGroupSample(agg, params[k], source, group, labels, g.At(k), x)
    {
      InColumn(rows, g.At(k), |rows|, x);
      RowsMean(agg, params, g, source, group, rows, labels, k, x);
    }
  }

  lemma RowsMean<A>(agg: Aggregator<A>, params: seq<real>, g: Steps, source: Matrix, group: seq<nat>, rows: Matrix,
                    labels: seq<Labels>, k: nat, x: Sample)
    requires g.Valid() && |source| == |group| && k < |params| && RowsOk(agg, params, g, source, group, |params|, rows, labels)
    ensures (exists i :: 0 <= i < |rows| && rows[i].metric == x.metric && ValueAt(rows[i], g.At(k)) == Some(x.value)) <==>
      IsGroupSample(agg, params[k], source, group, labels, g.At(k), x)
  {
    forall i | 0 <= i < |rows|
      ensures rows[i].metric == labels[i] && ValueAt(rows[i], g.At(k)) == GroupValue(agg, params[k], source, group, i, g.At(k))
    {
      assert RowOk(agg, params, g, source, group, |params|, i, rows[i], labels[i]);
    }
  }
}
