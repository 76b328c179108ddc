/** topk, bottomk and limitk over a range: per step the k chosen samples of every group, read through
    consuming cursors that stay in step even when a step stops reading early. */
module AggregationK {
  import opened Basics
  import opened Grid
  import opened Series
  import opened Heap
  import RangeEval

  datatype Op = Topk | Bottomk | Limitk

  /** State of one group; `heap` and `complete` are left over from earlier steps until `seen`. */
  datatype Group = Group(seen: bool, complete: bool, heap: seq<Sample>)

  predicate Relevant(op: Op, s: Sample) {
    op.Limitk? || s.value.FloatValue?
  }

  /** The samples of group gi at time t among the first n series, without the histograms that topk and
      bottomk ignore. */
  function GroupSamples(op: Op, m: Matrix, group: seq<nat>, gi: nat, t: int, n: nat): Vector
    requires n <= |m| == |group|
  {
    if n == 0 then []
    else
      var before := GroupSamples(op, m, group, gi, t, n - 1);
      match ValueAt(m[n - 1], t)
      case Some(v) =>
        var s := Sample(m[n - 1].metric, v);
        if group[n - 1] == gi && Relevant(op, s) then before + [s] else before
      case None => before
  }

  /** What a group must hold after its samples xs were offered. */
  ghost predicate Chosen(op: Op, k: nat, xs: Vector, heap: seq<Sample>) {
    match op
    case Topk => IsBest(false, k, xs, heap)
    case Bottomk => IsBest(true, k, xs, heap)
    case Limitk => multiset(heap) == multiset(xs[..Min(k, |xs|)])
  }

  /** The samples of a group: those of its series that have a value at t; topk and bottomk look at floats only. */
  lemma {:induction false} InGroup(op: Op, m: Matrix, group: seq<nat>, gi: nat, t: int, n: nat, x: Sample)
    requires n <= |m| == |group|
    ensures x in GroupSamples(op, m, group, gi, t, n) <==>
      && (op == Limitk || x.value.FloatValue?)
      && exists j :: 0 <= j < n && group[j] == gi && m[j].metric == x.metric && ValueAt(m[j], t) == Some(x.value)
  {
    if n > 0 {
      InGroup(op, m, group, gi, t, n - 1, x);
    }
  }

  /** topk never leaves out a number for a smaller one or for NaN, and bottomk never for a greater one or
      for NaN; limitk keeps the first samples. */
  lemma ChosenMeans(op: Op, k: nat, xs: Vector, heap: seq<Sample>)
    requires Chosen(op, k, xs, heap)
    ensures |heap| == (if |xs| < k then |xs| else k) && multiset(heap) <= multiset(xs)
    ensures op == Limitk ==> multiset(heap) == multiset(xs[..if |xs| < k then |xs| else k])
    ensures forall out, kept, v ::
      && op != Limitk && out in multiset(xs) - multiset(heap) && kept in multiset(heap)
      && out.value == FloatValue(Num(v)) && kept.value.FloatValue? ==>
        kept.value.f.Num? && (if op == Topk then kept.value.f.v >= v else kept.value.f.v <= v)
  {
    ChosenPart(op, k, xs, heap);
    if op.Limitk? {
      LimitedSize(k, xs, heap);
    } else {
      forall out, kept, v |
        && out in multiset(xs) - multiset(heap) && kept in multiset(heap)
        && out.value == FloatValue(Num(v)) && kept.value.FloatValue?
        ensures kept.value.f.Num? && (if op == Topk then kept.value.f.v >= v else kept.value.f.v <= v)
      {
        assert SampleNoBetter(op.Bottomk?, out, kept);
      }
    }
  }

  ghost predicate GroupOk(op: Op, k: nat, xs: Vector, gr: Group) {
    && (gr.seen <==> |xs| > 0)
    && (gr.seen ==> Chosen(op, k, xs, gr.heap) && IsHeap(op.Bottomk?, gr.heap))
    && (gr.seen && op.Limitk? && gr.complete ==> |xs| >= k)
  }

  ghost predicate GroupsOk(op: Op, k: nat, m: Matrix, group: seq<nat>, t: int, n: nat, groups: seq<Group>)
    requires n <= |m| == |group|
  {
    forall gi :: 0 <= gi < |groups| ==> GroupOk(op, k, GroupSamples(op, m, group, gi, t, n), groups[gi])
  }

  /** The outcome of a step: a group is reported iff it has samples, and then with the right choice. */
  ghost predicate GroupsChosen(op: Op, k: nat, m: Matrix, group: seq<nat>, t: int, groups: seq<Group>)
    requires |m| == |group|
  {
    forall gi :: 0 <= gi < |groups| ==>
      var xs := GroupSamples(op, m, group, gi, t, |m|);
      (groups[gi].seen <==> |xs| > 0) && (groups[gi].seen ==> Chosen(op, k, xs, groups[gi].heap))
  }

  /** Number of the first n groups that still accept samples. */
  function Open(groups: seq<Group>, n: nat): (c: nat)
    requires n <= |groups|
    ensures c <= n
  {
    if n == 0 then 0 else Open(groups, n - 1) + if groups[n - 1].seen && groups[n - 1].complete then 0 else 1
  }

  lemma {:induction false} OpenUpdate(groups: seq<Group>, n: nat, gi: nat, gr: Group)
    requires n <= |groups| && gi < |groups|
    ensures
      var was := groups[gi].seen && groups[gi].complete;
      var now := gr.seen && gr.complete;
      Open(groups[gi := gr], n) == Open(groups, n) + (if gi >= n || was == now then 0 else if now then -1 else 1)
  {
    if n > 0 {
      OpenUpdate(groups, n - 1, gi, gr);
    }
  }

  lemma {:induction false} NoneOpen(groups: seq<Group>, n: nat, gi: nat)
    requires gi < n <= |groups| && Open(groups, n) == 0
    ensures groups[gi].seen && groups[gi].complete
  {
    if gi < n - 1 {
      NoneOpen(groups, n - 1, gi);
    }
  }

  lemma {:induction false} SamplesGrow(op: Op, m: Matrix, group: seq<nat>, gi: nat, t: int, n: nat, n': nat)
    requires n <= n' <= |m| == |group|
    ensures GroupSamples(op, m, group, gi, t, n) <= GroupSamples(op, m, group, gi, t, n')
    ensures |GroupSamples(op, m, group, gi, t, n')| <= n'
  {
    if n < n' {
      SamplesGrow(op, m, group, gi, t, n, n' - 1);
    } else if n > 0 {
      SamplesGrow(op, m, group, gi, t, n - 1, n - 1);
    }
  }

  lemma FirstOnesStay(k: nat, xs: Vector, all: Vector, gr: Group)
    requires GroupOk(Limitk, k, xs, gr) && gr.seen && gr.complete && xs <= all
    ensures GroupOk(Limitk, k, all, gr)
  {
    assert xs[..k] == all[..k];
  }

  /** When every group has its k samples, the series not yet read cannot change the choice. */
  lemma StopEarly(k: nat, m: Matrix, group: seq<nat>, t: int, n: nat, groups: seq<Group>)
    requires n <= |m| == |group| && GroupsOk(Limitk, k, m, group, t, n, groups)
    requires Open(groups, |groups|) == 0
    ensures GroupsOk(Limitk, k, m, group, t, |m|, groups)
  {
    forall gi | 0 <= gi < |groups| ensures GroupOk(Limitk, k, GroupSamples(Limitk, m, group, gi, t, |m|), groups[gi]) {
      NoneOpen(groups, |groups|, gi);
      SamplesGrow(Limitk, m, group, gi, t, n, |m|);
      FirstOnesStay(k, GroupSamples(Limitk, m, group, gi, t, n), GroupSamples(Limitk, m, group, gi, t, |m|), groups[gi]);
    }
  }

  /** Offers one sample to its group. */
  method OfferToGroup(op: Op, k: nat, gr: Group, s: Sample, ghost xs: Vector) returns (gr': Group)
    requires k > 0 && GroupOk(op, k, xs, gr)
    ensures GroupOk(op, k, if Relevant(op, s) then xs + [s] else xs, gr')
    ensures gr.seen && gr.complete ==> gr'.seen && gr'.complete
  {
    if !gr.seen {
      // the group is seen for the first time in this step
      gr' := Group(Relevant(op, s), false, if Relevant(op, s) then [s] else []);
      assert [] + [s] == [s];
      assert ([] + [s])[..Min(k, 1)] == [s];
    } else if Relevant(op, s) {
      match op
      case Topk =>
        var heap := Offer(false, k, gr.heap, s, xs);
        gr' := gr.(heap := heap);
      case Bottomk =>
        var heap := Offer(true, k, gr.heap, s, xs);
        gr' := gr.(heap := heap);
      case Limitk => gr' := OfferLimited(k, gr, s, xs);
    } else {
      gr' := gr;
    }
  }

  /** limitk takes samples until it has enough. */
  method OfferLimited(k: nat, gr: Group, s: Sample, ghost xs: Vector) returns (gr': Group)
    requires k > 0 && gr.seen && GroupOk(Limitk, k, xs, gr)
    ensures GroupOk(Limitk, k, xs + [s], gr') && gr'.seen && (gr.complete ==> gr'.complete)
  {
    gr' := gr;
    LimitedSize(k, xs, gr.heap);
    if |gr.heap| < k {
      var heap := Push(false, gr.heap, s);
      gr' := gr.(heap := heap);
      assert xs[..|xs|] == xs && (xs + [s])[..|xs| + 1] == xs + [s];
    } else {
      assert (xs + [s])[..k] == xs[..k];
    }
    if !gr.complete && |gr'.heap| == k {
      gr' := gr'.(complete := true);
    }
  }

  lemma LimitedSize(k: nat, xs: Vector, heap: seq<Sample>)
    requires multiset(heap) == multiset(xs[..Min(k, |xs|)])
    ensures |heap| == Min(k, |xs|)
  {
    assert |multiset(heap)| == |heap| && |multiset(xs[..Min(k, |xs|)])| == Min(k, |xs|);
  }

  /** Discards the values of the remaining series at time t so that their cursors stay in step. */
  method AdvanceRemaining(t: int, input: Matrix, from: nat, ghost source: Matrix) returns (rest: Matrix)
    requires RangeEval.InStep(source, input, t) && from <= |source|
    ensures rest == RangeEval.RemainingMatrix(source, t)[from..]
  {
    rest := [];
    for j := from to |input|
      invariant rest == RangeEval.RemainingMatrix(source, t)[from..j]
    {
      var _, cursor := RangeEval.ReadCursor(input[j], t, source[j]);
      rest := rest + [cursor];
    }
  }

  ghost predicate Unseen(groups: seq<Group>) {
    forall gi :: 0 <= gi < |groups| ==> !groups[gi].seen
  }

  lemma NoneComplete(groups: seq<Group>, n: nat)
    requires n <= |groups| && Unseen(groups)
    ensures Open(groups, n) == n
  {}

  /** Offering a sample of series j to its group keeps all groups right. */
  lemma GroupsStep(op: Op, k: nat, m: Matrix, group: seq<nat>, t: int, j: nat, groups: seq<Group>, gr: Group)
    requires j < |m| == |group| && group[j] < |groups| && GroupsOk(op, k, m, group, t, j, groups)
    requires ValueAt(m[j], t).Some?
    requires
      var s := Sample(m[j].metric, ValueAt(m[j], t).value);
      var xs := GroupSamples(op, m, group, group[j], t, j);
      GroupOk(op, k, if Relevant(op, s) then xs + [s] else xs, gr)
    ensures GroupsOk(op, k, m, group, t, j + 1, groups[group[j] := gr])
  {}

  /** Groups and the count of open groups after the first j series were read. */
  ghost predicate Reading(op: Op, k: int, m: Matrix, group: seq<nat>, t: int, j: nat, groups: seq<Group>, remaining: int)
    requires j <= |m| == |group|
  {
    && (k >= 1 ==> GroupsOk(op, k, m, group, t, j, groups))
    && (k < 1 ==> Unseen(groups))
    && remaining == Open(groups, |groups|)
  }

  /** Offers the value of series j, if it has one, to its group. */
  method Place(op: Op, k: nat, group: seq<nat>, j: nat, s: Sample, groups: seq<Group>, remaining: int,
               ghost m: Matrix, ghost t: int)
    returns (groups': seq<Group>, remaining': int)
    requires k > 0 && j < |m| == |group| && group[j] < |groups|
    requires Reading(op, k, m, group, t, j, groups, remaining)
    requires ValueAt(m[j], t).Some? && s == Sample(m[j].metric, ValueAt(m[j], t).value)
    ensures |groups'| == |groups| && Reading(op, k, m, group, t, j + 1, groups', remaining')
  {
    var gi := group[j];
    var gr := OfferToGroup(op, k, groups[gi], s, GroupSamples(op, m, group, gi, t, j));
    GroupsStep(op, k, m, group, t, j, groups, gr);
    OpenUpdate(groups, |groups|, gi, gr);
    var was, now := groups[gi].seen && groups[gi].complete, gr.seen && gr.complete;
    groups' := groups[gi := gr];
    remaining' := if now && !was then remaining - 1 else remaining;
  }

  method Finish(t: int, last: bool, input: Matrix, from: nat, read: Matrix, ghost source: Matrix) returns (rest: Matrix)
    requires RangeEval.InStep(source, input, t) && from <= |source|
    requires RangeEval.Moved(source, t, read) && |read| == from
    ensures !last ==> rest == RangeEval.RemainingMatrix(source, t)
  {
    rest := read;
    if !last {
      var tail := AdvanceRemaining(t, input, from, source);
      MovedPrefix(source, t, read);
      rest := read + tail;
    }
  }

  lemma MovedPrefix(source: Matrix, t: int, read: Matrix)
    requires RangeEval.Moved(source, t, read)
    ensures read == RangeEval.RemainingMatrix(source, t)[..|read|]
  {}

  /** What a step reports: the chosen samples of each group, or nothing if k is below one. */
  ghost predicate Outcome(op: Op, param: int, m: Matrix, group: seq<nat>, t: int, groups: seq<Group>)
    requires |m| == |group|
  {
    if param >= 1 then GroupsChosen(op, param, m, group, t, groups) else Unseen(groups)
  }

  lemma ReadAll(op: Op, param: int, m: Matrix, group: seq<nat>, t: int, groups: seq<Group>, remaining: int)
    requires |m| == |group| && Reading(op, Min(param, |m|), m, group, t, |m|, groups, remaining)
    ensures Outcome(op, param, m, group, t, groups)
  {
    if Min(param, |m|) >= 1 {
      Bounded(op, param, m, group, t, groups);
    }
  }

  /** Reading may stop once k is known to be below one or every group of limitk is complete. */
  predicate Enough(op: Op, k: int, remaining: int) {
    k < 1 || (op.Limitk? && remaining == 0)
  }

  lemma ReadEnough(op: Op, param: int, m: Matrix, group: seq<nat>, t: int, j: nat, groups: seq<Group>, remaining: int)
    requires 0 < j <= |m| == |group| && Enough(op, Min(param, |m|), remaining)
    requires Reading(op, Min(param, |m|), m, group, t, j, groups, remaining)
    ensures Outcome(op, param, m, group, t, groups)
  {
    if param >= 1 {
      StopEarly(Min(param, |m|), m, group, t, j, groups);
      Bounded(Limitk, param, m, group, t, groups);
    }
  }

  lemma NothingRead(op: Op, k: int, m: Matrix, group: seq<nat>, t: int, groups: seq<Group>)
    requires |m| == |group| && Unseen(groups)
    ensures Reading(op, k, m, group, t, 0, groups, |groups|)
  {
    NoneComplete(groups, |groups|);
  }

  /** Reads series j: the body of the loop over series. */
  method ReadSeries(op: Op, k: int, t: int, cursor: Series, group: seq<nat>, j: nat, groups: seq<Group>, remaining: int,
                    ghost source: Matrix)
    returns (groups': seq<Group>, remaining': int, rest: Series, stop: bool)
    requires j < |source| == |group| && group[j] < |groups| && RangeEval.CursorInStep(source[j], cursor, t)
    requires Reading(op, k, source, group, t, j, groups, remaining)
    ensures |groups'| == |groups| && rest == Remaining(source[j], t)
    ensures Reading(op, k, source, group, t, j + 1, groups', remaining')
    ensures stop ==> Enough(op, k, remaining')
  {
    groups', remaining', stop := groups, remaining, false;
    var value;
    value, rest := RangeEval.ReadCursor(cursor, t, source[j]);
    if value.None? {
      NoSample(op, k, source, group, t, j, groups, remaining);
    } else if k < 1 {
      stop := true;
    } else {
      groups', remaining' := Place(op, k, group, j, Sample(cursor.metric, value.value), groups, remaining, source, t);
      stop := op.Limitk? && remaining' < remaining && remaining' == 0;
    }
  }

  /** One step of topk, bottomk or limitk.  Every group ends with the right choice of its samples at
      this step, and unless this is the last step every cursor has consumed its value, even where
      the loop stopped early. */
  method Step(op: Op, param: int, t: int, last: bool, input: Matrix, group: seq<nat>, stale: seq<Group>,
              ghost source: Matrix)
    returns (groups: seq<Group>, rest: Matrix)
    requires RangeEval.InStep(source, input, t) && |group| == |source|
    requires forall j :: 0 <= j < |group| ==> group[j] < |stale|
    ensures |groups| == |stale| && Outcome(op, param, source, group, t, groups)
    ensures !last ==> rest == RangeEval.RemainingMatrix(source, t)
  {
    groups := seq(|stale|, gi requires 0 <= gi < |stale| => stale[gi].(seen := false));
    rest := [];
    var remaining, k := |groups|, Min(param, |input|);
    NothingRead(op, k, source, group, t, groups);
    for j := 0 to |input|
      invariant |groups| == |stale| && Reading(op, k, source, group, t, j, groups, remaining)
      invariant |rest| == j && RangeEval.Moved(source, t, rest)
    {
      assert RangeEval.CursorInStep(source[j], input[j], t);
      var cursor, stop;
      groups, remaining, cursor, stop := ReadSeries(op, k, t, input[j], group, j, groups, remaining, source);
      RangeEval.MovedOne(source, t, rest, cursor);
      rest := rest + [cursor];
      if stop {
        ReadEnough(op, param, source, group, t, j + 1, groups, remaining);
        rest := Finish(t, last, input, j + 1, rest, source);
        return;
      }
    }
    RangeEval.MovedAll(source, t, rest);
    ReadAll(op, param, source, group, t, groups, remaining);
  }

  lemma NoSample(op: Op, k: int, m: Matrix, group: seq<nat>, t: int, j: nat, groups: seq<Group>, remaining: int)
    requires j < |m| == |group| && Reading(op, k, m, group, t, j, groups, remaining) && ValueAt(m[j], t).None?
    ensures Reading(op, k, m, group, t, j + 1, groups, remaining)
  {}

  /** Capping k at the number of series changes nothing. */
  lemma Bounded(op: Op, param: nat, m: Matrix, group: seq<nat>, t: int, groups: seq<Group>)
    requires |m| == |group| && GroupsOk(op, Min(param, |m|), m, group, t, |m|, groups)
    ensures GroupsChosen(op, param, m, group, t, groups)
  {
    forall gi | 0 <= gi < |groups|
      ensures
        var xs := GroupSamples(op, m, group, gi, t, |m|);
        (groups[gi].seen <==> |xs| > 0) && (groups[gi].seen ==> Chosen(op, param, xs, groups[gi].heap))
    {
      SamplesGrow(op, m, group, gi, t, |m|, |m|);
      BoundedGroup(op, param, |m|, GroupSamples(op, m, group, gi, t, |m|), groups[gi]);
    }
  }

  lemma BoundedGroup(op: Op, param: nat, n: nat, xs: Vector, gr: Group)
    requires |xs| <= n && GroupOk(op, Min(param, n), xs, gr)
    ensures gr.seen <==> |xs| > 0
    ensures gr.seen ==> Chosen(op, param, xs, gr.heap)
  {}

  // ---------------------------------------------------------------- all steps

  /** Evaluates the aggregation at every step of a range.  Whatever happened at earlier steps, the
      outcome at each step is the right choice from the input column of that step. */
  method RangeEvalAgg(op: Op, params: seq<int>, g: Steps, source: Matrix, group: seq<nat>, groupCount: nat)
    returns (outcomes: seq<seq<Group>>)
    requires g.Valid() && ValidMatrix(source, g) && |group| == |source| && |params| == g.Count()
    requires forall j :: 0 <= j < |group| ==> group[j] < groupCount
    ensures |outcomes| == g.Count()
    ensures forall i :: 0 <= i < g.Count() ==>
      |outcomes[i]| == groupCount && Outcome(op, params[i], source, group, g.At(i), outcomes[i])
  {
    var cursors := source;
    RangeEval.Unread(source, g);
    var groups := seq(groupCount, gi => Group(false, false, []));
    outcomes := [];
    for i := 0 to g.Count()
      invariant |groups| == groupCount && |outcomes| == i
      invariant i < g.Count() ==> cursors == RangeEval.RemainingMatrix(source, g.At(i - 1))
      invariant forall j :: 0 <= j < i ==>
        |outcomes[j]| == groupCount && Outcome(op, params[j], source, group, g.At(j), outcomes[j])
    {
      RangeEval.CursorsInStep(source, g, i);
      groups, cursors := Step(op, params[i], g.At(i), i == g.Count() - 1, cursors, group, groups, source);
      outcomes := outcomes + [groups];
    }
  }

  // ---------------------------------------------------------------- the output series

  /** The chosen samples of the first n groups of a step. */
  function StepVector(groups: seq<Group>, n: nat): Vector
    requires n <= |groups|
  {
    if n == 0 then []
    else StepVector(groups, n - 1) + if groups[n - 1].seen then groups[n - 1].heap else []
  }

  ghost predicate Reported(groups: seq<Group>, n: nat, x: Sample)
    requires n <= |groups|
  {
    exists gi :: 0 <= gi < n && groups[gi].seen && x in groups[gi].heap
  }

  lemma {:induction false} InStepVector(groups: seq<Group>, n: nat, x: Sample)
    requires n <= |groups|
    ensures x in StepVector(groups, n) <==> Reported(groups, n, x)
  {
    if n > 0 {
      InStepVector(groups, n - 1, x);
    }
  }

  lemma {:induction false} OnlyOnce(xs: Vector, x: Sample)
    requires UniqueMetrics(xs)
    ensures multiset(xs)[x] <= 1
    decreases |xs|
  {
    if |xs| > 0 {
      var front := xs[..|xs| - 1];
      OnlyOnce(front, x);
      assert xs == front + [xs[|xs| - 1]];
      forall i | 0 <= i < |front| ensures front[i] != xs[|xs| - 1] {
        assert front[i] == xs[i];
      }
    }
  }

  lemma Twice(h: seq<Sample>, i: nat, j: nat)
    requires i < j < |h| && h[i] == h[j]
    ensures multiset(h)[h[i]] >= 2
  {
    assert h == h[..i] + [h[i]] + h[i + 1..j] + [h[j]] + h[j + 1..];
  }

  lemma PartIsUnique(xs: Vector, h: seq<Sample>)
    requires UniqueMetrics(xs) && multiset(h) <= multiset(xs)
    ensures UniqueMetrics(h)
  {
    forall i, j | 0 <= i < j < |h| ensures h[i].metric != h[j].metric {
      assert h[i] in multiset(h) && h[j] in multiset(h);
      assert h[i] in xs && h[j] in xs;
      var a :| 0 <= a < |xs| && xs[a] == h[i];
      var b :| 0 <= b < |xs| && xs[b] == h[j];
      if h[i] == h[j] {
        Twice(h, i, j);
        OnlyOnce(xs, h[i]);
      }
    }
  }

  /** Samples of a group have metrics of its series. */
  lemma {:induction false} GroupMetrics(op: Op, m: Matrix, group: seq<nat>, gi: nat, t: int, n: nat)
    requires n <= |m| == |group| && UniqueSeries(m)
    ensures UniqueMetrics(GroupSamples(op, m, group, gi, t, n))
    ensures forall x :: x in GroupSamples(op, m, group, gi, t, n) ==> exists j :: 0 <= j < n && m[j].metric == x.metric && group[j] == gi
  {
    if n > 0 {
      GroupMetrics(op, m, group, gi, t, n - 1);
    }
  }

  lemma ChosenPart(op: Op, k: nat, xs: Vector, heap: seq<Sample>)
    requires Chosen(op, k, xs, heap)
    ensures multiset(heap) <= multiset(xs)
  {
    if op.Limitk? {
      assert xs == xs[..Min(k, |xs|)] + xs[Min(k, |xs|)..];
    }
  }

  lemma {:induction false} UniqueStep(op: Op, k: nat, m: Matrix, group: seq<nat>, t: int, groups: seq<Group>, n: nat)
    requires |m| == |group| && UniqueSeries(m) && n <= |groups| && GroupsChosen(op, k, m, group, t, groups)
    ensures UniqueMetrics(StepVector(groups, n))
    ensures forall x :: x in StepVector(groups, n) ==> exists j :: 0 <= j < |m| && m[j].metric == x.metric && group[j] < n
  {
    if n > 0 {
      UniqueStep(op, k, m, group, t, groups, n - 1);
      var gr, xs := groups[n - 1], GroupSamples(op, m, group, n - 1, t, |m|);
      GroupMetrics(op, m, group, n - 1, t, |m|);
      if gr.seen {
        ChosenPart(op, k, xs, gr.heap);
        PartIsUnique(xs, gr.heap);
        JoinUnique(m, group, n - 1, StepVector(groups, n - 1), gr.heap, xs);
      }
    }
  }

  lemma JoinUnique(m: Matrix, group: seq<nat>, gi: nat, a: Vector, b: Vector, xs: Vector)
    requires |m| == |group| && UniqueSeries(m) && UniqueMetrics(a) && UniqueMetrics(b) && multiset(b) <= multiset(xs)
    requires forall x :: x in a ==> exists j :: 0 <= j < |m| && m[j].metric == x.metric && group[j] < gi
    requires forall x :: x in xs ==> exists j :: 0 <= j < |m| && m[j].metric == x.metric && group[j] == gi
    ensures UniqueMetrics(a + b)
    ensures forall x :: x in a + b ==> exists j :: 0 <= j < |m| && m[j].metric == x.metric && group[j] < gi + 1
  {
    forall x | x in b ensures exists j :: 0 <= j < |m| && m[j].metric == x.metric && group[j] == gi {
      assert x in multiset(b);
      assert x in xs;
    }
    forall i, j | 0 <= i < |a| && 0 <= j < |b| ensures a[i].metric != b[j].metric {
      assert a[i] in a && b[j] in b;
      var p :| 0 <= p < |m| && m[p].metric == a[i].metric && group[p] < gi;
      var q :| 0 <= q < |m| && m[q].metric == b[j].metric && group[q] == gi;
    }
  }

  /** Nothing is reported when k is below one. */
  lemma {:induction false} NothingReported(groups: seq<Group>, n: nat)
    requires n <= |groups| && Unseen(groups)
    ensures StepVector(groups, n) == []
  {
    if n > 0 {
      NothingReported(groups, n - 1);
    }
  }

  /** A range query with topk, bottomk or limitk: at every step the column of the result consists of
      the chosen samples of the groups at that step. */
  method AggregateRange(op: Op, params: seq<int>, g: Steps, source: Matrix, group: seq<nat>, groupCount: nat)
    returns (mat: Matrix, outcomes: seq<seq<Group>>)
    requires g.Valid() && ValidMatrix(source, g) && UniqueSeries(source) && |group| == |source| && |params| == g.Count()
    requires forall j :: 0 <= j < |group| ==> group[j] < groupCount
    ensures UniqueSeries(mat) && |outcomes| == g.Count()
    ensures forall i :: 0 <= i < g.Count() ==>
      |outcomes[i]| == groupCount && Outcome(op, params[i], source, group, g.At(i), outcomes[i])
    ensures forall i, x :: 0 <= i < g.Count() ==> (x in Column(mat, g.At(i)) <==> Reported(outcomes[i], |outcomes[i]|, x))
  {
    outcomes := RangeEvalAgg(op, params, g, source, group, groupCount);
    var results := seq(|outcomes|, i requires 0 <= i < |outcomes| => StepVector(outcomes[i], |outcomes[i]|));
    forall i | 0 <= i < g.Count() ensures UniqueMetrics(results[i]) {
      if params[i] >= 1 {
        UniqueStep(op, params[i], source, group, g.At(i), outcomes[i], groupCount);
      } else {
        NothingReported(outcomes[i], groupCount);
      }
    }
    mat := RangeEval.Assemble(g, results);
    forall i, x | 0 <= i < g.Count() ensures x in Column(mat, g.At(i)) <==> Reported(outcomes[i], |outcomes[i]|, x) {
      InStepVector(outcomes[i], |outcomes[i]|, x);
      assert SameVector(Column(mat, g.At(i)), results[i]);
    }
  }
}
