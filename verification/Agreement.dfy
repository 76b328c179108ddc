/** When an evaluated tree and a query mean the same, decided from their selectors' times alone: the
    condition is sufficient in every model and necessary in the model of free terms. */
module Agreement {
  import opened Basics
  import opened Grid
  import opened StepInvariant

  // ---------------------------------------------------------------- free terms

  datatype Term =
    | NumberTerm(v: real)
    | TextTerm(s: string)
    | VectorTerm(sel: nat, t: int)
    | RangeTerm(sel: nat, t: int, range: int)
    | PointsTerm(points: seq<(int, Term)>)
    | TimestampTerm(sel: nat, t: int)
    | CallTerm(f: string, args: seq<Term>)
    | TimedTerm(f: string, t: int, args: seq<Term>)
    | AggregateTerm(op: string, arg: Term, param: Term)
    | BinaryTerm(op: string, lhs: Term, rhs: Term)
    | UnaryTerm(op: string, arg: Term)
    | MisreadTerm(f: string, t: int)

  /** Every operation keeps its arguments; only unsafe functions keep the time. */
  function Free(): Model<Term> {
    Model(
      v => NumberTerm(v), s => TextTerm(s), (sel, t) => VectorTerm(sel, t), (sel, t, range) => RangeTerm(sel, t, range),
      ps => PointsTerm(ps), (sel, t) => TimestampTerm(sel, t),
      (f, t, args) => if LooksAtTime(f) then TimedTerm(f, t, args) else CallTerm(f, args),
      (op, a, p) => AggregateTerm(op, a, p), (op, l, r) => BinaryTerm(op, l, r), (op, a) => UnaryTerm(op, a),
      (f, t) => MisreadTerm(f, t))
  }

  // ---------------------------------------------------------------- agreement

  /** Subqueries have positive steps. */
  predicate Sized(x: Expr) {
    match x
    case Subquery(y, _, _, _, step) => step > 0 && Sized(y)
    case Call(_, args) => forall i :: 0 <= i < |args| ==> Sized(args[i])
    case Aggregate(_, y, p) => Sized(y) && Sized(p)
    case Binary(_, l, r) => Sized(l) && Sized(r)
    case Unary(_, y) => Sized(y)
    case Paren(y) => Sized(y)
    case StepInvariantExpr(y) => Sized(y)
    case _ => true
  }

  /** The steps of a child grid that fall in (lo, hi], among the first n. */
  function Shown(g: Steps, lo: int, hi: int, n: nat): (r: seq<nat>)
    ensures |r| <= n && forall i :: 0 <= i < |r| ==> r[i] < n
  {
    if n == 0 then []
    else Shown(g, lo, hi, n - 1) + (if lo < g.At(n - 1) <= hi then [n - 1] else [])
  }

  /** The steps of a subquery that step k of its parent shows. */
  function ShownAt(e: Expr, g: Steps, drift: int, k: nat): (r: seq<nat>)
    requires e.Subquery? && e.step > 0 && g.Valid()
    ensures forall i :: 0 <= i < |r| ==> r[i] < Below(e, g, drift).Count()
  {
    var hi := WindowStep(e.at, g, k) - EffectiveOffset(Pin(e.at), e.offset, g.start);
    Shown(Below(e, g, drift), hi - e.range, hi, Below(e, g, drift).Count())
  }

  /** The time that a selector or subquery of a query refers to at time t. */
  function MeantTime(q: Query, at: At, offset: int, t: int): int {
    Reference(Pin(Resolve(at, q)), t) - offset
  }

  /** The steps that a subquery means at time t. */
  function MeantSteps(q: Query, e: Expr, t: int): Steps
    requires e.Subquery? && e.step > 0
  {
    WindowSteps(MeantTime(q, e.at, e.offset, t), e.range, e.step)
  }

  /** Step k of g evaluates tree x to what e means at time t, as far as times decide it: they have the same
      shape, every selector is read at the time it means, every subquery shows the steps it means, and
      these agree in turn. */
  predicate Agree(q: Query, x: Expr, e: Expr, g: Steps, drift: int, k: nat, t: int)
    requires Sized(x) && Plain(e) && g.Valid() && k < g.Count()
    decreases x, 1
  {
    match x
    case StepInvariantExpr(y) => Agree(q, y, e, Once(g), drift, 0, t)
    case Paren(y) => Agree(q, y, e, g, drift, k, t)
    case _ => AgreeNode(q, x, Unwrap(e), g, drift, k, t)
  }

  predicate Node(x: Expr) {
    !x.Paren? && !x.StepInvariantExpr?
  }

  predicate AgreeNode(q: Query, x: Expr, m: Expr, g: Steps, drift: int, k: nat, t: int)
    requires Node(x) && Sized(x) && Plain(m) && g.Valid() && k < g.Count()
    decreases x, 0
  {
    match x
    case Number(_) => m == x
    case Text(_) => m == x
    case Vector(sel, at, offset) =>
      m.Vector? && m.sel == sel && g.At(k) - StoredOffset(Pin(at), offset, g.start, drift) == MeantTime(q, m.at, m.offset, t)
    case Range(sel, at, offset, range) =>
      m.Range? && m.sel == sel && m.range == range
      && WindowStep(at, g, k) - StoredOffset(Pin(at), offset, g.start, drift) == MeantTime(q, m.at, m.offset, t)
    case Subquery(y, _, _, _, _) =>
      m.Subquery? &&
      var child, shown, meant := Below(x, g, drift), ShownAt(x, g, drift, k), MeantSteps(q, m, t);
      |shown| == meant.Count() && forall j :: 0 <= j < |shown| ==>
        child.At(shown[j]) == meant.At(j) && Agree(q, y, m.expr, child, DriftBelow(x, g, drift), shown[j], meant.At(j))
    case Call(f, args) =>
      m.Call? && m.func == f && |m.args| == |args| &&
      if ReadsTimestamp(f, args) then
        var v := Unwrap(m.args[0]);
        v.Vector? && v.sel == args[0].sel && TimestampTime(args[0], g.At(k)) == MeantTime(q, v.at, v.offset, t)
      else
        && !IsTimestampOfSelector(f, m.args) && (LooksAtTime(f) ==> g.At(k) == t)
        && forall i :: 0 <= i < |args| ==> !HiddenRange(args[i]) && Agree(q, args[i], m.args[i], g, drift, k, t)
    case Aggregate(op, y, p) =>
      m.Aggregate? && m.op == op && Agree(q, y, m.expr, g, drift, k, t) && Agree(q, p, m.param, g, drift, k, t)
    case Binary(op, l, r) =>
      m.Binary? && m.op == op && Agree(q, l, m.lhs, g, drift, k, t) && Agree(q, r, m.rhs, g, drift, k, t)
    case Unary(op, y) => m.Unary? && m.op == op && Agree(q, y, m.expr, g, drift, k, t)
  }

  /** A node agrees with itself if it does without looking for parentheses. */
  lemma AgreeSelf(q: Query, e: Expr, g: Steps, k: nat, t: int)
    requires Node(e) && Sized(e) && Plain(e) && g.Valid() && k < g.Count()
    ensures Agree(q, e, e, g, 0, k, t) == AgreeNode(q, e, e, g, 0, k, t)
  {}

  // ---------------------------------------------------------------- what the evaluator shows

  /** The points that a window shows of a child evaluation. */
  ghost function Points<V>(child: Steps, vals: seq<V>, shown: seq<nat>): seq<(int, V)>
    requires forall i :: 0 <= i < |shown| ==> shown[i] < |vals|
  {
    seq(|shown|, i requires 0 <= i < |shown| => (child.At(shown[i]), vals[shown[i]]))
  }

  lemma {:induction false} ClipShows<V>(child: Steps, vals: seq<V>, lo: int, hi: int, n: nat)
    requires n <= |vals|
    ensures Clip(child, vals, lo, hi, n) == Points(child, vals, Shown(child, lo, hi, n))
  {
    if n > 0 {
      ClipShows(child, vals, lo, hi, n - 1);
    }
  }

  lemma EvalShows<V>(m: Model<V>, x: Expr, g: Steps, drift: int, k: nat)
    requires x.Subquery? && x.step > 0 && g.Valid() && k < g.Count()
    ensures
      var vals := Eval(m, x.expr, Below(x, g, drift), DriftBelow(x, g, drift));
      Eval(m, x, g, drift)[k] == m.points(Points(Below(x, g, drift), vals, ShownAt(x, g, drift, k)))
  {
    var hi := WindowStep(x.at, g, k) - EffectiveOffset(Pin(x.at), x.offset, g.start);
    var vals := Eval(m, x.expr, Below(x, g, drift), DriftBelow(x, g, drift));
    EvalSubqueryAt(m, x, g, drift, k);
    ClipShows(Below(x, g, drift), vals, hi - x.range, hi, |vals|);
  }

  /** The points that a subquery means. */
  ghost function MeantPoints<V>(m: Model<V>, q: Query, e: Expr, t: int): seq<(int, V)>
    requires e.Subquery? && Plain(e)
  {
    var meant := MeantSteps(q, e, t);
    seq(meant.Count(), j requires 0 <= j < meant.Count() => (meant.At(j), Den(m, q, e.expr, meant.At(j))))
  }

  lemma DenMeans<V>(m: Model<V>, q: Query, e: Expr, t: int)
    requires e.Subquery? && Plain(e)
    ensures Den(m, q, e, t) == m.points(MeantPoints(m, q, e, t))
  {}

  // ---------------------------------------------------------------- agreement is enough in every model

  lemma SubqueryMeans<V>(m: Model<V>, q: Query, x: Expr, e: Expr, g: Steps, drift: int, k: nat, t: int)
    requires x.Subquery? && Sized(x) && e.Subquery? && Plain(e) && g.Valid() && k < g.Count()
    requires AgreeNode(q, x, e, g, drift, k, t)
    requires
      var child, shown, meant := Below(x, g, drift), ShownAt(x, g, drift, k), MeantSteps(q, e, t);
      forall j :: 0 <= j < |shown| ==>
        Eval(m, x.expr, child, DriftBelow(x, g, drift))[shown[j]] == Den(m, q, e.expr, meant.At(j))
    ensures Eval(m, x, g, drift)[k] == Den(m, q, e, t)
  {
    var child, shown := Below(x, g, drift), ShownAt(x, g, drift, k);
    var vals := Eval(m, x.expr, child, DriftBelow(x, g, drift));
    EvalShows(m, x, g, drift, k);
    DenMeans(m, q, e, t);
    assert Points(child, vals, shown) == MeantPoints(m, q, e, t);
  }

  lemma TimestampMeans<V>(m: Model<V>, q: Query, x: Expr, e: Expr, g: Steps, drift: int, k: nat, t: int)
    requires x.Call? && ReadsTimestamp(x.func, x.args) && g.Valid() && k < g.Count()
    requires e.Call? && Plain(e) && IsTimestampOfSelector(e.func, e.args)
    ensures Eval(m, x, g, drift)[k] == m.timestamp(x.args[0].sel, TimestampTime(x.args[0], g.At(k)))
    ensures
      var v := Unwrap(e.args[0]);
      Den(m, q, e, t) == m.timestamp(v.sel, MeantTime(q, v.at, v.offset, t))
  {
    assert x == Call("timestamp", [x.args[0]]);
    TimestampEval(m, x, x.args[0], g, drift);
  }

  lemma CallMeans<V(!new)>(m: Model<V>, q: Query, x: Expr, e: Expr, g: Steps, drift: int, k: nat, t: int)
    requires x.Call? && !ReadsTimestamp(x.func, x.args) && g.Valid() && k < g.Count()
    requires e.Call? && Plain(e) && !IsTimestampOfSelector(e.func, e.args) && e.func == x.func && |e.args| == |x.args|
    requires SafeFunctionsIgnoreTime(m) && (LooksAtTime(x.func) ==> g.At(k) == t)
    requires forall i :: 0 <= i < |x.args| ==>
      !HiddenRange(x.args[i]) && Eval(m, x.args[i], g, drift)[k] == Den(m, q, e.args[i], t)
    ensures Eval(m, x, g, drift)[k] == Den(m, q, e, t)
  {
    var f, args := x.func, x.args;
    EvalCallAt(m, f, args, g, drift, k);
    var got := seq(|args|, i requires 0 <= i < |args| => Eval(m, args[i], g, drift)[k]);
    var want := seq(|args|, i requires 0 <= i < |args| => Den(m, q, e.args[i], t));
    assert got == want;
    assert Den(m, q, e, t) == m.call(f, t, want);
  }

  /** Where tree and query agree, the tree is evaluated to what the query means, in every model. */
  lemma {:induction false} AgreeMeans<V(!new)>(m: Model<V>, q: Query, x: Expr, e: Expr, g: Steps, drift: int, k: nat, t: int)
    requires Sized(x) && Plain(e) && g.Valid() && k < g.Count() && SafeFunctionsIgnoreTime(m)
    requires Agree(q, x, e, g, drift, k, t)
    ensures Eval(m, x, g, drift)[k] == Den(m, q, e, t)
    decreases x, 2
  {
    match x
    case StepInvariantExpr(y) =>
      HoistedAt(m, y, g, drift, k);
      AgreeMeans(m, q, y, e, Once(g), drift, 0, t);
    case Paren(y) => AgreeMeans(m, q, y, e, g, drift, k, t);
    case _ =>
      UnwrapDen(m, q, e, t);
      NodeAgreeMeans(m, q, x, Unwrap(e), g, drift, k, t);
  }

  lemma NodeAgreeMeans<V(!new)>(m: Model<V>, q: Query, x: Expr, e: Expr, g: Steps, drift: int, k: nat, t: int)
    requires Node(x) && Sized(x) && Plain(e)
    requires g.Valid() && k < g.Count() && SafeFunctionsIgnoreTime(m) && AgreeNode(q, x, e, g, drift, k, t)
    ensures Eval(m, x, g, drift)[k] == Den(m, q, e, t)
    decreases x, 1
  {
    if x.Subquery? {
      SubqueryAgreeMeans(m, q, x, e, g, drift, k, t);
    } else if x.Call? {
      CallAgreeMeans(m, q, x, e, g, drift, k, t);
    } else if Operator(x) {
      OperatorAgreeMeans(m, q, x, e, g, drift, k, t);
    } else {
      LeafAgreeMeans(m, q, x, e, g, drift, k, t);
    }
  }

  predicate Leaf(x: Expr) {
    x.Number? || x.Text? || x.Vector? || x.Range?
  }

  predicate Operator(x: Expr) {
    x.Aggregate? || x.Binary? || x.Unary?
  }

  lemma LeafAgreeMeans<V(!new)>(m: Model<V>, q: Query, x: Expr, e: Expr, g: Steps, drift: int, k: nat, t: int)
    requires Leaf(x) && Plain(e) && g.Valid() && k < g.Count() && AgreeNode(q, x, e, g, drift, k, t)
    ensures Eval(m, x, g, drift)[k] == Den(m, q, e, t)
  {}

  lemma OperatorAgreeMeans<V(!new)>(m: Model<V>, q: Query, x: Expr, e: Expr, g: Steps, drift: int, k: nat, t: int)
    requires Operator(x) && Sized(x) && Plain(e) && g.Valid() && k < g.Count() && SafeFunctionsIgnoreTime(m)
    requires AgreeNode(q, x, e, g, drift, k, t)
    ensures Eval(m, x, g, drift)[k] == Den(m, q, e, t)
    decreases x, 0
  {
    match x
    case Aggregate(_, y, p) =>
      AgreeMeans(m, q, y, e.expr, g, drift, k, t);
      AgreeMeans(m, q, p, e.param, g, drift, k, t);
    case Binary(_, l, r) =>
      AgreeMeans(m, q, l, e.lhs, g, drift, k, t);
      AgreeMeans(m, q, r, e.rhs, g, drift, k, t);
    case Unary(_, y) => AgreeMeans(m, q, y, e.expr, g, drift, k, t);
  }

  lemma SubqueryAgreeMeans<V(!new)>(m: Model<V>, q: Query, x: Expr, e: Expr, g: Steps, drift: int, k: nat, t: int)
    requires x.Subquery? && Sized(x) && Plain(e) && g.Valid() && k < g.Count() && SafeFunctionsIgnoreTime(m)
    requires AgreeNode(q, x, e, g, drift, k, t)
    ensures Eval(m, x, g, drift)[k] == Den(m, q, e, t)
    decreases x, 0
  {
    var child, shown, meant := Below(x, g, drift), ShownAt(x, g, drift, k), MeantSteps(q, e, t);
    forall j | 0 <= j < |shown|
      ensures Eval(m, x.expr, child, DriftBelow(x, g, drift))[shown[j]] == Den(m, q, e.expr, meant.At(j))
    {
      AgreeMeans(m, q, x.expr, e.expr, child, DriftBelow(x, g, drift), shown[j], meant.At(j));
    }
    SubqueryMeans(m, q, x, e, g, drift, k, t);
  }

  lemma CallAgreeMeans<V(!new)>(m: Model<V>, q: Query, x: Expr, e: Expr, g: Steps, drift: int, k: nat, t: int)
    requires x.Call? && Sized(x) && Plain(e) && g.Valid() && k < g.Count() && SafeFunctionsIgnoreTime(m)
    requires AgreeNode(q, x, e, g, drift, k, t)
    ensures Eval(m, x, g, drift)[k] == Den(m, q, e, t)
    decreases x, 0
  {
    if ReadsTimestamp(x.func, x.args) {
      TimestampMeans(m, q, x, e, g, drift, k, t);
    } else {
      forall i | 0 <= i < |x.args| ensures Eval(m, x.args[i], g, drift)[k] == Den(m, q, e.args[i], t) {
        AgreeMeans(m, q, x.args[i], e.args[i], g, drift, k, t);
      }
      CallMeans(m, q, x, e, g, drift, k, t);
    }
  }

  lemma {:induction false} UnwrapTwice(e: Expr)
    ensures Unwrap(Unwrap(e)) == Unwrap(e)
  {}

  /** Parentheses in the query do not matter. */
  lemma {:induction false} UnwrapOnce(q: Query, x: Expr, e: Expr, g: Steps, drift: int, k: nat, t: int)
    requires Sized(x) && Plain(e) && g.Valid() && k < g.Count()
    ensures Agree(q, x, Unwrap(e), g, drift, k, t) == Agree(q, x, e, g, drift, k, t)
    decreases x
  {
    UnwrapTwice(e);
    match x
    case StepInvariantExpr(y) => UnwrapOnce(q, y, e, Once(g), drift, 0, t);
    case Paren(y) => UnwrapOnce(q, y, e, g, drift, k, t);
    case _ =>
  }

  // ---------------------------------------------------------------- agreement is needed in free terms

  lemma SubqueryShowsWrong(q: Query, x: Expr, e: Expr, g: Steps, drift: int, k: nat, t: int)
    requires x.Subquery? && Sized(x) && e.Subquery? && Plain(e) && g.Valid() && k < g.Count()
    requires Eval(Free(), x, g, drift)[k] == Den(Free(), q, e, t)
    ensures
      var child, shown, meant := Below(x, g, drift), ShownAt(x, g, drift, k), MeantSteps(q, e, t);
      |shown| == meant.Count() && forall j :: 0 <= j < |shown| ==>
        child.At(shown[j]) == meant.At(j)
        && Eval(Free(), x.expr, child, DriftBelow(x, g, drift))[shown[j]] == Den(Free(), q, e.expr, meant.At(j))
  {
    var child, shown := Below(x, g, drift), ShownAt(x, g, drift, k);
    var vals := Eval(Free(), x.expr, child, DriftBelow(x, g, drift));
    EvalShows(Free(), x, g, drift, k);
    DenMeans(Free(), q, e, t);
    var a, b := Points(child, vals, shown), MeantPoints(Free(), q, e, t);
    assert a == b;
    forall j | 0 <= j < |a| ensures child.At(shown[j]) == MeantSteps(q, e, t).At(j)
      ensures vals[shown[j]] == Den(Free(), q, e.expr, MeantSteps(q, e, t).At(j))
    {
      assert a[j] == b[j];
    }
  }

  lemma LeafNeeds(q: Query, x: Expr, e: Expr, g: Steps, drift: int, k: nat, t: int)
    requires Leaf(x) && !e.Paren? && Plain(e) && g.Valid() && k < g.Count()
    requires Eval(Free(), x, g, drift)[k] == Den(Free(), q, e, t)
    ensures AgreeNode(q, x, e, g, drift, k, t)
  {}

  lemma SubqueryNeeds(q: Query, x: Expr, e: Expr, g: Steps, drift: int, k: nat, t: int)
    requires x.Subquery? && Sized(x) && !e.Paren? && Plain(e) && g.Valid() && k < g.Count()
    requires Eval(Free(), x, g, drift)[k] == Den(Free(), q, e, t)
    ensures AgreeNode(q, x, e, g, drift, k, t)
    decreases x, 0
  {
    EvalShows(Free(), x, g, drift, k);
    SubqueryShowsWrong(q, x, e, g, drift, k, t);
    var child, shown, meant := Below(x, g, drift), ShownAt(x, g, drift, k), MeantSteps(q, e, t);
    forall j | 0 <= j < |shown|
      ensures Agree(q, x.expr, e.expr, child, DriftBelow(x, g, drift), shown[j], meant.At(j))
    {
      AgreeIsNeeded(q, x.expr, e.expr, child, DriftBelow(x, g, drift), shown[j], meant.At(j));
    }
  }

  lemma OperatorNeeds(q: Query, x: Expr, e: Expr, g: Steps, drift: int, k: nat, t: int)
    requires Operator(x) && Sized(x) && !e.Paren? && Plain(e) && g.Valid() && k < g.Count()
    requires Eval(Free(), x, g, drift)[k] == Den(Free(), q, e, t)
    ensures AgreeNode(q, x, e, g, drift, k, t)
    decreases x, 0
  {
    match x
    case Aggregate(_, y, p) =>
      AgreeIsNeeded(q, y, e.expr, g, drift, k, t);
      AgreeIsNeeded(q, p, e.param, g, drift, k, t);
    case Binary(_, l, r) =>
      AgreeIsNeeded(q, l, e.lhs, g, drift, k, t);
      AgreeIsNeeded(q, r, e.rhs, g, drift, k, t);
    case Unary(_, y) => AgreeIsNeeded(q, y, e.expr, g, drift, k, t);
  }

  /** A call is evaluated to a term that shows its function, its time if that is looked at, and its arguments. */
  lemma CallShows(q: Query, x: Expr, e: Expr, g: Steps, drift: int, k: nat, t: int)
    requires x.Call? && !ReadsTimestamp(x.func, x.args) && !e.Paren? && Plain(e) && g.Valid() && k < g.Count()
    requires Eval(Free(), x, g, drift)[k] == Den(Free(), q, e, t)
    ensures forall i :: 0 <= i < |x.args| ==> !HiddenRange(x.args[i])
    ensures e.Call? && e.func == x.func && |e.args| == |x.args| && !IsTimestampOfSelector(e.func, e.args)
    ensures LooksAtTime(x.func) ==> g.At(k) == t
    ensures forall i :: 0 <= i < |x.args| ==> Eval(Free(), x.args[i], g, drift)[k] == Den(Free(), q, e.args[i], t)
  {
    var f, args := x.func, x.args;
    if forall i :: 0 <= i < |args| ==> !HiddenRange(args[i]) {
      EvalCallAt(Free(), f, args, g, drift, k);
      var got := seq(|args|, i requires 0 <= i < |args| => Eval(Free(), args[i], g, drift)[k]);
      assert e.Call? && !IsTimestampOfSelector(e.func, e.args);
      var want := seq(|e.args|, i requires 0 <= i < |e.args| => Den(Free(), q, e.args[i], t));
      assert Den(Free(), q, e, t) == Free().call(e.func, t, want);
      assert got == want;
      forall i | 0 <= i < |args| ensures Eval(Free(), args[i], g, drift)[k] == Den(Free(), q, e.args[i], t) {
        assert got[i] == want[i];
      }
    }
  }

  lemma CallNeeds(q: Query, x: Expr, e: Expr, g: Steps, drift: int, k: nat, t: int)
    requires x.Call? && Sized(x) && !e.Paren? && Plain(e) && g.Valid() && k < g.Count()
    requires Eval(Free(), x, g, drift)[k] == Den(Free(), q, e, t)
    ensures AgreeNode(q, x, e, g, drift, k, t)
    decreases x, 0
  {
    if ReadsTimestamp(x.func, x.args) {
      TimestampNeeds(q, x, e, g, drift, k, t);
    } else {
      CallShows(q, x, e, g, drift, k, t);
      forall i | 0 <= i < |x.args| ensures Agree(q, x.args[i], e.args[i], g, drift, k, t) {
        AgreeIsNeeded(q, x.args[i], e.args[i], g, drift, k, t);
      }
    }
  }

  lemma TimestampNeeds(q: Query, x: Expr, e: Expr, g: Steps, drift: int, k: nat, t: int)
    requires x.Call? && ReadsTimestamp(x.func, x.args) && Sized(x) && !e.Paren? && Plain(e) && g.Valid() && k < g.Count()
    requires Eval(Free(), x, g, drift)[k] == Den(Free(), q, e, t)
    ensures AgreeNode(q, x, e, g, drift, k, t)
  {
    assert x == Call("timestamp", [x.args[0]]);
    TimestampEval(Free(), x, x.args[0], g, drift);
    assert e.Call? && IsTimestampOfSelector(e.func, e.args);
  }

  /** In free terms nothing but agreement gives the right value. */
  lemma {:induction false} AgreeIsNeeded(q: Query, x: Expr, e: Expr, g: Steps, drift: int, k: nat, t: int)
    requires Sized(x) && Plain(e) && g.Valid() && k < g.Count()
    requires Eval(Free(), x, g, drift)[k] == Den(Free(), q, e, t)
    ensures Agree(q, x, e, g, drift, k, t)
    decreases x, 2
  {
    match x
    case StepInvariantExpr(y) =>
      HoistedAt(Free(), y, g, drift, k);
      AgreeIsNeeded(q, y, e, Once(g), drift, 0, t);
    case Paren(y) => AgreeIsNeeded(q, y, e, g, drift, k, t);
    case _ =>
      UnwrapDen(Free(), q, e, t);
      NodeNeeds(q, x, Unwrap(e), g, drift, k, t);
  }

  lemma NodeNeeds(q: Query, x: Expr, e: Expr, g: Steps, drift: int, k: nat, t: int)
    requires Node(x) && Sized(x) && !e.Paren? && Plain(e) && g.Valid() && k < g.Count()
    requires Eval(Free(), x, g, drift)[k] == Den(Free(), q, e, t)
    ensures AgreeNode(q, x, e, g, drift, k, t)
    decreases x, 1
  {
    if x.Subquery? {
      SubqueryNeeds(q, x, e, g, drift, k, t);
    } else if x.Call? {
      CallNeeds(q, x, e, g, drift, k, t);
    } else if Operator(x) {
      OperatorNeeds(q, x, e, g, drift, k, t);
    } else {
      LeafNeeds(q, x, e, g, drift, k, t);
    }
  }

  lemma FreeIsSafe()
    ensures SafeFunctionsIgnoreTime(Free())
  {}

  lemma AgreeIsEnough(q: Query, x: Expr, e: Expr, g: Steps, drift: int, k: nat, t: int)
    requires Sized(x) && Plain(e) && g.Valid() && k < g.Count() && Agree(q, x, e, g, drift, k, t)
    ensures Eval(Free(), x, g, drift)[k] == Den(Free(), q, e, t)
  {
    FreeIsSafe();
    AgreeMeans(Free(), q, x, e, g, drift, k, t);
  }

  // ---------------------------------------------------------------- whole queries

  /** The rewritten query agrees with the query at every step. */
  predicate QueryAgrees(q: Query, e: Expr, g: Steps)
    requires Sized(PreprocessExpr(q, e)) && Plain(e) && g.Valid()
  {
    forall k: nat :: k < g.Count() ==> Agree(q, PreprocessExpr(q, e), e, g, 0, k, g.At(k))
  }

  lemma {:induction false} PreprocessSized(q: Query, e: Expr)
    requires Plain(e)
    ensures Sized(Preprocess(q, e).expr) && Sized(PreprocessExpr(q, e))
    decreases e
  {
    match e
    case Subquery(x, _, _, _, _) => PreprocessSized(q, x);
    case Call(f, args) =>
      forall i | 0 <= i < |args| ensures Sized(Preprocess(q, e).expr.args[i]) {
        PreprocessSized(q, Unwrap(args[i]));
      }
    case Aggregate(_, x, p) =>
      PreprocessSized(q, Unwrap(x));
      PlainSized(Unwrap(p));
    case Binary(_, l, r) =>
      PreprocessSized(q, l);
      PreprocessSized(q, r);
    case Unary(_, x) => PreprocessSized(q, x);
    case Paren(x) => PreprocessSized(q, x);
    case _ =>
  }

  lemma {:induction false} PlainSized(e: Expr)
    requires Plain(e)
    ensures Sized(e)
    decreases e
  {
    match e
    case Subquery(x, _, _, _, _) => PlainSized(x);
    case Call(_, args) =>
      forall i | 0 <= i < |args| ensures Sized(args[i]) {
        PlainSized(args[i]);
      }
    case Aggregate(_, x, p) =>
      PlainSized(x);
      PlainSized(p);
    case Binary(_, l, r) =>
      PlainSized(l);
      PlainSized(r);
    case Unary(_, x) => PlainSized(x);
    case Paren(x) => PlainSized(x);
    case _ =>
  }

  /** If the rewritten query agrees with the query, it means the same in every model. */
  lemma AgreementMeans<V(!new)>(m: Model<V>, q: Query, e: Expr, g: Steps)
    requires Plain(e) && g.Valid() && SafeFunctionsIgnoreTime(m) && Sized(PreprocessExpr(q, e)) && QueryAgrees(q, e, g)
    ensures Denotes(m, q, e, Eval(m, PreprocessExpr(q, e), g, 0), g)
  {
    forall k: nat | k < g.Count() ensures Eval(m, PreprocessExpr(q, e), g, 0)[k] == Den(m, q, e, g.At(k)) {
      AgreeMeans(m, q, PreprocessExpr(q, e), e, g, 0, k, g.At(k));
    }
  }

  lemma AgreementIsNeeded(q: Query, e: Expr, g: Steps)
    requires Plain(e) && g.Valid() && Sized(PreprocessExpr(q, e))
    requires Denotes(Free(), q, e, Eval(Free(), PreprocessExpr(q, e), g, 0), g)
    ensures QueryAgrees(q, e, g)
  {
    forall k: nat | k < g.Count() ensures Agree(q, PreprocessExpr(q, e), e, g, 0, k, g.At(k)) {
      AgreeIsNeeded(q, PreprocessExpr(q, e), e, g, 0, k, g.At(k));
    }
  }

  /** And only then: for every query and every grid, the rewritten query means the query in free terms
      exactly if they agree. */
  lemma AgreementIsExact(q: Query, e: Expr, g: Steps)
    requires Plain(e) && g.Valid()
    ensures Sized(PreprocessExpr(q, e))
    ensures Denotes(Free(), q, e, Eval(Free(), PreprocessExpr(q, e), g, 0), g) <==> QueryAgrees(q, e, g)
  {
    PreprocessSized(q, e);
    if QueryAgrees(q, e, g) {
      FreeIsSafe();
      AgreementMeans(Free(), q, e, g);
    }
    if Denotes(Free(), q, e, Eval(Free(), PreprocessExpr(q, e), g, 0), g) {
      AgreementIsNeeded(q, e, g);
    }
  }

  /** The readable condition of the rewriting theorem is a case of agreement. */
  lemma OkAgrees(q: Query, e: Expr, g: Steps)
    requires Plain(e) && g.Valid() && Ok(q, e, g, 0)
    ensures Sized(PreprocessExpr(q, e)) && QueryAgrees(q, e, g)
  {
    FreeIsSafe();
    QueryPreservesMeaning(Free(), q, e, g);
    AgreementIsExact(q, e, g);
  }
}
