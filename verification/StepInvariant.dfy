/** The query rewrite that hoists step-invariant subtrees, and a proof that it preserves meaning.

    `Den` is the meaning of an expression at one instant.  `Eval` is what the evaluator does: it
    evaluates a tree over a whole grid of steps, runs each subquery once on a grid of its own, and
    evaluates a StepInvariant node at the first step only, repeating the result.  An @ timestamp reaches
    it only as the offset that was stored for the first step of the grid. */
module StepInvariant {
  import opened Basics
  import opened Grid

  datatype At = NoAt | AtTime(ts: int) | AtStart | AtEnd

  datatype Expr =
    | Number(v: real)
    | Text(s: string)
    | Vector(sel: nat, at: At, offset: int)
    | Range(sel: nat, at: At, offset: int, range: int)
    | Subquery(expr: Expr, at: At, offset: int, range: int, step: int)
    | Call(func: string, args: seq<Expr>)
    | Aggregate(op: string, expr: Expr, param: Expr)
    | Binary(op: string, lhs: Expr, rhs: Expr)
    | Unary(op: string, expr: Expr)
    | Paren(expr: Expr)
    | StepInvariantExpr(expr: Expr)

  /** Bounds of the whole query, which `@ start()` and `@ end()` refer to. */
  datatype Query = Query(start: int, end: int)

  /** An arbitrary interpretation of selectors, operators and functions over values V.
      `range` receives the reference time, which is what rate and friends extrapolate to; `misread` is
      whatever a call makes of a range argument in parentheses, which the evaluator does not look into. */
  datatype Model<!V> = Model(
    number: real -> V,
    text: string -> V,
    vector: (nat, int) -> V,
    range: (nat, int, int) -> V,
    points: seq<(int, V)> -> V,
    timestamp: (nat, int) -> V,
    call: (string, int, seq<V>) -> V,
    aggregate: (string, V, V) -> V,
    binary: (string, V, V) -> V,
    unary: (string, V) -> V,
    misread: (string, int) -> V)

  const UNSAFE_FUNCTIONS: set<string> := {
    "days_in_month", "day_of_month", "day_of_week", "day_of_year",
    "end", "hour", "minute", "month", "year",
    "predict_linear", "range", "start", "step", "time", "timestamp"}

  /** The functions whose value depends on the evaluation time although their arguments do not: the parts of
      the date, the query context, the clock, extrapolation, and the timestamps of samples. */
  predicate LooksAtTime(f: string) {
    || f == "time" || f == "timestamp" || f == "predict_linear"
    || f == "minute" || f == "hour" || f == "month" || f == "year"
    || f == "day_of_week" || f == "day_of_month" || f == "day_of_year" || f == "days_in_month"
    || f == "start" || f == "end" || f == "step" || f == "range"
  }

  /** The list that the rewrite uses holds exactly these. */
  lemma UnsafeLookAtTime(f: string)
    ensures f in UNSAFE_FUNCTIONS <==> LooksAtTime(f)
  {}

  /** No other function may look at the evaluation time. */
  ghost predicate SafeFunctionsIgnoreTime<V(!new)>(m: Model<V>) {
    forall f, t, t', args :: !LooksAtTime(f) ==> m.call(f, t, args) == m.call(f, t', args)
  }

  // ---------------------------------------------------------------- meaning at one instant

  function Resolve(at: At, q: Query): At {
    match at
    case AtStart => AtTime(q.start)
    case AtEnd => AtTime(q.end)
    case _ => at
  }

  /** The timestamp the evaluator sees; it ignores unresolved modifiers. */
  function Pin(at: At): Option<int> {
    if at.AtTime? then Some(at.ts) else None
  }

  function Unwrap(e: Expr): (r: Expr)
    ensures !r.Paren? && (r == e || r < e)
    ensures Plain(e) ==> Plain(r)
  {
    if e.Paren? then Unwrap(e.expr) else e
  }

  predicate IsTimestampOfSelector(func: string, args: seq<Expr>) {
    func == "timestamp" && |args| == 1 && Unwrap(args[0]).Vector?
  }

  /** Trees as the parser produces them: no StepInvariant node, positive steps and ranges of subqueries. */
  predicate Plain(e: Expr) {
    match e
    case Subquery(x, _, _, range, step) => step > 0 && range > 0 && Plain(x)
    case Call(f, args) => (f == "timestamp" ==> |args| == 1) && forall i :: 0 <= i < |args| ==> Plain(args[i])
    case Aggregate(_, x, p) => Plain(x) && Plain(p)
    case Binary(_, l, r) => Plain(l) && Plain(r)
    case Unary(_, x) => Plain(x)
    case Paren(x) => Plain(x)
    case StepInvariantExpr(_) => false
    case _ => true
  }

  /** A range in parentheses. */
  predicate HiddenRange(a: Expr) {
    a.Paren? && (Unwrap(a).Range? || Unwrap(a).Subquery?)
  }

  function WindowSteps(hi: int, range: int, step: int): Steps
    requires step > 0
  {
    Steps(WindowStart(hi - range, step), hi, step)
  }

  function Den<V>(m: Model<V>, q: Query, e: Expr, t: int): V
    requires Plain(e)
    decreases e
  {
    match e
    case Number(v) => m.number(v)
    case Text(s) => m.text(s)
    case Vector(sel, at, offset) => m.vector(sel, Reference(Pin(Resolve(at, q)), t) - offset)
    case Range(sel, at, offset, range) => m.range(sel, Reference(Pin(Resolve(at, q)), t) - offset, range)
    case Subquery(x, at, offset, range, step) =>
      var w := WindowSteps(Reference(Pin(Resolve(at, q)), t) - offset, range, step);
      m.points(seq(w.Count(), k requires 0 <= k < w.Count() => (w.At(k), Den(m, q, x, w.At(k)))))
    case Call(f, args) =>
      if IsTimestampOfSelector(f, args) then
        var v := Unwrap(args[0]);
        m.timestamp(v.sel, Reference(Pin(Resolve(v.at, q)), t) - v.offset)
      else
        m.call(f, t, seq(|args|, i requires 0 <= i < |args| => Den(m, q, args[i], t)))
    case Aggregate(op, x, p) => m.aggregate(op, Den(m, q, x, t), Den(m, q, p, t))
    case Binary(op, l, r) => m.binary(op, Den(m, q, l, t), Den(m, q, r, t))
    case Unary(op, x) => m.unary(op, Den(m, q, x, t))
    case Paren(x) => Den(m, q, x, t)
  }

  // ---------------------------------------------------------------- the rewrite

  /** Result of preprocessing: the rewritten tree, whether it is step invariant, and whether an
      enclosing node should wrap it. */
  datatype Pre = Pre(expr: Expr, hoistable: bool, wrap: bool)

  function Wrap(p: Pre): Expr {
    if p.wrap then StepInvariantExpr(p.expr) else p.expr
  }

  function Preprocess(q: Query, e: Expr): Pre
    decreases e
  {
    match e
    case Number(_) => Pre(e, true, false)
    case Text(_) => Pre(e, true, false)
    case Vector(sel, at, offset) =>
      var at' := Resolve(at, q);
      Pre(Vector(sel, at', offset), at'.AtTime?, at'.AtTime?)
    case Range(sel, at, offset, range) =>
      var at' := Resolve(at, q);
      Pre(Range(sel, at', offset, range), at'.AtTime?, false)
    case Subquery(x, at, offset, range, step) =>
      var p := Preprocess(q, x);
      var at' := Resolve(at, q);
      var x' := if p.hoistable then StepInvariantExpr(p.expr) else p.expr;
      Pre(Subquery(x', at', offset, range, step), at'.AtTime?, false)
    case Call(f, args) =>
      var n := |args|;
      var allInvariant := forall i :: 0 <= i < n ==> Preprocess(q, Unwrap(args[i])).hoistable;
      var allSelectors := forall i :: 0 <= i < n ==> Unwrap(args[i]).Vector?;
      if allInvariant && (f !in UNSAFE_FUNCTIONS || (f == "timestamp" && allSelectors)) then
        Pre(Call(f, seq(n, i requires 0 <= i < n => Preprocess(q, Unwrap(args[i])).expr)), true, true)
      else
        Pre(Call(f, seq(n, i requires 0 <= i < n => Wrap(Preprocess(q, Unwrap(args[i]))))), false, false)
    case Aggregate(op, x, param) =>
      var p := Preprocess(q, Unwrap(x));
      Pre(Aggregate(op, p.expr, Unwrap(param)), p.hoistable, p.wrap)
    case Binary(op, l, r) =>
      var pl, pr := Preprocess(q, l), Preprocess(q, r);
      if pl.hoistable && pr.hoistable then
        Pre(Binary(op, pl.expr, pr.expr), true, true)
      else
        Pre(Binary(op, Wrap(pl), Wrap(pr)), false, false)
    case Unary(op, x) =>
      var p := Preprocess(q, x);
      Pre(Unary(op, p.expr), p.hoistable, p.wrap)
    case Paren(x) =>
      var p := Preprocess(q, x);
      Pre(Paren(p.expr), p.hoistable, p.wrap)
    case StepInvariantExpr(x) => Pre(e, false, false)
  }

  function PreprocessExpr(q: Query, e: Expr): Expr {
    Wrap(Preprocess(q, e))
  }

  // ---------------------------------------------------------------- the evaluator

  /** The points of a child grid that fall in (lo, hi]. */
  function Clip<V>(g: Steps, vals: seq<V>, lo: int, hi: int, n: nat): seq<(int, V)>
    requires n <= |vals|
  {
    if n == 0 then []
    else if lo < g.At(n - 1) <= hi then Clip(g, vals, lo, hi, n - 1) + [(g.At(n - 1), vals[n - 1])]
    else Clip(g, vals, lo, hi, n - 1)
  }

  /** The step that a range selector or the result of a subquery is read at: with an @ timestamp only
      the first. */
  function WindowStep(at: At, g: Steps, k: int): int {
    if at.AtTime? then g.start else g.At(k)
  }

  /** The window each parent step sees of a subquery's child evaluation. */
  function SubqueryColumns<V>(m: Model<V>, at: At, off: int, range: int, g: Steps, child: Steps, vals: seq<V>): (r: seq<V>)
    requires g.Valid()
    ensures |r| == g.Count()
  {
    seq(g.Count(), k =>
      var hi := WindowStep(at, g, k) - off;
      m.points(Clip(child, vals, hi - range, hi, |vals|)))
  }

  function Column<V>(vals: seq<seq<V>>, k: nat): (r: seq<V>)
    requires forall i :: 0 <= i < |vals| ==> k < |vals[i]|
    ensures |r| == |vals|
  {
    seq(|vals|, i requires 0 <= i < |vals| => vals[i][k])
  }

  function CallColumns<V>(m: Model<V>, f: string, g: Steps, vals: seq<seq<V>>): (r: seq<V>)
    requires g.Valid() && forall i :: 0 <= i < |vals| ==> |vals[i]| == g.Count()
    ensures |r| == g.Count()
  {
    seq(g.Count(), k requires 0 <= k < g.Count() => m.call(f, g.At(k), Column(vals, k)))
  }

  function Below(e: Expr, g: Steps, drift: int): Steps
    requires e.Subquery? && e.step > 0 && g.Valid()
  {
    ChildGrid(g, Pin(e.at), e.offset, e.range, e.step, drift)
  }

  function DriftBelow(e: Expr, g: Steps, drift: int): int
    requires e.Subquery? && e.step > 0 && g.Valid()
  {
    ChildDrift(g, Pin(e.at), e.offset, Below(e, g, drift), drift)
  }

  predicate ReadsTimestamp(f: string, args: seq<Expr>) {
    f == "timestamp" && |args| == 1 && args[0].Vector?
  }

  /** The timestamp function sets the offset of its selector itself, step by step, and forgets the
      selector's own. */
  function TimestampTime(v: Expr, t: int): int
    requires v.Vector?
  {
    if v.at.AtTime? then v.at.ts else t - v.offset
  }

  /** Evaluation over a grid; one value per step. */
  function Eval<V>(m: Model<V>, e: Expr, g: Steps, drift: int): (r: seq<V>)
    requires g.Valid()
    ensures |r| == g.Count()
    decreases e
  {
    var n := g.Count();
    match e
    case Number(v) => seq(n, k => m.number(v))
    case Text(s) => seq(n, k => m.text(s))
    case Vector(sel, at, offset) => seq(n, k => m.vector(sel, g.At(k) - StoredOffset(Pin(at), offset, g.start, drift)))
    case Range(sel, at, offset, range) =>
      seq(n, k => m.range(sel, WindowStep(at, g, k) - StoredOffset(Pin(at), offset, g.start, drift), range))
    case Subquery(x, at, offset, range, step) =>
      if step <= 0 then seq(n, k => m.points([])) else
      var child := Below(e, g, drift);
      var vals := Eval(m, x, child, DriftBelow(e, g, drift));
      SubqueryColumns(m, at, EffectiveOffset(Pin(at), offset, g.start), range, g, child, vals)
    case Call(f, args) =>
      if ReadsTimestamp(f, args) then seq(n, k => m.timestamp(args[0].sel, TimestampTime(args[0], g.At(k))))
      else if exists i :: 0 <= i < |args| && HiddenRange(args[i]) then
        seq(n, k => m.misread(f, g.At(k)))
      else
        CallColumns(m, f, g, seq(|args|, i requires 0 <= i < |args| => Eval(m, args[i], g, drift)))
    case Aggregate(op, x, p) =>
      var vals, params := Eval(m, x, g, drift), Eval(m, p, g, drift);
      seq(n, k requires 0 <= k < n => m.aggregate(op, vals[k], params[k]))
    case Binary(op, l, r) =>
      var ls, rs := Eval(m, l, g, drift), Eval(m, r, g, drift);
      seq(n, k requires 0 <= k < n => m.binary(op, ls[k], rs[k]))
    case Unary(op, x) =>
      var vals := Eval(m, x, g, drift);
      seq(n, k requires 0 <= k < n => m.unary(op, vals[k]))
    case Paren(x) => Eval(m, x, g, drift)
    case StepInvariantExpr(x) =>
      if n == 0 then [] else
      var once := Eval(m, x, Once(g), drift);
      seq(n, k => once[0])
  }

  // ---------------------------------------------------------------- windows

  /** Clipping a contiguous block of steps keeps exactly that block. */
  lemma {:induction false} ClipBlock<V>(g: Steps, vals: seq<V>, lo: int, hi: int, first: nat, count: nat, n: nat)
    requires first + count <= |vals| && n <= |vals|
    requires forall j :: 0 <= j < |vals| ==> (lo < g.At(j) <= hi <==> first <= j < first + count)
    ensures
      var kept := if n <= first then 0 else if n <= first + count then n - first else count;
      Clip(g, vals, lo, hi, n) == seq(kept, k requires 0 <= k < kept => (g.At(first + k), vals[first + k]))
  {
    if n > 0 {
      ClipBlock(g, vals, lo, hi, first, count, n - 1);
    }
  }

  /** A window without a multiple of the step sees nothing of the child grid. */
  lemma EmptyWindow(g: Steps, off: int, range: int, step: int, t: int, j: nat)
    requires g.Valid() && step > 0 && g.Has(t) && WindowSteps(t - off, range, step).Count() == 0
    requires j < SubqueryTimeRange(g, off, range, step).Count()
    ensures !(t - off - range < SubqueryTimeRange(g, off, range, step).At(j) <= t - off)
  {
    var child := SubqueryTimeRange(g, off, range, step);
    var lo, hi := t - off - range, t - off;
    SubqueryStart(g, off, range, step);
    AtHas(child, j);
    if lo < child.At(j) <= hi {
      SubqueryWindow(g, off, range, step, t, child.At(j));
      NoMultipleBetween(lo, child.At(j), WindowSteps(hi, range, step).start, step);
    }
  }

  /** The steps of the child grid that a window sees are consecutive. */
  lemma WindowBlock(g: Steps, off: int, range: int, step: int, t: int, first: nat, j: nat)
    requires g.Valid() && step > 0 && g.Has(t) && WindowSteps(t - off, range, step).Count() > 0
    requires
      var child := SubqueryTimeRange(g, off, range, step);
      j < child.Count() && first < child.Count() && child.At(first) == WindowSteps(t - off, range, step).start
    ensures
      var child, w := SubqueryTimeRange(g, off, range, step), WindowSteps(t - off, range, step);
      && (t - off - range < child.At(j) <= t - off <==> first <= j < first + w.Count())
      && child.At(j) == w.At(j - first)
  {
    var child, w := SubqueryTimeRange(g, off, range, step), WindowSteps(t - off, range, step);
    var lo, hi := t - off - range, t - off;
    SubqueryStart(g, off, range, step);
    assert child.At(j) == w.At(j - first) by { assert (j - first) * step == j * step - first * step; }
    AtHas(child, j);
    AtHas(w, j - first);
    if lo < child.At(j) <= hi {
      SubqueryWindow(g, off, range, step, t, child.At(j));
      NoMultipleBetween(lo, child.At(j), w.start, step);
      MultipleGap(w.start, child.At(j), step);
    }
  }

  /** The window that a parent step sees through the child grid consists of the multiples of the
      subquery step in that window, wherever the parent grid starts or ends. */
  lemma WindowThroughChild<V>(g: Steps, off: int, range: int, step: int, vals: seq<V>, t: int)
    requires g.Valid() && step > 0 && g.Has(t)
    requires |vals| == SubqueryTimeRange(g, off, range, step).Count()
    ensures
      var child := SubqueryTimeRange(g, off, range, step);
      var w := WindowSteps(t - off, range, step);
      var c := Clip(child, vals, t - off - range, t - off, |vals|);
      && |c| == w.Count()
      && forall k :: 0 <= k < |c| ==> exists j :: 0 <= j < |vals| && child.At(j) == w.At(k) && c[k] == (w.At(k), vals[j])
  {
    var child := SubqueryTimeRange(g, off, range, step);
    var lo, hi := t - off - range, t - off;
    var w := WindowSteps(hi, range, step);
    if w.Count() == 0 {
      forall j | 0 <= j < |vals| ensures !(lo < child.At(j) <= hi) {
        EmptyWindow(g, off, range, step, t, j);
      }
      ClipBlock(child, vals, lo, hi, 0, 0, |vals|);
    } else {
      var first := WindowFirst(g, off, range, step, t);
      ClipBlock(child, vals, lo, hi, first, w.Count(), |vals|);
      forall k | 0 <= k < w.Count()
        ensures exists j :: 0 <= j < |vals| && child.At(j) == w.At(k) &&
                            Clip(child, vals, lo, hi, |vals|)[k] == (w.At(k), vals[j])
      {
        var j := first + k;
        assert child.At(j) == w.At(j - first);
      }
    }
  }

  /** Where the window begins in the child grid. */
  lemma WindowFirst(g: Steps, off: int, range: int, step: int, t: int) returns (first: nat)
    requires g.Valid() && step > 0 && g.Has(t) && WindowSteps(t - off, range, step).Count() > 0
    ensures
      var child, w := SubqueryTimeRange(g, off, range, step), WindowSteps(t - off, range, step);
      && first + w.Count() <= child.Count()
      && (forall j :: 0 <= j < child.Count() ==>
        (t - off - range < child.At(j) <= t - off <==> first <= j < first + w.Count()))
      && (forall j :: 0 <= j < child.Count() ==> child.At(j) == w.At(j - first))
  {
    var child, w := SubqueryTimeRange(g, off, range, step), WindowSteps(t - off, range, step);
    AtHas(w, 0);
    SubqueryWindow(g, off, range, step, t, w.start);
    first := HasAt(child, w.start);
    forall j | 0 <= j < child.Count()
      ensures t - off - range < child.At(j) <= t - off <==> first <= j < first + w.Count()
      ensures child.At(j) == w.At(j - first)
    {
      WindowBlock(g, off, range, step, t, first, j);
    }
    WindowEnd(g, off, range, step, t, first);
  }

  lemma NoMultipleBetween(lo: int, u: int, s: int, step: int)
    requires step > 0 && lo < u && u % step == 0 && s % step == 0 && s - step <= lo
    ensures s <= u
  {
    if u < s {
      MultipleGap(u, s, step);
      DivModUnique(s - u, step, 0, s - u);
    }
  }

  lemma WindowEnd(g: Steps, off: int, range: int, step: int, t: int, first: int)
    requires g.Valid() && step > 0 && g.Has(t)
    requires
      var child := SubqueryTimeRange(g, off, range, step);
      var w := WindowSteps(t - off, range, step);
      w.Count() > 0 && 0 <= first < child.Count() && child.At(first) == w.start
    ensures
      first + WindowSteps(t - off, range, step).Count() <= SubqueryTimeRange(g, off, range, step).Count()
  {
    var child := SubqueryTimeRange(g, off, range, step);
    var w := WindowSteps(t - off, range, step);
    var last := w.Count() - 1;
    AtHas(w, last);
    SubqueryStart(g, off, range, step);
    assert child.At(first + last) == w.At(last) by { assert (first + last) * step == first * step + last * step; }
    MulOrder(-1, last, step);
    assert w.At(last) >= w.start;
    assert w.At(last) % step == 0 by { MultipleGap(w.start, w.At(last), step); }
    SubqueryWindow(g, off, range, step, t, w.At(last));
    AtHas(child, first + last);
  }

  // ---------------------------------------------------------------- when the code is right

  predicate Symbolic(at: At) {
    at.AtStart? || at.AtEnd?
  }

  /** An argument in parentheses that a call has to look into. */
  predicate Obscured(f: string, a: Expr) {
    HiddenRange(a) || (f == "timestamp" && a.Paren? && Unwrap(a).Vector?)
  }

  /** `@ start()` and `@ end()` that are not resolved are ignored, which is right where the time they stand
      for is the only step. */
  predicate Ignorable(q: Query, at: At, g: Steps)
    requires g.Valid()
  {
    Symbolic(at) ==> g.Count() <= 1 && Resolve(at, q).ts == g.start
  }

  /** A tree that is evaluated as the parser left it, as parameters of aggregations are.  It must not hold
      `@ start()` or `@ end()` unless they can be ignored, nor calls with arguments that need unwrapping;
      selectors with an @ timestamp must be evaluated at one step only, and nothing with one may have
      drifted. */
  predicate RawOk(q: Query, e: Expr, g: Steps, drift: int)
    requires Plain(e) && g.Valid()
    decreases e
  {
    match e
    case Vector(_, at, _) => Ignorable(q, at, g) && (at.AtTime? ==> drift == 0 && g.Count() <= 1)
    case Range(_, at, _, _) => Ignorable(q, at, g) && (at.AtTime? ==> drift == 0)
    case Subquery(x, at, _, _, _) =>
      Ignorable(q, at, g) && (at.AtTime? ==> drift == 0) && RawOk(q, x, Below(e, g, drift), DriftBelow(e, g, drift))
    case Call(f, args) =>
      if ReadsTimestamp(f, args) then Ignorable(q, args[0].at, g) && (args[0].at.AtTime? ==> args[0].offset == 0)
      else forall i :: 0 <= i < |args| ==> RawOk(q, args[i], g, drift) && !Obscured(f, args[i])
    case Aggregate(_, x, p) => RawOk(q, x, g, drift) && RawOk(q, p, g, drift)
    case Binary(_, l, r) => RawOk(q, l, g, drift) && RawOk(q, r, g, drift)
    case Unary(_, x) => RawOk(q, x, g, drift)
    case Paren(x) => RawOk(q, x, g, drift)
    case _ => true
  }

  /** Nothing in the tree depends on the evaluation time; unlike the rewrite, this looks at parameters. */
  predicate Fixed(q: Query, e: Expr) {
    match e
    case Vector(_, at, _) => Resolve(at, q).AtTime?
    case Range(_, at, _, _) => Resolve(at, q).AtTime?
    case Subquery(_, at, _, _, _) => Resolve(at, q).AtTime?
    case Call(f, args) =>
      (!LooksAtTime(f) || IsTimestampOfSelector(f, args)) && forall i :: 0 <= i < |args| ==> Fixed(q, args[i])
    case Aggregate(_, x, p) => Fixed(q, x) && Fixed(q, p)
    case Binary(_, l, r) => Fixed(q, l) && Fixed(q, r)
    case Unary(_, x) => Fixed(q, x)
    case Paren(x) => Fixed(q, x)
    case StepInvariantExpr(_) => false
    case _ => true
  }

  /** The rewrite does not visit the parameter of an aggregation.  If the aggregation is hoisted, the
      parameter is evaluated at the first step and has to be the same at all others. */
  predicate ParamOk(q: Query, x: Expr, p: Expr, g: Steps, drift: int)
    requires Plain(p) && g.Valid()
  {
    var pre := Preprocess(q, Unwrap(x));
    && RawOk(q, Unwrap(p), if pre.wrap then Once(g) else g, drift)
    && (pre.hoistable && g.Count() > 1 ==> Fixed(q, p))
  }

  function Resolved(q: Query, e: Expr): Expr
    requires e.Subquery?
  {
    e.(at := Resolve(e.at, q))
  }

  /** What a query has to be like for the rewritten tree to mean the same: parameters as above, nothing
      with an @ timestamp has drifted, and no offset on a selector with an @ timestamp that the timestamp
      function is applied to. */
  predicate Ok(q: Query, e: Expr, g: Steps, drift: int)
    requires Plain(e) && g.Valid()
    decreases e
  {
    match e
    case Vector(_, at, _) => Resolve(at, q).AtTime? ==> drift == 0
    case Range(_, at, _, _) => Resolve(at, q).AtTime? ==> drift == 0
    case Subquery(x, at, _, _, _) =>
      && (Resolve(at, q).AtTime? ==> drift == 0)
      && Ok(q, x, Below(Resolved(q, e), g, drift), DriftBelow(Resolved(q, e), g, drift))
    case Call(f, args) =>
      if IsTimestampOfSelector(f, args) then Resolve(Unwrap(args[0]).at, q).AtTime? ==> Unwrap(args[0]).offset == 0
      else forall i :: 0 <= i < |args| ==> Ok(q, args[i], g, drift)
    case Aggregate(_, x, p) => Ok(q, x, g, drift) && ParamOk(q, x, p, g, drift)
    case Binary(_, l, r) => Ok(q, l, g, drift) && Ok(q, r, g, drift)
    case Unary(_, x) => Ok(q, x, g, drift)
    case Paren(x) => Ok(q, x, g, drift)
    case _ => true
  }

  lemma {:induction false} UnwrapKeeps(q: Query, e: Expr)
    ensures Fixed(q, Unwrap(e)) == Fixed(q, e)
  {
    if e.Paren? {
      UnwrapKeeps(q, e.expr);
    }
  }

  lemma {:induction false} UnwrapOk(q: Query, e: Expr, g: Steps, drift: int)
    requires Plain(e) && g.Valid()
    ensures Ok(q, Unwrap(e), g, drift) == Ok(q, e, g, drift)
  {
    if e.Paren? {
      UnwrapOk(q, e.expr, g, drift);
    }
  }

  // ---------------------------------------------------------------- shorter grids

  /** The same grid with fewer steps. */
  predicate Shorter(h: Steps, g: Steps) {
    h.Valid() && g.Valid() && h.start == g.start && h.step == g.step && h.end <= g.end
  }

  lemma TruncDivOrder(a: int, b: int, d: int)
    requires d > 0 && a <= b
    ensures TruncDiv(a, d) * d <= TruncDiv(b, d) * d
  {
    var x, y := TruncDiv(a, d), TruncDiv(b, d);
    if x > y {
      TruncDivLess(a, b, d);
    }
  }

  lemma DivOrder(a: int, b: int, d: int)
    requires d > 0 && 0 <= a <= b
    ensures a / d <= b / d
  {
    if a / d > b / d {
      MulOrder(b / d, a / d, d);
    }
  }

  lemma TruncDivLess(a: int, b: int, d: int)
    requires d > 0 && a <= b
    ensures TruncDiv(a, d) <= TruncDiv(b, d)
  {
    if a >= 0 {
      DivOrder(a, b, d);
    } else if b < 0 {
      DivOrder(-b, -a, d);
    } else {
      DivOrder(0, -a, d);
      DivOrder(0, b, d);
    }
  }

  lemma FewerSteps(h: Steps, g: Steps)
    requires Shorter(h, g)
    ensures h.Count() <= g.Count()
  {
    if h.start <= h.end {
      DivOrder(h.end - h.start, g.end - g.start, g.step);
    }
  }

  lemma ShorterBelow(e: Expr, h: Steps, g: Steps, drift: int)
    requires e.Subquery? && e.step > 0 && Shorter(h, g)
    ensures Shorter(Below(e, h, drift), Below(e, g, drift)) && DriftBelow(e, h, drift) == DriftBelow(e, g, drift)
  {
    TruncDivOrder(h.end - h.start, g.end - g.start, g.step);
  }

  lemma {:induction false} RawOkShorter(q: Query, e: Expr, h: Steps, g: Steps, drift: int)
    requires Plain(e) && Shorter(h, g) && RawOk(q, e, g, drift)
    ensures RawOk(q, e, h, drift)
    decreases e
  {
    FewerSteps(h, g);
    match e
    case Subquery(x, _, _, _, _) =>
      ShorterBelow(e, h, g, drift);
      RawOkShorter(q, x, Below(e, h, drift), Below(e, g, drift), DriftBelow(e, g, drift));
    case Call(f, args) =>
      if !ReadsTimestamp(f, args) {
        forall i | 0 <= i < |args| ensures RawOk(q, args[i], h, drift) {
          RawOkShorter(q, args[i], h, g, drift);
        }
      }
    case Aggregate(_, x, p) =>
      RawOkShorter(q, x, h, g, drift);
      RawOkShorter(q, p, h, g, drift);
    case Binary(_, l, r) =>
      RawOkShorter(q, l, h, g, drift);
      RawOkShorter(q, r, h, g, drift);
    case Unary(_, x) => RawOkShorter(q, x, h, g, drift);
    case Paren(x) => RawOkShorter(q, x, h, g, drift);
    case _ =>
  }

  lemma {:induction false} OkShorter(q: Query, e: Expr, h: Steps, g: Steps, drift: int)
    requires Plain(e) && Shorter(h, g) && Ok(q, e, g, drift)
    ensures Ok(q, e, h, drift)
    decreases e
  {
    match e
    case Subquery(x, _, _, _, _) =>
      var r := Resolved(q, e);
      ShorterBelow(r, h, g, drift);
      OkShorter(q, x, Below(r, h, drift), Below(r, g, drift), DriftBelow(r, g, drift));
    case Call(f, args) =>
      if !IsTimestampOfSelector(f, args) {
        forall i | 0 <= i < |args| ensures Ok(q, args[i], h, drift) {
          OkShorter(q, args[i], h, g, drift);
        }
      }
    case Aggregate(_, x, p) =>
      OkShorter(q, x, h, g, drift);
      ParamOkShorter(q, x, p, h, g, drift);
    case Binary(_, l, r) =>
      OkShorter(q, l, h, g, drift);
      OkShorter(q, r, h, g, drift);
    case Unary(_, x) => OkShorter(q, x, h, g, drift);
    case Paren(x) => OkShorter(q, x, h, g, drift);
    case _ =>
  }

  lemma ParamOkShorter(q: Query, x: Expr, p: Expr, h: Steps, g: Steps, drift: int)
    requires Plain(p) && Shorter(h, g) && ParamOk(q, x, p, g, drift)
    ensures ParamOk(q, x, p, h, drift)
  {
    FewerSteps(h, g);
    if !Preprocess(q, Unwrap(x)).wrap {
      RawOkShorter(q, Unwrap(p), h, g, drift);
    }
  }

  // ---------------------------------------------------------------- invariance

  /** With the parameters in order, what the rewrite calls invariant is fixed. */
  lemma {:induction false} HoistableIsFixed(q: Query, e: Expr, g: Steps, drift: int)
    requires Plain(e) && g.Valid() && g.Count() > 1 && Ok(q, e, g, drift) && Preprocess(q, e).hoistable
    ensures Fixed(q, e)
    decreases e
  {
    match e
    case Call(f, args) =>
      UnsafeLookAtTime(f);
      forall i | 0 <= i < |args| ensures Fixed(q, args[i]) {
        UnwrapKeeps(q, args[i]);
        if !IsTimestampOfSelector(f, args) {
          UnwrapOk(q, args[i], g, drift);
          HoistableIsFixed(q, Unwrap(args[i]), g, drift);
        }
      }
    case Aggregate(op, x, p) =>
      UnwrapKeeps(q, x);
      UnwrapOk(q, x, g, drift);
      HoistableIsFixed(q, Unwrap(x), g, drift);
    case Binary(op, l, r) =>
      HoistableIsFixed(q, l, g, drift);
      HoistableIsFixed(q, r, g, drift);
    case Unary(op, x) => HoistableIsFixed(q, x, g, drift);
    case Paren(x) => HoistableIsFixed(q, x, g, drift);
    case _ =>
  }

  lemma {:induction false} FixedMeansConstant<V(!new)>(m: Model<V>, q: Query, e: Expr, t: int, t': int)
    requires Plain(e) && Fixed(q, e) && SafeFunctionsIgnoreTime(m)
    ensures Den(m, q, e, t) == Den(m, q, e, t')
    decreases e
  {
    match e
    case Call(f, args) =>
      if IsTimestampOfSelector(f, args) {
        UnwrapKeeps(q, args[0]);
      } else {
        forall i | 0 <= i < |args| ensures Den(m, q, args[i], t) == Den(m, q, args[i], t') {
          FixedMeansConstant(m, q, args[i], t, t');
        }
        assert seq(|args|, i requires 0 <= i < |args| => Den(m, q, args[i], t)) ==
               seq(|args|, i requires 0 <= i < |args| => Den(m, q, args[i], t'));
      }
    case Aggregate(op, x, p) =>
      FixedMeansConstant(m, q, x, t, t');
      FixedMeansConstant(m, q, p, t, t');
    case Binary(op, l, r) =>
      FixedMeansConstant(m, q, l, t, t');
      FixedMeansConstant(m, q, r, t, t');
    case Unary(op, x) => FixedMeansConstant(m, q, x, t, t');
    case Paren(x) => FixedMeansConstant(m, q, x, t, t');
    case _ =>
  }

  /** Whatever the rewrite calls invariant denotes the same value at all times. */
  lemma InvariantMeansConstant<V(!new)>(m: Model<V>, q: Query, e: Expr, g: Steps, drift: int, t: int, t': int)
    requires Plain(e) && g.Valid() && g.Count() > 1 && Ok(q, e, g, drift)
    requires SafeFunctionsIgnoreTime(m) && Preprocess(q, e).hoistable
    ensures Den(m, q, e, t) == Den(m, q, e, t')
  {
    HoistableIsFixed(q, e, g, drift);
    FixedMeansConstant(m, q, e, t, t');
  }

  lemma {:induction false} UnwrapDen<V>(m: Model<V>, q: Query, e: Expr, t: int)
    requires Plain(e)
    ensures Den(m, q, Unwrap(e), t) == Den(m, q, e, t)
  {
    if e.Paren? {
      UnwrapDen(m, q, e.expr, t);
    }
  }

  // ---------------------------------------------------------------- one node at a time

  /** One value per step, each given by h at the time of the step. */
  ghost predicate Tabulates<V>(h: int -> V, vals: seq<V>, g: Steps)
    requires g.Valid()
  {
    |vals| == g.Count() && forall k :: 0 <= k < |vals| ==> vals[k] == h(g.At(k))
  }

  lemma EvalCallAt<V>(m: Model<V>, f: string, args: seq<Expr>, g: Steps, drift: int, k: nat)
    requires g.Valid() && k < g.Count() && !ReadsTimestamp(f, args)
    requires forall i :: 0 <= i < |args| ==> !HiddenRange(args[i])
    ensures Eval(m, Call(f, args), g, drift)[k] ==
            m.call(f, g.At(k), seq(|args|, i requires 0 <= i < |args| => Eval(m, args[i], g, drift)[k]))
  {
    var vals := seq(|args|, i requires 0 <= i < |args| => Eval(m, args[i], g, drift));
    assert Column(vals, k) == seq(|args|, i requires 0 <= i < |args| => Eval(m, args[i], g, drift)[k]);
  }

  lemma EvalSubqueryAt<V>(m: Model<V>, e: Expr, g: Steps, drift: int, k: nat)
    requires g.Valid() && k < g.Count() && e.Subquery? && e.step > 0
    ensures
      var vals := Eval(m, e.expr, Below(e, g, drift), DriftBelow(e, g, drift));
      var hi := WindowStep(e.at, g, k) - EffectiveOffset(Pin(e.at), e.offset, g.start);
      Eval(m, e, g, drift)[k] == m.points(Clip(Below(e, g, drift), vals, hi - e.range, hi, |vals|))
  {}

  /** What a subquery sees at reference time ref, if its expression is tabulated by h. */
  ghost function WindowValues<V>(h: int -> V, ref: int, range: int, step: int): seq<(int, V)>
    requires step > 0
  {
    var w := WindowSteps(ref, range, step);
    seq(w.Count(), j => (w.At(j), h(w.At(j))))
  }

  lemma ClipTabulates<V>(h: int -> V, g: Steps, off: int, range: int, step: int, vals: seq<V>, t: int)
    requires g.Valid() && step > 0 && g.Has(t)
    requires Tabulates(h, vals, SubqueryTimeRange(g, off, range, step))
    ensures Clip(SubqueryTimeRange(g, off, range, step), vals, t - off - range, t - off, |vals|) ==
      WindowValues(h, t - off, range, step)
  {
    WindowThroughChild(g, off, range, step, vals, t);
  }

  /** The reference time that the window of a parent step stands for. */
  lemma ParentReference(g: Steps, at: At, offset: int, k: nat, t: int)
    requires g.Valid() && k < g.Count() && t == WindowStep(at, g, k)
    ensures g.Has(t) && t - EffectiveOffset(Pin(at), offset, g.start) == Reference(Pin(at), g.At(k)) - offset
  {
    AtHas(g, k);
    AtHas(g, 0);
  }

  /** The window that parent step k sees, if the values of the child grid are tabulated by h. */
  lemma ParentWindow<V>(h: int -> V, vals: seq<V>, g: Steps, at: At, offset: int, range: int, step: int, k: nat, hi: int)
    requires step > 0 && g.Valid() && k < g.Count()
    requires Tabulates(h, vals, ChildGrid(g, Pin(at), offset, range, step, 0))
    requires hi == WindowStep(at, g, k) - EffectiveOffset(Pin(at), offset, g.start)
    ensures Clip(ChildGrid(g, Pin(at), offset, range, step, 0), vals, hi - range, hi, |vals|) ==
      WindowValues(h, Reference(Pin(at), g.At(k)) - offset, range, step)
  {
    ParentReference(g, at, offset, k, WindowStep(at, g, k));
    ClipTabulates(h, g, EffectiveOffset(Pin(at), offset, g.start), range, step, vals, WindowStep(at, g, k));
  }

  /** One parent step of a subquery whose inner tree is tabulated by h on the child grid. */
  lemma SubqueryStep<V>(m: Model<V>, h: int -> V, e: Expr, g: Steps, drift: int, k: nat)
    requires e.Subquery? && e.step > 0 && g.Valid() && k < g.Count() && (e.at.AtTime? ==> drift == 0)
    requires Tabulates(h, Eval(m, e.expr, Below(e, g, drift), DriftBelow(e, g, drift)), Below(e, g, drift))
    ensures Eval(m, e, g, drift)[k] ==
      m.points(WindowValues(h, Reference(Pin(e.at), g.At(k)) - e.offset, e.range, e.step))
  {
    var vals := Eval(m, e.expr, Below(e, g, drift), DriftBelow(e, g, drift));
    var hi := WindowStep(e.at, g, k) - EffectiveOffset(Pin(e.at), e.offset, g.start);
    EvalSubqueryAt(m, e, g, drift, k);
    assert Below(e, g, drift) == ChildGrid(g, Pin(e.at), e.offset, e.range, e.step, 0);
    ParentWindow(h, vals, g, e.at, e.offset, e.range, e.step, k, hi);
  }

  // ---------------------------------------------------------------- trees that are not preprocessed

  /** One value per step, each the meaning of e at that step. */
  ghost predicate Denotes<V>(m: Model<V>, q: Query, e: Expr, vals: seq<V>, g: Steps)
    requires Plain(e) && g.Valid()
  {
    |vals| == g.Count() && forall k :: 0 <= k < |vals| ==> vals[k] == Den(m, q, e, g.At(k))
  }

  /** A subquery denotes what it should if its expression does. */
  lemma SubqueryDenotes<V>(m: Model<V>, q: Query, e: Expr, e': Expr, g: Steps, drift: int, k: nat)
    requires e.Subquery? && Plain(e) && g.Valid() && k < g.Count()
    requires e'.Subquery? && e' == Subquery(e'.expr, e'.at, e.offset, e.range, e.step) && (e'.at.AtTime? ==> drift == 0)
    requires Reference(Pin(e'.at), g.At(k)) == Reference(Pin(Resolve(e.at, q)), g.At(k))
    requires Denotes(m, q, e.expr, Eval(m, e'.expr, Below(e', g, drift), DriftBelow(e', g, drift)), Below(e', g, drift))
    ensures Eval(m, e', g, drift)[k] == Den(m, q, e, g.At(k))
  {
    var h := (t: int) => Den(m, q, e.expr, t);
    SubqueryStep(m, h, e', g, drift, k);
    var ref := Reference(Pin(e'.at), g.At(k)) - e.offset;
    var w := WindowSteps(ref, e.range, e.step);
    assert WindowValues(h, ref, e.range, e.step) ==
      seq(w.Count(), j requires 0 <= j < w.Count() => (w.At(j), Den(m, q, e.expr, w.At(j))));
  }

  /** A tree that needs no preprocessing is evaluated to what it means. */
  lemma {:induction false} RawPreservesMeaning<V>(m: Model<V>, q: Query, e: Expr, g: Steps, drift: int)
    requires Plain(e) && g.Valid() && RawOk(q, e, g, drift)
    ensures Denotes(m, q, e, Eval(m, e, g, drift), g)
    decreases e, 1
  {
    match e
    case Vector(_, _, _) => RawSelector(m, q, e, g, drift);
    case Range(_, _, _, _) => RawRange(m, q, e, g, drift);
    case Subquery(x, _, _, _, _) =>
      RawPreservesMeaning(m, q, x, Below(e, g, drift), DriftBelow(e, g, drift));
      forall k | 0 <= k < g.Count() ensures Eval(m, e, g, drift)[k] == Den(m, q, e, g.At(k)) {
        IgnoredReference(q, e.at, g, k);
        SubqueryDenotes(m, q, e, e, g, drift, k);
      }
    case Call(_, _) => RawCall(m, q, e, g, drift);
    case Aggregate(_, x, p) =>
      RawPreservesMeaning(m, q, x, g, drift);
      RawPreservesMeaning(m, q, p, g, drift);
    case Binary(_, l, r) =>
      RawPreservesMeaning(m, q, l, g, drift);
      RawPreservesMeaning(m, q, r, g, drift);
    case Unary(_, x) => RawPreservesMeaning(m, q, x, g, drift);
    case Paren(x) => RawPreservesMeaning(m, q, x, g, drift);
    case _ =>
  }

  lemma RawSelector<V>(m: Model<V>, q: Query, e: Expr, g: Steps, drift: int)
    requires e.Vector? && g.Valid() && RawOk(q, e, g, drift)
    ensures Denotes(m, q, e, Eval(m, e, g, drift), g)
  {
    forall k | 0 <= k < g.Count() ensures Eval(m, e, g, drift)[k] == Den(m, q, e, g.At(k)) {
      IgnoredReference(q, e.at, g, k);
    }
  }

  lemma RawRange<V>(m: Model<V>, q: Query, e: Expr, g: Steps, drift: int)
    requires e.Range? && g.Valid() && RawOk(q, e, g, drift)
    ensures Denotes(m, q, e, Eval(m, e, g, drift), g)
  {
    forall k | 0 <= k < g.Count() ensures Eval(m, e, g, drift)[k] == Den(m, q, e, g.At(k)) {
      IgnoredReference(q, e.at, g, k);
    }
  }

  lemma IgnoredReference(q: Query, at: At, g: Steps, k: nat)
    requires g.Valid() && k < g.Count() && Ignorable(q, at, g)
    ensures Reference(Pin(at), g.At(k)) == Reference(Pin(Resolve(at, q)), g.At(k))
    ensures g.Count() <= 1 ==> g.At(k) == g.start
  {
  }

  lemma RawCall<V>(m: Model<V>, q: Query, e: Expr, g: Steps, drift: int)
    requires e.Call? && Plain(e) && g.Valid() && RawOk(q, e, g, drift)
    ensures Denotes(m, q, e, Eval(m, e, g, drift), g)
    decreases e, 0
  {
    var f, args := e.func, e.args;
    if ReadsTimestamp(f, args) {
      var v := args[0];
      assert args == [v] && Unwrap(v) == v;
      TimestampEval(m, e, v, g, drift);
      forall k | 0 <= k < g.Count() ensures Eval(m, e, g, drift)[k] == Den(m, q, e, g.At(k)) {
        IgnoredReference(q, v.at, g, k);
      }
    } else {
      assert f == "timestamp" ==> !IsTimestampOfSelector(f, args);
      forall i | 0 <= i < |args| ensures Denotes(m, q, args[i], Eval(m, args[i], g, drift), g) {
        RawPreservesMeaning(m, q, args[i], g, drift);
      }
      forall k | 0 <= k < g.Count() ensures Eval(m, e, g, drift)[k] == Den(m, q, e, g.At(k)) {
        CallDenotes(m, q, e, args, g, drift, k);
      }
    }
  }

  /** A call denotes what it should if its arguments do. */
  lemma CallDenotes<V>(m: Model<V>, q: Query, e: Expr, args': seq<Expr>, g: Steps, drift: int, k: nat)
    requires e.Call? && Plain(e) && !IsTimestampOfSelector(e.func, e.args) && g.Valid() && k < g.Count()
    requires |args'| == |e.args| && !ReadsTimestamp(e.func, args')
    requires forall i :: 0 <= i < |args'| ==> !HiddenRange(args'[i])
    requires forall i :: 0 <= i < |args'| ==> Denotes(m, q, e.args[i], Eval(m, args'[i], g, drift), g)
    ensures Eval(m, Call(e.func, args'), g, drift)[k] == Den(m, q, e, g.At(k))
  {
    EvalCallAt(m, e.func, args', g, drift, k);
    var got := seq(|args'|, i requires 0 <= i < |args'| => Eval(m, args'[i], g, drift)[k]);
    var want := seq(|args'|, i requires 0 <= i < |args'| => Den(m, q, e.args[i], g.At(k)));
    forall i | 0 <= i < |args'| ensures got[i] == want[i] {
      assert Denotes(m, q, e.args[i], Eval(m, args'[i], g, drift), g);
    }
    assert got == want;
  }

  // ---------------------------------------------------------------- the theorem

  /** The tree itself is evaluated to its meaning where it is not to be wrapped, or where there is only
      the first step; wrapped, it is everywhere. */
  ghost predicate Preserves<V>(m: Model<V>, q: Query, e: Expr, g: Steps, drift: int)
    requires Plain(e) && g.Valid()
  {
    var pre := Preprocess(q, e);
    && (!pre.wrap || g == Once(g) ==> Denotes(m, q, e, Eval(m, pre.expr, g, drift), g))
    && Denotes(m, q, e, Eval(m, PreprocessExpr(q, e), g, drift), g)
    && (pre.hoistable ==> Denotes(m, q, e, Eval(m, StepInvariantExpr(pre.expr), g, drift), g))
  }

  /** The rewritten tree, evaluated over any grid with hoisted subtrees evaluated only once, denotes
      at every step what the original expression denotes there. */
  lemma {:induction false} RewritePreservesMeaning<V(!new)>(m: Model<V>, q: Query, e: Expr, g: Steps, drift: int)
    requires Plain(e) && g.Valid() && Ok(q, e, g, drift) && SafeFunctionsIgnoreTime(m)
    ensures Preserves(m, q, e, g, drift)
    decreases e, 1
  {
    var pre := Preprocess(q, e);
    WrapImpliesInvariant(q, e);
    if !pre.wrap || g == Once(g) {
      UnwrappedPreservesMeaning(m, q, e, g, drift);
    }
    if pre.hoistable && g.Count() > 0 {
      HoistedPreservesMeaning(m, q, e, g, drift);
    }
  }

  lemma HoistedPreservesMeaning<V(!new)>(m: Model<V>, q: Query, e: Expr, g: Steps, drift: int)
    requires Plain(e) && g.Valid() && g.Count() > 0 && Ok(q, e, g, drift) && SafeFunctionsIgnoreTime(m)
    requires Preprocess(q, e).hoistable
    ensures Denotes(m, q, e, Eval(m, StepInvariantExpr(Preprocess(q, e).expr), g, drift), g)
    decreases e, 0, 5
  {
    var p := Preprocess(q, e).expr;
    FirstStepPreservesMeaning(m, q, e, g, drift);
    forall k | 0 <= k < g.Count() ensures Eval(m, StepInvariantExpr(p), g, drift)[k] == Den(m, q, e, g.At(k)) {
      HoistedAt(m, p, g, drift, k);
      if k > 0 {
        InvariantMeansConstant(m, q, e, g, drift, g.start, g.At(k));
      }
    }
  }

  lemma FirstStepPreservesMeaning<V(!new)>(m: Model<V>, q: Query, e: Expr, g: Steps, drift: int)
    requires Plain(e) && g.Valid() && g.Count() > 0 && Ok(q, e, g, drift) && SafeFunctionsIgnoreTime(m)
    ensures Eval(m, Preprocess(q, e).expr, Once(g), drift)[0] == Den(m, q, e, g.start)
    decreases e, 0, 4
  {
    OkShorter(q, e, Once(g), g, drift);
    UnwrappedPreservesMeaning(m, q, e, Once(g), drift);
    assert Once(g).At(0) == g.start;
  }

  lemma HoistedAt<V>(m: Model<V>, x: Expr, g: Steps, drift: int, k: nat)
    requires g.Valid() && k < g.Count()
    ensures Eval(m, StepInvariantExpr(x), g, drift)[k] == Eval(m, x, Once(g), drift)[0]
  {}

  /** A whole query: nothing has drifted yet. */
  lemma QueryPreservesMeaning<V(!new)>(m: Model<V>, q: Query, e: Expr, g: Steps)
    requires Plain(e) && g.Valid() && Ok(q, e, g, 0) && SafeFunctionsIgnoreTime(m)
    ensures Denotes(m, q, e, Eval(m, PreprocessExpr(q, e), g, 0), g)
  {
    RewritePreservesMeaning(m, q, e, g, 0);
  }

  lemma {:induction false} WrapImpliesInvariant(q: Query, e: Expr)
    requires Plain(e)
    ensures Preprocess(q, e).wrap ==> Preprocess(q, e).hoistable
    decreases e
  {
    match e
    case Aggregate(_, x, _) => WrapImpliesInvariant(q, Unwrap(x));
    case Unary(_, x) => WrapImpliesInvariant(q, x);
    case Paren(x) => WrapImpliesInvariant(q, x);
    case _ =>
  }

  lemma {:induction false} UnwrappedPreservesMeaning<V(!new)>(m: Model<V>, q: Query, e: Expr, g: Steps, drift: int)
    requires Plain(e) && g.Valid() && Ok(q, e, g, drift) && SafeFunctionsIgnoreTime(m)
    requires !Preprocess(q, e).wrap || g == Once(g)
    ensures Denotes(m, q, e, Eval(m, Preprocess(q, e).expr, g, drift), g)
    decreases e, 0, 3
  {
    match e
    case Vector(_, _, _) => SelectorPreservesMeaning(m, q, e, g, drift);
    case Subquery(_, _, _, _, _) => SubqueryPreservesMeaning(m, q, e, g, drift);
    case Call(_, _) => CallPreservesMeaning(m, q, e, g, drift);
    case Aggregate(_, _, _) => AggregatePreservesMeaning(m, q, e, g, drift);
    case Binary(_, _, _) => BinaryPreservesMeaning(m, q, e, g, drift);
    case Unary(_, x) => RewritePreservesMeaning(m, q, x, g, drift);
    case Paren(x) => RewritePreservesMeaning(m, q, x, g, drift);
    case _ =>
  }

  lemma SelectorPreservesMeaning<V>(m: Model<V>, q: Query, e: Expr, g: Steps, drift: int)
    requires e.Vector? && g.Valid() && Ok(q, e, g, drift) && (!Preprocess(q, e).wrap || g == Once(g))
    ensures Denotes(m, q, e, Eval(m, Preprocess(q, e).expr, g, drift), g)
  {
    if g == Once(g) {
      assert g.Count() == 1 && g.At(0) == g.start;
    }
  }

  lemma SubqueryPreservesMeaning<V(!new)>(m: Model<V>, q: Query, e: Expr, g: Steps, drift: int)
    requires e.Subquery? && Plain(e) && g.Valid() && Ok(q, e, g, drift) && SafeFunctionsIgnoreTime(m)
    ensures Denotes(m, q, e, Eval(m, Preprocess(q, e).expr, g, drift), g)
    decreases e, 0, 1
  {
    var e' := Preprocess(q, e).expr;
    WrapImpliesInvariant(q, e.expr);
    assert Below(e', g, drift) == Below(Resolved(q, e), g, drift);
    RewritePreservesMeaning(m, q, e.expr, Below(e', g, drift), DriftBelow(e', g, drift));
    forall k | 0 <= k < g.Count() ensures Eval(m, e', g, drift)[k] == Den(m, q, e, g.At(k)) {
      SubqueryDenotes(m, q, e, e', g, drift, k);
    }
  }

  lemma BinaryPreservesMeaning<V(!new)>(m: Model<V>, q: Query, e: Expr, g: Steps, drift: int)
    requires e.Binary? && Plain(e) && g.Valid() && Ok(q, e, g, drift) && SafeFunctionsIgnoreTime(m)
    requires !Preprocess(q, e).wrap || g == Once(g)
    ensures Denotes(m, q, e, Eval(m, Preprocess(q, e).expr, g, drift), g)
    decreases e, 0, 1
  {
    RewritePreservesMeaning(m, q, e.lhs, g, drift);
    RewritePreservesMeaning(m, q, e.rhs, g, drift);
  }

  lemma AggregatePreservesMeaning<V(!new)>(m: Model<V>, q: Query, e: Expr, g: Steps, drift: int)
    requires e.Aggregate? && Plain(e) && g.Valid() && Ok(q, e, g, drift) && SafeFunctionsIgnoreTime(m)
    requires !Preprocess(q, e).wrap || g == Once(g)
    ensures Denotes(m, q, e, Eval(m, Preprocess(q, e).expr, g, drift), g)
    decreases e, 0, 1
  {
    var x, p := e.expr, e.param;
    UnwrapOk(q, x, g, drift);
    RewritePreservesMeaning(m, q, Unwrap(x), g, drift);
    RawPreservesMeaning(m, q, Unwrap(p), g, drift);
    forall k | 0 <= k < g.Count() ensures Eval(m, Preprocess(q, e).expr, g, drift)[k] == Den(m, q, e, g.At(k)) {
      UnwrapDen(m, q, x, g.At(k));
      UnwrapDen(m, q, p, g.At(k));
    }
  }

  /** Arguments as the rewrite leaves them: unwrapped, and hoisted where possible. */
  lemma ArgumentsPreserveMeaning<V(!new)>(m: Model<V>, q: Query, e: Expr, g: Steps, drift: int, i: nat)
    requires e.Call? && Plain(e) && g.Valid() && Ok(q, e, g, drift) && SafeFunctionsIgnoreTime(m) && i < |e.args|
    requires !IsTimestampOfSelector(e.func, e.args) && (!Preprocess(q, e).wrap || g == Once(g))
    ensures Denotes(m, q, e.args[i], Eval(m, Preprocess(q, e).expr.args[i], g, drift), g)
    decreases e, 0, 0
  {
    var x := Unwrap(e.args[i]);
    UnwrapOk(q, e.args[i], g, drift);
    RewritePreservesMeaning(m, q, x, g, drift);
    var arg := Preprocess(q, e).expr.args[i];
    assert arg == if Preprocess(q, e).wrap then Preprocess(q, x).expr else PreprocessExpr(q, x);
    var vals := Eval(m, arg, g, drift);
    forall k | 0 <= k < g.Count() ensures vals[k] == Den(m, q, e.args[i], g.At(k)) {
      UnwrapDen(m, q, e.args[i], g.At(k));
    }
  }

  /** No argument is left in parentheses. */
  lemma ArgumentsUnwrapped(q: Query, e: Expr, i: nat)
    requires e.Call? && i < |e.args|
    ensures !Preprocess(q, e).expr.args[i].Paren?
  {
    var x := Unwrap(e.args[i]);
    var arg := Preprocess(q, e).expr.args[i];
    assert arg == Preprocess(q, x).expr || arg == PreprocessExpr(q, x);
  }

  lemma TimestampShape(q: Query, e: Expr)
    requires e.Call? && IsTimestampOfSelector(e.func, e.args)
    ensures
      var v := Unwrap(e.args[0]);
      Preprocess(q, e).expr == Call("timestamp", [Vector(v.sel, Resolve(v.at, q), v.offset)])
  {
    var args' := Preprocess(q, e).expr.args;
    assert |args'| == 1;
  }

  lemma TimestampEval<V>(m: Model<V>, e: Expr, v: Expr, g: Steps, drift: int)
    requires g.Valid() && v.Vector? && e == Call("timestamp", [v])
    ensures |Eval(m, e, g, drift)| == g.Count()
    ensures forall k :: 0 <= k < g.Count() ==> Eval(m, e, g, drift)[k] == m.timestamp(v.sel, TimestampTime(v, g.At(k)))
  {
    assert ReadsTimestamp(e.func, e.args);
  }

  lemma TimestampPreservesMeaning<V>(m: Model<V>, q: Query, e: Expr, g: Steps, drift: int)
    requires e.Call? && Plain(e) && g.Valid() && IsTimestampOfSelector(e.func, e.args) && Ok(q, e, g, drift)
    ensures Denotes(m, q, e, Eval(m, Preprocess(q, e).expr, g, drift), g)
  {
    TimestampShape(q, e);
    var v := Unwrap(e.args[0]);
    TimestampEval(m, Preprocess(q, e).expr, Vector(v.sel, Resolve(v.at, q), v.offset), g, drift);
  }

  lemma CallPreservesMeaning<V(!new)>(m: Model<V>, q: Query, e: Expr, g: Steps, drift: int)
    requires e.Call? && Plain(e) && g.Valid() && Ok(q, e, g, drift) && SafeFunctionsIgnoreTime(m)
    requires !Preprocess(q, e).wrap || g == Once(g)
    ensures Denotes(m, q, e, Eval(m, Preprocess(q, e).expr, g, drift), g)
    decreases e, 0, 2
  {
    if IsTimestampOfSelector(e.func, e.args) {
      TimestampPreservesMeaning(m, q, e, g, drift);
    } else {
      var args' := Preprocess(q, e).expr.args;
      if e.func == "timestamp" {
        NotASelector(q, Unwrap(e.args[0]));
      }
      forall i | 0 <= i < |args'|
        ensures !args'[i].Paren? && Denotes(m, q, e.args[i], Eval(m, args'[i], g, drift), g)
      {
        ArgumentsUnwrapped(q, e, i);
        ArgumentsPreserveMeaning(m, q, e, g, drift, i);
      }
      forall k | 0 <= k < g.Count() ensures Eval(m, Preprocess(q, e).expr, g, drift)[k] == Den(m, q, e, g.At(k)) {
        CallDenotes(m, q, e, args', g, drift, k);
      }
    }
  }

  lemma NotASelector(q: Query, e: Expr)
    requires !e.Vector?
    ensures !Preprocess(q, e).expr.Vector? && !PreprocessExpr(q, e).Vector?
  {}
}
