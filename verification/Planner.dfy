/** Which SELECTs the partials path takes: the plan is built by one walk over the statement's expressions. */
module Planner {
  import opened Aggregates
  import opened Ast
  import opened Evaluator
  import opened PartialPlan
  import opened Partials
  import opened Prelude
  import P = Pushdown

  /** A grouped statement; an item without an expression is the wildcard. */
  datatype Select = Select(items: seq<Option<SqlExpr>>, filter: Option<SqlExpr>, groupBy: seq<SqlExpr>,
                           having: Option<SqlExpr>, orderBy: seq<SqlExpr>)

  predicate IsGrouped(sel: Select) {
    (exists i :: 0 <= i < |sel.items| && sel.items[i].Some? && HasAggregate(sel.items[i].value)) || sel.groupBy != []
  }

  predicate PlainField(c: string) { c != "ts" && P.LabelColumn(c) }

  /** The constant step of `time_bucket(step, ts)`, when it is positive. */
  function BucketStep(e: SqlExpr): Option<Value> {
    if e.Func? && e.name == "time_bucket" && |e.args| == 2 && e.args[1] == Column("ts") && e.args[0].Literal? then
      var ms := AsIntMs(e.args[0].v);
      if ms.Some? && ms.value > 0 then Some(e.args[0].v) else None
    else None
  }

  /** A statement groups when it says so, or when an item aggregates. */
  lemma GroupedWhen(sel: Select)
    ensures sel.groupBy != [] ==> IsGrouped(sel)
    ensures sel.groupBy == [] ==>
      (IsGrouped(sel) <==> exists x :: x in sel.items && x.Some? && HasAggregate(x.value))
  {
    if x :| x in sel.items && x.Some? && HasAggregate(x.value) {
      var i :| 0 <= i < |sel.items| && sel.items[i] == x;
      assert HasAggregate(sel.items[i].value);
    }
  }

  /** A bucket is exactly `time_bucket` of a positive literal step and the time. */
  lemma BucketStepIs(e: SqlExpr, v: Value)
    ensures BucketStep(e) == Some(v) <==> e == BucketExpr(v) && AsIntMs(v).Some? && AsIntMs(v).value > 0
  {
    if BucketStep(e) == Some(v) { assert e.args == [Literal(v), Column("ts")]; }
  }

  predicate IsBucket(grp: Grouping, e: SqlExpr) {
    grp.bucketStep.Some? && e == BucketExpr(grp.bucketStep.value)
  }

  /** What an aggregate adds to the plan. */
  function Noted(plan: Plan, func: AggFunc, f: string): Plan {
    Plan(if f in plan.aggFields then plan.aggFields else plan.aggFields + [f],
         plan.needsLast || func.Last?, plan.hasChange || Changes(func))
  }

  /** `plan_expr_ok`: the plan with what the expression needs, or none if it cannot be served. */
  function NoteExpr(grp: Grouping, plan: Plan, e: SqlExpr): Option<Plan>
    decreases e, 1
  {
    if IsBucket(grp, e) then Some(plan)
    else match e
      case Aggregate(func, arg) =>
        if !arg.Of? || !arg.e.Column? then None
        else if !PlainField(arg.e.path) || func.Percentile? then None
        else Some(Noted(plan, func, arg.e.path))
      case Column(c) => if c != "ts" && c in grp.cols then Some(plan) else None
      case Literal(_) => Some(plan)
      case Unary(_, x) => NoteExpr(grp, plan, x)
      case IsNull(x, _) => NoteExpr(grp, plan, x)
      case Binary(_, l, r) =>
        var p :- NoteExpr(grp, plan, l);
        NoteExpr(grp, p, r)
      case Func(_, args) => NoteAll(grp, plan, args)
      case _ => None
  }

  function NoteAll(grp: Grouping, plan: Plan, es: seq<SqlExpr>): Option<Plan>
    decreases es, 0
  {
    if es == [] then Some(plan)
    else
      var p :- NoteExpr(grp, plan, es[0]);
      NoteAll(grp, p, es[1..])
  }

  // What the walk meets.

  /** The expressions the walk meets: below anything but the bucket expression and an aggregate. */
  ghost function Met(grp: Grouping, e: SqlExpr): set<SqlExpr>
    decreases e, 1
  {
    if IsBucket(grp, e) then {}
    else {e} + match e
      case Unary(_, x) => Met(grp, x)
      case IsNull(x, _) => Met(grp, x)
      case Binary(_, l, r) => Met(grp, l) + Met(grp, r)
      case Func(_, args) => MetIn(grp, args)
      case _ => {}
  }

  ghost function MetIn(grp: Grouping, es: seq<SqlExpr>): set<SqlExpr>
    decreases es, 0
  {
    if es == [] then {} else Met(grp, es[0]) + MetIn(grp, es[1..])
  }

  /** An aggregate of a plain field that has a partial. */
  predicate FoldsField(e: SqlExpr) {
    e.Aggregate? && e.arg.Of? && e.arg.e.Column? && PlainField(e.arg.e.path) && !e.func.Percentile?
  }

  /** What the partials can serve: a group column, a constant, such an aggregate, and what is computed from them. */
  predicate Servable(grp: Grouping, e: SqlExpr) {
    || e.Literal? || (e.Column? && e.path != "ts" && e.path in grp.cols) || FoldsField(e)
    || e.Unary? || e.IsNull? || e.Binary? || e.Func?
  }

  ghost predicate AllServable(grp: Grouping, met: set<SqlExpr>) { forall x :: x in met ==> Servable(grp, x) }

  /** The plan has exactly what it had before and what the aggregates met need. */
  ghost predicate NotesOf(before: Plan, after: Plan, met: set<SqlExpr>) {
    && (forall f :: f in after.aggFields <==> f in before.aggFields || Folded(met, f))
    && (after.needsLast <==> before.needsLast || exists x :: x in met && FoldsField(x) && x.func.Last?)
    && (after.hasChange <==> before.hasChange || exists x :: x in met && FoldsField(x) && Changes(x.func))
  }

  ghost predicate Folded(met: set<SqlExpr>, f: string) { exists x :: x in met && FoldsField(x) && x.arg.e.path == f }

  lemma NotesChain(a: Plan, b: Plan, c: Plan, m: set<SqlExpr>, n: set<SqlExpr>)
    requires NotesOf(a, b, m) && NotesOf(b, c, n)
    ensures NotesOf(a, c, m + n)
  {
    forall f ensures f in c.aggFields <==> f in a.aggFields || Folded(m + n, f) {
      assert Folded(m + n, f) <==> Folded(m, f) || Folded(n, f);
    }
  }

  lemma NotesSame(plan: Plan, e: SqlExpr, met: set<SqlExpr>, plan': Plan)
    requires !FoldsField(e) && NotesOf(plan, plan', met)
    ensures NotesOf(plan, plan', {e} + met)
  {
    forall f ensures Folded({e} + met, f) <==> Folded(met, f) {}
  }

  lemma NotesNothing(plan: Plan)
    ensures NotesOf(plan, plan, {})
  {
  }

  /** The walk accepts exactly the expressions that meet only what partials can serve, and notes what they need. */
  lemma {:induction false} NoteExprIs(grp: Grouping, plan: Plan, e: SqlExpr)
    ensures NoteExpr(grp, plan, e).Some? <==> AllServable(grp, Met(grp, e))
    ensures NoteExpr(grp, plan, e).Some? ==> NotesOf(plan, NoteExpr(grp, plan, e).value, Met(grp, e))
    decreases e, 1
  {
    NotesNothing(plan);
    if !IsBucket(grp, e) {
      assert e in Met(grp, e);
      match e
      case Aggregate(func, arg) =>
        if FoldsField(e) { NotesOne(plan, e); }
      case Unary(_, x) =>
        NoteExprIs(grp, plan, x);
        Above(grp, plan, e, Met(grp, x), NoteExpr(grp, plan, x));
      case IsNull(x, _) =>
        NoteExprIs(grp, plan, x);
        Above(grp, plan, e, Met(grp, x), NoteExpr(grp, plan, x));
      case Binary(_, l, r) =>
        NoteExprIs(grp, plan, l);
        var p := NoteExpr(grp, plan, l);
        if p.Some? {
          NoteExprIs(grp, p.value, r);
          var q := NoteExpr(grp, p.value, r);
          if q.Some? { NotesChain(plan, p.value, q.value, Met(grp, l), Met(grp, r)); }
        }
        Above(grp, plan, e, Met(grp, l) + Met(grp, r), NoteExpr(grp, plan, e));
      case Func(_, args) =>
        NoteAllIs(grp, plan, args);
        Above(grp, plan, e, MetIn(grp, args), NoteAll(grp, plan, args));
      case _ =>
        assert Met(grp, e) == {e};
        NotesSame(plan, e, {}, plan);
    }
  }

  lemma Above(grp: Grouping, plan: Plan, e: SqlExpr, met: set<SqlExpr>, r: Option<Plan>)
    requires e.Unary? || e.IsNull? || e.Binary? || e.Func?
    requires (r.Some? <==> AllServable(grp, met)) && (r.Some? ==> NotesOf(plan, r.value, met))
    ensures r.Some? <==> AllServable(grp, {e} + met)
    ensures r.Some? ==> NotesOf(plan, r.value, {e} + met)
  {
    if r.Some? { NotesSame(plan, e, met, r.value); }
  }

  lemma NotesOne(plan: Plan, e: SqlExpr)
    requires FoldsField(e)
    ensures NotesOf(plan, Noted(plan, e.func, e.arg.e.path), {e})
  {
    forall f ensures Folded({e}, f) <==> f == e.arg.e.path { assert f == e.arg.e.path ==> e in {e}; }
    assert e in {e};
  }

  lemma {:induction false} NoteAllIs(grp: Grouping, plan: Plan, es: seq<SqlExpr>)
    ensures NoteAll(grp, plan, es).Some? <==> AllServable(grp, MetIn(grp, es))
    ensures NoteAll(grp, plan, es).Some? ==> NotesOf(plan, NoteAll(grp, plan, es).value, MetIn(grp, es))
    decreases es, 0
  {
    NotesNothing(plan);
    if es != [] {
      NoteExprIs(grp, plan, es[0]);
      var p := NoteExpr(grp, plan, es[0]);
      if p.Some? {
        NoteAllIs(grp, p.value, es[1..]);
        var q := NoteAll(grp, p.value, es[1..]);
        if q.Some? { NotesChain(plan, p.value, q.value, Met(grp, es[0]), MetIn(grp, es[1..])); }
      }
    }
  }

  // What the plan is good for.

  /** The plan provides for every aggregate met. */
  ghost predicate Provides(plan: Plan, met: set<SqlExpr>) {
    forall x :: x in met && FoldsField(x) ==>
      x.arg.e.path in plan.aggFields && (x.func.Last? ==> plan.needsLast) && (Changes(x.func) ==> plan.hasChange)
  }

  /** An expression is eligible under a plan exactly when all it meets can be served and the plan provides for it. */
  lemma {:induction false} EligibleIff(grp: Grouping, plan: Plan, e: SqlExpr)
    ensures Eligible(grp, plan, e) <==> AllServable(grp, Met(grp, e)) && Provides(plan, Met(grp, e))
    decreases e, 1
  {
    if !IsBucket(grp, e) {
      assert e in Met(grp, e);
      match e
      case Unary(_, x) => EligibleIff(grp, plan, x);
      case IsNull(x, _) => EligibleIff(grp, plan, x);
      case Binary(_, l, r) =>
        EligibleIff(grp, plan, l);
        EligibleIff(grp, plan, r);
      case Func(_, args) => EligibleArgs(grp, plan, args);
      case _ => assert Met(grp, e) == {e};
    }
  }

  lemma {:induction false} EligibleArgs(grp: Grouping, plan: Plan, es: seq<SqlExpr>)
    ensures (forall i :: 0 <= i < |es| ==> Eligible(grp, plan, es[i])) <==>
            AllServable(grp, MetIn(grp, es)) && Provides(plan, MetIn(grp, es))
    decreases es, 0
  {
    if es != [] {
      EligibleIff(grp, plan, es[0]);
      EligibleArgs(grp, plan, es[1..]);
      assert forall i :: 1 <= i < |es| ==> es[i] == es[1..][i - 1];
      assert (forall i :: 0 <= i < |es| ==> Eligible(grp, plan, es[i])) <==>
             Eligible(grp, plan, es[0]) && forall i :: 0 <= i < |es[1..]| ==> Eligible(grp, plan, es[1..][i]);
    }
  }

  lemma NotesProvide(before: Plan, after: Plan, met: set<SqlExpr>)
    requires NotesOf(before, after, met)
    ensures Provides(after, met)
  {
    forall x | x in met && FoldsField(x) ensures x.arg.e.path in after.aggFields { assert Folded(met, x.arg.e.path); }
  }

  /** The rewrite onto hidden columns touches aggregates only. */
  lemma {:induction false} RewriteFree(e: SqlExpr)
    requires !HasAggregate(e)
    ensures RewriteExpr(e) == e
    decreases e, 1
  {
    match e
    case Unary(_, x) => RewriteFree(x);
    case IsNull(x, _) => RewriteFree(x);
    case Binary(_, l, r) =>
      RewriteFree(l);
      RewriteFree(r);
    case Func(_, args) => RewriteAllFree(args);
    case InList(x, list, _) =>
      RewriteFree(x);
      RewriteAllFree(list);
    case Between(x, lo, hi, _) =>
      RewriteFree(x);
      RewriteFree(lo);
      RewriteFree(hi);
    case Like(x, p, _, _) =>
      RewriteFree(x);
      RewriteFree(p);
    case _ =>
  }

  lemma {:induction false} RewriteAllFree(es: seq<SqlExpr>)
    requires forall i :: 0 <= i < |es| ==> !HasAggregate(es[i])
    ensures RewriteAll(es) == es
    decreases es, 0
  {
    if es != [] {
      RewriteFree(es[0]);
      RewriteAllFree(es[1..]);
      assert es == [es[0]] + es[1..];
    }
  }

  // The WHERE.

  /** The parts of an AND-tree. */
  ghost function Conjuncts(e: SqlExpr): set<SqlExpr> {
    if e.Binary? && e.op == And then Conjuncts(e.left) + Conjuncts(e.right) else {e}
  }

  /** A time compared with a whole number, or a label with a string for equality or inequality. */
  predicate Compares(env: Env, op: BinaryOp, col: SqlExpr, rhs: SqlExpr) {
    && col.Column? && ColumnFree(rhs) && Eval(env, rhs, map[]).Ok?
    && var v := Eval(env, rhs, map[]).value;
       if col.path == "ts" then P.RangeOp(op) && P.TimeConst(v) && P.Integral(Number(v).value)
       else P.LabelColumn(col.path) && (op == Eq || op == NotEq) && v.Str?
  }

  /** The pushdown consumes a WHERE exactly when every conjunct is such a comparison, in either order. */
  lemma {:induction false} FullyPushableIff(env: Env, e: SqlExpr)
    ensures P.FullyPushable(env, e) <==> forall c :: c in Conjuncts(e) ==>
      c.Binary? && (Compares(env, c.op, c.left, c.right) || Compares(env, P.Flip(c.op), c.right, c.left))
  {
    if e.Binary? && e.op == And {
      FullyPushableIff(env, e.left);
      FullyPushableIff(env, e.right);
    } else {
      assert e in Conjuncts(e);
    }
  }

  // Whole statements.

  /** Every expression of the statement, in the order the walk takes them. */
  function ExprsOf(sel: Select): seq<SqlExpr> { ItemExprs(sel.items) + Tail(sel) }

  function Tail(sel: Select): seq<SqlExpr> { (if sel.having.Some? then [sel.having.value] else []) + sel.orderBy }

  function ItemExprs(items: seq<Option<SqlExpr>>): seq<SqlExpr> {
    if items == [] then []
    else
      var last := items[|items| - 1];
      ItemExprs(items[..|items| - 1]) + if last.Some? then [last.value] else []
  }

  predicate IsGroupColumn(e: SqlExpr) { e.Column? && PlainField(e.path) }

  /** The group expressions are plain columns and at most one bucket. */
  predicate WellGrouped(groupBy: seq<SqlExpr>) {
    && (forall i :: 0 <= i < |groupBy| ==> IsGroupColumn(groupBy[i]) || BucketStep(groupBy[i]).Some?)
    && (forall i, j :: 0 <= i < j < |groupBy| ==> BucketStep(groupBy[i]).None? || BucketStep(groupBy[j]).None?)
  }

  function ColumnsOf(groupBy: seq<SqlExpr>): seq<string> {
    if groupBy == [] then []
    else
      var e := groupBy[|groupBy| - 1];
      ColumnsOf(groupBy[..|groupBy| - 1]) + if IsGroupColumn(e) then [e.path] else []
  }

  /** The grouping lists the group columns, and has the step of the group expression that is a bucket. */
  ghost predicate GroupsBy(groupBy: seq<SqlExpr>, grp: Grouping) {
    && grp.cols == ColumnsOf(groupBy)
    && (grp.bucketStep.None? <==> forall i :: 0 <= i < |groupBy| ==> BucketStep(groupBy[i]).None?)
    && (grp.bucketStep.Some? ==> exists i :: 0 <= i < |groupBy| && BucketStep(groupBy[i]) == grp.bucketStep)
  }

  lemma GroupsNext(done: seq<SqlExpr>, grp: Grouping, e: SqlExpr)
    requires WellGrouped(done) && GroupsBy(done, grp)
    ensures IsGroupColumn(e) ==>
      WellGrouped(done + [e]) && GroupsBy(done + [e], grp.(cols := grp.cols + [e.path]))
    ensures !IsGroupColumn(e) && BucketStep(e).Some? && grp.bucketStep.None? ==>
      WellGrouped(done + [e]) && GroupsBy(done + [e], grp.(bucketStep := BucketStep(e)))
  {
    var more := done + [e];
    assert more[..|done|] == done && more[|done|] == e;
    assert forall i :: 0 <= i < |done| ==> more[i] == done[i];
    if !IsGroupColumn(e) && BucketStep(e).Some? && grp.bucketStep.None? {
      assert BucketStep(more[|done|]) == BucketStep(e);
    }
  }

  method ReadGroups(groupBy: seq<SqlExpr>) returns (r: Option<Grouping>)
    ensures r.Some? <==> WellGrouped(groupBy)
    ensures r.Some? ==> GroupsBy(groupBy, r.value)
  {
    var grp := Grouping([], None);
    var i := 0;
    while i < |groupBy|
      invariant 0 <= i <= |groupBy| && WellGrouped(groupBy[..i]) && GroupsBy(groupBy[..i], grp)
    {
      var e := groupBy[i];
      GroupsNext(groupBy[..i], grp, e);
      assert groupBy[..i + 1] == groupBy[..i] + [e];
      if IsGroupColumn(e) {
        grp := grp.(cols := grp.cols + [e.path]);
      } else {
        var step := BucketStep(e);
        if step.None? { return None; }
        if grp.bucketStep.Some? {
          ghost var k :| 0 <= k < i && BucketStep(groupBy[..i][k]) == grp.bucketStep;
          assert BucketStep(groupBy[k]).Some?;
          return None;
        }
        grp := grp.(bucketStep := step);
      }
      i := i + 1;
    }
    assert groupBy[..i] == groupBy;
    return Some(grp);
  }

  lemma {:induction false} MetInConcat(grp: Grouping, a: seq<SqlExpr>, b: seq<SqlExpr>)
    ensures MetIn(grp, a + b) == MetIn(grp, a) + MetIn(grp, b)
  {
    if a == [] {
      assert a + b == b;
    } else {
      assert (a + b)[1..] == a[1..] + b && (a + b)[0] == a[0];
      MetInConcat(grp, a[1..], b);
    }
  }

  const NOTHING := Plan([], false, false)

  /** A plan for the expressions walked so far, all of which can be served. */
  ghost predicate PlanFor(grp: Grouping, es: seq<SqlExpr>, plan: Plan) {
    AllServable(grp, MetIn(grp, es)) && NotesOf(NOTHING, plan, MetIn(grp, es))
  }

  lemma PlanForMore(grp: Grouping, done: seq<SqlExpr>, e: SqlExpr, plan: Plan)
    requires PlanFor(grp, done, plan)
    ensures NoteExpr(grp, plan, e).Some? <==> AllServable(grp, MetIn(grp, done + [e]))
    ensures NoteExpr(grp, plan, e).Some? ==> PlanFor(grp, done + [e], NoteExpr(grp, plan, e).value)
  {
    NoteExprIs(grp, plan, e);
    MetInConcat(grp, done, [e]);
    assert [e][1..] == [] && MetIn(grp, [e]) == Met(grp, e) + {};
    var p := NoteExpr(grp, plan, e);
    if p.Some? { NotesChain(NOTHING, plan, p.value, MetIn(grp, done), Met(grp, e)); }
  }

  /** Walk more expressions; the first that cannot be served ends it. */
  method NoteList(grp: Grouping, ghost done: seq<SqlExpr>, es: seq<SqlExpr>, before: Plan) returns (r: Option<Plan>)
    requires PlanFor(grp, done, before)
    ensures r.Some? <==> AllServable(grp, MetIn(grp, done + es))
    ensures r.Some? ==> PlanFor(grp, done + es, r.value)
  {
    var plan := before;
    var i := 0;
    assert done + es[..0] == done;
    while i < |es|
      invariant 0 <= i <= |es| && PlanFor(grp, done + es[..i], plan)
    {
      PlanForMore(grp, done + es[..i], es[i], plan);
      assert done + es[..i] + [es[i]] == done + es[..i + 1];
      var p := NoteExpr(grp, plan, es[i]);
      if p.None? {
        MetInConcat(grp, done + es[..i + 1], es[i + 1..]);
        assert es == es[..i + 1] + es[i + 1..];
        assert done + es[..i + 1] + es[i + 1..] == done + es;
        return None;
      }
      plan := p.value;
      i := i + 1;
    }
    assert es[..i] == es;
    return Some(plan);
  }

  /** Every item that is an expression; none if one is the wildcard. */
  method ReadItems(items: seq<Option<SqlExpr>>) returns (r: Option<seq<SqlExpr>>)
    ensures r.None? <==> exists i :: 0 <= i < |items| && items[i].None?
    ensures r.Some? ==> r.value == ItemExprs(items)
  {
    var es: seq<SqlExpr> := [];
    var i := 0;
    while i < |items|
      invariant 0 <= i <= |items| && es == ItemExprs(items[..i])
      invariant forall k :: 0 <= k < i ==> items[k].Some?
    {
      if items[i].None? { return None; }
      assert items[..i + 1][..i] == items[..i];
      es := es + [items[i].value];
      i := i + 1;
    }
    assert items[..i] == items;
    return Some(es);
  }

  /** A statement is served from partials exactly when it groups, names its columns, has a WHERE the pushdown
      consumes and groups by plain columns and at most one bucket, and all its expressions meet can be served. Every
      expression is then eligible under the plan, which notes exactly the fields and needs of its aggregates. */
  method PlanSelect(env: Env, sel: Select) returns (r: Option<(Grouping, Plan)>)
    ensures r.Some? ==>
      && IsGrouped(sel) && (forall i :: 0 <= i < |sel.items| ==> sel.items[i].Some?)
      && (sel.filter.Some? ==> P.FullyPushable(env, sel.filter.value)) && WellGrouped(sel.groupBy)
    ensures r.None? ==>
      || !IsGrouped(sel) || (exists i :: 0 <= i < |sel.items| && sel.items[i].None?)
      || (sel.filter.Some? && !P.FullyPushable(env, sel.filter.value)) || !WellGrouped(sel.groupBy)
      || exists grp :: GroupsBy(sel.groupBy, grp) && !AllServable(grp, MetIn(grp, ExprsOf(sel)))
    ensures r.Some? ==> GroupsBy(sel.groupBy, r.value.0) && PlanFor(r.value.0, ExprsOf(sel), r.value.1)
    ensures r.Some? ==> forall e :: e in ExprsOf(sel) ==> Eligible(r.value.0, r.value.1, e)
    ensures r.Some? ==> exists step :: StepIs(r.value.0, step)
  {
    if !IsGrouped(sel) { return None; }
    var items := ReadItems(sel.items);
    if items.None? { return None; }
    if sel.filter.Some? && !P.FullyPushable(env, sel.filter.value) { return None; }
    var groups := ReadGroups(sel.groupBy);
    if groups.None? { return None; }
    var grp := groups.value;
    assert StepIs(grp, if grp.bucketStep.None? then 0 else AsIntMs(grp.bucketStep.value).value);
    NotesNothing(NOTHING);
    var plan := NoteList(grp, [], items.value + Tail(sel), NOTHING);
    assert [] + (items.value + Tail(sel)) == ExprsOf(sel);
    if plan.None? { return None; }
    NotesProvide(NOTHING, plan.value, MetIn(grp, ExprsOf(sel)));
    EligibleArgs(grp, plan.value, ExprsOf(sel));
    return Some((grp, plan.value));
  }
}
