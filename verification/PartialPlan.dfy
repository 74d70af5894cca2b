/** Answering grouped time-series queries from partials: the eligibility check, the rewrite of whole
    expressions, and the theorem that every eligible expression keeps its value per group. */
module PartialPlan {
  import opened Aggregates
  import opened Ast
  import opened Buckets
  import opened CounterChange
  import opened Evaluator
  import opened GatherMerge
  import opened Int64
  import opened Partials
  import opened Prelude
  import opened RawGroups
  import RowOrder
  import opened Rewrite
  import opened Samples
  import P = Pushdown

  /** `GROUP BY` of an eligible query: label columns and at most one `time_bucket(step, ts)`. */
  datatype Grouping = Grouping(cols: seq<string>, bucketStep: Option<Value>)

  function BucketExpr(step: Value): SqlExpr { Func("time_bucket", [Literal(step), Column("ts")]) }

  /** The bucket step in milliseconds; 0 is one bucket for the whole range. */
  ghost predicate StepIs(grp: Grouping, step: int) {
    match grp.bucketStep
    case None => step == 0
    case Some(v) => step > 0 && AsIntMs(v) == Some(step)
  }

  /** The aggregates a plan can fold, given what it has noted of the query. */
  predicate Foldable(plan: Plan, func: AggFunc) {
    if Changes(func) then plan.hasChange else Supported(func) && (func.Last? ==> plan.needsLast)
  }

  /** An aggregate of a field over a group's rows. */
  function AggValue(env: Env, func: AggFunc, f: string, docs: seq<Document>): Value
    requires Supported(func) || Changes(func)
  {
    if Supported(func) then Agg(env, func, ColumnOf(f, docs)) else ChangeValue(func, f, docs)
  }

  /** `plan_expr_ok`: bare columns are group keys, aggregates are supported folds of plain fields. */
  predicate Eligible(grp: Grouping, plan: Plan, e: SqlExpr) {
    (grp.bucketStep.Some? && e == BucketExpr(grp.bucketStep.value)) ||
    match e
    case Aggregate(func, arg) =>
      && Foldable(plan, func) && arg.Of? && arg.e.Column? && arg.e.path in plan.aggFields
      && P.LabelColumn(arg.e.path) && arg.e.path != "ts"
    case Column(c) => c != "ts" && c in grp.cols
    case Literal(_) => true
    case Unary(_, x) => Eligible(grp, plan, x)
    case IsNull(x, _) => Eligible(grp, plan, x)
    case Binary(_, l, r) => Eligible(grp, plan, l) && Eligible(grp, plan, r)
    case Func(_, args) => forall i :: 0 <= i < |args| ==> Eligible(grp, plan, args[i])
    case _ => false
  }

  /** Every aggregate of the expression is one of those. */
  predicate UsesOnly(ok: AggFunc -> bool, e: SqlExpr) {
    match e
    case Aggregate(func, _) => ok(func)
    case Unary(_, x) => UsesOnly(ok, x)
    case IsNull(x, _) => UsesOnly(ok, x)
    case Binary(_, l, r) => UsesOnly(ok, l) && UsesOnly(ok, r)
    case Func(_, args) => forall i :: 0 <= i < |args| ==> UsesOnly(ok, args[i])
    case _ => true
  }

  function Any(): AggFunc -> bool { (func: AggFunc) => true }

  lemma {:induction false} UsesAny(e: SqlExpr)
    ensures UsesOnly(Any(), e)
  {
    match e
    case Unary(_, x) => UsesAny(x);
    case IsNull(x, _) => UsesAny(x);
    case Binary(_, l, r) =>
      UsesAny(l);
      UsesAny(r);
    case Func(_, args) => forall i | 0 <= i < |args| ensures UsesOnly(Any(), args[i]) { UsesAny(args[i]); }
    case _ =>
  }

  /** `rewrite_aggs` on the expression forms an eligible query has. */
  function RewriteExpr(e: SqlExpr): SqlExpr
    decreases e, 1
  {
    match e
    case Aggregate(func, arg) =>
      if (Supported(func) || Changes(func)) && arg.Of? && arg.e.Column? then RewriteAgg(func, arg.e.path) else e
    case Unary(op, x) => Unary(op, RewriteExpr(x))
    case IsNull(x, negated) => IsNull(RewriteExpr(x), negated)
    case Binary(op, l, r) => Binary(op, RewriteExpr(l), RewriteExpr(r))
    case Func(name, args) => Func(name, RewriteAll(args))
    case InList(x, list, negated) => InList(RewriteExpr(x), RewriteAll(list), negated)
    case Between(x, lo, hi, negated) => Between(RewriteExpr(x), RewriteExpr(lo), RewriteExpr(hi), negated)
    case Like(x, p, ci, negated) => Like(RewriteExpr(x), RewriteExpr(p), ci, negated)
    case _ => e
  }

  function RewriteAll(es: seq<SqlExpr>): (r: seq<SqlExpr>)
    ensures |r| == |es|
    decreases es, 0
  {
    if es == [] then [] else [RewriteExpr(es[0])] + RewriteAll(es[1..])
  }

  /** One group seen by both paths: the raw rows and the partial rows, each with the row that
      supplies the group's columns. */
  datatype Sides = Sides(raw: seq<Document>, rawRep: Document, part: seq<Document>, partRep: Document)

  /** The two sides agree on every aggregate of that kind, every group column and the bucket. */
  ghost predicate Agree(env: Env, grp: Grouping, plan: Plan, s: Sides, ok: AggFunc -> bool) {
    && (forall func, f :: ok(func) && Foldable(plan, func) && f in plan.aggFields && P.LabelColumn(f) && f != "ts" ==>
          EvalGroup(env, RewriteAgg(func, f), s.part, s.partRep) == Ok(AggValue(env, func, f, s.raw)))
    && (forall c :: c in grp.cols ==> Lookup(s.rawRep, c) == Lookup(s.partRep, c))
    && (grp.bucketStep.Some? ==> BucketAgrees(env, BucketExpr(grp.bucketStep.value), s))
    && NoScore(s.rawRep) && NoScore(s.partRep)
  }

  /** Aggregate-free, and of the same value on both representatives. */
  ghost predicate BucketAgrees(env: Env, e: SqlExpr, s: Sides) {
    && RewriteExpr(e) == e && Lower(env, e, s.raw) == Ok(e) && Lower(env, e, s.part) == Ok(e)
    && Eval(env, e, s.rawRep) == Eval(env, e, s.partRep)
  }

  ghost predicate NoScore(d: Document) { "_score" !in d && "_rrf_score" !in d }

  /** Rewritten and original have a value over their sides, and it is the same. */
  ghost predicate Same(env: Env, e: SqlExpr, s: Sides) {
    && Lower(env, RewriteExpr(e), s.part).Ok? && Lower(env, e, s.raw).Ok?
    && Eval(env, Lower(env, RewriteExpr(e), s.part).value, s.partRep) == Eval(env, Lower(env, e, s.raw).value, s.rawRep)
  }

  /** Evaluation of a call sees its arguments only through their values. */
  lemma CallSame(env: Env, name: string, xs: seq<SqlExpr>, ys: seq<SqlExpr>, d: Document, e: Document)
    requires |xs| == |ys| && NoScore(d) && NoScore(e)
    requires forall i :: 0 <= i < |xs| ==> Eval(env, xs[i], d) == Eval(env, ys[i], e)
    ensures Eval(env, Func(name, xs), d) == Eval(env, Func(name, ys), e)
  {
    CoalesceSame(env, xs, ys, d, e);
    AllSame(env, xs, ys, d, e);
    assert "_" + "score" == "_score" && "_" + "rrf_score" == "_rrf_score";
  }

  lemma {:induction false} CoalesceSame(env: Env, xs: seq<SqlExpr>, ys: seq<SqlExpr>, d: Document, e: Document)
    requires |xs| == |ys| && forall i :: 0 <= i < |xs| ==> Eval(env, xs[i], d) == Eval(env, ys[i], e)
    ensures EvalCoalesce(env, xs, d) == EvalCoalesce(env, ys, e)
  {
    if xs != [] { CoalesceSame(env, xs[1..], ys[1..], d, e); }
  }

  lemma {:induction false} AllSame(env: Env, xs: seq<SqlExpr>, ys: seq<SqlExpr>, d: Document, e: Document)
    requires |xs| == |ys| && forall i :: 0 <= i < |xs| ==> Eval(env, xs[i], d) == Eval(env, ys[i], e)
    ensures EvalAll(env, xs, d) == EvalAll(env, ys, e)
  {
    if xs != [] { AllSame(env, xs[1..], ys[1..], d, e); }
  }

  /** Every eligible expression keeps its value under the rewrite. */
  lemma {:induction false} EligibleSame(env: Env, grp: Grouping, plan: Plan, e: SqlExpr, s: Sides,
                                       ok: AggFunc -> bool)
    requires Agree(env, grp, plan, s, ok) && Eligible(grp, plan, e) && UsesOnly(ok, e)
    ensures Same(env, e, s)
    decreases e, 1
  {
    if grp.bucketStep.Some? && e == BucketExpr(grp.bucketStep.value) { return; }
    match e
    case Aggregate(func, arg) => AggregateSame(env, grp, plan, func, arg.e.path, s, ok);
    case Column(c) => ColumnSame(env, c, s);
    case Literal(_) =>
    case Unary(op, x) =>
      EligibleSame(env, grp, plan, x, s, ok);
      UnarySame(env, op, x, s);
    case IsNull(x, negated) =>
      EligibleSame(env, grp, plan, x, s, ok);
      IsNullSame(env, x, negated, s);
    case Binary(op, l, r) =>
      EligibleSame(env, grp, plan, l, s, ok);
      EligibleSame(env, grp, plan, r, s, ok);
      BinarySame(env, op, l, r, s);
    case Func(name, args) =>
      ArgsSame(env, grp, plan, args, s, ok);
      FuncSame(env, name, args, s);
  }

  lemma ColumnSame(env: Env, c: string, s: Sides)
    requires Lookup(s.rawRep, c) == Lookup(s.partRep, c)
    ensures Same(env, Column(c), s)
  {
  }

  lemma UnarySame(env: Env, op: UnaryOp, x: SqlExpr, s: Sides)
    requires Same(env, x, s)
    ensures Same(env, Unary(op, x), s)
  {
  }

  lemma IsNullSame(env: Env, x: SqlExpr, negated: bool, s: Sides)
    requires Same(env, x, s)
    ensures Same(env, IsNull(x, negated), s)
  {
  }

  lemma FuncSame(env: Env, name: string, args: seq<SqlExpr>, s: Sides)
    requires LowerAll(env, RewriteAll(args), s.part).Ok? && LowerAll(env, args, s.raw).Ok?
    requires NoScore(s.rawRep) && NoScore(s.partRep)
    requires var xs, ys := LowerAll(env, RewriteAll(args), s.part).value, LowerAll(env, args, s.raw).value;
             forall i :: 0 <= i < |args| ==> Eval(env, xs[i], s.partRep) == Eval(env, ys[i], s.rawRep)
    ensures Same(env, Func(name, args), s)
  {
    var xs, ys := LowerAll(env, RewriteAll(args), s.part).value, LowerAll(env, args, s.raw).value;
    CallSame(env, name, xs, ys, s.partRep, s.rawRep);
  }

  lemma AggregateSame(env: Env, grp: Grouping, plan: Plan, func: AggFunc, f: string, s: Sides,
                      ok: AggFunc -> bool)
    requires Agree(env, grp, plan, s, ok) && ok(func) && Foldable(plan, func) && f in plan.aggFields
    requires P.LabelColumn(f) && f != "ts"
    ensures Same(env, Aggregate(func, AggArg.Of(Column(f))), s)
  {
    if Supported(func) { LowerColumn(env, func, f, s.raw); } else { LowerChange(env, func, f, s.raw); }
    assert EvalGroup(env, RewriteAgg(func, f), s.part, s.partRep) == Ok(AggValue(env, func, f, s.raw));
  }

  lemma EvalBinarySame(env: Env, op: BinaryOp, l: SqlExpr, r: SqlExpr, d: Document, x: SqlExpr, y: SqlExpr, e: Document)
    requires Eval(env, l, d) == Eval(env, x, e) && Eval(env, r, d) == Eval(env, y, e)
    ensures Eval(env, Binary(op, l, r), d) == Eval(env, Binary(op, x, y), e)
  {
  }

  function LowerOn(env: Env, docs: seq<Document>): SqlExpr -> Result<SqlExpr> { (e: SqlExpr) => Lower(env, e, docs) }

  function EvalOn(env: Env, d: Document): SqlExpr -> Result<Value> { (e: SqlExpr) => Eval(env, e, d) }

  /** Lowering a binary expression lowers its operands. */
  ghost predicate LowersBoth(lower: SqlExpr -> Result<SqlExpr>, op: BinaryOp, l: SqlExpr, r: SqlExpr) {
    lower(l).Ok? && lower(r).Ok? ==> lower(Binary(op, l, r)) == Ok(Binary(op, lower(l).value, lower(r).value))
  }

  lemma LowerBoth(env: Env, op: BinaryOp, l: SqlExpr, r: SqlExpr, docs: seq<Document>)
    ensures LowersBoth(LowerOn(env, docs), op, l, r)
  {
  }

  lemma RewriteBinary(op: BinaryOp, l: SqlExpr, r: SqlExpr, la: SqlExpr, ra: SqlExpr)
    requires RewriteExpr(l) == la && RewriteExpr(r) == ra
    ensures RewriteExpr(Binary(op, l, r)) == Binary(op, la, ra)
  {
  }

  /** `Same`, with the functions it is about as values. */
  ghost predicate SameBy(part: SqlExpr -> Result<SqlExpr>, raw: SqlExpr -> Result<SqlExpr>,
                         onPart: SqlExpr -> Result<Value>, onRaw: SqlExpr -> Result<Value>, after: SqlExpr,
                         e: SqlExpr) {
    part(after).Ok? && raw(e).Ok? && onPart(part(after).value) == onRaw(raw(e).value)
  }

  lemma SameIsBy(env: Env, e: SqlExpr, s: Sides, after: SqlExpr)
    requires RewriteExpr(e) == after
    ensures Same(env, e, s) <==>
            SameBy(LowerOn(env, s.part), LowerOn(env, s.raw), EvalOn(env, s.partRep), EvalOn(env, s.rawRep), after, e)
  {
  }

  /** Evaluating a binary expression sees its operands only through their values. */
  ghost predicate SeesValues(onPart: SqlExpr -> Result<Value>, onRaw: SqlExpr -> Result<Value>, op: BinaryOp,
                             l: SqlExpr, r: SqlExpr, x: SqlExpr, y: SqlExpr) {
    onPart(l) == onRaw(x) && onPart(r) == onRaw(y) ==> onPart(Binary(op, l, r)) == onRaw(Binary(op, x, y))
  }

  lemma EvalSeesValues(env: Env, op: BinaryOp, d: Document, e: Document, l: SqlExpr, r: SqlExpr, x: SqlExpr, y: SqlExpr)
    ensures SeesValues(EvalOn(env, d), EvalOn(env, e), op, l, r, x, y)
  {
    if Eval(env, l, d) == Eval(env, x, e) && Eval(env, r, d) == Eval(env, y, e) {
      EvalBinarySame(env, op, l, r, d, x, y, e);
    }
  }

  lemma BinaryBy(part: SqlExpr -> Result<SqlExpr>, raw: SqlExpr -> Result<SqlExpr>, onPart: SqlExpr -> Result<Value>,
                 onRaw: SqlExpr -> Result<Value>, op: BinaryOp, la: SqlExpr, ra: SqlExpr, l: SqlExpr, r: SqlExpr)
    requires SameBy(part, raw, onPart, onRaw, la, l) && SameBy(part, raw, onPart, onRaw, ra, r)
    requires LowersBoth(part, op, la, ra) && LowersBoth(raw, op, l, r)
    requires SeesValues(onPart, onRaw, op, part(la).value, part(ra).value, raw(l).value, raw(r).value)
    ensures SameBy(part, raw, onPart, onRaw, Binary(op, la, ra), Binary(op, l, r))
  {
  }

  lemma BinarySame(env: Env, op: BinaryOp, l: SqlExpr, r: SqlExpr, s: Sides)
    requires Same(env, l, s) && Same(env, r, s)
    ensures Same(env, Binary(op, l, r), s)
  {
    var la, ra := RewriteExpr(l), RewriteExpr(r);
    var part, raw, onPart, onRaw := LowerOn(env, s.part), LowerOn(env, s.raw), EvalOn(env, s.partRep),
                                    EvalOn(env, s.rawRep);
    SameIsBy(env, l, s, la);
    SameIsBy(env, r, s, ra);
    LowerBoth(env, op, l, r, s.raw);
    LowerBoth(env, op, la, ra, s.part);
    EvalSeesValues(env, op, s.partRep, s.rawRep, part(la).value, part(ra).value, raw(l).value, raw(r).value);
    BinaryBy(part, raw, onPart, onRaw, op, la, ra, l, r);
    RewriteBinary(op, l, r, la, ra);
    SameIsBy(env, Binary(op, l, r), s, Binary(op, la, ra));
  }

  lemma {:induction false} ArgsSame(env: Env, grp: Grouping, plan: Plan, args: seq<SqlExpr>, s: Sides,
                                   ok: AggFunc -> bool)
    requires Agree(env, grp, plan, s, ok)
    requires forall i :: 0 <= i < |args| ==> Eligible(grp, plan, args[i]) && UsesOnly(ok, args[i])
    ensures LowerAll(env, RewriteAll(args), s.part).Ok? && LowerAll(env, args, s.raw).Ok?
    ensures var xs, ys := LowerAll(env, RewriteAll(args), s.part).value, LowerAll(env, args, s.raw).value;
            forall i :: 0 <= i < |args| ==> Eval(env, xs[i], s.partRep) == Eval(env, ys[i], s.rawRep)
    decreases args, 0
  {
    if args != [] {
      EligibleSame(env, grp, plan, args[0], s, ok);
      ArgsSame(env, grp, plan, args[1..], s, ok);
      assert RewriteAll(args)[1..] == RewriteAll(args[1..]);
    }
  }

  // Both sides of a group.

  ghost predicate Plain(d: Document) { "ts" in d && d["ts"].Timestamp? && NoScore(d) }

  ghost predicate AllPlain(docs: seq<Document>) { forall i :: 0 <= i < |docs| ==> Plain(docs[i]) }

  /** No series label or field is named like an injected search score. */
  ghost predicate NoScores(streams: seq<Stream>) {
    forall i :: 0 <= i < |streams| ==>
      NoScore(streams[i].labels) && streams[i].field != "_score" && streams[i].field != "_rrf_score"
  }

  lemma {:induction false} GroupMembers(b: Bucketing, g: Group, docs: seq<Document>)
    requires |g.vals| == |g.cols|
    ensures forall d :: d in GroupDocs(b, g, docs) <==> d in docs && InGroup(b, g, d)
  {
    if docs != [] {
      GroupMembers(b, g, docs[..|docs| - 1]);
      assert docs == docs[..|docs| - 1] + [docs[|docs| - 1]];
    }
  }

  lemma {:induction false} MergeStreamPlain(m: Merged, st: Stream, s: seq<Sample>)
    requires forall k :: k in m ==> Plain(m[k])
    requires NoScore(st.labels) && st.field != "_score" && st.field != "_rrf_score" && st.field != "ts"
    ensures forall k :: k in MergeStream(m, st, s) ==> Plain(MergeStream(m, st, s)[k])
  {
    if s != [] { MergeStreamPlain(m, st, Front(s)); }
  }

  lemma {:induction false} MergePlain(streams: seq<Stream>)
    requires NoScores(streams) && Consistent(streams)
    ensures forall k :: k in Merge(streams) ==> Plain(Merge(streams)[k])
  {
    if streams != [] {
      var front, st := streams[..|streams| - 1], streams[|streams| - 1];
      assert Consistent(front);
      MergePlain(front);
      MergeStreamPlain(Merge(front), st, st.samples);
    }
  }

  lemma {:induction false} ListMembers(m: Merged, keys: seq<RowOrder.Key>)
    requires forall k :: k in keys ==> k in m
    ensures forall d :: d in ListDocs(m, keys) <==> exists k :: k in keys && m[k] == d
  {
    if keys != [] {
      var front, last := keys[..|keys| - 1], keys[|keys| - 1];
      ListMembers(m, front);
      assert keys == front + [last];
      assert ListDocs(m, keys) == ListDocs(m, front) + [m[last]];
    }
  }

  lemma RawMember(streams: seq<Stream>, d: Document) returns (k: RowOrder.Key)
    requires d in RawDocs(streams)
    ensures k in Merge(streams) && Merge(streams)[k] == d
  {
    var m := Merge(streams);
    var keys := RowOrder.Sort(RowOrder.BySeries, m.Keys);
    assert forall x :: x in keys ==> x in RowOrder.Elems(keys);
    ListMembers(m, keys);
    k :| k in keys && m[k] == d;
  }

  lemma RawHas(streams: seq<Stream>, k: RowOrder.Key)
    requires k in Merge(streams)
    ensures Merge(streams)[k] in RawDocs(streams)
  {
    var m := Merge(streams);
    var keys := RowOrder.Sort(RowOrder.BySeries, m.Keys);
    assert forall x :: x in keys <==> x in RowOrder.Elems(keys);
    ListMembers(m, keys);
    assert k in keys;
  }

  lemma ScoreColumns()
    ensures P.LabelColumn("_score") && P.LabelColumn("_rrf_score")
  {
    assert "_score"[1] == 's' && "_rrf_score"[1] == 'r' && "__"[1] == '_';
  }

  lemma FirstDocIsPlain(plan: Plan, st: Stream, p: TsPartial)
    requires NoScore(st.labels)
    ensures Plain(FirstDoc(plan, st, p))
  {
    var base := st.labels["ts" := Timestamp(p.firstTs)];
    var d := WithCounts(base, plan.aggFields, st.field, p.count);
    forall c | c == "ts" || P.LabelColumn(c)
      ensures (c in FirstDoc(plan, st, p) <==> c in base) && (c in base ==> FirstDoc(plan, st, p)[c] == base[c])
    {
      forall g ensures c != Name(PCnt, g) { NamesDistinct(PCnt, g, PCnt, g); }
      WithCountsLookup(base, plan.aggFields, st.field, p.count, c);
      WithColumnsOther(d, st.field, Columns(p), c);
    }
    ScoreColumns();
  }

  lemma LastDocIsPlain(st: Stream, p: TsPartial)
    requires NoScore(st.labels)
    ensures Plain(LastDoc(st, p))
  {
    NamesDistinct(PLast, st.field, PLast, st.field);
    ScoreColumns();
  }

  lemma {:induction false} StreamPlain(plan: Plan, st: Stream, ps: seq<TsPartial>)
    requires NoScore(st.labels)
    ensures AllPlain(StreamDocs(plan, st, ps))
  {
    if ps != [] {
      StreamPlain(plan, st, ps[..|ps| - 1]);
      FirstDocIsPlain(plan, st, ps[|ps| - 1]);
      LastDocIsPlain(st, ps[|ps| - 1]);
    }
  }

  lemma {:induction false} PartialPlain(b: Bucketing, plan: Plan, streams: seq<Stream>)
    requires NoScores(streams)
    ensures AllPlain(PartialDocs(b, plan, streams))
  {
    if streams != [] {
      var st := streams[|streams| - 1];
      PartialPlain(b, plan, streams[..|streams| - 1]);
      StreamPlain(plan, st, Summaries(b, Runs(b, st.samples)));
    }
  }

  /** Some stream has a sample in the group. */
  predicate Populated(b: Bucketing, g: Group, streams: seq<Stream>)
    requires |g.vals| == |g.cols|
  {
    streams != [] && (StreamRuns(b, g, streams[|streams| - 1]) != [] || Populated(b, g, streams[..|streams| - 1]))
  }

  lemma {:induction false} PopulatedIndex(b: Bucketing, g: Group, streams: seq<Stream>)
    requires |g.vals| == |g.cols|
    ensures Populated(b, g, streams) <==> exists i :: 0 <= i < |streams| && StreamRuns(b, g, streams[i]) != []
  {
    if streams != [] {
      var front := streams[..|streams| - 1];
      PopulatedIndex(b, g, front);
      assert forall i :: 0 <= i < |front| ==> front[i] == streams[i];
    }
  }

  lemma StreamPopulated(b: Bucketing, g: Group, plan: Plan, st: Stream)
    requires ValidGroup(g) && Monotone(b) && ValidStream(st)
    ensures GroupDocs(b, g, StreamDocs(plan, st, Summaries(b, Runs(b, st.samples)))) == [] <==>
            StreamRuns(b, g, st) == []
  {
    StreamGroup(b, g, plan, st);
    var h := RunDocs(b, plan, st);
    forall r: Run ensures h(r) != [] { assert |DocsOf(plan, st, Summary(b, r))| > 0; }
    FlatMapEmpty(StreamRuns(b, g, st), h);
  }

  lemma {:induction false} PartialPopulated(b: Bucketing, g: Group, plan: Plan, streams: seq<Stream>)
    requires ValidGroup(g) && Monotone(b) && ValidStreams(streams)
    ensures GroupDocs(b, g, PartialDocs(b, plan, streams)) != [] <==> Populated(b, g, streams)
  {
    if streams != [] {
      var front, st := streams[..|streams| - 1], streams[|streams| - 1];
      PartialPopulated(b, g, plan, front);
      GroupConcat(b, g, PartialDocs(b, plan, front), StreamDocs(plan, st, Summaries(b, Runs(b, st.samples))));
      StreamPopulated(b, g, plan, st);
    }
  }

  lemma FlatMapEmpty(runs: seq<Run>, h: Run -> seq<Document>)
    requires forall r: Run :: h(r) != []
    ensures FlatMap(runs, h) == [] <==> runs == []
  {
  }

  lemma RawPopulated(b: Bucketing, g: Group, streams: seq<Stream>)
    requires Gathered(g, streams)
    ensures GroupDocs(b, g, RawDocs(streams)) != [] <==> Populated(b, g, streams)
  {
    PopulatedIndex(b, g, streams);
    if GroupDocs(b, g, RawDocs(streams)) != [] { RowHasRun(b, g, streams); }
    if Populated(b, g, streams) {
      var i :| 0 <= i < |streams| && StreamRuns(b, g, streams[i]) != [];
      RunHasRow(b, g, streams, i);
    }
  }

  lemma RowHasRun(b: Bucketing, g: Group, streams: seq<Stream>)
    requires Gathered(g, streams) && GroupDocs(b, g, RawDocs(streams)) != []
    ensures exists i :: 0 <= i < |streams| && StreamRuns(b, g, streams[i]) != []
  {
    var docs := GroupDocs(b, g, RawDocs(streams));
    GroupMembers(b, g, RawDocs(streams));
    assert docs[0] in docs;
    var k := RawMember(streams, docs[0]);
    MergeRows(streams, k);
    var i :| 0 <= i < |streams| && streams[i].series == k.series && ValueAt(streams[i].samples, k.ts).Some?;
    RowInGroup(b, g, streams, k, streams[i]);
    var x := SampleOfValue(streams[i].samples, k.ts);
    PickedOrdered(b, g.bucket, streams[i].samples);
    PickedSamples(b, g.bucket, streams[i].samples);
    FlattenEmpty(StreamRuns(b, g, streams[i]));
  }

  lemma RunHasRow(b: Bucketing, g: Group, streams: seq<Stream>, i: nat)
    requires Gathered(g, streams) && i < |streams| && StreamRuns(b, g, streams[i]) != []
    ensures GroupDocs(b, g, RawDocs(streams)) != []
  {
    GroupMembers(b, g, RawDocs(streams));
    PickedOrdered(b, g.bucket, streams[i].samples);
    PickedSamples(b, g.bucket, streams[i].samples);
    FlattenEmpty(StreamRuns(b, g, streams[i]));
    var x := PickSamples(b, g.bucket, streams[i].samples)[0];
    assert x in PickSamples(b, g.bucket, streams[i].samples);
    ValueAtSample(streams[i].samples, x);
    var k := RowOrder.Key(streams[i].series, x.ts);
    MergeRows(streams, k);
    RowInGroup(b, g, streams, k, streams[i]);
    RawHas(streams, k);
    assert Merge(streams)[k] in GroupDocs(b, g, RawDocs(streams));
  }

  /** The row that supplies a group's column values. */
  function Rep(docs: seq<Document>): Document { if docs == [] then map[] else docs[0] }

  /** A group bucket is the value of its `time_bucket` expression on any of its rows. */
  lemma BucketValue(env: Env, v: Value, step: int, d: Document, bucket: int)
    requires Plain(d) && step > 0 && AsIntMs(v) == Some(step) && Bucket(step, TsOf(d)) == bucket
    ensures Eval(env, BucketExpr(v), d) == Ok(Timestamp(Wrap64(bucket)))
  {
    var args: seq<SqlExpr> := [Literal(v), Column("ts")];
    var tail: seq<SqlExpr> := [Column("ts")];
    assert args[0] == Literal(v) && args[1..] == tail && tail[1..] == [];
    assert Eval(env, tail[0], d) == Ok(Timestamp(TsOf(d)));
    var ts := [Timestamp(TsOf(d))];
    assert ts + EvalAll(env, [], d).value == ts;
    assert EvalAll(env, tail, d) == Ok(ts);
    assert EvalAll(env, args, d) == Ok([v] + ts);
  }

  lemma BucketStays(env: Env, v: Value, docs: seq<Document>)
    ensures RewriteExpr(BucketExpr(v)) == BucketExpr(v) && Lower(env, BucketExpr(v), docs) == Ok(BucketExpr(v))
  {
    var args: seq<SqlExpr> := [Literal(v), Column("ts")];
    var tail: seq<SqlExpr> := [Column("ts")];
    assert args[0] == Literal(v) && args[1..] == tail && tail[1..] == [];
    assert RewriteAll(tail) == [Column("ts")] + [];
    assert RewriteAll(args) == [Literal(v)] + tail;
    assert LowerAll(env, tail, docs) == Ok([Column("ts")] + []);
    assert LowerAll(env, args, docs) == Ok([Literal(v)] + tail);
  }

  function SidesOf(b: Bucketing, plan: Plan, g: Group, streams: seq<Stream>): Sides
    requires |g.vals| == |g.cols|
  {
    var raw, part := GroupDocs(b, g, RawDocs(streams)), GroupDocs(b, g, PartialDocs(b, plan, streams));
    Sides(raw, Rep(raw), part, Rep(part))
  }

  /** The query, one of its groups, and the streams gathered for it. */
  ghost predicate Planned(grp: Grouping, plan: Plan, step: int, g: Group, streams: seq<Stream>) {
    && StepIs(grp, step) && Gathered(g, streams) && NoScores(streams) && g.cols == grp.cols
    && (forall f :: f in plan.aggFields && P.LabelColumn(f) && f != "ts" ==>
          FieldName(f, streams) && |Flatten(GroupRuns(By(step), g, f, streams))| <= MAX &&
          (plan.hasChange ==> TagsTell(g, f, streams)))
  }

  lemma AggregatesAgree(env: Env, grp: Grouping, plan: Plan, step: int, g: Group, streams: seq<Stream>,
                        func: AggFunc, f: string, rep: Document)
    requires Planned(grp, plan, step, g, streams) && Foldable(plan, func) && f in plan.aggFields
    requires P.LabelColumn(f) && f != "ts"
    ensures EvalGroup(env, RewriteAgg(func, f), GroupDocs(By(step), g, PartialDocs(By(step), plan, streams)), rep) ==
            Ok(AggValue(env, func, f, GroupDocs(By(step), g, RawDocs(streams))))
  {
    BucketMonotone(step);
    if Supported(func) {
      PartialAggregate(env, By(step), g, plan, streams, func, f, rep);
      RawGroupColumn(By(step), g, f, streams);
      AggOnFloats(env, func, Flatten(GroupRuns(By(step), g, f, streams)));
    } else {
      PartialChangeAnswers(env, By(step), g, plan, streams, func, f, rep);
    }
  }

  /** A row of either side has the group's column values, bucket and a time. */
  lemma RepInGroup(b: Bucketing, plan: Plan, g: Group, streams: seq<Stream>)
    requires Gathered(g, streams) && NoScores(streams)
    ensures var s := SidesOf(b, plan, g, streams);
            && (s.raw != [] ==> Plain(s.rawRep) && InGroup(b, g, s.rawRep))
            && (s.part != [] ==> Plain(s.partRep) && InGroup(b, g, s.partRep))
  {
    var s := SidesOf(b, plan, g, streams);
    GroupMembers(b, g, RawDocs(streams));
    GroupMembers(b, g, PartialDocs(b, plan, streams));
    MergePlain(streams);
    PartialPlain(b, plan, streams);
    if s.raw != [] {
      assert s.rawRep in s.raw;
      var k := RawMember(streams, s.rawRep);
    }
    if s.part != [] {
      assert s.partRep in s.part;
      var i :| 0 <= i < |PartialDocs(b, plan, streams)| && PartialDocs(b, plan, streams)[i] == s.partRep;
    }
  }

  /** A representative row of a group that has one. */
  ghost predicate Represents(b: Bucketing, g: Group, docs: seq<Document>, rep: Document)
    requires |g.vals| == |g.cols|
  {
    rep == Rep(docs) && (docs != [] ==> Plain(rep) && InGroup(b, g, rep))
  }

  /** Sides of a group that agree on the aggregates agree on the columns and the bucket too. */
  lemma AgreeFrom(env: Env, grp: Grouping, plan: Plan, step: int, g: Group, s: Sides, ok: AggFunc -> bool)
    requires StepIs(grp, step) && ValidGroup(g) && g.cols == grp.cols
    requires Represents(By(step), g, s.raw, s.rawRep) && Represents(By(step), g, s.part, s.partRep)
    requires (s.raw == [] <==> s.part == []) && (s.raw != [] || grp == Grouping([], None))
    requires forall func, f :: ok(func) && Foldable(plan, func) && f in plan.aggFields && P.LabelColumn(f) &&
                               f != "ts" ==>
               EvalGroup(env, RewriteAgg(func, f), s.part, s.partRep) == Ok(AggValue(env, func, f, s.raw))
    ensures Agree(env, grp, plan, s, ok)
  {
    if grp.bucketStep.Some? {
      var v := grp.bucketStep.value;
      BucketStays(env, v, s.raw);
      BucketStays(env, v, s.part);
      BucketValue(env, v, step, s.rawRep, g.bucket);
      BucketValue(env, v, step, s.partRep, g.bucket);
    }
    forall c | c in grp.cols ensures Lookup(s.rawRep, c) == Lookup(s.partRep, c) {
      var i :| 0 <= i < |g.cols| && g.cols[i] == c;
    }
  }

  lemma SidesAgree(env: Env, grp: Grouping, plan: Plan, step: int, g: Group, streams: seq<Stream>)
    requires Planned(grp, plan, step, g, streams)
    requires Populated(By(step), g, streams) || grp == Grouping([], None)
    ensures Agree(env, grp, plan, SidesOf(By(step), plan, g, streams), Any())
  {
    var s := SidesOf(By(step), plan, g, streams);
    BucketMonotone(step);
    RawPopulated(By(step), g, streams);
    PartialPopulated(By(step), g, plan, streams);
    RepInGroup(By(step), plan, g, streams);
    forall func, f | Foldable(plan, func) && f in plan.aggFields && P.LabelColumn(f) && f != "ts"
      ensures EvalGroup(env, RewriteAgg(func, f), s.part, s.partRep) == Ok(AggValue(env, func, f, s.raw))
    {
      AggregatesAgree(env, grp, plan, step, g, streams, func, f, s.partRep);
    }
    AgreeFrom(env, grp, plan, step, g, s, Any());
  }

  /** The rewritten expression over the partial rows has the value of the original over the raw rows. */
  ghost predicate AnswersAlike(env: Env, e: SqlExpr, s: Sides) {
    EvalGroup(env, RewriteExpr(e), s.part, s.partRep) == EvalGroup(env, e, s.raw, s.rawRep)
  }

  lemma SameAnswers(env: Env, e: SqlExpr, s: Sides)
    requires Same(env, e, s)
    ensures AnswersAlike(env, e, s)
  {
  }

  lemma GroupAnswers(env: Env, grp: Grouping, plan: Plan, step: int, g: Group, streams: seq<Stream>, e: SqlExpr,
                     s: Sides)
    requires Planned(grp, plan, step, g, streams) && Eligible(grp, plan, e)
    requires Populated(By(step), g, streams) || grp == Grouping([], None)
    requires s == SidesOf(By(step), plan, g, streams)
    ensures AnswersAlike(env, e, s)
  {
    SidesAgree(env, grp, plan, step, g, streams);
    UsesAny(e);
    EligibleSame(env, grp, plan, e, s, Any());
    SameAnswers(env, e, s);
  }

  /** Partial-aggregate pushdown preserves meaning: both paths have the same groups, and every
      eligible SELECT, HAVING or ORDER BY expression has the same value in each. */
  lemma PartialsAnswerTheQuery(env: Env, grp: Grouping, plan: Plan, step: int, g: Group,
                               streams: seq<Stream>, e: SqlExpr)
    requires Planned(grp, plan, step, g, streams) && Eligible(grp, plan, e)
    ensures var s := SidesOf(By(step), plan, g, streams);
            (s.raw == [] <==> s.part == []) && (s.raw != [] || grp == Grouping([], None) ==> AnswersAlike(env, e, s))
  {
    BucketMonotone(step);
    RawPopulated(By(step), g, streams);
    PartialPopulated(By(step), g, plan, streams);
    var s := SidesOf(By(step), plan, g, streams);
    if s.raw != [] || grp == Grouping([], None) { GroupAnswers(env, grp, plan, step, g, streams, e, s); }
  }
}
