/** WHERE pushdown for time-series tables: a time range and label matchers. */
module Pushdown {
  import opened Ast
  import opened Evaluator
  import opened Int64
  import opened Prelude

  /** Series labels are strings and field values floats. */
  type Labels = m: map<string, Value> | forall k :: k in m ==> m[k].Str?
  type Fields = m: map<string, Value> | forall k :: k in m ==> m[k].Float?

  /** A rebuilt row: its series labels, timestamp, and the field values merged at it. */
  datatype Row = Row(labels: Labels, ts: I64, fields: Fields, tag: string)

  /** Field names never collide with `ts` (inserts skip it). */
  ghost predicate WellFormed(r: Row) { "ts" !in r.fields }

  /** Labels first, then `ts` and the hidden series tag, then the fields. */
  function Doc(r: Row): Document {
    r.labels["ts" := Timestamp(r.ts)]["__series__" := Str(r.tag)] + r.fields
  }

  datatype Matcher = MatchEq(key: string, value: string) | MatchNe(key: string, value: string)

  /** The store reads a missing label as the empty string. */
  predicate Accepts(m: Matcher, labels: Labels) {
    var v := if m.key in labels then labels[m.key].s else "";
    if m.MatchEq? then v == m.value else v != m.value
  }

  datatype Range = Range(t0: I64, t1: I64, matchers: seq<Matcher>)

  const UNBOUNDED := Range(MIN, MAX, [])

  ghost predicate Admits(p: Range, r: Row) {
    && p.t0 <= r.ts <= p.t1
    && forall i :: 0 <= i < |p.matchers| ==> Accepts(p.matchers[i], r.labels)
  }

  function Flip(op: BinaryOp): BinaryOp {
    match op
    case Lt => Gt
    case LtEq => GtEq
    case Gt => Lt
    case GtEq => LtEq
    case other => other
  }

  predicate LabelColumn(col: string) { '.' !in col && !("__" <= col) }

  /** `col op rhs` with a column-free `rhs`, in either operand order. */
  datatype Leaf = Leaf(col: string, op: BinaryOp, rhs: SqlExpr)

  function LeafOf(op: BinaryOp, left: SqlExpr, right: SqlExpr): Option<Leaf> {
    if left.Column? && ColumnFree(right) then Some(Leaf(left.path, op, right))
    else if right.Column? && ColumnFree(left) then Some(Leaf(right.path, Flip(op), left))
    else None
  }

  /** Tighten the range by `ts op v`. */
  function NarrowTs(p: Range, op: BinaryOp, v: I64): Range {
    match op
    case GtEq => p.(t0 := Larger(p.t0, v))
    case Gt => p.(t0 := Larger(p.t0, SatAdd(v, 1)))
    case LtEq => p.(t1 := Smaller(p.t1, v))
    case Lt => p.(t1 := Smaller(p.t1, SatSub(v, 1)))
    case Eq => p.(t0 := Larger(p.t0, v), t1 := Smaller(p.t1, v))
    case _ => p
  }

  function NarrowLabel(p: Range, col: string, op: BinaryOp, s: string): Range {
    match op
    case Eq => p.(matchers := p.matchers + [MatchEq(col, s)])
    case NotEq => p.(matchers := p.matchers + [MatchNe(col, s)])
    case _ => p
  }

  function NarrowLeaf(env: Env, p: Range, leaf: Leaf): Range {
    match Eval(env, leaf.rhs, map[])
    case Err => p
    case Ok(v) =>
      if leaf.col == "ts" then (if AsIntMs(v).Some? then NarrowTs(p, leaf.op, AsIntMs(v).value) else p)
      else if LabelColumn(leaf.col) && v.Str? then NarrowLabel(p, leaf.col, leaf.op, v.s)
      else p
  }

  /** What a filter pushes down on top of what was pushed before. */
  function Extract(env: Env, e: SqlExpr, p: Range): Range {
    if !e.Binary? then p
    else if e.op == And then Extract(env, e.right, Extract(env, e.left, p))
    else
      var leaf := LeafOf(e.op, e.left, e.right);
      if leaf.Some? then NarrowLeaf(env, p, leaf.value) else p
  }

  /** The planner's mutable bounds and matcher list. */
  class Narrowing {
    var t0: I64
    var t1: I64
    var matchers: seq<Matcher>

    function State(): Range reads this { Range(t0, t1, matchers) }

    constructor ()
      ensures State() == UNBOUNDED
    {
      t0, t1, matchers := MIN, MAX, [];
    }

    method ExtractPushdown(env: Env, e: SqlExpr)
      modifies this
      ensures State() == Extract(env, e, old(State()))
      decreases e
    {
      if !e.Binary? { return; }
      if e.op == And {
        ExtractPushdown(env, e.left);
        ExtractPushdown(env, e.right);
        return;
      }
      var leaf := LeafOf(e.op, e.left, e.right);
      if leaf.None? { return; }
      var Leaf(col, op, rhs) := leaf.value;
      var v := Eval(env, rhs, map[]);
      if v.Err? { return; }
      if col == "ts" {
        var ms := AsIntMs(v.value);
        if ms.None? { return; }
        match op {
          case GtEq => t0 := Larger(t0, ms.value);
          case Gt => t0 := Larger(t0, SatAdd(ms.value, 1));
          case LtEq => t1 := Smaller(t1, ms.value);
          case Lt => t1 := Smaller(t1, SatSub(ms.value, 1));
          case Eq => t0 := Larger(t0, ms.value); t1 := Smaller(t1, ms.value);
          case _ =>
        }
      } else if LabelColumn(col) && v.value.Str? {
        match op {
          case Eq => matchers := matchers + [MatchEq(col, v.value.s)];
          case NotEq => matchers := matchers + [MatchNe(col, v.value.s)];
          case _ =>
        }
      }
    }
  }

  /** An integer, a timestamp, or any finite float. */
  predicate TimeConst(v: Value) { v.Float? || v.Int? || v.Timestamp? }

  predicate Integral(c: real) { c == c.Floor as real }

  /** `ts op c` is TRUE at time `ts`. */
  predicate Holds(op: BinaryOp, ts: int, c: real) {
    var t := ts as real;
    OrderHolds(op, if t < c then -1 else if t == c then 0 else 1)
  }

  predicate InPushed(op: BinaryOp, v: Value, ts: int)
    requires TimeConst(v)
  {
    var p := NarrowTs(UNBOUNDED, op, AsIntMs(v).value);
    p.t0 <= ts <= p.t1
  }

  /** Truncation moves `c` away from the rows a strict bound admits: a positive fractional `<`
      bound, a negative fractional `>` bound, and floats beyond the i64 ends. */
  predicate SafeBound(op: BinaryOp, v: Value)
    requires TimeConst(v)
  {
    var c := Number(v).value;
    match op
    case Lt => c <= 0.0 || (Integral(c) && c <= MAX as real)
    case Gt => c >= 0.0 || (Integral(c) && c >= MIN as real)
    case _ => true
  }

  lemma UnsafeBoundLosesRow(op: BinaryOp, v: Value) returns (lost: int)
    requires TimeConst(v) && !SafeBound(op, v)
    ensures InI64(lost) && Holds(op, lost, Number(v).value) && !InPushed(op, v, lost)
  {
    var c := Number(v).value;
    lost := if op.Lt? then Smaller(c.Floor, MAX) else Larger(-((-c).Floor), MIN);
  }

  lemma SafeBoundKeeps(op: BinaryOp, v: Value, ts: I64)
    requires TimeConst(v) && SafeBound(op, v) && Holds(op, ts, Number(v).value)
    ensures InPushed(op, v, ts)
  {
  }

  /** The pushed bound keeps every row the comparison admits exactly when it is safe. */
  lemma TsBoundSoundIff(op: BinaryOp, v: Value)
    requires TimeConst(v)
    ensures (forall ts :: InI64(ts) && Holds(op, ts, Number(v).value) ==> InPushed(op, v, ts))
            <==> SafeBound(op, v)
  {
    if SafeBound(op, v) {
      forall ts | InI64(ts) && Holds(op, ts, Number(v).value) ensures InPushed(op, v, ts) {
        SafeBoundKeeps(op, v, ts);
      }
    } else {
      var lost := UnsafeBoundLosesRow(op, v);
    }
  }

  /** When the pushed bound admits exactly the rows of the comparison. */
  predicate ExactBound(op: BinaryOp, v: Value)
    requires TimeConst(v)
  {
    var c := Number(v).value;
    match op
    case Lt => MIN as real < c <= MAX as real && (Integral(c) || c < 0.0)
    case Gt => MIN as real <= c < MAX as real && (Integral(c) || c > 0.0)
    case LtEq => (Integral(c) && MIN as real <= c) || c >= 0.0
    case GtEq => (Integral(c) && c <= MAX as real) || c <= 0.0
    case Eq => Integral(c) && MIN as real <= c <= MAX as real
    case _ => false
  }

  predicate RangeOp(op: BinaryOp) { op.Lt? || op.LtEq? || op.Gt? || op.GtEq? || op.Eq? }

  /** A row that tells the pushed bound and the comparison apart, when there is one. */
  function Witness(op: BinaryOp, v: Value): int
    requires TimeConst(v)
  {
    var c, k := Number(v).value, AsIntMs(v).value;
    if op.Lt? then (if c > 0.0 then Smaller(c.Floor, MAX) else MIN)
    else if op.Gt? then (if c < 0.0 then Larger(-((-c).Floor), MIN) else MAX)
    else k
  }

  lemma WitnessTellsApart(op: BinaryOp, v: Value)
    requires TimeConst(v) && RangeOp(op) && !ExactBound(op, v)
    ensures InI64(Witness(op, v))
    ensures !(Holds(op, Witness(op, v), Number(v).value) <==> InPushed(op, v, Witness(op, v)))
  {
    match op
    case Lt =>
    case Gt =>
    case LtEq =>
    case GtEq =>
    case Eq =>
  }

  lemma ExactBoundAgrees(op: BinaryOp, v: Value, ts: int)
    requires TimeConst(v) && ExactBound(op, v) && InI64(ts)
    ensures Holds(op, ts, Number(v).value) <==> InPushed(op, v, ts)
  {
  }

  lemma TsBoundExactIff(op: BinaryOp, v: Value)
    requires TimeConst(v) && RangeOp(op)
    ensures (forall ts :: InI64(ts) ==> (Holds(op, ts, Number(v).value) <==> InPushed(op, v, ts)))
            <==> ExactBound(op, v)
  {
    if ExactBound(op, v) {
      forall ts | InI64(ts) ensures Holds(op, ts, Number(v).value) <==> InPushed(op, v, ts) {
        ExactBoundAgrees(op, v, ts);
      }
    } else {
      WitnessTellsApart(op, v);
    }
  }

  lemma {:induction false} CompareStrZero(a: string, b: string)
    ensures CompareStr(a, b) == 0 <==> a == b
  {
    if a != "" && b != "" {
      assert a == [a[0]] + a[1..] && b == [b[0]] + b[1..];
      CompareStrZero(a[1..], b[1..]);
    }
  }

  /** A series without a label matches as if the label were empty. */
  lemma MissingLabelIsEmpty(key: string, value: string, labels: Labels)
    requires key !in labels
    ensures Accepts(MatchEq(key, value), labels) <==> value == ""
    ensures Accepts(MatchNe(key, value), labels) <==> value != ""
  {
  }

  lemma AndKeeps(env: Env, l: SqlExpr, r: SqlExpr, row: Document)
    ensures Keeps(env, Binary(And, l, r), row) <==> Keeps(env, l, row) && Keeps(env, r, row)
  {
  }

  lemma EvalComparison(env: Env, op: BinaryOp, l: SqlExpr, r: SqlExpr, row: Document, lv: Value, rv: Value)
    requires IsComparison(op) && Eval(env, l, row) == Ok(lv) && Eval(env, r, row) == Ok(rv)
    ensures Keeps(env, Binary(op, l, r), row) <==> Comparison(env, op, lv, rv) == Bool(true)
  {
  }

  lemma NumComparison(env: Env, op: BinaryOp, t: I64, v: Value)
    requires RangeOp(op) && Number(v).Some?
    ensures Comparison(env, op, Timestamp(t), v) == Bool(Holds(op, t, Number(v).value))
    ensures Comparison(env, op, v, Timestamp(t)) == Bool(Holds(Flip(op), t, Number(v).value))
  {
  }

  /** A comparison of `ts` with a constant keeps the row as the comparison of numbers says. */
  lemma TsLeafKeeps(env: Env, op0: BinaryOp, l: SqlExpr, r: SqlExpr, leaf: Leaf, v: Value, row: Row)
    requires LeafOf(op0, l, r) == Some(leaf) && leaf.col == "ts" && RangeOp(op0) && WellFormed(row)
    requires Eval(env, leaf.rhs, map[]) == Ok(v) && Number(v).Some?
    ensures Keeps(env, Binary(op0, l, r), Doc(row)) <==> Holds(leaf.op, row.ts, Number(v).value)
  {
    ConstantOnAllRows(env, leaf.rhs, Doc(row));
    assert Lookup(Doc(row), "ts") == Timestamp(row.ts);
    NumComparison(env, op0, row.ts, v);
    if l.Column? && ColumnFree(r) {
      EvalComparison(env, op0, l, r, Doc(row), Timestamp(row.ts), v);
    } else {
      EvalComparison(env, op0, l, r, Doc(row), v, Timestamp(row.ts));
    }
  }

  lemma LabelLookup(row: Row, col: string)
    requires col != "ts" && LabelColumn(col)
    ensures Lookup(Doc(row), col) == if col in row.fields then row.fields[col]
                                     else if col in row.labels then row.labels[col] else Null
  {
    assert col != "__series__";
  }

  lemma StrComparison(env: Env, op: BinaryOp, v: Value, s: string)
    requires (op.Eq? || op.NotEq?) && (v.Str? || v.Float? || v.Null?)
    ensures Comparison(env, op, v, Str(s)) == Bool(true) <==> v.Str? && (op.Eq? <==> v.s == s)
    ensures Comparison(env, op, Str(s), v) == Bool(true) <==> v.Str? && (op.Eq? <==> v.s == s)
  {
    if v.Str? {
      CompareStrZero(v.s, s);
      CompareStrZero(s, v.s);
    }
  }

  /** A label comparison is TRUE only on a series that carries the label, unshadowed by a field. */
  lemma LabelLeafKeeps(env: Env, op0: BinaryOp, l: SqlExpr, r: SqlExpr, leaf: Leaf, s: string, row: Row)
    requires LeafOf(op0, l, r) == Some(leaf) && (op0.Eq? || op0.NotEq?)
    requires leaf.col != "ts" && LabelColumn(leaf.col) && Eval(env, leaf.rhs, map[]) == Ok(Str(s))
    ensures Keeps(env, Binary(op0, l, r), Doc(row)) <==>
            leaf.col !in row.fields && leaf.col in row.labels && (op0.Eq? <==> row.labels[leaf.col] == Str(s))
  {
    ConstantOnAllRows(env, leaf.rhs, Doc(row));
    LabelLookup(row, leaf.col);
    var v := Lookup(Doc(row), leaf.col);
    StrComparison(env, op0, v, s);
    if l.Column? && ColumnFree(r) {
      EvalComparison(env, op0, l, r, Doc(row), v, Str(s));
    } else {
      EvalComparison(env, op0, l, r, Doc(row), Str(s), v);
    }
  }

  /** Every time constant the filter pushes is a safe bound. */
  ghost predicate SafeFilter(env: Env, e: SqlExpr) {
    if !e.Binary? then true
    else if e.op == And then SafeFilter(env, e.left) && SafeFilter(env, e.right)
    else
      var leaf := LeafOf(e.op, e.left, e.right);
      leaf.Some? && leaf.value.col == "ts" ==>
        var v := Eval(env, leaf.value.rhs, map[]);
        v.Ok? && AsIntMs(v.value).Some? ==> SafeBound(leaf.value.op, v.value)
  }

  /** Soundness: a row the whole filter keeps lies in the pushed range and passes every matcher. */
  lemma {:induction false} ExtractSound(env: Env, e: SqlExpr, p: Range, row: Row)
    requires WellFormed(row) && SafeFilter(env, e) && Keeps(env, e, Doc(row)) && Admits(p, row)
    ensures Admits(Extract(env, e, p), row)
  {
    if e.Binary? && e.op == And {
      AndKeeps(env, e.left, e.right, Doc(row));
      ExtractSound(env, e.left, p, row);
      ExtractSound(env, e.right, Extract(env, e.left, p), row);
    } else if e.Binary? && LeafOf(e.op, e.left, e.right).Some? {
      LeafSound(env, e.op, e.left, e.right, LeafOf(e.op, e.left, e.right).value, p, row);
    }
  }

  lemma TsNarrowing(p: Range, op: BinaryOp, v: Value, row: Row)
    requires TimeConst(v)
    ensures var q := NarrowTs(p, op, AsIntMs(v).value);
            q.matchers == p.matchers && (Admits(q, row) <==> Admits(p, row) && InPushed(op, v, row.ts))
  {
  }

  lemma LeafSound(env: Env, op0: BinaryOp, l: SqlExpr, r: SqlExpr, leaf: Leaf, p: Range, row: Row)
    requires op0 != And && LeafOf(op0, l, r) == Some(leaf) && SafeFilter(env, Binary(op0, l, r))
    requires WellFormed(row) && Keeps(env, Binary(op0, l, r), Doc(row)) && Admits(p, row)
    ensures Admits(NarrowLeaf(env, p, leaf), row)
  {
    var v := Eval(env, leaf.rhs, map[]);
    if v.Ok? && leaf.col == "ts" && AsIntMs(v.value).Some? && RangeOp(op0) {
      TsLeafKeeps(env, op0, l, r, leaf, v.value, row);
      SafeBoundKeeps(leaf.op, v.value, row.ts);
      TsNarrowing(p, leaf.op, v.value, row);
    } else if v.Ok? && leaf.col != "ts" && LabelColumn(leaf.col) && v.value.Str? && (op0.Eq? || op0.NotEq?) {
      LabelLeafKeeps(env, op0, l, r, leaf, v.value.s, row);
    }
  }

  /** The whole WHERE is consumed by the pushdown. */
  predicate FullyPushable(env: Env, e: SqlExpr) {
    if !e.Binary? then false
    else if e.op == And then FullyPushable(env, e.left) && FullyPushable(env, e.right)
    else
      var leaf := LeafOf(e.op, e.left, e.right);
      && leaf.Some?
      && var v := Eval(env, leaf.value.rhs, map[]);
         if leaf.value.col == "ts" then
           v.Ok? && !(v.value.Float? && !Integral(v.value.f)) && AsIntMs(v.value).Some? && RangeOp(leaf.value.op)
         else LabelColumn(leaf.value.col) && (leaf.value.op.Eq? || leaf.value.op.NotEq?) && v.Ok? && v.value.Str?
  }

  /** Every time constant pushed is an exact bound: not an i64 end under a strict comparison,
      nor a float beyond the i64 range on the wrong side. */
  ghost predicate ExactFilter(env: Env, e: SqlExpr) {
    if !e.Binary? then true
    else if e.op == And then ExactFilter(env, e.left) && ExactFilter(env, e.right)
    else
      var leaf := LeafOf(e.op, e.left, e.right);
      leaf.Some? && leaf.value.col == "ts" ==>
        var v := Eval(env, leaf.value.rhs, map[]);
        v.Ok? && AsIntMs(v.value).Some? ==> ExactBound(leaf.value.op, v.value)
  }

  function MatcherKeys(p: Range): set<string> { set m | m in p.matchers :: m.key }

  /** The series-level rule of the partials path: every compared label is present. */
  ghost predicate HasLabels(p: Range, row: Row) { forall k :: k in MatcherKeys(p) ==> k in row.labels }

  ghost predicate Unshadowed(p: Range, row: Row) { forall k :: k in MatcherKeys(p) ==> k !in row.fields }

  lemma MatcherKeysGrow(env: Env, p: Range, leaf: Leaf)
    ensures MatcherKeys(p) <= MatcherKeys(NarrowLeaf(env, p, leaf))
  {
  }

  lemma {:induction false} ExtractKeysGrow(env: Env, e: SqlExpr, p: Range)
    ensures MatcherKeys(p) <= MatcherKeys(Extract(env, e, p))
  {
    if e.Binary? && e.op == And {
      ExtractKeysGrow(env, e.left, p);
      ExtractKeysGrow(env, e.right, Extract(env, e.left, p));
    } else if e.Binary? && LeafOf(e.op, e.left, e.right).Some? {
      MatcherKeysGrow(env, p, LeafOf(e.op, e.left, e.right).value);
    }
  }

  /** Exactness: for a fully pushable filter with exact bounds, dropping the residual WHERE is
      right once series that lack a compared label are dropped. */
  lemma {:induction false} ExtractExact(env: Env, e: SqlExpr, p: Range, row: Row)
    requires WellFormed(row) && FullyPushable(env, e) && ExactFilter(env, e)
    requires Unshadowed(Extract(env, e, p), row)
    ensures var q := Extract(env, e, p);
            Admits(q, row) && HasLabels(q, row) <==> Admits(p, row) && HasLabels(p, row) && Keeps(env, e, Doc(row))
  {
    if e.op == And {
      AndKeeps(env, e.left, e.right, Doc(row));
      ExtractKeysGrow(env, e.right, Extract(env, e.left, p));
      ExtractExact(env, e.left, p, row);
      ExtractExact(env, e.right, Extract(env, e.left, p), row);
    } else {
      LeafExact(env, e.op, e.left, e.right, LeafOf(e.op, e.left, e.right).value, p, row);
    }
  }

  lemma LeafExact(env: Env, op0: BinaryOp, l: SqlExpr, r: SqlExpr, leaf: Leaf, p: Range, row: Row)
    requires op0 != And && WellFormed(row) && LeafOf(op0, l, r) == Some(leaf)
    requires FullyPushable(env, Binary(op0, l, r)) && ExactFilter(env, Binary(op0, l, r))
    requires Unshadowed(NarrowLeaf(env, p, leaf), row)
    ensures var q := NarrowLeaf(env, p, leaf);
            Admits(q, row) && HasLabels(q, row) <==>
            Admits(p, row) && HasLabels(p, row) && Keeps(env, Binary(op0, l, r), Doc(row))
  {
    var v := Eval(env, leaf.rhs, map[]).value;
    if leaf.col == "ts" {
      TsLeafKeeps(env, op0, l, r, leaf, v, row);
      ExactBoundAgrees(leaf.op, v, row.ts);
      TsNarrowing(p, leaf.op, v, row);
    } else {
      LabelLeafKeeps(env, op0, l, r, leaf, v.s, row);
      LabelNarrowing(p, leaf.col, op0, v.s, row);
    }
  }

  lemma LabelNarrowing(p: Range, col: string, op: BinaryOp, s: string, row: Row)
    requires op.Eq? || op.NotEq?
    ensures var q := NarrowLabel(p, col, op, s);
            && col in MatcherKeys(q)
            && (Admits(q, row) && HasLabels(q, row) <==>
                Admits(p, row) && HasLabels(p, row) && col in row.labels && (op.Eq? <==> row.labels[col] == Str(s)))
  {
    var q := NarrowLabel(p, col, op, s);
    var m := q.matchers[|p.matchers|];
    assert q.matchers == p.matchers + [m];
    assert m in q.matchers && m.key == col;
    assert MatcherKeys(q) == MatcherKeys(p) + {col};
    if Admits(q, row) {
      assert Accepts(q.matchers[|p.matchers|], row.labels);
      forall i | 0 <= i < |p.matchers| ensures Accepts(p.matchers[i], row.labels) {
        assert q.matchers[i] == p.matchers[i];
      }
    }
  }

  /** `ts < 5.5` keeps the row at 5 and pushes `ts <= 4`. */
  lemma FractionalBoundLosesRow(env: Env)
    ensures var e := Binary(Lt, Column("ts"), Literal(Float(5.5)));
            var row := Row(map[], 5, map[], "");
            WellFormed(row) && Keeps(env, e, Doc(row)) && !Admits(Extract(env, e, UNBOUNDED), row)
  {
    var row := Row(map[], 5, map[], "");
    var e: SqlExpr := Binary(Lt, Column("ts"), Literal(Float(5.5)));
    assert Eval(env, Literal(Float(5.5)), map[]) == Ok(Float(5.5));
    TsLeafKeeps(env, Lt, Column("ts"), Literal(Float(5.5)), Leaf("ts", Lt, Literal(Float(5.5))), Float(5.5), row);
    assert (5.5).Floor == 5;
    assert Extract(env, e, UNBOUNDED).t1 == 4;
  }
}
