/** Scalar evaluation with SQL three-valued logic, over the flat rows of time-series tables. */
module Evaluator {
  import opened Ast
  import opened Int64
  import opened Prelude
  import LikeMatcher = Like

  /** Floats are exact rationals; NaN and infinities are outside the model. */
  datatype Value =
    | Null | Bool(b: bool) | Int(i: I64) | Float(f: real) | Str(s: string)
    | Timestamp(ms: I64) | Array(items: seq<Value>)

  datatype Ternary = True | False | Unknown {
    function AndWith(o: Ternary): Ternary {
      if this == False || o == False then False else if this == True && o == True then True else Unknown
    }
    function OrWith(o: Ternary): Ternary {
      if this == True || o == True then True else if this == False && o == False then False else Unknown
    }
    function Negate(): Ternary {
      match this case True => False case False => True case Unknown => Unknown
    }
    function ToValue(): Value {
      match this case True => Bool(true) case False => Bool(false) case Unknown => Null
    }
  }

  type SqlExpr = Expr<string, Value>
  type Document = map<string, Value>

  /** The parts of evaluation defined elsewhere: scalar functions of their argument values,
      lower-casing, and the canonical order of two arrays (negative, zero or positive). */
  datatype Env = Env(call: (string, seq<Value>) -> Result<Value>,
                     lower: string -> string,
                     cmpArrays: (seq<Value>, seq<Value>) -> int)

  function TernaryOf(b: bool): Ternary { if b then True else False }

  function ToTernary(v: Value): Result<Ternary> {
    match v
    case Bool(b) => Ok(TernaryOf(b))
    case Null => Ok(Unknown)
    case _ => Err
  }

  function Number(v: Value): Option<real> {
    match v
    case Int(i) => Some(i as real)
    case Float(f) => Some(f)
    case Timestamp(t) => Some(t as real)
    case _ => None
  }

  /** Code-point order of strings. */
  function CompareStr(a: string, b: string): int {
    if a == "" || b == "" then |a| - |b|
    else if a[0] == b[0] then CompareStr(a[1..], b[1..])
    else a[0] as int - b[0] as int
  }

  /** SQL comparison: `None` for NULL or incomparable types. */
  function Compare(env: Env, l: Value, r: Value): Option<int> {
    if l.Null? || r.Null? then None
    else if Number(l).Some? && Number(r).Some? then
      var a, b := Number(l).value, Number(r).value;
      Some(if a < b then -1 else if a == b then 0 else 1)
    else match (l, r)
      case (Str(a), Str(b)) => Some(CompareStr(a, b))
      case (Bool(a), Bool(b)) => Some((if a then 1 else 0) - (if b then 1 else 0))
      case (Array(a), Array(b)) => Some(env.cmpArrays(a, b))
      case _ => None
  }

  predicate IsComparison(op: BinaryOp) {
    op.Eq? || op.NotEq? || op.Lt? || op.LtEq? || op.Gt? || op.GtEq?
  }

  predicate OrderHolds(op: BinaryOp, ord: int) {
    match op
    case Eq => ord == 0
    case NotEq => ord != 0
    case Lt => ord < 0
    case LtEq => ord <= 0
    case Gt => ord > 0
    case GtEq => ord >= 0
    case _ => false
  }

  /** An array column compared by `=`/`!=` with a scalar tests containment. */
  function Comparison(env: Env, op: BinaryOp, l: Value, r: Value): Value {
    if (op.Eq? || op.NotEq?) && l.Array? && !r.Array? then
      if r.Null? then Null
      else
        var hit := exists k :: 0 <= k < |l.items| && Compare(env, l.items[k], r) == Some(0);
        Bool(if op.Eq? then hit else !hit)
    else
      match Compare(env, l, r)
      case None => Null
      case Some(ord) => Bool(OrderHolds(op, ord))
  }

  function Wrap64(x: int): I64 { (x - MIN) % 0x1_0000_0000_0000_0000 + MIN }

  function TruncDiv(a: int, b: int): int
    requires b != 0
  {
    if (a < 0) == (b < 0) then (if a < 0 then -a else a) / (if b < 0 then -b else b)
    else -((if a < 0 then -a else a) / (if b < 0 then -b else b))
  }

  function Arith(op: BinaryOp, l: Value, r: Value): Result<Value> {
    if l.Null? || r.Null? then Ok(Null)
    else if l.Int? && r.Int? then
      match op
      case Add => Ok(Int(Wrap64(l.i + r.i)))
      case Sub => Ok(Int(Wrap64(l.i - r.i)))
      case Mul => Ok(Int(Wrap64(l.i * r.i)))
      case Div => Ok(if r.i == 0 then Null else Int(Wrap64(TruncDiv(l.i, r.i))))
      case _ => Err
    else if Number(l).Some? && Number(r).Some? then
      var a, b := Number(l).value, Number(r).value;
      match op
      case Add => Ok(Float(a + b))
      case Sub => Ok(Float(a - b))
      case Mul => Ok(Float(a * b))
      case Div => Ok(if b == 0.0 then Null else Float(a / b))
      case _ => Err
    else Err
  }

  function ApplyUnary(op: UnaryOp, v: Value): Result<Value> {
    match op
    case Not => var t :- ToTernary(v); Ok(t.Negate().ToValue())
    case Neg =>
      match v
      case Null => Ok(Null)
      case Int(i) => Ok(Int(Wrap64(0 - i)))
      case Float(f) => Ok(Float(-f))
      case _ => Err
  }

  /** A dotted path descends nested documents; flat rows have none. */
  function Lookup(row: Document, path: string): Value {
    if '.' !in path && path in row then row[path] else Null
  }

  /** The candidates of an `IN` element: an array stands for its items. */
  function Items(v: Value): seq<Value> { if v.Array? then v.items else [v] }

  /** Some candidate of an `IN` element compares to `verdict`. */
  predicate AnyCandidate(env: Env, left: Value, v: Value, verdict: Value) {
    exists k :: 0 <= k < |Items(v)| && Comparison(env, Eq, left, Items(v)[k]) == verdict
  }

  function Eval(env: Env, e: SqlExpr, row: Document): Result<Value>
    decreases e, 1
  {
    match e
    case Literal(v) => Ok(v)
    case Parameter(_) => Err
    case Column(p) => Ok(Lookup(row, p))
    case Unary(op, x) => var v :- Eval(env, x, row); ApplyUnary(op, v)
    case Binary(And, l, r) =>
      var lv :- Eval(env, l, row);
      var lt :- ToTernary(lv);
      if lt == False then Ok(Bool(false))
      else
        var rv :- Eval(env, r, row);
        var rt :- ToTernary(rv);
        Ok(lt.AndWith(rt).ToValue())
    case Binary(Or, l, r) =>
      var lv :- Eval(env, l, row);
      var lt :- ToTernary(lv);
      if lt == True then Ok(Bool(true))
      else
        var rv :- Eval(env, r, row);
        var rt :- ToTernary(rv);
        Ok(lt.OrWith(rt).ToValue())
    case Binary(op, l, r) =>
      var lv :- Eval(env, l, row);
      var rv :- Eval(env, r, row);
      if IsComparison(op) then Ok(Comparison(env, op, lv, rv)) else Arith(op, lv, rv)
    case IsNull(x, negated) => var v :- Eval(env, x, row); Ok(Bool(v.Null? != negated))
    case InList(x, list, negated) =>
      var left :- Eval(env, x, row);
      var t :- EvalIn(env, left, list, row, false);
      Ok((if negated then t.Negate() else t).ToValue())
    case Between(x, lo, hi, negated) =>
      var v :- Eval(env, x, row);
      var l :- Eval(env, lo, row);
      var h :- Eval(env, hi, row);
      var ge := match Compare(env, v, l) case None => Unknown case Some(o) => TernaryOf(o >= 0);
      var le := match Compare(env, v, h) case None => Unknown case Some(o) => TernaryOf(o <= 0);
      var t := ge.AndWith(le);
      Ok((if negated then t.Negate() else t).ToValue())
    case Like(x, p, ci, negated) =>
      var v :- Eval(env, x, row);
      var pat :- Eval(env, p, row);
      if v.Str? && pat.Str? then
        var (s, p) := if ci then (env.lower(v.s), env.lower(pat.s)) else (v.s, pat.s);
        var hit := LikeMatcher.Matches(s, p);
        Ok(Bool(hit != negated))
      else Ok(Null)
    case Aggregate(_, _) => Err
    case Func(name, args) =>
      if name == "coalesce" then EvalCoalesce(env, args, row)
      else if name == "score" || name == "rrf_score" then
        if args == [] && "_" + name in row then Ok(row["_" + name]) else Err
      else
        var vs :- EvalAll(env, args, row);
        if name == "time_bucket" then TimeBucket(vs) else env.call(name, vs)
  }

  /** `x IN (...)`: TRUE at the first equal candidate, else NULL if any comparison was. */
  function EvalIn(env: Env, left: Value, list: seq<SqlExpr>, row: Document, anyNull: bool): Result<Ternary>
    decreases list, 0
  {
    if list == [] then Ok(if anyNull then Unknown else False)
    else
      var v :- Eval(env, list[0], row);
      if AnyCandidate(env, left, v, Bool(true)) then Ok(True)
      else EvalIn(env, left, list[1..], row, anyNull || AnyCandidate(env, left, v, Null))
  }

  function EvalAll(env: Env, es: seq<SqlExpr>, row: Document): Result<seq<Value>>
    decreases es, 0
  {
    if es == [] then Ok([])
    else
      var v :- Eval(env, es[0], row);
      var vs :- EvalAll(env, es[1..], row);
      Ok([v] + vs)
  }

  /** First non-NULL argument; later arguments are not evaluated. */
  function EvalCoalesce(env: Env, es: seq<SqlExpr>, row: Document): Result<Value>
    decreases es, 0
  {
    if es == [] then Ok(Null)
    else
      var v :- Eval(env, es[0], row);
      if v.Null? then EvalCoalesce(env, es[1..], row) else Ok(v)
  }

  /** A float becomes milliseconds by truncation toward zero, saturating at the i64 ends. */
  function AsIntMs(v: Value): Option<I64> {
    match v
    case Int(i) => Some(i)
    case Timestamp(t) => Some(t)
    case Float(f) => Some(Saturate(if f >= 0.0 then f.Floor else -((-f).Floor)))
    case _ => None
  }

  /** Floor to a multiple of a positive step (Dafny's `/` is the Euclidean quotient). */
  function FloorTo(t: int, step: int): int
    requires step > 0
  {
    t / step * step
  }

  function TimeBucket(vs: seq<Value>): Result<Value> {
    if |vs| != 2 then Err
    else if vs[1].Null? then Ok(Null)
    else match (AsIntMs(vs[0]), AsIntMs(vs[1]))
      case (Some(step), Some(t)) =>
        if step <= 0 then Err
        else Ok(if vs[1].Timestamp? then Timestamp(Wrap64(FloorTo(t, step))) else Int(Wrap64(FloorTo(t, step))))
      case _ => Err
  }

  /** A WHERE keeps a row only when its predicate is TRUE. */
  predicate Keeps(env: Env, e: SqlExpr, row: Document) {
    Eval(env, e, row) == Ok(Bool(true))
  }

  /** A WHERE fails on a row it cannot evaluate, or whose value is no truth value. */
  predicate Fails(env: Env, e: SqlExpr, row: Document) {
    var v := Eval(env, e, row);
    v.Err? || ToTernary(v.value).Err?
  }

  /** A column-free expression that has a value without a row has that value on every row. */
  lemma {:induction false} ConstantOnAllRows(env: Env, e: SqlExpr, row: Document)
    requires ColumnFree(e) && Eval(env, e, map[]).Ok?
    ensures Eval(env, e, row) == Eval(env, e, map[])
    decreases e, 1
  {
    match e
    case Literal(_) =>
    case Parameter(_) =>
    case Column(_) =>
    case Unary(_, x) => ConstantOnAllRows(env, x, row);
    case Binary(op, l, r) =>
      ConstantOnAllRows(env, l, row);
      if Eval(env, r, map[]).Ok? { ConstantOnAllRows(env, r, row); }
    case IsNull(x, _) => ConstantOnAllRows(env, x, row);
    case InList(x, list, _) =>
      ConstantOnAllRows(env, x, row);
      ConstantIn(env, Eval(env, x, map[]).value, list, row, false);
    case Between(x, lo, hi, _) =>
      ConstantOnAllRows(env, x, row);
      ConstantOnAllRows(env, lo, row);
      ConstantOnAllRows(env, hi, row);
    case Like(x, p, _, _) =>
      ConstantOnAllRows(env, x, row);
      ConstantOnAllRows(env, p, row);
    case Aggregate(_, _) =>
    case Func(name, args) =>
      if name == "coalesce" { ConstantCoalesce(env, args, row); }
      else if name != "score" && name != "rrf_score" { ConstantAll(env, args, row); }
  }

  lemma {:induction false} ConstantIn(env: Env, left: Value, list: seq<SqlExpr>, row: Document, anyNull: bool)
    requires forall i :: 0 <= i < |list| ==> ColumnFree(list[i])
    requires EvalIn(env, left, list, map[], anyNull).Ok?
    ensures EvalIn(env, left, list, row, anyNull) == EvalIn(env, left, list, map[], anyNull)
    decreases list, 0
  {
    if list != [] {
      ConstantOnAllRows(env, list[0], row);
      var v := Eval(env, list[0], map[]).value;
      if !AnyCandidate(env, left, v, Bool(true)) {
        ConstantIn(env, left, list[1..], row, anyNull || AnyCandidate(env, left, v, Null));
      }
    }
  }

  lemma {:induction false} ConstantAll(env: Env, es: seq<SqlExpr>, row: Document)
    requires forall i :: 0 <= i < |es| ==> ColumnFree(es[i])
    requires EvalAll(env, es, map[]).Ok?
    ensures EvalAll(env, es, row) == EvalAll(env, es, map[])
    decreases es, 0
  {
    if es != [] {
      ConstantOnAllRows(env, es[0], row);
      ConstantAll(env, es[1..], row);
    }
  }

  lemma {:induction false} ConstantCoalesce(env: Env, es: seq<SqlExpr>, row: Document)
    requires forall i :: 0 <= i < |es| ==> ColumnFree(es[i])
    requires EvalCoalesce(env, es, map[]).Ok?
    ensures EvalCoalesce(env, es, row) == EvalCoalesce(env, es, map[])
    decreases es, 0
  {
    if es != [] {
      ConstantOnAllRows(env, es[0], row);
      if Eval(env, es[0], map[]).value.Null? { ConstantCoalesce(env, es[1..], row); }
    }
  }
}
