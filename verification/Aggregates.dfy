/** SQL aggregates over the documents of one group, and their evaluation inside expressions. */
module Aggregates {
  import opened Ast
  import opened Evaluator
  import opened Int64
  import opened Prelude
  import opened Samples

  /** The non-NULL values of a column over a group, each with its row's time. */
  type Cells = seq<(I64, Value)>

  function TsOf(d: Document): I64 {
    if "ts" in d && d["ts"].Timestamp? then d["ts"].ms else 0
  }

  function Cell(c: string, d: Document): Cells {
    if Lookup(d, c).Null? then [] else [(TsOf(d), Lookup(d, c))]
  }

  function ColumnOf(c: string, docs: seq<Document>): Cells {
    if docs == [] then [] else ColumnOf(c, docs[..|docs| - 1]) + Cell(c, docs[|docs| - 1])
  }

  lemma {:induction false} ColumnConcat(c: string, a: seq<Document>, b: seq<Document>)
    ensures ColumnOf(c, a + b) == ColumnOf(c, a) + ColumnOf(c, b)
  {
    if b == [] {
      assert a + b == a;
    } else {
      assert (a + b)[..|a + b| - 1] == a + b[..|b| - 1];
      ColumnConcat(c, a, b[..|b| - 1]);
    }
  }

  lemma ColumnShort(c: string, docs: seq<Document>)
    requires 1 <= |docs| <= 2
    ensures ColumnOf(c, docs) == Cell(c, docs[0]) + if |docs| == 2 then Cell(c, docs[1]) else []
  {
    assert docs[..1] == [docs[0]] && docs[..1][..0] == [];
    assert ColumnOf(c, docs[..1]) == Cell(c, docs[0]);
    assert |docs| == 1 ==> docs == docs[..1];
  }

  predicate AllInt(cells: Cells) { forall i :: 0 <= i < |cells| ==> cells[i].1.Int? }

  /** Repeated wrapping addition is the exact sum, wrapped once. */
  function ExactSum(cells: Cells): int {
    if cells == [] then 0
    else
      var v := cells[|cells| - 1].1;
      ExactSum(cells[..|cells| - 1]) + if v.Int? then v.i else 0
  }

  lemma {:induction false} ExactSumConcat(a: Cells, b: Cells)
    ensures ExactSum(a + b) == ExactSum(a) + ExactSum(b)
  {
    if b == [] {
      assert a + b == a;
    } else {
      assert (a + b)[..|a + b| - 1] == a + b[..|b| - 1];
      ExactSumConcat(a, b[..|b| - 1]);
    }
  }

  function NumberSum(cells: Cells): real {
    if cells == [] then 0.0
    else
      var n := Number(cells[|cells| - 1].1);
      NumberSum(cells[..|cells| - 1]) + if n.Some? then n.value else 0.0
  }

  function SumValues(cells: Cells): Value {
    if cells == [] then Null else if AllInt(cells) then Int(Wrap64(ExactSum(cells))) else Float(NumberSum(cells))
  }

  function Extreme(env: Env, cells: Cells, sign: int): Value {
    if cells == [] then Null
    else
      var v, best := cells[|cells| - 1].1, Extreme(env, cells[..|cells| - 1], sign);
      if |cells| == 1 then v
      else match Compare(env, v, best)
        case Some(o) => if o * sign > 0 then v else best
        case None => best
  }

  /** The value at the earliest or latest time; the first row met wins a tie. */
  function AtEnd(cells: Cells, wantLast: bool): Option<(I64, Value)> {
    if cells == [] then None
    else
      var x, best := cells[|cells| - 1], AtEnd(cells[..|cells| - 1], wantLast);
      if best.None? || (if wantLast then x.0 > best.value.0 else x.0 < best.value.0) then Some(x) else best
  }

  predicate Supported(func: AggFunc) {
    func.Count? || func.Sum? || func.Avg? || func.Min? || func.Max? || func.First? || func.Last?
  }

  function Agg(env: Env, func: AggFunc, cells: Cells): Value
    requires Supported(func)
  {
    match func
    case Count => Int(Wrap64(|cells|))
    case Sum => SumValues(cells)
    case Avg => if cells == [] then Null else Float(NumberSum(cells) / |cells| as real)
    case Min => Extreme(env, cells, -1)
    case Max => Extreme(env, cells, 1)
    case First => if cells == [] then Null else AtEnd(cells, false).value.1
    case Last => if cells == [] then Null else AtEnd(cells, true).value.1
  }

  // rate, increase and delta: per series, then summed.

  predicate Changes(func: AggFunc) { func.Rate? || func.Increase? || func.Delta? }

  function TagOf(d: Document): string {
    if "__series__" in d && d["__series__"].Str? then d["__series__"].s else ""
  }

  /** A row's series tag and sample of a column, where that holds a number. */
  function Tagged(c: string, d: Document): seq<(string, Sample)> {
    var n := Number(Lookup(d, c));
    if n.None? then [] else [(TagOf(d), Sample(TsOf(d), n.value))]
  }

  function TaggedOf(c: string, docs: seq<Document>): seq<(string, Sample)> {
    if docs == [] then [] else TaggedOf(c, docs[..|docs| - 1]) + Tagged(c, docs[|docs| - 1])
  }

  /** The tags in the order they are first met. */
  function TagsOf(list: seq<(string, Sample)>): seq<string> {
    if list == [] then []
    else
      var tags, t := TagsOf(list[..|list| - 1]), list[|list| - 1].0;
      if t in tags then tags else tags + [t]
  }

  function SamplesOf(list: seq<(string, Sample)>, t: string): seq<Sample> {
    if list == [] then []
    else
      var s, x := SamplesOf(list[..|list| - 1], t), list[|list| - 1];
      if x.0 == t then s + [x.1] else s
  }

  function PlaceByTs(s: seq<Sample>, x: Sample): seq<Sample> {
    if s == [] || LastOf(s).ts <= x.ts then s + [x] else PlaceByTs(Front(s), x) + [LastOf(s)]
  }

  /** The stable sort by time. */
  function SortByTs(s: seq<Sample>): seq<Sample> { if s == [] then [] else PlaceByTs(SortByTs(Front(s)), LastOf(s)) }

  function Seconds(s: Run): real { (LastOf(s).ts - s[0].ts) as real / 1000.0 }

  /** The change over one series' samples in time order; none with fewer than two of them. */
  function ChangeOf(func: AggFunc, s: seq<Sample>): Option<real> {
    if |s| < 2 then None
    else match func
      case Delta => Some(LastOf(s).value - s[0].value)
      case Rate => if Seconds(s) <= 0.0 then None else Some(Samples.Increase(s) / Seconds(s))
      case _ => Some(Samples.Increase(s))
  }

  function Plus(a: Option<real>, b: Option<real>): Option<real> {
    if a.None? then b else if b.None? then a else Some(a.value + b.value)
  }

  function SumChanges(func: AggFunc, list: seq<(string, Sample)>, tags: seq<string>): Option<real> {
    if tags == [] then None
    else Plus(SumChanges(func, list, tags[..|tags| - 1]),
              ChangeOf(func, SortByTs(SamplesOf(list, tags[|tags| - 1]))))
  }

  function FloatOrNull(x: Option<real>): Value { if x.None? then Null else Float(x.value) }

  /** `eval_ts_change`: rows are told apart by series tag. */
  function ChangeValue(func: AggFunc, c: string, docs: seq<Document>): Value {
    var list := TaggedOf(c, docs);
    FloatOrNull(SumChanges(func, list, TagsOf(list)))
  }

  /** Aggregates over a plain column; other argument forms never plan partials. */
  function EvalAggregate(env: Env, func: AggFunc, arg: AggArg<string, Value>, docs: seq<Document>): Result<Value> {
    if !arg.Of? || !arg.e.Column? then Err
    else if Supported(func) then Ok(Agg(env, func, ColumnOf(arg.e.path, docs)))
    else if Changes(func) then Ok(ChangeValue(func, arg.e.path, docs))
    else Err
  }

  /** Replace each aggregate by its value over the group. */
  function Lower(env: Env, e: SqlExpr, docs: seq<Document>): Result<SqlExpr>
    decreases e, 1
  {
    match e
    case Aggregate(func, arg) => var v :- EvalAggregate(env, func, arg, docs); Ok(Literal(v))
    case Unary(op, x) => var y :- Lower(env, x, docs); Ok(Unary(op, y))
    case Binary(op, l, r) =>
      var x :- Lower(env, l, docs);
      var y :- Lower(env, r, docs);
      Ok(Binary(op, x, y))
    case IsNull(x, negated) => var y :- Lower(env, x, docs); Ok(IsNull(y, negated))
    case Func(name, args) => var ys :- LowerAll(env, args, docs); Ok(Func(name, ys))
    case InList(x, list, negated) =>
      var y :- Lower(env, x, docs);
      var ys :- LowerAll(env, list, docs);
      Ok(InList(y, ys, negated))
    case Between(x, lo, hi, negated) =>
      var y :- Lower(env, x, docs);
      var l :- Lower(env, lo, docs);
      var h :- Lower(env, hi, docs);
      Ok(Between(y, l, h, negated))
    case Like(x, p, ci, negated) =>
      var y :- Lower(env, x, docs);
      var q :- Lower(env, p, docs);
      Ok(Like(y, q, ci, negated))
    case Literal(_) => Ok(e)
    case Column(_) => Ok(e)
    case Parameter(_) => Ok(e)
  }

  function LowerAll(env: Env, es: seq<SqlExpr>, docs: seq<Document>): (r: Result<seq<SqlExpr>>)
    ensures r.Ok? ==> |r.value| == |es|
    decreases es, 0
  {
    if es == [] then Ok([])
    else
      var y :- Lower(env, es[0], docs);
      var ys :- LowerAll(env, es[1..], docs);
      Ok([y] + ys)
  }

  /** An output expression of a group: aggregates over its rows, columns from a representative. */
  function EvalGroup(env: Env, e: SqlExpr, docs: seq<Document>, rep: Document): Result<Value> {
    var low :- Lower(env, e, docs);
    Eval(env, low, rep)
  }

  lemma LowerColumn(env: Env, func: AggFunc, c: string, docs: seq<Document>)
    requires Supported(func)
    ensures Lower(env, Aggregate(func, AggArg.Of(Column(c))), docs) == Ok(Literal(Agg(env, func, ColumnOf(c, docs))))
  {
  }

  lemma LowerChange(env: Env, func: AggFunc, c: string, docs: seq<Document>)
    requires Changes(func)
    ensures Lower(env, Aggregate(func, AggArg.Of(Column(c))), docs) == Ok(Literal(ChangeValue(func, c, docs)))
  {
  }

  lemma LowerBinary(env: Env, op: BinaryOp, l: SqlExpr, r: SqlExpr, docs: seq<Document>, x: Value, y: Value)
    requires Lower(env, l, docs) == Ok(Literal(x)) && Lower(env, r, docs) == Ok(Literal(y))
    ensures Lower(env, Binary(op, l, r), docs) == Ok(Binary(op, Literal(x), Literal(y)))
  {
  }

  lemma EvalDiv(env: Env, x: Value, y: Value, row: Document)
    ensures Eval(env, Binary(Div, Literal(x), Literal(y)), row) == Arith(Div, x, y)
  {
  }

  lemma LowerPair(env: Env, e: SqlExpr, v: Value, w: Value, docs: seq<Document>)
    requires Lower(env, e, docs) == Ok(Literal(v))
    ensures LowerAll(env, [e, Literal(w)], docs) == Ok([Literal(v), Literal(w)])
  {
    var es: seq<SqlExpr> := [e, Literal(w)];
    var tail: seq<SqlExpr> := [Literal(w)];
    assert es[0] == e && es[1..] == tail && tail[1..] == [];
    assert Lower(env, tail[0], docs) == Ok(Literal(w));
    assert [Literal(w)] + LowerAll(env, [], docs).value == tail;
    assert LowerAll(env, tail, docs) == Ok(tail);
    assert LowerAll(env, es, docs) == Ok([Literal(v)] + tail);
    assert [Literal(v)] + tail == [Literal(v), Literal(w)];
  }

  lemma EvalCoalescePair(env: Env, v: Value, w: Value, row: Document)
    ensures Eval(env, Func("coalesce", [Literal(v), Literal(w)]), row) == Ok(if v.Null? then w else v)
  {
    var args: seq<SqlExpr> := [Literal(v), Literal(w)];
    var tail: seq<SqlExpr> := [Literal(w)];
    assert args[0] == Literal(v) && args[1..] == tail && tail[1..] == [];
    assert Eval(env, tail[0], row) == Ok(w) && Eval(env, args[0], row) == Ok(v);
    assert EvalCoalesce(env, tail, row) == Ok(w);
    assert EvalCoalesce(env, args, row) == Ok(if v.Null? then w else v);
  }

  // Aggregates of float columns, stated on the samples themselves.

  function FloatCells(s: seq<Sample>): Cells {
    seq(|s|, i requires 0 <= i < |s| => (s[i].ts, Float(s[i].value)))
  }

  function OnSamples(func: AggFunc, s: seq<Sample>): Value
    requires Supported(func)
  {
    if func.Count? then Int(Wrap64(|s|))
    else if s == [] then Null
    else match func
      case Sum => Float(Total(s))
      case Avg => Float(Total(s) / |s| as real)
      case Min => Float(Best(Lowest, s).value)
      case Max => Float(Best(Highest, s).value)
      case First => Float(Best(Earliest, s).value)
      case Last => Float(Best(Latest, s).value)
      case _ => Null
  }

  lemma {:induction false} FloatSum(s: seq<Sample>)
    ensures NumberSum(FloatCells(s)) == Total(s)
  {
    if s != [] {
      FloatSum(Front(s));
      assert FloatCells(s)[..|s| - 1] == FloatCells(Front(s));
    }
  }

  lemma {:induction false} FloatExtreme(env: Env, s: Run, sign: int)
    requires sign == 1 || sign == -1
    ensures Extreme(env, FloatCells(s), sign) == Float(Best(if sign == 1 then Highest else Lowest, s).value)
  {
    if |s| > 1 {
      FloatExtreme(env, Front(s), sign);
      assert FloatCells(s)[..|s| - 1] == FloatCells(Front(s));
    }
  }

  lemma {:induction false} FloatAtEnd(s: Run, wantLast: bool)
    ensures var b := Best(if wantLast then Latest else Earliest, s);
            AtEnd(FloatCells(s), wantLast) == Some((b.ts, Float(b.value)))
  {
    assert FloatCells(s)[..|s| - 1] == FloatCells(Front(s));
    if |s| > 1 { FloatAtEnd(Front(s), wantLast); }
  }

  lemma AggOnFloats(env: Env, func: AggFunc, s: seq<Sample>)
    requires Supported(func)
    ensures Agg(env, func, FloatCells(s)) == OnSamples(func, s)
  {
    if s != [] {
      assert FloatCells(s)[0].1.Float?;
      match func
      case Count =>
      case Sum => FloatSum(s);
      case Avg => FloatSum(s);
      case Min => FloatExtreme(env, s, -1);
      case Max => FloatExtreme(env, s, 1);
      case First => FloatAtEnd(s, false);
      case Last => FloatAtEnd(s, true);
    }
  }
}
