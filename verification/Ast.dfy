/** SQL scalar expressions, over a type `S` of names and a type `V` of literal values. */
module Ast {
  datatype UnaryOp = Not | Neg

  datatype BinaryOp = Eq | NotEq | Lt | LtEq | Gt | GtEq | And | Or | Add | Sub | Mul | Div

  datatype AggFunc =
    | Count | Sum | Avg | Min | Max | Rate | Increase | Delta | First | Last
    | Percentile(basisPoints: nat)

  datatype AggArg<S, V> = Star | Of(e: Expr<S, V>) | Distinct(e: Expr<S, V>) | ApproxDistinct(e: Expr<S, V>)

  datatype Expr<S, V> =
    | Literal(v: V)
    | Parameter(n: nat)
    | Column(path: S)
    | Unary(uop: UnaryOp, e: Expr<S, V>)
    | Binary(op: BinaryOp, left: Expr<S, V>, right: Expr<S, V>)
    | IsNull(e: Expr<S, V>, negated: bool)
    | InList(e: Expr<S, V>, list: seq<Expr<S, V>>, negated: bool)
    | Between(e: Expr<S, V>, lo: Expr<S, V>, hi: Expr<S, V>, negated: bool)
    | Like(e: Expr<S, V>, pattern: Expr<S, V>, caseInsensitive: bool, negated: bool)
    | Aggregate(func: AggFunc, arg: AggArg<S, V>)
    | Func(name: S, args: seq<Expr<S, V>>)

  /** The planner's walk meets no column. It looks into an aggregate only when its argument is a plain expression. */
  predicate ColumnFree<S, V>(e: Expr<S, V>) {
    match e
    case Literal(_) => true
    case Parameter(_) => true
    case Column(_) => false
    case Unary(_, x) => ColumnFree(x)
    case Binary(_, l, r) => ColumnFree(l) && ColumnFree(r)
    case IsNull(x, _) => ColumnFree(x)
    case InList(x, list, _) => ColumnFree(x) && forall i :: 0 <= i < |list| ==> ColumnFree(list[i])
    case Between(x, lo, hi, _) => ColumnFree(x) && ColumnFree(lo) && ColumnFree(hi)
    case Like(x, p, _, _) => ColumnFree(x) && ColumnFree(p)
    case Aggregate(_, arg) => arg.Of? ==> ColumnFree(arg.e)
    case Func(_, args) => forall i :: 0 <= i < |args| ==> ColumnFree(args[i])
  }

  predicate HasAggregate<S, V>(e: Expr<S, V>) {
    match e
    case Aggregate(_, _) => true
    case Unary(_, x) => HasAggregate(x)
    case IsNull(x, _) => HasAggregate(x)
    case Binary(_, l, r) => HasAggregate(l) || HasAggregate(r)
    case Func(_, args) => exists i :: 0 <= i < |args| && HasAggregate(args[i])
    case InList(x, list, _) => HasAggregate(x) || exists i :: 0 <= i < |list| && HasAggregate(list[i])
    case Between(x, lo, hi, _) => HasAggregate(x) || HasAggregate(lo) || HasAggregate(hi)
    case Like(x, p, _, _) => HasAggregate(x) || HasAggregate(p)
    case _ => false
  }
}
