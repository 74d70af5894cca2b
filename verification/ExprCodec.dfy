/** Filter expressions on the wire. */
module ExprCodec {
  import opened Ast
  import opened ByteReaders
  import opened Prelude

  /** Names are UTF-8 bytes; literals are whatever `V` is. */
  type WireExpr<V> = Expr<seq<Byte>, V>

  /** How literals travel, and which bytes are text. */
  datatype Values<!V> = Values(encode: V -> seq<Byte>, decode: seq<Byte> -> Option<V>, utf8: seq<Byte> -> bool)

  function UnaryCode(op: UnaryOp): Byte { match op case Not => 0 case Neg => 1 }

  function UnaryFrom(b: Byte): Option<UnaryOp> { if b == 0 then Some(Not) else if b == 1 then Some(Neg) else None }

  function BinaryCode(op: BinaryOp): Byte {
    match op
    case Eq => 0 case NotEq => 1 case Lt => 2 case LtEq => 3 case Gt => 4 case GtEq => 5
    case And => 6 case Or => 7 case Add => 8 case Sub => 9 case Mul => 10 case Div => 11
  }

  function BinaryFrom(b: Byte): Option<BinaryOp> {
    if b == 0 then Some(Eq) else if b == 1 then Some(NotEq) else if b == 2 then Some(Lt) else if b == 3 then Some(LtEq)
    else if b == 4 then Some(Gt) else if b == 5 then Some(GtEq) else if b == 6 then Some(And)
    else if b == 7 then Some(Or)
    else if b == 8 then Some(Add) else if b == 9 then Some(Sub) else if b == 10 then Some(Mul)
    else if b == 11 then Some(Div) else None
  }

  const UNARY_ORDER: seq<UnaryOp> := [Not, Neg]

  const BINARY_ORDER: seq<BinaryOp> := [Eq, NotEq, Lt, LtEq, Gt, GtEq, And, Or, Add, Sub, Mul, Div]

  /** Operators are numbered in that order from zero, and any other byte is none. */
  lemma OperatorCodes(b: Byte)
    ensures UnaryFrom(b) == if b < 2 then Some(UNARY_ORDER[b]) else None
    ensures BinaryFrom(b) == if b < 12 then Some(BINARY_ORDER[b]) else None
  {
  }

  function Flag(b: bool): Byte { if b then 1 else 0 }

  /** `put_expr`: what cannot be pushed becomes a sentinel. */
  function WriteExpr<V>(c: Values<V>, e: WireExpr<V>): (bytes: seq<Byte>)
    ensures bytes != []
  {
    match e
    case Literal(v) => [0] + PutBytes(c.encode(v))
    case Column(p) => [1] + PutBytes(p)
    case Unary(op, x) => [2] + ([UnaryCode(op)] + WriteExpr(c, x))
    case Binary(op, l, r) => [3] + ([BinaryCode(op)] + (WriteExpr(c, l) + WriteExpr(c, r)))
    case IsNull(x, n) => [4] + (WriteExpr(c, x) + [Flag(n)])
    case InList(x, list, n) => [5] + (WriteExpr(c, x) + (Le(4, |list|) + (WriteExprs(c, list) + [Flag(n)])))
    case Between(x, lo, hi, n) => [6] + (WriteExpr(c, x) + (WriteExpr(c, lo) + (WriteExpr(c, hi) + [Flag(n)])))
    case Like(x, p, ci, n) => [7] + (WriteExpr(c, x) + (WriteExpr(c, p) + ([Flag(ci)] + [Flag(n)])))
    case _ => [255]
  }

  function WriteExprs<V>(c: Values<V>, list: seq<WireExpr<V>>): seq<Byte> {
    if list == [] then [] else WriteExpr(c, list[0]) + WriteExprs(c, list[1..])
  }

  /** `Cur::expr` on the remaining bytes. */
  function ReadExpr<V>(c: Values<V>, data: seq<Byte>): (p: Parse<WireExpr<V>>)
    ensures p.Got? ==> |p.rest| < |data|
    decreases |data|, 0
  {
    if data == [] then Bad
    else
      var tag, rest := data[0], data[1..];
      if tag == 0 then
        match GetBytes(rest)
        case Bad => Bad
        case Got(b, rest) => (match c.decode(b) case None => Bad case Some(v) => Got(Literal(v), rest))
      else if tag == 1 then
        match GetBytes(rest)
        case Bad => Bad
        case Got(b, rest) => if c.utf8(b) then Got(Column(b), rest) else Bad
      else if tag == 2 then ReadUnary(c, rest)
      else if tag == 3 then ReadBinary(c, rest)
      else if tag == 4 then ReadIsNull(c, rest)
      else if tag == 5 then ReadInList(c, rest)
      else if tag == 6 then ReadBetween(c, rest)
      else if tag == 7 then ReadLike(c, rest)
      else Bad
  }

  function ReadUnary<V>(c: Values<V>, data: seq<Byte>): (p: Parse<WireExpr<V>>)
    ensures p.Got? ==> |p.rest| < |data|
    decreases |data|, 2
  {
    match GetByte(data)
    case Bad => Bad
    case Got(b, rest) =>
      if UnaryFrom(b).None? then Bad
      else match ReadExpr(c, rest)
        case Bad => Bad
        case Got(x, rest) => Got(Unary(UnaryFrom(b).value, x), rest)
  }

  function ReadBinary<V>(c: Values<V>, data: seq<Byte>): (p: Parse<WireExpr<V>>)
    ensures p.Got? ==> |p.rest| < |data|
    decreases |data|, 2
  {
    match GetByte(data)
    case Bad => Bad
    case Got(b, rest) =>
      if BinaryFrom(b).None? then Bad
      else match ReadExpr(c, rest)
        case Bad => Bad
        case Got(l, rest) =>
          match ReadExpr(c, rest)
          case Bad => Bad
          case Got(r, rest) => Got(Binary(BinaryFrom(b).value, l, r), rest)
  }

  function ReadIsNull<V>(c: Values<V>, data: seq<Byte>): (p: Parse<WireExpr<V>>)
    ensures p.Got? ==> |p.rest| < |data|
    decreases |data|, 2
  {
    match ReadExpr(c, data)
    case Bad => Bad
    case Got(x, rest) => (match GetByte(rest) case Bad => Bad case Got(n, rest) => Got(IsNull(x, n != 0), rest))
  }

  function ReadInList<V>(c: Values<V>, data: seq<Byte>): (p: Parse<WireExpr<V>>)
    ensures p.Got? ==> |p.rest| < |data|
    decreases |data|, 2
  {
    match ReadExpr(c, data)
    case Bad => Bad
    case Got(x, rest) =>
      if |rest| < 4 then Bad
      else match ReadExprs(c, FromLe(rest[..4]), rest[4..])
        case Bad => Bad
        case Got(list, rest) =>
          match GetByte(rest)
          case Bad => Bad
          case Got(n, rest) => Got(InList(x, list, n != 0), rest)
  }

  function ReadBetween<V>(c: Values<V>, data: seq<Byte>): (p: Parse<WireExpr<V>>)
    ensures p.Got? ==> |p.rest| < |data|
    decreases |data|, 2
  {
    match ReadExpr(c, data)
    case Bad => Bad
    case Got(x, rest) =>
      match ReadExpr(c, rest)
      case Bad => Bad
      case Got(lo, rest) =>
        match ReadExpr(c, rest)
        case Bad => Bad
        case Got(hi, rest) =>
          match GetByte(rest)
          case Bad => Bad
          case Got(n, rest) => Got(Between(x, lo, hi, n != 0), rest)
  }

  function ReadLike<V>(c: Values<V>, data: seq<Byte>): (p: Parse<WireExpr<V>>)
    ensures p.Got? ==> |p.rest| < |data|
    decreases |data|, 2
  {
    match ReadExpr(c, data)
    case Bad => Bad
    case Got(x, rest) =>
      match ReadExpr(c, rest)
      case Bad => Bad
      case Got(pat, rest) =>
        match GetByte(rest)
        case Bad => Bad
        case Got(ci, rest) =>
          match GetByte(rest)
          case Bad => Bad
          case Got(n, rest) => Got(Like(x, pat, ci != 0, n != 0), rest)
  }

  function ReadExprs<V>(c: Values<V>, n: nat, data: seq<Byte>): (p: Parse<seq<WireExpr<V>>>)
    ensures p.Got? ==> |p.rest| <= |data|
    decreases |data|, 1
  {
    if n == 0 then Got([], data)
    else match ReadExpr(c, data)
      case Bad => Bad
      case Got(x, rest) =>
        match ReadExprs(c, n - 1, rest)
        case Bad => Bad
        case Got(list, rest) => Got([x] + list, rest)
  }

  // What can be pushed, and what fits the wire.

  /** No aggregate, parameter or function anywhere. */
  predicate Pushable<V>(e: WireExpr<V>) {
    match e
    case Literal(_) => true
    case Column(_) => true
    case Unary(_, x) => Pushable(x)
    case Binary(_, l, r) => Pushable(l) && Pushable(r)
    case IsNull(x, _) => Pushable(x)
    case InList(x, list, _) => Pushable(x) && AllPushable(list)
    case Between(x, lo, hi, _) => Pushable(x) && Pushable(lo) && Pushable(hi)
    case Like(x, p, _, _) => Pushable(x) && Pushable(p)
    case _ => false
  }

  predicate AllPushable<V>(list: seq<WireExpr<V>>) { list == [] || (Pushable(list[0]) && AllPushable(list[1..])) }

  /** Literals decode to themselves, names are text, and every length fits 32 bits. */
  ghost predicate Fits<V>(c: Values<V>, e: WireExpr<V>) {
    match e
    case Literal(v) => c.decode(c.encode(v)) == Some(v) && |c.encode(v)| < Pow256(4)
    case Column(p) => c.utf8(p) && |p| < Pow256(4)
    case Unary(_, x) => Fits(c, x)
    case Binary(_, l, r) => Fits(c, l) && Fits(c, r)
    case IsNull(x, _) => Fits(c, x)
    case InList(x, list, _) => Fits(c, x) && |list| < Pow256(4) && AllFit(c, list)
    case Between(x, lo, hi, _) => Fits(c, x) && Fits(c, lo) && Fits(c, hi)
    case Like(x, p, _, _) => Fits(c, x) && Fits(c, p)
    case _ => true
  }

  ghost predicate AllFit<V>(c: Values<V>, list: seq<WireExpr<V>>) {
    list == [] || (Fits(c, list[0]) && AllFit(c, list[1..]))
  }

  function Outcome<T>(ok: bool, x: T, rest: seq<Byte>): Parse<T> { if ok then Got(x, rest) else Bad }

  /** With any bytes behind it, its encoding reads back as `x` when that can be pushed, and fails when not. */
  ghost predicate DecodesOrFails<V>(c: Values<V>, x: WireExpr<V>) { Reads(c, WriteExpr(c, x), x, Pushable(x)) }

  /** With any bytes behind them, these read as `x`, or fail. */
  ghost predicate Reads<V>(c: Values<V>, bytes: seq<Byte>, x: WireExpr<V>, ok: bool) {
    forall rest: seq<Byte> :: ReadsAt(c, bytes, x, ok, rest)
  }

  ghost predicate ReadsAt<V>(c: Values<V>, bytes: seq<Byte>, x: WireExpr<V>, ok: bool, rest: seq<Byte>) {
    ReadExpr(c, bytes + rest) == Outcome(ok, x, rest)
  }

  // One lemma per form, each from its parts.

  lemma Head(b: Byte, body: seq<Byte>, rest: seq<Byte>)
    ensures ([b] + body) + rest == [b] + (body + rest)
    ensures ([b] + (body + rest))[0] == b && ([b] + (body + rest))[1..] == body + rest
  {
  }

  lemma Assoc(a: seq<Byte>, b: seq<Byte>, rest: seq<Byte>)
    ensures (a + b) + rest == a + (b + rest)
  {
  }

  lemma Layout4(tag: Byte, a: seq<Byte>, b: seq<Byte>, d: seq<Byte>, f: seq<Byte>, rest: seq<Byte>)
    ensures ([tag] + (a + (b + (d + f)))) + rest == [tag] + (a + (b + (d + (f + rest))))
  {
    Head(tag, a + (b + (d + f)), rest);
    Assoc(a, b + (d + f), rest);
    Assoc(b, d + f, rest);
    Assoc(d, f, rest);
  }

  lemma LiteralDecodes<V>(c: Values<V>, v: V)
    requires Fits(c, Literal(v))
    ensures DecodesOrFails(c, Literal(v))
  {
    forall rest: seq<Byte> ensures ReadsAt(c, WriteExpr(c, Literal(v)), Literal(v), true, rest) {
      Head(0, PutBytes(c.encode(v)), rest);
      BytesBack(c.encode(v), rest);
    }
  }

  lemma ColumnDecodes<V>(c: Values<V>, p: seq<Byte>)
    requires Fits(c, Column(p))
    ensures DecodesOrFails(c, Column(p))
  {
    forall rest: seq<Byte> ensures ReadsAt(c, WriteExpr(c, Column(p)), Column(p), true, rest) {
      Head(1, PutBytes(p), rest);
      BytesBack(p, rest);
    }
  }

  /** The tag picks the form. */
  lemma Dispatch<V>(c: Values<V>, tag: Byte, body: seq<Byte>)
    ensures var p := ReadExpr(c, [tag] + body);
            && (tag == 2 ==> p == ReadUnary(c, body)) && (tag == 3 ==> p == ReadBinary(c, body))
            && (tag == 4 ==> p == ReadIsNull(c, body)) && (tag == 5 ==> p == ReadInList(c, body))
            && (tag == 6 ==> p == ReadBetween(c, body)) && (tag == 7 ==> p == ReadLike(c, body))
  {
    assert ([tag] + body)[1..] == body;
  }

  lemma UnaryStep<V>(c: Values<V>, op: UnaryOp, data: seq<Byte>)
    ensures ReadUnary(c, [UnaryCode(op)] + data) ==
            match ReadExpr(c, data) case Bad => Bad case Got(x, rest) => Got(Unary(op, x), rest)
  {
    assert ([UnaryCode(op)] + data)[1..] == data;
  }

  lemma UnaryBytes<V>(c: Values<V>, op: UnaryOp, x: WireExpr<V>, a: seq<Byte>, rest: seq<Byte>, px: bool)
    requires ReadExpr(c, a + rest) == Outcome(px, x, rest)
    ensures ReadExpr(c, ([2] + ([UnaryCode(op)] + a)) + rest) == Outcome(px, Unary(op, x), rest)
  {
    Head(2, [UnaryCode(op)] + a, rest);
    Head(UnaryCode(op), a, rest);
    Dispatch(c, 2, [UnaryCode(op)] + (a + rest));
    UnaryStep(c, op, a + rest);
  }

  lemma UnaryReads<V>(c: Values<V>, op: UnaryOp, x: WireExpr<V>, a: seq<Byte>, px: bool)
    requires Reads(c, a, x, px)
    ensures Reads(c, [2] + ([UnaryCode(op)] + a), Unary(op, x), px)
  {
    forall rest: seq<Byte> ensures ReadsAt(c, [2] + ([UnaryCode(op)] + a), Unary(op, x), px, rest) {
      assert ReadsAt(c, a, x, px, rest);
      UnaryBytes(c, op, x, a, rest, px);
    }
  }

  /** The next expression of a form, if the one before it was read. */
  lemma BinaryStep<V>(c: Values<V>, op: BinaryOp, data: seq<Byte>, l: WireExpr<V>, more: seq<Byte>)
    ensures ReadExpr(c, data) == Bad ==> ReadBinary(c, [BinaryCode(op)] + data) == Bad
    ensures ReadExpr(c, data) == Got(l, more) ==>
              ReadBinary(c, [BinaryCode(op)] + data) ==
              match ReadExpr(c, more) case Bad => Bad case Got(r, rest) => Got(Binary(op, l, r), rest)
  {
    assert ([BinaryCode(op)] + data)[1..] == data;
  }

  lemma BinaryBytes<V>(c: Values<V>, op: BinaryOp, l: WireExpr<V>, a: seq<Byte>, r: WireExpr<V>, b: seq<Byte>,
                       rest: seq<Byte>, pl: bool, pr: bool)
    requires ReadExpr(c, a + (b + rest)) == Outcome(pl, l, b + rest) && ReadExpr(c, b + rest) == Outcome(pr, r, rest)
    ensures ReadExpr(c, ([3] + ([BinaryCode(op)] + (a + b))) + rest) == Outcome(pl && pr, Binary(op, l, r), rest)
  {
    Head(3, [BinaryCode(op)] + (a + b), rest);
    Head(BinaryCode(op), a + b, rest);
    Assoc(a, b, rest);
    Dispatch(c, 3, [BinaryCode(op)] + (a + (b + rest)));
    BinaryStep(c, op, a + (b + rest), l, b + rest);
  }

  lemma BinaryReads<V>(c: Values<V>, op: BinaryOp, l: WireExpr<V>, a: seq<Byte>, r: WireExpr<V>, b: seq<Byte>,
                       pl: bool, pr: bool)
    requires Reads(c, a, l, pl) && Reads(c, b, r, pr)
    ensures Reads(c, [3] + ([BinaryCode(op)] + (a + b)), Binary(op, l, r), pl && pr)
  {
    var ok := pl && pr;
    forall rest: seq<Byte> ensures ReadsAt(c, [3] + ([BinaryCode(op)] + (a + b)), Binary(op, l, r), ok, rest) {
      assert ReadsAt(c, a, l, pl, b + rest) && ReadsAt(c, b, r, pr, rest);
      BinaryBytes(c, op, l, a, r, b, rest, pl, pr);
    }
  }

  lemma IsNullBytes<V>(c: Values<V>, x: WireExpr<V>, a: seq<Byte>, n: bool, rest: seq<Byte>, px: bool)
    requires ReadExpr(c, a + ([Flag(n)] + rest)) == Outcome(px, x, [Flag(n)] + rest)
    ensures ReadExpr(c, ([4] + (a + [Flag(n)])) + rest) == Outcome(px, IsNull(x, n), rest)
  {
    Head(4, a + [Flag(n)], rest);
    Assoc(a, [Flag(n)], rest);
    Dispatch(c, 4, a + ([Flag(n)] + rest));
    assert ([Flag(n)] + rest)[1..] == rest;
  }

  lemma IsNullReads<V>(c: Values<V>, x: WireExpr<V>, a: seq<Byte>, n: bool, px: bool)
    requires Reads(c, a, x, px)
    ensures Reads(c, [4] + (a + [Flag(n)]), IsNull(x, n), px)
  {
    forall rest: seq<Byte> ensures ReadsAt(c, [4] + (a + [Flag(n)]), IsNull(x, n), px, rest) {
      assert ReadsAt(c, a, x, px, [Flag(n)] + rest);
      IsNullBytes(c, x, a, n, rest, px);
    }
  }

  lemma BetweenStep<V>(c: Values<V>, data: seq<Byte>, x: WireExpr<V>, d1: seq<Byte>, lo: WireExpr<V>, d2: seq<Byte>,
                       hi: WireExpr<V>, n: bool, rest: seq<Byte>, px: bool, pl: bool, ph: bool)
    requires ReadExpr(c, data) == Outcome(px, x, d1) && ReadExpr(c, d1) == Outcome(pl, lo, d2)
    requires ReadExpr(c, d2) == Outcome(ph, hi, [Flag(n)] + rest)
    ensures ReadBetween(c, data) == Outcome(px && pl && ph, Between(x, lo, hi, n), rest)
  {
    assert ([Flag(n)] + rest)[1..] == rest;
  }

  lemma BetweenBytes<V>(c: Values<V>, x: WireExpr<V>, a: seq<Byte>, lo: WireExpr<V>, b: seq<Byte>, hi: WireExpr<V>,
                        d: seq<Byte>, n: bool, rest: seq<Byte>, px: bool, pl: bool, ph: bool)
    requires ReadExpr(c, a + (b + (d + ([Flag(n)] + rest)))) == Outcome(px, x, b + (d + ([Flag(n)] + rest)))
    requires ReadExpr(c, b + (d + ([Flag(n)] + rest))) == Outcome(pl, lo, d + ([Flag(n)] + rest))
    requires ReadExpr(c, d + ([Flag(n)] + rest)) == Outcome(ph, hi, [Flag(n)] + rest)
    ensures ReadExpr(c, ([6] + (a + (b + (d + [Flag(n)])))) + rest) ==
            Outcome(px && pl && ph, Between(x, lo, hi, n), rest)
  {
    Layout4(6, a, b, d, [Flag(n)], rest);
    Dispatch(c, 6, a + (b + (d + ([Flag(n)] + rest))));
    BetweenStep(c, a + (b + (d + ([Flag(n)] + rest))), x, b + (d + ([Flag(n)] + rest)), lo, d + ([Flag(n)] + rest),
                hi, n, rest, px, pl, ph);
  }

  lemma BetweenReads<V>(c: Values<V>, x: WireExpr<V>, a: seq<Byte>, lo: WireExpr<V>, b: seq<Byte>, hi: WireExpr<V>,
                        d: seq<Byte>, n: bool, px: bool, pl: bool, ph: bool)
    requires Reads(c, a, x, px) && Reads(c, b, lo, pl) && Reads(c, d, hi, ph)
    ensures Reads(c, [6] + (a + (b + (d + [Flag(n)]))), Between(x, lo, hi, n), px && pl && ph)
  {
    var ok := px && pl && ph;
    forall rest: seq<Byte> ensures ReadsAt(c, [6] + (a + (b + (d + [Flag(n)]))), Between(x, lo, hi, n), ok, rest) {
      var f := [Flag(n)] + rest;
      assert ReadsAt(c, a, x, px, b + (d + f)) && ReadsAt(c, b, lo, pl, d + f) && ReadsAt(c, d, hi, ph, f);
      BetweenBytes(c, x, a, lo, b, hi, d, n, rest, px, pl, ph);
    }
  }

  lemma LikeStep<V>(c: Values<V>, data: seq<Byte>, x: WireExpr<V>, d1: seq<Byte>, p: WireExpr<V>, ci: bool, n: bool,
                    rest: seq<Byte>, px: bool, pp: bool)
    requires ReadExpr(c, data) == Outcome(px, x, d1) &&
             ReadExpr(c, d1) == Outcome(pp, p, [Flag(ci)] + ([Flag(n)] + rest))
    ensures ReadLike(c, data) == Outcome(px && pp, Like(x, p, ci, n), rest)
  {
    assert ([Flag(ci)] + ([Flag(n)] + rest))[1..] == [Flag(n)] + rest;
    assert ([Flag(n)] + rest)[1..] == rest;
  }

  lemma LikeBytes<V>(c: Values<V>, x: WireExpr<V>, a: seq<Byte>, p: WireExpr<V>, b: seq<Byte>, ci: bool, n: bool,
                     rest: seq<Byte>, px: bool, pp: bool)
    requires ReadExpr(c, a + (b + ([Flag(ci)] + ([Flag(n)] + rest)))) ==
             Outcome(px, x, b + ([Flag(ci)] + ([Flag(n)] + rest)))
    requires ReadExpr(c, b + ([Flag(ci)] + ([Flag(n)] + rest))) == Outcome(pp, p, [Flag(ci)] + ([Flag(n)] + rest))
    ensures ReadExpr(c, ([7] + (a + (b + ([Flag(ci)] + [Flag(n)])))) + rest) ==
            Outcome(px && pp, Like(x, p, ci, n), rest)
  {
    var more := [Flag(ci)] + ([Flag(n)] + rest);
    Layout4(7, a, b, [Flag(ci)], [Flag(n)], rest);
    Dispatch(c, 7, a + (b + more));
    LikeStep(c, a + (b + more), x, b + more, p, ci, n, rest, px, pp);
  }

  lemma LikeReads<V>(c: Values<V>, x: WireExpr<V>, a: seq<Byte>, p: WireExpr<V>, b: seq<Byte>, ci: bool, n: bool,
                     px: bool, pp: bool)
    requires Reads(c, a, x, px) && Reads(c, b, p, pp)
    ensures Reads(c, [7] + (a + (b + ([Flag(ci)] + [Flag(n)]))), Like(x, p, ci, n), px && pp)
  {
    var ok := px && pp;
    forall rest: seq<Byte> ensures ReadsAt(c, [7] + (a + (b + ([Flag(ci)] + [Flag(n)]))), Like(x, p, ci, n), ok, rest) {
      var f := [Flag(ci)] + ([Flag(n)] + rest);
      assert ReadsAt(c, a, x, px, b + f) && ReadsAt(c, b, p, pp, f);
      LikeBytes(c, x, a, p, b, ci, n, rest, px, pp);
    }
  }

  ghost predicate AllDecodeOrFail<V>(c: Values<V>, list: seq<WireExpr<V>>) {
    ReadsAll(c, WriteExprs(c, list), list, AllPushable(list))
  }

  ghost predicate ReadsAll<V>(c: Values<V>, bytes: seq<Byte>, list: seq<WireExpr<V>>, ok: bool) {
    forall rest: seq<Byte> :: ReadsAllAt(c, bytes, list, ok, rest)
  }

  ghost predicate ReadsAllAt<V>(c: Values<V>, bytes: seq<Byte>, list: seq<WireExpr<V>>, ok: bool, rest: seq<Byte>) {
    ReadExprs(c, |list|, bytes + rest) == Outcome(ok, list, rest)
  }

  lemma InListStep<V>(c: Values<V>, data: seq<Byte>, x: WireExpr<V>, k: seq<Byte>, d1: seq<Byte>,
                      list: seq<WireExpr<V>>,
                      n: bool, rest: seq<Byte>, px: bool, pl: bool)
    requires |k| == 4 && FromLe(k) == |list| && ReadExpr(c, data) == Outcome(px, x, k + d1)
    requires ReadExprs(c, |list|, d1) == Outcome(pl, list, [Flag(n)] + rest)
    ensures ReadInList(c, data) == Outcome(px && pl, InList(x, list, n), rest)
  {
    var d := k + d1;
    assert d[..4] == k && d[4..] == d1;
    assert ([Flag(n)] + rest)[1..] == rest;
  }

  lemma InListBytes<V>(c: Values<V>, x: WireExpr<V>, a: seq<Byte>, list: seq<WireExpr<V>>, k: seq<Byte>, b: seq<Byte>,
                       n: bool, rest: seq<Byte>, px: bool, pl: bool)
    requires |k| == 4 && FromLe(k) == |list|
    requires ReadExpr(c, a + (k + (b + ([Flag(n)] + rest)))) == Outcome(px, x, k + (b + ([Flag(n)] + rest)))
    requires ReadExprs(c, |list|, b + ([Flag(n)] + rest)) == Outcome(pl, list, [Flag(n)] + rest)
    ensures ReadExpr(c, ([5] + (a + (k + (b + [Flag(n)])))) + rest) == Outcome(px && pl, InList(x, list, n), rest)
  {
    var f := [Flag(n)];
    Layout4(5, a, k, b, f, rest);
    Dispatch(c, 5, a + (k + (b + (f + rest))));
    InListStep(c, a + (k + (b + (f + rest))), x, k, b + (f + rest), list, n, rest, px, pl);
  }

  lemma InListReads<V>(c: Values<V>, x: WireExpr<V>, a: seq<Byte>, list: seq<WireExpr<V>>, k: seq<Byte>, b: seq<Byte>,
                       n: bool, px: bool, pl: bool)
    requires Reads(c, a, x, px) && ReadsAll(c, b, list, pl) && |k| == 4 && FromLe(k) == |list|
    ensures Reads(c, [5] + (a + (k + (b + [Flag(n)]))), InList(x, list, n), px && pl)
  {
    var ok := px && pl;
    forall rest: seq<Byte> ensures ReadsAt(c, [5] + (a + (k + (b + [Flag(n)]))), InList(x, list, n), ok, rest) {
      var f := [Flag(n)] + rest;
      assert ReadsAt(c, a, x, px, k + (b + f)) && ReadsAllAt(c, b, list, pl, f);
      InListBytes(c, x, a, list, k, b, n, rest, px, pl);
    }
  }

  lemma {:induction false} ListDecodes<V>(c: Values<V>, list: seq<WireExpr<V>>)
    requires AllFit(c, list)
    ensures AllDecodeOrFail(c, list)
    decreases list, 0
  {
    if list == [] {
      NoneReads(c);
    } else {
      ExprDecodes(c, list[0]);
      ListDecodes(c, list[1..]);
      ConsReads(c, list[0], WriteExpr(c, list[0]), list[1..], WriteExprs(c, list[1..]), Pushable(list[0]),
        AllPushable(list[1..]));
      assert [list[0]] + list[1..] == list;
    }
  }

  lemma NoneReads<V>(c: Values<V>)
    ensures ReadsAll(c, [], [], true)
  {
    forall rest: seq<Byte> ensures ReadsAllAt(c, [], [], true, rest) {
      assert [] + rest == rest;
    }
  }

  lemma ConsReads<V>(c: Values<V>, x: WireExpr<V>, a: seq<Byte>, list: seq<WireExpr<V>>, b: seq<Byte>, px: bool,
                     pl: bool)
    requires Reads(c, a, x, px) && ReadsAll(c, b, list, pl)
    ensures ReadsAll(c, a + b, [x] + list, px && pl)
  {
    var ok := px && pl;
    forall rest: seq<Byte> ensures ReadsAllAt(c, a + b, [x] + list, ok, rest) {
      Assoc(a, b, rest);
      assert ReadsAt(c, a, x, px, b + rest) && ReadsAllAt(c, b, list, pl, rest);
    }
  }

  /** For a filter that fits the wire (literals decode to themselves, names are text, lengths are below 2^32):
      decoding its encoding gives it back with any trailing bytes untouched, and fails exactly when it holds an
      aggregate, a parameter or a function. */
  lemma {:induction false} ExprDecodes<V>(c: Values<V>, e: WireExpr<V>)
    requires Fits(c, e)
    ensures DecodesOrFails(c, e)
    decreases e, 1
  {
    match e
    case Literal(v) => LiteralDecodes(c, v);
    case Column(p) => ColumnDecodes(c, p);
    case Unary(op, x) =>
      ExprDecodes(c, x);
      UnaryReads(c, op, x, WriteExpr(c, x), Pushable(x));
    case Binary(op, l, r) =>
      ExprDecodes(c, l);
      ExprDecodes(c, r);
      BinaryReads(c, op, l, WriteExpr(c, l), r, WriteExpr(c, r), Pushable(l), Pushable(r));
    case IsNull(x, n) =>
      ExprDecodes(c, x);
      IsNullReads(c, x, WriteExpr(c, x), n, Pushable(x));
    case InList(x, list, n) =>
      ExprDecodes(c, x);
      ListDecodes(c, list);
      LeRoundTrip(4, |list|);
      InListReads(c, x, WriteExpr(c, x), list, Le(4, |list|), WriteExprs(c, list), n, Pushable(x), AllPushable(list));
    case Between(x, lo, hi, n) =>
      ExprDecodes(c, x);
      ExprDecodes(c, lo);
      ExprDecodes(c, hi);
      BetweenReads(c, x, WriteExpr(c, x), lo, WriteExpr(c, lo), hi, WriteExpr(c, hi), n, Pushable(x), Pushable(lo),
        Pushable(hi));
    case Like(x, p, ci, n) =>
      ExprDecodes(c, x);
      ExprDecodes(c, p);
      LikeReads(c, x, WriteExpr(c, x), p, WriteExpr(c, p), ci, n, Pushable(x), Pushable(p));
    case _ => SentinelFails(c, e);
  }

  lemma SentinelFails<V>(c: Values<V>, e: WireExpr<V>)
    requires e.Aggregate? || e.Parameter? || e.Func?
    ensures DecodesOrFails(c, e)
  {
    forall rest: seq<Byte> ensures ReadsAt(c, [255], e, false, rest) {
      assert ([255] + rest)[0] == 255;
    }
  }

  // Bytes that are not encodings: a successful read does not depend on what follows.

  lemma {:induction false} ExprExtends<V>(c: Values<V>, data: seq<Byte>, more: seq<Byte>)
    requires ReadExpr(c, data).Got?
    ensures ReadExpr(c, data + more) == Longer(ReadExpr(c, data), more)
    decreases |data|, 0
  {
    var tag, rest := data[0], data[1..];
    ByteExtends(data, more);
    if tag < 2 {
      BytesExtend(rest, more);
    } else {
      FormExtends(c, tag, rest, more);
      assert data == [tag] + rest && data + more == [tag] + (rest + more);
      Dispatch(c, tag, rest);
      Dispatch(c, tag, rest + more);
    }
  }

  /** The reader of each compound form. */
  function ReadForm<V>(c: Values<V>, tag: Byte, data: seq<Byte>): Parse<WireExpr<V>> {
    if tag == 2 then ReadUnary(c, data)
    else if tag == 3 then ReadBinary(c, data)
    else if tag == 4 then ReadIsNull(c, data)
    else if tag == 5 then ReadInList(c, data)
    else if tag == 6 then ReadBetween(c, data)
    else if tag == 7 then ReadLike(c, data)
    else Bad
  }

  lemma {:induction false} FormExtends<V>(c: Values<V>, tag: Byte, data: seq<Byte>, more: seq<Byte>)
    requires ReadForm(c, tag, data).Got?
    ensures ReadForm(c, tag, data + more) == Longer(ReadForm(c, tag, data), more)
    decreases |data|, 3
  {
    if tag == 2 {
      UnaryExtends(c, data, more);
    } else if tag == 3 {
      BinaryExtends(c, data, more);
    } else if tag == 4 {
      IsNullExtends(c, data, more);
    } else if tag == 5 {
      InListExtends(c, data, more);
    } else if tag == 6 {
      BetweenExtends(c, data, more);
    } else {
      LikeExtends(c, data, more);
    }
  }

  lemma {:induction false} UnaryExtends<V>(c: Values<V>, data: seq<Byte>, more: seq<Byte>)
    requires ReadUnary(c, data).Got?
    ensures ReadUnary(c, data + more) == Longer(ReadUnary(c, data), more)
    decreases |data|, 2
  {
    ByteExtends(data, more);
    ExprExtends(c, data[1..], more);
  }

  lemma {:induction false} BinaryExtends<V>(c: Values<V>, data: seq<Byte>, more: seq<Byte>)
    requires ReadBinary(c, data).Got?
    ensures ReadBinary(c, data + more) == Longer(ReadBinary(c, data), more)
    decreases |data|, 2
  {
    ByteExtends(data, more);
    ExprExtends(c, data[1..], more);
    ExprExtends(c, ReadExpr(c, data[1..]).rest, more);
  }

  lemma {:induction false} IsNullExtends<V>(c: Values<V>, data: seq<Byte>, more: seq<Byte>)
    requires ReadIsNull(c, data).Got?
    ensures ReadIsNull(c, data + more) == Longer(ReadIsNull(c, data), more)
    decreases |data|, 2
  {
    ExprExtends(c, data, more);
    ByteExtends(ReadExpr(c, data).rest, more);
  }

  lemma {:induction false} InListExtends<V>(c: Values<V>, data: seq<Byte>, more: seq<Byte>)
    requires ReadInList(c, data).Got?
    ensures ReadInList(c, data + more) == Longer(ReadInList(c, data), more)
    decreases |data|, 2
  {
    ExprExtends(c, data, more);
    var rest := ReadExpr(c, data).rest;
    assert (rest + more)[..4] == rest[..4] && (rest + more)[4..] == rest[4..] + more;
    var n := FromLe(rest[..4]);
    ExprsExtend(c, n, rest[4..], more);
    ByteExtends(ReadExprs(c, n, rest[4..]).rest, more);
  }

  lemma {:induction false} BetweenExtends<V>(c: Values<V>, data: seq<Byte>, more: seq<Byte>)
    requires ReadBetween(c, data).Got?
    ensures ReadBetween(c, data + more) == Longer(ReadBetween(c, data), more)
    decreases |data|, 2
  {
    ExprExtends(c, data, more);
    var d1 := ReadExpr(c, data).rest;
    ExprExtends(c, d1, more);
    var d2 := ReadExpr(c, d1).rest;
    ExprExtends(c, d2, more);
    ByteExtends(ReadExpr(c, d2).rest, more);
  }

  lemma {:induction false} LikeExtends<V>(c: Values<V>, data: seq<Byte>, more: seq<Byte>)
    requires ReadLike(c, data).Got?
    ensures ReadLike(c, data + more) == Longer(ReadLike(c, data), more)
    decreases |data|, 2
  {
    ExprExtends(c, data, more);
    var d1 := ReadExpr(c, data).rest;
    ExprExtends(c, d1, more);
    var d2 := ReadExpr(c, d1).rest;
    ByteExtends(d2, more);
    ByteExtends(d2[1..], more);
  }

  lemma {:induction false} ExprsExtend<V>(c: Values<V>, n: nat, data: seq<Byte>, more: seq<Byte>)
    requires ReadExprs(c, n, data).Got?
    ensures ReadExprs(c, n, data + more) == Longer(ReadExprs(c, n, data), more)
    decreases |data|, 1
  {
    if n > 0 {
      ExprExtends(c, data, more);
      ExprsExtend(c, n - 1, ReadExpr(c, data).rest, more);
    }
  }

  function ExprReader<V>(c: Values<V>): Reader<WireExpr<V>> { (data: seq<Byte>) => ReadExpr(c, data) }

  lemma ReaderExtends<V>(c: Values<V>)
    ensures Extends(ExprReader(c))
  {
    forall data: seq<Byte>, more: seq<Byte> | ExprReader(c)(data).Got?
      ensures ExprReader(c)(data + more) == Longer(ExprReader(c)(data), more)
    {
      ExprExtends(c, data, more);
    }
  }

  /** An encoded filter cut short anywhere fails to decode. */
  lemma TruncatedExprFails<V>(c: Values<V>, e: WireExpr<V>, k: nat)
    requires Fits(c, e) && Pushable(e) && k < |WriteExpr(c, e)|
    ensures ReadExpr(c, WriteExpr(c, e)[..k]) == Bad
  {
    ExprDecodes(c, e);
    assert ReadsAt(c, WriteExpr(c, e), e, true, []);
    assert WriteExpr(c, e) + [] == WriteExpr(c, e);
    ReaderExtends(c);
    TruncationFails(ExprReader(c), WriteExpr(c, e), e, k);
  }

  // The items of a list travel as any counted values do; they are their own functions only because an
  // expression and its list are read by mutual recursion.

  function Another<V>(c: Values<V>, p: Parse<seq<WireExpr<V>>>): Parse<seq<WireExpr<V>>> {
    match p
    case Bad => Bad
    case Got(list, rest) => (match ReadExpr(c, rest) case Bad => Bad case Got(x, more) => Got(list + [x], more))
  }

  lemma {:induction false} ExprsSnoc<V>(c: Values<V>, n: nat, data: seq<Byte>)
    ensures ReadExprs(c, n + 1, data) == Another(c, ReadExprs(c, n, data))
  {
    if n == 0 {
      match ReadExpr(c, data)
      case Bad =>
      case Got(x, rest) => assert ReadExprs(c, 0, rest) == Got([], rest) && [x] + [] == [] + [x];
    } else if ReadExpr(c, data).Got? {
      var x, rest := ReadExpr(c, data).value, ReadExpr(c, data).rest;
      ExprsSnoc(c, n - 1, rest);
      var p := ReadExprs(c, n - 1, rest);
      if p.Got? && ReadExpr(c, p.rest).Got? {
        var y := ReadExpr(c, p.rest).value;
        assert [x] + (p.value + [y]) == ([x] + p.value) + [y];
      }
    }
  }

  lemma {:induction false} ExprsAreMany<V>(c: Values<V>, n: nat, data: seq<Byte>)
    ensures ReadExprs(c, n, data) == ReadMany(ExprReader(c), n, data)
  {
    if n > 0 {
      ExprsAreMany(c, n - 1, data);
      ExprsSnoc(c, n - 1, data);
    }
  }
}
