/** The cursor that decodes a received buffer in place, reading what the wire functions define. */
module WireCursor {
  import opened Ast
  import opened ByteReaders
  import opened ExprCodec
  import opened Prelude

  /** A cursor method returned, and left unread, what the reader on the remaining bytes does; after a failure the
      cursor is not used again. */
  ghost predicate Agrees<T>(p: Parse<T>, r: Option<T>, rest: seq<Byte>) {
    match p case Bad => r == None case Got(x, more) => r == Some(x) && rest == more
  }

  class Cur<V> {
    const buf: seq<Byte>
    const codec: Values<V>
    var pos: nat

    constructor (buf: seq<Byte>, codec: Values<V>)
      ensures this.buf == buf && this.codec == codec && pos == 0
    {
      this.buf, this.codec, pos := buf, codec, 0;
    }

    ghost predicate Valid()
      reads this
    {
      pos <= |buf|
    }

    /** The bytes not yet read. */
    ghost function Rest(): seq<Byte>
      requires Valid()
      reads this
    {
      buf[pos..]
    }

    method Take(n: nat) returns (r: Option<seq<Byte>>)
      requires Valid()
      modifies this
      ensures Valid() && pos >= old(pos)
      ensures r.Some? <==> n <= |old(Rest())|
      ensures r.Some? ==> r.value == old(Rest())[..n] && Rest() == old(Rest())[n..]
      ensures r.None? ==> pos == old(pos)
    {
      if pos + n > |buf| { return None; }
      r := Some(buf[pos..pos + n]);
      pos := pos + n;
    }

    method U8() returns (r: Option<Byte>)
      requires Valid()
      modifies this
      ensures Valid() && pos >= old(pos)
      ensures Agrees(GetByte(old(Rest())), r, Rest())
    {
      var s := Take(1);
      if s.None? { return None; }
      return Some(s.value[0]);
    }

    method U32() returns (r: Option<nat>)
      requires Valid()
      modifies this
      ensures Valid() && pos >= old(pos)
      ensures r.Some? <==> |old(Rest())| >= 4
      ensures r.Some? ==> r.value == FromLe(old(Rest())[..4]) && Rest() == old(Rest())[4..]
    {
      var s := Take(4);
      if s.None? { return None; }
      return Some(FromLe(s.value));
    }

    method Bytes() returns (r: Option<seq<Byte>>)
      requires Valid()
      modifies this
      ensures Valid() && pos >= old(pos)
      ensures Agrees(GetBytes(old(Rest())), r, Rest())
    {
      var n := U32();
      if n.None? { return None; }
      r := Take(n.value);
    }

    method Str() returns (r: Option<seq<Byte>>)
      requires Valid()
      modifies this
      ensures Valid() && pos >= old(pos)
      ensures r.Some? <==> GetBytes(old(Rest())).Got? && codec.utf8(GetBytes(old(Rest())).value)
      ensures r.Some? ==> GetBytes(old(Rest())) == Got(r.value, Rest())
    {
      r := Bytes();
      if r.Some? && !codec.utf8(r.value) { return None; }
    }

    /** The expression at the cursor, which moves past it. */
    method Expr() returns (r: Option<WireExpr<V>>)
      requires Valid()
      modifies this
      ensures Valid() && pos >= old(pos)
      ensures Agrees(ReadExpr(codec, old(Rest())), r, Rest())
      decreases |buf| - pos, 1
    {
      var tag := U8();
      if tag.None? { return None; }
      if tag.value == 0 {
        var b := Bytes();
        if b.None? { return None; }
        var v := codec.decode(b.value);
        return if v.None? then None else Some(Literal(v.value));
      } else if tag.value == 1 {
        var p := Str();
        return if p.None? then None else Some(Column(p.value));
      } else if tag.value == 2 {
        r := UnaryExpr();
      } else if tag.value == 3 {
        r := BinaryExpr();
      } else if tag.value == 4 {
        r := IsNullExpr();
      } else if tag.value == 5 {
        r := InListExpr();
      } else if tag.value == 6 {
        r := BetweenExpr();
      } else if tag.value == 7 {
        r := LikeExpr();
      } else {
        return None;
      }
    }

    method UnaryExpr() returns (r: Option<WireExpr<V>>)
      requires Valid()
      modifies this
      ensures Valid() && pos >= old(pos)
      ensures Agrees(ReadUnary(codec, old(Rest())), r, Rest())
      decreases |buf| - pos, 2
    {
      var b := U8();
      if b.None? || UnaryFrom(b.value).None? { return None; }
      var x := Expr();
      if x.None? { return None; }
      return Some(Unary(UnaryFrom(b.value).value, x.value));
    }

    method BinaryExpr() returns (r: Option<WireExpr<V>>)
      requires Valid()
      modifies this
      ensures Valid() && pos >= old(pos)
      ensures Agrees(ReadBinary(codec, old(Rest())), r, Rest())
      decreases |buf| - pos, 2
    {
      var b := U8();
      if b.None? || BinaryFrom(b.value).None? { return None; }
      var left := Expr();
      if left.None? { return None; }
      var right := Expr();
      if right.None? { return None; }
      return Some(Binary(BinaryFrom(b.value).value, left.value, right.value));
    }

    method IsNullExpr() returns (r: Option<WireExpr<V>>)
      requires Valid()
      modifies this
      ensures Valid() && pos >= old(pos)
      ensures Agrees(ReadIsNull(codec, old(Rest())), r, Rest())
      decreases |buf| - pos, 2
    {
      var x := Expr();
      if x.None? { return None; }
      var n := U8();
      if n.None? { return None; }
      return Some(IsNull(x.value, n.value != 0));
    }

    method InListExpr() returns (r: Option<WireExpr<V>>)
      requires Valid()
      modifies this
      ensures Valid() && pos >= old(pos)
      ensures Agrees(ReadInList(codec, old(Rest())), r, Rest())
      decreases |buf| - pos, 2
    {
      var x := Expr();
      if x.None? { return None; }
      var n := U32();
      if n.None? { return None; }
      var list := Exprs(n.value);
      if list.None? { return None; }
      var negated := U8();
      if negated.None? { return None; }
      return Some(InList(x.value, list.value, negated.value != 0));
    }

    /** The items of a list, one after another. */
    method Exprs(n: nat) returns (r: Option<seq<WireExpr<V>>>)
      requires Valid()
      modifies this
      ensures Valid() && pos >= old(pos)
      ensures Agrees(ReadExprs(codec, n, old(Rest())), r, Rest())
      decreases |buf| - pos, 2
    {
      var list: seq<WireExpr<V>> := [];
      var i := 0;
      ghost var start := Rest();
      PrependNothing(ReadExprs(codec, n, start));
      while i < n
        invariant 0 <= i <= n && Valid() && pos >= old(pos)
        invariant ReadExprs(codec, n, start) == Prepend(list, ReadExprs(codec, n - i, Rest()))
        decreases n - i
      {
        var x := Expr();
        if x.None? { return None; }
        PrependStep(list, x.value, ReadExprs(codec, n - i - 1, Rest()));
        list := list + [x.value];
        i := i + 1;
      }
      assert list + [] == list;
      return Some(list);
    }

    method BetweenExpr() returns (r: Option<WireExpr<V>>)
      requires Valid()
      modifies this
      ensures Valid() && pos >= old(pos)
      ensures Agrees(ReadBetween(codec, old(Rest())), r, Rest())
      decreases |buf| - pos, 2
    {
      var x := Expr();
      if x.None? { return None; }
      var lo := Expr();
      if lo.None? { return None; }
      var hi := Expr();
      if hi.None? { return None; }
      var n := U8();
      if n.None? { return None; }
      return Some(Between(x.value, lo.value, hi.value, n.value != 0));
    }

    method LikeExpr() returns (r: Option<WireExpr<V>>)
      requires Valid()
      modifies this
      ensures Valid() && pos >= old(pos)
      ensures Agrees(ReadLike(codec, old(Rest())), r, Rest())
      decreases |buf| - pos, 2
    {
      var x := Expr();
      if x.None? { return None; }
      var p := Expr();
      if p.None? { return None; }
      var ci := U8();
      if ci.None? { return None; }
      var n := U8();
      if n.None? { return None; }
      return Some(Like(x.value, p.value, ci.value != 0, n.value != 0));
    }
  }

  /** The cursor reads back what was written: a filter that can be pushed, leaving what follows it, and no other. */
  method ReadBack<V>(codec: Values<V>, e: WireExpr<V>, rest: seq<Byte>)
    returns (r: Option<WireExpr<V>>, left: seq<Byte>)
    requires Fits(codec, e)
    ensures r == if Pushable(e) then Some(e) else None
    ensures Pushable(e) ==> left == rest
  {
    var cur := new Cur(WriteExpr(codec, e) + rest, codec);
    ExprDecodes(codec, e);
    assert ReadsAt(codec, WriteExpr(codec, e), e, Pushable(e), rest);
    assert cur.Rest() == WriteExpr(codec, e) + rest;
    r := cur.Expr();
    left := cur.buf[cur.pos..];
  }

  /** Items already read, put before those still to come. */
  function Prepend<T>(done: seq<T>, p: Parse<seq<T>>): Parse<seq<T>> {
    match p case Bad => Bad case Got(more, rest) => Got(done + more, rest)
  }

  lemma PrependNothing<T>(p: Parse<seq<T>>)
    ensures Prepend([], p) == p
  {
    if p.Got? { assert [] + p.value == p.value; }
  }

  lemma PrependStep<T>(done: seq<T>, x: T, p: Parse<seq<T>>)
    ensures Prepend(done, match p case Bad => Bad case Got(more, rest) => Got([x] + more, rest)) ==
            Prepend(done + [x], p)
  {
    if p.Got? { assert done + ([x] + p.value) == done + [x] + p.value; }
  }
}
