/** Byte strings: little-endian integers and readers that leave the rest of the input untouched. */
module ByteReaders {
  type Byte = x: int | 0 <= x < 256

  /** 256 to the `n`. */
  function Pow256(n: nat): (p: nat)
    ensures p > 0
  {
    if n == 0 then 1 else 256 * Pow256(n - 1)
  }

  /** The `n` low bytes of `v`, least significant first. */
  function Le(n: nat, v: nat): (bytes: seq<Byte>)
    ensures |bytes| == n
  {
    if n == 0 then [] else [v % 256] + Le(n - 1, v / 256)
  }

  /** The `n` low bytes of `v`, most significant first. */
  function Be(n: nat, v: nat): (bytes: seq<Byte>)
    ensures |bytes| == n
  {
    if n == 0 then [] else Be(n - 1, v / 256) + [v % 256]
  }

  function FromLe(bytes: seq<Byte>): (v: nat)
    ensures v < Pow256(|bytes|)
  {
    if bytes == [] then 0 else bytes[0] + 256 * FromLe(bytes[1..])
  }

  /** Little-endian: byte `i` is the digit of weight `256^i`. */
  lemma {:induction false} LeDigits(n: nat, v: nat, i: nat)
    requires i < n
    ensures Le(n, v)[i] == v / Pow256(i) % 256
  {
    if i > 0 {
      LeDigits(n - 1, v / 256, i - 1);
      DivideTwice(v, Pow256(i - 1));
    }
  }

  lemma DivideTwice(v: nat, p: nat)
    requires p > 0
    ensures v / 256 / p == v / (256 * p)
  {
    var a := v / 256;
    var q := a / p;
    assert v == 256 * a + v % 256 && a == q * p + a % p;
    assert v == q * (256 * p) + (256 * (a % p) + v % 256);
    assert 256 * (a % p) + v % 256 < 256 * p;
    QuotientIs(v, 256 * p, q, 256 * (a % p) + v % 256);
  }

  lemma Closest(e: int, m: int, q: int, r: int, d: int)
    requires e * d + m == q * d + r && 0 <= m < d && 0 <= r < d
    ensures e == q
  {
    assert e >= q + 1 ==> e * d >= (q + 1) * d;
    assert e <= q - 1 ==> e * d <= (q - 1) * d;
  }

  lemma QuotientIs(v: nat, d: nat, q: nat, r: nat)
    requires v == q * d + r && r < d
    ensures v / d == q
  {
    var e, m := v / d, v % d;
    assert v == e * d + m && 0 <= m < d;
    Closest(e, m, q, r, d);
  }

  lemma {:induction false} LeRoundTrip(n: nat, v: nat)
    requires v < Pow256(n)
    ensures FromLe(Le(n, v)) == v
  {
    if n > 0 {
      LeRoundTrip(n - 1, v / 256);
      assert Le(n, v)[1..] == Le(n - 1, v / 256);
    }
  }

  /** The outcome of reading a value off the front of some bytes. */
  datatype Parse<T> = Got(value: T, rest: seq<Byte>) | Bad

  type Reader<!T> = seq<Byte> -> Parse<T>

  function Take(n: nat): Reader<seq<Byte>> {
    (data: seq<Byte>) => if |data| < n then Bad else Got(data[..n], data[n..])
  }

  function ReadLe(n: nat): Reader<nat> {
    (data: seq<Byte>) => if |data| < n then Bad else Got(FromLe(data[..n]), data[n..])
  }

  lemma TakeBack(bytes: seq<Byte>, rest: seq<Byte>)
    ensures Take(|bytes|)(bytes + rest) == Got(bytes, rest)
  {
    assert (bytes + rest)[..|bytes|] == bytes && (bytes + rest)[|bytes|..] == rest;
  }

  lemma ReadLeBack(n: nat, v: nat, rest: seq<Byte>)
    requires v < Pow256(n)
    ensures ReadLe(n)(Le(n, v) + rest) == Got(v, rest)
  {
    LeRoundTrip(n, v);
    assert (Le(n, v) + rest)[..n] == Le(n, v) && (Le(n, v) + rest)[n..] == rest;
  }

  /** `n` values one after another. */
  function ReadMany<T>(read: Reader<T>, n: nat, data: seq<Byte>): (p: Parse<seq<T>>)
    ensures p.Got? ==> |p.value| == n
  {
    if n == 0 then Got([], data)
    else match ReadMany(read, n - 1, data)
      case Bad => Bad
      case Got(items, rest) =>
        match read(rest)
        case Bad => Bad
        case Got(x, rest') => Got(items + [x], rest')
  }

  function WriteMany<T>(write: T -> seq<Byte>, items: seq<T>): seq<Byte> {
    if items == [] then [] else WriteMany(write, items[..|items| - 1]) + write(items[|items| - 1])
  }

  /** Reading what was written, with anything behind it. */
  ghost predicate Inverts<T>(write: T -> seq<Byte>, read: Reader<T>, x: T) {
    forall rest: seq<Byte> :: read(write(x) + rest) == Got(x, rest)
  }

  lemma {:induction false} ManyBack<T>(write: T -> seq<Byte>, read: Reader<T>, items: seq<T>, rest: seq<Byte>)
    requires forall i :: 0 <= i < |items| ==> Inverts(write, read, items[i])
    ensures ReadMany(read, |items|, WriteMany(write, items) + rest) == Got(items, rest)
  {
    if items == [] {
      assert WriteMany(write, items) + rest == rest;
    } else {
      var front, x := items[..|items| - 1], items[|items| - 1];
      ManyBack(write, read, front, write(x) + rest);
      assert WriteMany(write, items) + rest == WriteMany(write, front) + (write(x) + rest);
      assert Inverts(write, read, items[|items| - 1]);
      assert front + [x] == items;
    }
  }

  /** The same outcome with `more` left over. */
  function Longer<T>(p: Parse<T>, more: seq<Byte>): Parse<T> {
    match p case Bad => Bad case Got(x, rest) => Got(x, rest + more)
  }

  /** A reader that, having succeeded, does not care what follows. */
  ghost predicate Extends<T>(read: Reader<T>) {
    forall data: seq<Byte>, more: seq<Byte> :: read(data).Got? ==> read(data + more) == Longer(read(data), more)
  }

  lemma TakeExtends(n: nat)
    ensures Extends(Take(n)) && Extends(ReadLe(n))
  {
    forall data: seq<Byte>, more: seq<Byte> | |data| >= n
      ensures (data + more)[..n] == data[..n] && (data + more)[n..] == data[n..] + more
    {
    }
  }

  lemma {:induction false} ManyExtends<T>(read: Reader<T>, n: nat, data: seq<Byte>, more: seq<Byte>)
    requires Extends(read) && ReadMany(read, n, data).Got?
    ensures ReadMany(read, n, data + more) == Got(ReadMany(read, n, data).value, ReadMany(read, n, data).rest + more)
  {
    if n > 0 {
      ManyExtends(read, n - 1, data, more);
      var rest := ReadMany(read, n - 1, data).rest;
      assert read(rest + more) == Got(read(rest).value, read(rest).rest + more);
    }
  }

  /** Then no proper prefix of an encoding reads successfully. */
  lemma TruncationFails<T>(read: Reader<T>, bytes: seq<Byte>, x: T, k: nat)
    requires Extends(read) && read(bytes) == Got(x, []) && k < |bytes|
    ensures read(bytes[..k]) == Bad
  {
    assert bytes[..k] + bytes[k..] == bytes;
  }

  // Two values in a row, and lists behind their length.

  function Both<A, B>(a: A -> seq<Byte>, b: B -> seq<Byte>): ((A, B)) -> seq<Byte> {
    (p: (A, B)) => a(p.0) + b(p.1)
  }

  function ReadBoth<A, B>(a: Reader<A>, b: Reader<B>): Reader<(A, B)> {
    (data: seq<Byte>) =>
      match a(data)
      case Bad => Bad
      case Got(x, rest) =>
        match b(rest)
        case Bad => Bad
        case Got(y, rest') => Got((x, y), rest')
  }

  lemma BothBack<A, B>(wa: A -> seq<Byte>, ra: Reader<A>, x: A, wb: B -> seq<Byte>, rb: Reader<B>, y: B)
    requires Inverts(wa, ra, x) && Inverts(wb, rb, y)
    ensures Inverts(Both(wa, wb), ReadBoth(ra, rb), (x, y))
  {
    forall rest: seq<Byte> ensures ReadBoth(ra, rb)(Both(wa, wb)((x, y)) + rest) == Got((x, y), rest) {
      assert wa(x) + wb(y) + rest == wa(x) + (wb(y) + rest);
    }
  }

  lemma BothExtends<A, B>(ra: Reader<A>, rb: Reader<B>)
    requires Extends(ra) && Extends(rb)
    ensures Extends(ReadBoth(ra, rb))
  {
    var r := ReadBoth(ra, rb);
    forall data: seq<Byte>, more: seq<Byte> | r(data).Got?
      ensures r(data + more) == Got(r(data).value, r(data).rest + more)
    {
      assert ra(data + more) == Got(ra(data).value, ra(data).rest + more);
    }
  }

  /** A 32-bit count, then that many values. */
  function Listed<T>(write: T -> seq<Byte>): seq<T> -> seq<Byte> {
    (items: seq<T>) => Le(4, |items|) + WriteMany(write, items)
  }

  function ReadListed<T>(read: Reader<T>): Reader<seq<T>> {
    (data: seq<Byte>) =>
      match ReadLe(4)(data)
      case Bad => Bad
      case Got(n, rest) => ReadMany(read, n, rest)
  }

  lemma ListedBack<T>(write: T -> seq<Byte>, read: Reader<T>, items: seq<T>)
    requires |items| < Pow256(4) && forall i :: 0 <= i < |items| ==> Inverts(write, read, items[i])
    ensures Inverts(Listed(write), ReadListed(read), items)
  {
    forall rest: seq<Byte> ensures ReadListed(read)(Listed(write)(items) + rest) == Got(items, rest) {
      ReadLeBack(4, |items|, WriteMany(write, items) + rest);
      assert Le(4, |items|) + WriteMany(write, items) + rest == Le(4, |items|) + (WriteMany(write, items) + rest);
      ManyBack(write, read, items, rest);
    }
  }

  lemma ListedExtends<T>(read: Reader<T>)
    requires Extends(read)
    ensures Extends(ReadListed(read))
  {
    var r := ReadListed(read);
    TakeExtends(4);
    forall data: seq<Byte>, more: seq<Byte> | r(data).Got?
      ensures r(data + more) == Got(r(data).value, r(data).rest + more)
    {
      var head := ReadLe(4)(data);
      assert ReadLe(4)(data + more) == Got(head.value, head.rest + more);
      ManyExtends(read, head.value, head.rest, more);
    }
  }

  /** A 32-bit length, then that many bytes. */
  function PutBytes(b: seq<Byte>): seq<Byte> { Le(4, |b|) + b }

  function GetBytes(data: seq<Byte>): (p: Parse<seq<Byte>>)
    ensures p.Got? ==> |p.rest| + 4 <= |data|
  {
    if |data| < 4 then Bad
    else
      var n := FromLe(data[..4]);
      if |data| - 4 < n then Bad else Got(data[4..][..n], data[4..][n..])
  }

  lemma BytesBack(b: seq<Byte>, rest: seq<Byte>)
    requires |b| < Pow256(4)
    ensures GetBytes(PutBytes(b) + rest) == Got(b, rest)
  {
    var data := PutBytes(b) + rest;
    LeRoundTrip(4, |b|);
    assert data[..4] == Le(4, |b|) && data[4..] == b + rest;
    assert (b + rest)[..|b|] == b && (b + rest)[|b|..] == rest;
  }

  lemma BytesExtend(data: seq<Byte>, more: seq<Byte>)
    requires GetBytes(data).Got?
    ensures GetBytes(data + more) == Longer(GetBytes(data), more)
  {
    var n, body := FromLe(data[..4]), data[4..];
    assert (data + more)[..4] == data[..4] && (data + more)[4..] == body + more;
    assert (body + more)[..n] == body[..n] && (body + more)[n..] == body[n..] + more;
  }

  function GetByte(data: seq<Byte>): (p: Parse<Byte>)
    ensures p.Got? ==> |p.rest| + 1 == |data|
  {
    if data == [] then Bad else Got(data[0], data[1..])
  }

  lemma ByteExtends(data: seq<Byte>, more: seq<Byte>)
    requires data != []
    ensures GetByte(data + more) == Longer(GetByte(data), more)
  {
    assert (data + more)[1..] == data[1..] + more;
  }

  /** The same as values, to build on. */
  function Blob(): seq<Byte> -> seq<Byte> { (bytes: seq<Byte>) => PutBytes(bytes) }

  function ReadBlob(): Reader<seq<Byte>> { (data: seq<Byte>) => GetBytes(data) }

  lemma BlobBack(bytes: seq<Byte>)
    requires |bytes| < Pow256(4)
    ensures Inverts(Blob(), ReadBlob(), bytes)
  {
    forall rest: seq<Byte> ensures ReadBlob()(Blob()(bytes) + rest) == Got(bytes, rest) { BytesBack(bytes, rest); }
  }

  lemma BlobExtends()
    ensures Extends(ReadBlob())
  {
    forall data: seq<Byte>, more: seq<Byte> | ReadBlob()(data).Got?
      ensures ReadBlob()(data + more) == Longer(ReadBlob()(data), more)
    {
      BytesExtend(data, more);
    }
  }

  /** Exactly `n` values, the count known from elsewhere. */
  function ReadExactly<T>(read: Reader<T>, n: nat): Reader<seq<T>> {
    (data: seq<Byte>) => ReadMany(read, n, data)
  }

  function Written<T>(write: T -> seq<Byte>): seq<T> -> seq<Byte> {
    (items: seq<T>) => WriteMany(write, items)
  }

  lemma ExactlyBack<T>(write: T -> seq<Byte>, read: Reader<T>, items: seq<T>)
    requires forall i :: 0 <= i < |items| ==> Inverts(write, read, items[i])
    ensures Inverts(Written(write), ReadExactly(read, |items|), items)
  {
    forall rest: seq<Byte> ensures ReadExactly(read, |items|)(Written(write)(items) + rest) == Got(items, rest) {
      ManyBack(write, read, items, rest);
    }
  }

  lemma ExactlyExtends<T>(read: Reader<T>, n: nat)
    requires Extends(read)
    ensures Extends(ReadExactly(read, n))
  {
    forall data: seq<Byte>, more: seq<Byte> | ReadMany(read, n, data).Got?
      ensures ReadMany(read, n, data + more) == Got(ReadMany(read, n, data).value, ReadMany(read, n, data).rest + more)
    {
      ManyExtends(read, n, data, more);
    }
  }

  function WriteLe(n: nat): nat -> seq<Byte> { (v: nat) => Le(n, v) }

  lemma WriteLeBack(n: nat, v: nat)
    requires v < Pow256(n)
    ensures Inverts(WriteLe(n), ReadLe(n), v)
  {
    forall rest: seq<Byte> ensures ReadLe(n)(WriteLe(n)(v) + rest) == Got(v, rest) { ReadLeBack(n, v, rest); }
  }

  /** Raw bytes of a known length. */
  function Raw(): seq<Byte> -> seq<Byte> { (bytes: seq<Byte>) => bytes }

  lemma RawBack(bytes: seq<Byte>)
    ensures Inverts(Raw(), Take(|bytes|), bytes)
  {
    forall rest: seq<Byte> ensures Take(|bytes|)(Raw()(bytes) + rest) == Got(bytes, rest) { TakeBack(bytes, rest); }
  }

  // Converting what was read, and reading on by what was read.

  function ReadAs<P, T>(read: Reader<P>, f: P -> T): Reader<T> {
    (data: seq<Byte>) => match read(data) case Bad => Bad case Got(p, rest) => Got(f(p), rest)
  }

  lemma AsBack<P, T>(wp: P -> seq<Byte>, rp: Reader<P>, p: P, f: P -> T, w: T -> seq<Byte>, x: T)
    requires Inverts(wp, rp, p) && f(p) == x && w(x) == wp(p)
    ensures Inverts(w, ReadAs(rp, f), x)
  {
  }

  lemma AsExtends<P, T>(rp: Reader<P>, f: P -> T)
    requires Extends(rp)
    ensures Extends(ReadAs(rp, f))
  {
    var r := ReadAs(rp, f);
    forall data: seq<Byte>, more: seq<Byte> | r(data).Got?
      ensures r(data + more) == Got(r(data).value, r(data).rest + more)
    {
      assert rp(data + more) == Got(rp(data).value, rp(data).rest + more);
    }
  }

  function ReadThen<H, T>(head: Reader<H>, next: H -> Reader<T>): Reader<T> {
    (data: seq<Byte>) => match head(data) case Bad => Bad case Got(h, rest) => next(h)(rest)
  }

  lemma ThenBack<H, T>(wh: H -> seq<Byte>, rh: Reader<H>, h: H, next: H -> Reader<T>, tail: seq<Byte>, x: T,
                       rest: seq<Byte>)
    requires Inverts(wh, rh, h) && next(h)(tail + rest) == Got(x, rest)
    ensures ReadThen(rh, next)(wh(h) + tail + rest) == Got(x, rest)
  {
    assert wh(h) + tail + rest == wh(h) + (tail + rest);
  }

  lemma ThenExtends<H(!new), T>(rh: Reader<H>, next: H -> Reader<T>)
    requires Extends(rh) && forall h :: Extends(next(h))
    ensures Extends(ReadThen(rh, next))
  {
    var r := ReadThen(rh, next);
    forall data: seq<Byte>, more: seq<Byte> | r(data).Got?
      ensures r(data + more) == Got(r(data).value, r(data).rest + more)
    {
      assert rh(data + more) == Got(rh(data).value, rh(data).rest + more);
      var h := rh(data).value;
      assert Extends(next(h));
    }
  }

  // Big-endian numbers.

  function FromBe(bytes: seq<Byte>): (v: nat)
    ensures v < Pow256(|bytes|)
  {
    if bytes == [] then 0 else FromBe(bytes[..|bytes| - 1]) * 256 + bytes[|bytes| - 1]
  }

  lemma {:induction false} BeRoundTrip(n: nat, v: nat)
    requires v < Pow256(n)
    ensures FromBe(Be(n, v)) == v
  {
    if n > 0 {
      BeRoundTrip(n - 1, v / 256);
      assert Be(n, v)[..n - 1] == Be(n - 1, v / 256);
    }
  }
}
