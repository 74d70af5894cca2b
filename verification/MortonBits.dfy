/** The masked 64-bit spread and compact compute the interleaving. */
module MortonBits {
  import opened Morton

  function SpreadBits(x: bv64): bv64 {
    var r := x & 0xFFFF_FFFF;
    var r := (r | (r << 16)) & 0x0000_FFFF_0000_FFFF;
    var r := (r | (r << 8)) & 0x00FF_00FF_00FF_00FF;
    var r := (r | (r << 4)) & 0x0F0F_0F0F_0F0F_0F0F;
    var r := (r | (r << 2)) & 0x3333_3333_3333_3333;
    (r | (r << 1)) & 0x5555_5555_5555_5555
  }

  function CompactBits(x: bv64): bv64 {
    var r := x & 0x5555_5555_5555_5555;
    var r := (r | (r >> 1)) & 0x3333_3333_3333_3333;
    var r := (r | (r >> 2)) & 0x0F0F_0F0F_0F0F_0F0F;
    var r := (r | (r >> 4)) & 0x00FF_00FF_00FF_00FF;
    var r := (r | (r >> 8)) & 0x0000_FFFF_0000_FFFF;
    (r | (r >> 16)) & 0x0000_0000_FFFF_FFFF
  }

  /** Latitude spread onto the even bits, longitude onto the odd ones. */
  function CodeBits(la: bv64, lo: bv64): bv64 { SpreadBits(la) | (SpreadBits(lo) << 1) }

  /** The masked compact reads each 32-bit coordinate back off a code. */
  lemma CompactBitsOfCode(la: bv64, lo: bv64)
    ensures CompactBits(CodeBits(la, lo)) == la & 0xFFFF_FFFF
    ensures CompactBits(CodeBits(la, lo) >> 1) == lo & 0xFFFF_FFFF
  {
  }

  // Binary digits, least significant first, as a number and as a machine word.

  type Bit = b: bv64 | b & 1 == b

  function Num(bits: seq<Bit>): nat { if bits == [] then 0 else (if bits[0] == 1 then 1 else 0) + 2 * Num(bits[1..]) }

  function Word(bits: seq<Bit>): bv64 { if bits == [] then 0 else (Word(bits[1..]) << 1) | bits[0] }

  function Weave(a: seq<Bit>, b: seq<Bit>): seq<Bit>
    requires |a| == |b|
  {
    if a == [] then [] else [a[0], b[0]] + Weave(a[1..], b[1..])
  }

  function Pair(z: bv64, b: bv64, a: bv64): bv64 { (z << 2) | (b << 1) | a }

  lemma CodePush(x: bv64, y: bv64, a: bv64, b: bv64)
    requires a & 1 == a && b & 1 == b
    ensures CodeBits((x << 1) | a, (y << 1) | b) == Pair(CodeBits(x, y), b, a)
  {
  }

  lemma ShiftPair(z: bv64, b: bv64, a: bv64)
    ensures (((z << 1) | b) << 1) | a == Pair(z, b, a)
  {
  }

  lemma WordPair(a: Bit, b: Bit, rest: seq<Bit>)
    ensures Word([a, b] + rest) == Pair(Word(rest), b, a)
  {
    assert ([a, b] + rest)[1..] == [b] + rest;
    assert ([b] + rest)[1..] == rest;
    ShiftPair(Word(rest), b, a);
  }

  predicate Pushes(code: (bv64, bv64) -> bv64, pair: (bv64, bv64, bv64) -> bv64, x: bv64, y: bv64, a: bv64, b: bv64) {
    code((x << 1) | a, (y << 1) | b) == pair(code(x, y), b, a)
  }

  lemma {:induction false} WeaveBy(code: (bv64, bv64) -> bv64, pair: (bv64, bv64, bv64) -> bv64, a: seq<Bit>,
                                   b: seq<Bit>)
    requires |a| == |b| && code(0, 0) == 0
    requires forall x: bv64, y: bv64, p: Bit, q: Bit :: Pushes(code, pair, x, y, p, q)
    requires forall p: Bit, q: Bit, rest: seq<Bit> :: Word([p, q] + rest) == pair(Word(rest), q, p)
    ensures code(Word(a), Word(b)) == Word(Weave(a, b))
  {
    if a != [] {
      WeaveBy(code, pair, a[1..], b[1..]);
      assert Pushes(code, pair, Word(a[1..]), Word(b[1..]), a[0], b[0]);
      assert Word([a[0], b[0]] + Weave(a[1..], b[1..])) == pair(Word(Weave(a[1..], b[1..])), b[0], a[0]);
    }
  }

  /** On the same digits, the masked code is the word of the woven digits. */
  lemma CodeBitsWeave(a: seq<Bit>, b: seq<Bit>)
    requires |a| == |b|
    ensures CodeBits(Word(a), Word(b)) == Word(Weave(a, b))
  {
    forall x: bv64, y: bv64, p: Bit, q: Bit ensures Pushes(CodeBits, Pair, x, y, p, q) { CodePush(x, y, p, q); }
    forall p: Bit, q: Bit, rest: seq<Bit> ensures Word([p, q] + rest) == Pair(Word(rest), q, p) {
      WordPair(p, q, rest);
    }
    WeaveBy(CodeBits, Pair, a, b);
  }

  /** And the Morton code is the number of the woven digits. */
  lemma {:induction false} CodeWeave(a: seq<Bit>, b: seq<Bit>)
    requires |a| == |b|
    ensures Code(Num(a), Num(b)) == Num(Weave(a, b))
  {
    if a != [] {
      CodeWeave(a[1..], b[1..]);
      CodeLast(if a[0] == 1 then 1 else 0, Num(a[1..]), if b[0] == 1 then 1 else 0, Num(b[1..]));
      NumPair(a[0], b[0], Weave(a[1..], b[1..]));
    }
  }

  lemma NumPair(a: Bit, b: Bit, rest: seq<Bit>)
    ensures Num([a, b] + rest) == (if a == 1 then 1 else 0) + 2 * (if b == 1 then 1 else 0) + 4 * Num(rest)
  {
    assert ([a, b] + rest)[1..] == [b] + rest;
    assert ([b] + rest)[1..] == rest;
  }

  // Machine words are the numbers.

  lemma ShiftDoubles(w: bv64)
    requires w < 0x8000_0000_0000_0000
    ensures (w << 1) as nat == 2 * (w as nat) && ((w << 1) | 1) as nat == 2 * (w as nat) + 1
  {
  }

  lemma HalfBelow(w: bv64, n: nat)
    requires w as nat == n < 0x8000_0000_0000_0000
    ensures w < 0x8000_0000_0000_0000
  {
  }

  lemma BitCases(w: bv64, b: Bit)
    ensures (w << 1) | b == if b == 1 then (w << 1) | 1 else w << 1
  {
  }

  lemma {:induction false} NumBelow(bits: seq<Bit>)
    ensures Num(bits) < Up2(1, |bits|)
  {
    if bits != [] { NumBelow(bits[1..]); }
  }

  lemma {:induction false} Up2Monotone(j: nat, k: nat)
    requires j <= k
    ensures Up2(1, j) <= Up2(1, k)
  {
    if j < k { Up2Monotone(j, k - 1); }
  }

  lemma {:induction false} Up2Add(j: nat, k: nat)
    ensures Up2(1, j + k) == Up2(1, j) * Up2(1, k)
  {
    if k > 0 {
      Up2Add(j, k - 1);
      assert 2 * (Up2(1, j) * Up2(1, k - 1)) == Up2(1, j) * (2 * Up2(1, k - 1));
    }
  }

  lemma WordSize(n: nat)
    requires n == 32
    ensures Up2(1, n) == 0x1_0000_0000 && 2 * Up2(1, n + n - 1) == 0x1_0000_0000_0000_0000
  {
    assert Up2(1, 4) == 16;
    Up2Add(4, 4);
    Up2Add(8, 8);
    Up2Add(16, 16);
    Up2Add(n, n);
  }

  lemma NumHalf(bits: seq<Bit>)
    requires |bits| <= 63
    ensures Num(bits) < 0x8000_0000_0000_0000
  {
    NumBelow(bits);
    WordSize(32);
    Up2Monotone(|bits|, 63);
  }

  lemma WordStep(w: bv64, n: nat, b: Bit, v: bv64)
    requires w as nat == n < 0x8000_0000_0000_0000 && v == (w << 1) | b
    ensures v as nat == (if b == 1 then 1 else 0) + 2 * n
  {
    HalfBelow(w, n);
    ShiftDoubles(w);
    BitCases(w, b);
  }

  /** A word of at most 64 digits is their number. */
  lemma {:induction false} WordIsNum(bits: seq<Bit>)
    requires |bits| <= 64
    ensures Word(bits) as nat == Num(bits)
  {
    if bits != [] {
      var rest := bits[1..];
      WordIsNum(rest);
      NumHalf(rest);
      WordStep(Word(rest), Num(rest), bits[0], Word(bits));
    }
  }

  lemma {:induction false} DigitsOf(x: nat, n: nat) returns (bits: seq<Bit>)
    requires x < Up2(1, n)
    ensures |bits| == n && Num(bits) == x
  {
    bits := [];
    if n > 0 {
      var rest := DigitsOf(x / 2, n - 1);
      var low: Bit := if x % 2 == 1 then 1 else 0;
      bits := [low] + rest;
      assert bits[1..] == rest;
    }
  }

  lemma WordBack(bits: seq<Bit>, x: nat)
    requires Word(bits) as nat == x
    ensures x < 0x1_0000_0000_0000_0000 && x as bv64 == Word(bits)
  {
  }

  lemma {:induction false} WeaveLength(a: seq<Bit>, b: seq<Bit>)
    requires |a| == |b|
    ensures |Weave(a, b)| == |a| + |b|
  {
    if a != [] { WeaveLength(a[1..], b[1..]); }
  }

  /** The masked code of two 32-bit coordinates is their Morton code. */
  lemma CodeBitsIsCode(x: nat, y: nat)
    requires x < 0x1_0000_0000 && y < 0x1_0000_0000
    ensures CodeBits(x as bv64, y as bv64) as nat == Code(x, y)
  {
    WordSize(32);
    var a := DigitsOf(x, 32);
    var b := DigitsOf(y, 32);
    WordIsNum(a);
    WordIsNum(b);
    WordBack(a, x);
    WordBack(b, y);
    CodeBitsWeave(a, b);
    WeaveLength(a, b);
    WordIsNum(Weave(a, b));
    CodeWeave(a, b);
  }
}
