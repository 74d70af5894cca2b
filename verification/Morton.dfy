/** Morton (Z-order) codes: two coordinates interleaved digit by digit. */
module Morton {
  /** Binary digits of `x` moved to the even positions. */
  function Spread(x: nat): nat { if x == 0 then 0 else x % 2 + 4 * Spread(x / 2) }

  /** Digits at the even positions gathered. */
  function Compact(z: nat): nat { if z == 0 then 0 else z % 2 + 2 * Compact(z / 4) }

  /** Latitude on even positions, longitude on odd ones. */
  function Code(la: nat, lo: nat): nat { Spread(la) + 2 * Spread(lo) }

  predicate Digit(d: nat) { d <= 1 }

  // Arithmetic of last digits.

  lemma LastDigit(x: nat) returns (d: nat, w: nat)
    ensures x == d + 2 * w && Digit(d) && (x > 0 ==> w < x) && w == x / 2
  {
    d, w := x % 2, x / 2;
  }

  lemma Halve(d: nat, w: nat)
    requires Digit(d)
    ensures (d + 2 * w) % 2 == d && (d + 2 * w) / 2 == w
  {
  }

  lemma Quarter(b: nat, c: nat, w: nat)
    requires Digit(b) && Digit(c)
    ensures (b + 2 * c + 4 * w) % 2 == b && (b + 2 * c + 4 * w) / 4 == w && (b + 2 * c + 4 * w) / 2 == c + 2 * w
  {
  }

  // The functions by their last digits.

  lemma SpreadLast(d: nat, w: nat)
    requires Digit(d)
    ensures Spread(d + 2 * w) == d + 4 * Spread(w)
  {
    Halve(d, w);
  }

  lemma CodeLast(a: nat, x: nat, b: nat, y: nat)
    requires Digit(a) && Digit(b)
    ensures Code(a + 2 * x, b + 2 * y) == a + 2 * b + 4 * Code(x, y)
  {
    SpreadLast(a, x);
    SpreadLast(b, y);
  }

  lemma CompactLast(b: nat, c: nat, w: nat)
    requires Digit(b) && Digit(c)
    ensures Compact(b + 2 * c + 4 * w) == b + 2 * Compact(w)
  {
    Quarter(b, c, w);
  }

  /** The digits at the odd positions. */
  function Odds(z: nat): nat { Compact(z / 2) }

  lemma OddsLast(b: nat, c: nat, w: nat)
    requires Digit(b) && Digit(c)
    ensures Odds(b + 2 * c + 4 * w) == c + 2 * Odds(w)
  {
    Quarter(b, c, w);
    var e, v := LastDigit(w);
    CompactLast(c, e, v);
    assert c + 2 * w == c + 2 * e + 4 * v;
  }

  lemma ReadBack(a: nat, x: nat, b: nat, y: nat)
    requires Digit(a) && Digit(b) && Compact(Code(x, y)) == x && Odds(Code(x, y)) == y
    ensures Compact(Code(a + 2 * x, b + 2 * y)) == a + 2 * x && Odds(Code(a + 2 * x, b + 2 * y)) == b + 2 * y
  {
    CodeLast(a, x, b, y);
    CompactLast(a, b, Code(x, y));
    OddsLast(a, b, Code(x, y));
  }

  /** Interleaving loses nothing: each coordinate is read back off its own positions. */
  lemma {:induction false} CompactCode(la: nat, lo: nat)
    ensures Compact(Code(la, lo)) == la && Odds(Code(la, lo)) == lo
    decreases la + lo
  {
    if la + lo > 0 {
      var a, x := LastDigit(la);
      var b, y := LastDigit(lo);
      CompactCode(x, y);
      ReadBack(a, x, b, y);
    }
  }

  lemma Rebuild(b: nat, c: nat, w: nat)
    requires Digit(b) && Digit(c) && Code(Compact(w), Odds(w)) == w
    ensures Code(Compact(b + 2 * c + 4 * w), Odds(b + 2 * c + 4 * w)) == b + 2 * c + 4 * w
  {
    CompactLast(b, c, w);
    OddsLast(b, c, w);
    CodeLast(b, Compact(w), c, Odds(w));
  }

  /** Every number is the code of its two halves. */
  lemma {:induction false} CodeCompact(z: nat)
    ensures Code(Compact(z), Odds(z)) == z
  {
    if z > 0 {
      var b, y := LastDigit(z);
      var c, w := LastDigit(y);
      CodeCompact(w);
      Rebuild(b, c, w);
      assert z == b + 2 * c + 4 * w;
    }
  }

  // Codes by blocks: shifting whole digits in and out.

  /** `c` with `k` zero base-4 digits appended. */
  function Up4(c: nat, k: nat): nat { if k == 0 then c else 4 * Up4(c, k - 1) }

  /** `x` with `k` zero binary digits appended. */
  function Up2(x: nat, k: nat): nat { if k == 0 then x else 2 * Up2(x, k - 1) }

  /** `z` without its `k` lowest base-4 digits. */
  function Down4(z: nat, k: nat): nat { if k == 0 then z else Down4(z / 4, k - 1) }

  /** `x` without its `k` lowest binary digits. */
  function Down2(x: nat, k: nat): nat { if k == 0 then x else Down2(x / 2, k - 1) }

  lemma CodeQuarter(la: nat, lo: nat)
    ensures Code(la, lo) / 4 == Code(la / 2, lo / 2)
  {
    var a, x := LastDigit(la);
    var b, y := LastDigit(lo);
    CodeLast(a, x, b, y);
    Quarter(a, b, Code(x, y));
  }

  /** Dropping digit pairs of a code drops digits of both coordinates. */
  lemma {:induction false} Down4Code(la: nat, lo: nat, k: nat)
    ensures Down4(Code(la, lo), k) == Code(Down2(la, k), Down2(lo, k))
  {
    if k > 0 {
      CodeQuarter(la, lo);
      Down4Code(la / 2, lo / 2, k - 1);
    }
  }

  /** A block of codes is an interval. */
  lemma {:induction false} Down4Bounds(z: nat, k: nat, c: nat)
    ensures Down4(z, k) == c <==> Up4(c, k) <= z < Up4(c + 1, k)
  {
    if k > 0 { Down4Bounds(z / 4, k - 1, c); }
  }

  lemma {:induction false} Down2Bounds(x: nat, k: nat, c: nat)
    ensures Down2(x, k) == c <==> Up2(c, k) <= x < Up2(c + 1, k)
  {
    if k > 0 { Down2Bounds(x / 2, k - 1, c); }
  }

  lemma {:induction false} Up2Sum(x: nat, y: nat, k: nat)
    ensures Up2(x + y, k) == Up2(x, k) + Up2(y, k)
  {
    if k > 0 { Up2Sum(x, y, k - 1); }
  }

  /** The corner of a block, coordinate by coordinate. */
  lemma {:induction false} CompactUp(c: nat, k: nat)
    ensures Compact(Up4(c, k)) == Up2(Compact(c), k) && Odds(Up4(c, k)) == Up2(Odds(c), k)
  {
    if k > 0 {
      CompactUp(c, k - 1);
      CompactLast(0, 0, Up4(c, k - 1));
      OddsLast(0, 0, Up4(c, k - 1));
    }
  }
}
