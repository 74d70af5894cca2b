/** What comparisons, arithmetic, `COALESCE` and `time_bucket` compute. */
module SqlValues {
  import opened Ast
  import opened Evaluator
  import opened Int64
  import opened Prelude
  import LikeMatcher = Like

  /** A column is the row's value under its name, NULL when it has none or the name is a dotted path. */
  lemma ColumnIs(env: Env, c: string, row: Document)
    ensures c !in row || '.' in c ==> Eval(env, Column(c), row) == Ok(Null)
    ensures c in row && '.' !in c ==> Eval(env, Column(c), row) == Ok(row[c])
  {
  }

  /** The relevance scores are hidden columns; asking for one that is not there fails. */
  lemma ScoreIs(env: Env, name: string, args: seq<SqlExpr>, row: Document)
    requires name == "score" || name == "rrf_score"
    ensures Eval(env, Func(name, args), row) ==
            if args == [] && "_" + name in row then Ok(row["_" + name]) else Err
  {
  }

  /** IS NULL tells NULL from everything else and is never NULL itself. */
  lemma IsNullIs(env: Env, x: SqlExpr, row: Document)
    requires Eval(env, x, row).Ok?
    ensures Keeps(env, IsNull(x, false), row) <==> Eval(env, x, row) == Ok(Null)
    ensures Keeps(env, IsNull(x, true), row) <==> Eval(env, x, row) != Ok(Null)
  {
  }

  /** LIKE holds of two strings that match, NOT LIKE of two that do not, and both are NULL of anything else. */
  lemma LikeIs(env: Env, x: SqlExpr, p: SqlExpr, row: Document)
    requires Eval(env, x, row).Ok? && Eval(env, p, row).Ok?
    ensures var s, t := Eval(env, x, row).value, Eval(env, p, row).value;
            && (s.Str? && t.Str? ==>
                  && Eval(env, Like(x, p, false, false), row) == Ok(Bool(LikeMatcher.Matches(s.s, t.s)))
                  && Eval(env, Like(x, p, false, true), row) == Ok(Bool(!LikeMatcher.Matches(s.s, t.s)))
                  && Eval(env, Like(x, p, true, false), row) ==
                     Ok(Bool(LikeMatcher.Matches(env.lower(s.s), env.lower(t.s)))))
            && (!(s.Str? && t.Str?) ==> forall ci, n :: Eval(env, Like(x, p, ci, n), row) == Ok(Null))
  {
  }

  /** Strings compare by their first difference, a proper prefix coming first. */
  lemma {:induction false} StringOrder(a: string, b: string) returns (k: nat)
    ensures k <= |a| && k <= |b| && a[..k] == b[..k]
    ensures k < |a| && k < |b| ==> a[k] != b[k] && (CompareStr(a, b) < 0 <==> a[k] < b[k])
    ensures k == |a| || k == |b| ==> (CompareStr(a, b) < 0 <==> |a| < |b|)
    ensures CompareStr(a, b) == 0 <==> a == b
  {
    k := 0;
    if a != "" && b != "" && a[0] == b[0] {
      k := StringOrder(a[1..], b[1..]);
      k := k + 1;
      assert a == [a[0]] + a[1..] && b == [b[0]] + b[1..];
      assert a[..k] == [a[0]] + a[1..][..k - 1] && b[..k] == [b[0]] + b[1..][..k - 1];
      assert k < |a| ==> a[k] == a[1..][k - 1];
      assert k < |b| ==> b[k] == b[1..][k - 1];
    }
  }

  lemma {:induction false} StringsFlip(a: string, b: string)
    ensures CompareStr(b, a) == -CompareStr(a, b)
  {
    if a != "" && b != "" && a[0] == b[0] { StringsFlip(a[1..], b[1..]); }
  }

  function Negated(v: Value): Value { if v.Bool? then Bool(!v.b) else v }

  /** `!=` negates `=`, `>=` negates `<` and `<=` negates `>`, on all values, NULLs included. */
  lemma Complements(env: Env, l: Value, r: Value)
    ensures Comparison(env, NotEq, l, r) == Negated(Comparison(env, Eq, l, r))
    ensures Comparison(env, GtEq, l, r) == Negated(Comparison(env, Lt, l, r))
    ensures Comparison(env, LtEq, l, r) == Negated(Comparison(env, Gt, l, r))
  {
  }

  /** Between scalars exactly one of `<`, `=` and `>` holds, or all three are NULL; `<` and `>` are converse. */
  lemma Trichotomy(env: Env, l: Value, r: Value)
    requires !l.Array? && !r.Array?
    ensures var lt, eq, gt := Comparison(env, Lt, l, r), Comparison(env, Eq, l, r), Comparison(env, Gt, l, r);
            || (lt == eq == gt == Null)
            || (lt == Bool(true) && eq == gt == Bool(false))
            || (eq == Bool(true) && lt == gt == Bool(false))
            || (gt == Bool(true) && lt == eq == Bool(false))
    ensures Comparison(env, Gt, l, r) == Comparison(env, Lt, r, l)
    ensures Comparison(env, Eq, l, r) == Comparison(env, Eq, r, l)
  {
    if l.Str? && r.Str? { StringsFlip(l.s, r.s); }
  }

  /** Which scalars are ordered, and how: numbers of any kind by value, strings by `StringOrder`, FALSE first. */
  lemma ScalarOrder(env: Env, l: Value, r: Value)
    requires !l.Array? && !r.Array?
    ensures Comparison(env, Lt, l, r).Null? <==>
      !((Number(l).Some? && Number(r).Some?) || (l.Str? && r.Str?) || (l.Bool? && r.Bool?))
    ensures Number(l).Some? && Number(r).Some? ==>
      Comparison(env, Lt, l, r) == Bool(Number(l).value < Number(r).value)
    ensures Number(l).Some? && Number(r).Some? ==>
      Comparison(env, Eq, l, r) == Bool(Number(l).value == Number(r).value)
    ensures l.Str? && r.Str? ==> Comparison(env, Lt, l, r) == Bool(CompareStr(l.s, r.s) < 0)
    ensures l.Str? && r.Str? ==> Comparison(env, Eq, l, r) == Bool(l.s == r.s)
    ensures l.Bool? && r.Bool? ==> Comparison(env, Lt, l, r) == Bool(!l.b && r.b)
    ensures l.Bool? && r.Bool? ==> Comparison(env, Eq, l, r) == Bool(l.b == r.b)
  {
    if l.Str? && r.Str? { var k := StringOrder(l.s, r.s); }
  }

  /** An array equals a scalar when it holds an equal item. */
  lemma Containment(env: Env, l: Value, r: Value)
    requires l.Array? && !r.Array?
    ensures Comparison(env, Eq, l, r) == Bool(true) <==>
      exists k :: 0 <= k < |l.items| && Comparison(env, Eq, l.items[k], r) == Bool(true) && !l.items[k].Array?
    ensures Comparison(env, Eq, l, r) == Null <==> r.Null?
  {
    forall k | 0 <= k < |l.items|
      ensures Compare(env, l.items[k], r) == Some(0) <==>
              Comparison(env, Eq, l.items[k], r) == Bool(true) && !l.items[k].Array? {
    }
  }

  // Arithmetic.

  const WORD := 0x1_0000_0000_0000_0000

  /** The one 64-bit value that differs from `x` by a multiple of 2^64. */
  lemma WrapIs(x: int, y: I64)
    ensures Wrap64(x) == y <==> (x - y) % WORD == 0
    ensures InI64(x) ==> Wrap64(x) == x
  {
    var q, z := (x - MIN) / WORD, Wrap64(x);
    assert x - z == q * WORD;
    assert (x - y) % WORD == 0 ==> z - y == ((x - y) / WORD - q) * WORD;
  }

  lemma EuclidBounds(m: int, n: int)
    requires m >= 0 && n > 0
    ensures 0 <= m - m / n * n < n
  {
    assert m == m / n * n + m % n;
  }

  predicate Truncated(a: int, b: int, d: int) {
    var r := a - d * b;
    && -Larger(b, -b) < r < Larger(b, -b) && (a >= 0 ==> r >= 0) && (a <= 0 ==> r <= 0)
  }

  lemma SignedQuotient(a: int, b: int, q: int, d: int)
    requires b != 0 && 0 <= Larger(a, -a) - q * Larger(b, -b) < Larger(b, -b)
    requires d == if (a < 0) == (b < 0) then q else -q
    ensures Truncated(a, b, d)
  {
    assert -q * b == -(q * b) && q * -b == -(q * b);
  }

  /** Integer division truncates: the remainder is smaller than the divisor and has the dividend's sign. */
  lemma DivisionTruncates(a: int, b: int)
    requires b != 0
    ensures Truncated(a, b, TruncDiv(a, b))
  {
    var m, n := Larger(a, -a), Larger(b, -b);
    EuclidBounds(m, n);
    SignedQuotient(a, b, m / n, TruncDiv(a, b));
  }

  /** Integer sums, differences and products are exact modulo 2^64. */
  lemma IntegerArithmetic(a: I64, b: I64, y: I64)
    ensures Arith(Add, Int(a), Int(b)) == Ok(Int(y)) <==> (a + b - y) % WORD == 0
    ensures Arith(Sub, Int(a), Int(b)) == Ok(Int(y)) <==> (a - b - y) % WORD == 0
    ensures Arith(Mul, Int(a), Int(b)) == Ok(Int(y)) <==> (a * b - y) % WORD == 0
  {
    WrapIs(a + b, y);
    WrapIs(a - b, y);
    WrapIs(a * b, y);
  }

  lemma QuotientShrinks(m: int, n: int)
    requires m >= 0 && n > 0
    ensures 0 <= m / n <= m
  {
    var q := m / n;
    assert q >= 0 && q * n <= m;
    assert q * n >= q by { assert q * (n - 1) >= 0; }
  }

  lemma QuotientHalves(m: int, n: int)
    requires m >= 0 && n >= 2
    ensures m / n * 2 <= m
  {
    var q := m / n;
    assert q >= 0 && q * n <= m;
    assert q * n >= q * 2 by { assert q * (n - 2) >= 0; }
  }

  lemma QuotientFits(a: I64, b: I64)
    requires b != 0 && !(a == MIN && b == -1)
    ensures InI64(TruncDiv(a, b))
  {
    var m: int := if a < 0 then 0 - a else a;
    var n: int := if b < 0 then 0 - b else b;
    QuotientShrinks(m, n);
    if n >= 2 { QuotientHalves(m, n); }
  }

  /** A quotient of integers truncates, and is NULL over zero. */
  lemma IntegerDivision(a: I64, b: I64)
    ensures b == 0 ==> Arith(Div, Int(a), Int(b)) == Ok(Null)
    ensures b != 0 && !(a == MIN && b == -1) ==> Arith(Div, Int(a), Int(b)) == Ok(Int(TruncDiv(a, b)))
  {
    if b != 0 && !(a == MIN && b == -1) {
      QuotientFits(a, b);
      WrapIs(TruncDiv(a, b), 0);
    }
  }

  /** Unary minus: the integer that adds up to zero modulo 2^64, the opposite float, NULL of NULL. */
  lemma NegationIs(env: Env, x: SqlExpr, row: Document, y: I64)
    requires Eval(env, x, row).Ok?
    ensures var v := Eval(env, x, row).value;
            var r := Eval(env, Unary(Neg, x), row);
            && (v.Int? ==> (r == Ok(Int(y)) <==> (0 - v.i - y) % WORD == 0))
            && (v.Float? ==> r == Ok(Float(-v.f))) && (v.Null? ==> r == Ok(Null))
            && (!v.Int? && !v.Float? && !v.Null? ==> r == Err)
  {
    var v := Eval(env, x, row).value;
    if v.Int? { WrapIs(0 - v.i, y); }
  }

  /** A float or time operand makes the result a float; NULL absorbs, and nothing else is a number. */
  lemma MixedArithmetic(l: Value, r: Value)
    requires !(l.Int? && r.Int?)
    ensures (l.Null? || r.Null?) ==> forall op :: Arith(op, l, r) == Ok(Null)
    ensures !l.Null? && !r.Null? && (Number(l).None? || Number(r).None?) ==> forall op :: Arith(op, l, r) == Err
    ensures Number(l).Some? && Number(r).Some? ==>
      && Arith(Add, l, r) == Ok(Float(Number(l).value + Number(r).value))
      && Arith(Sub, l, r) == Ok(Float(Number(l).value - Number(r).value))
      && Arith(Mul, l, r) == Ok(Float(Number(l).value * Number(r).value))
  {
    if Number(l).Some? && Number(r).Some? {
      assert Arith(Mul, l, r) == Ok(Float(Number(l).value * Number(r).value));
    }
  }

  lemma MixedDivision(l: Value, r: Value)
    requires !(l.Int? && r.Int?) && Number(l).Some? && Number(r).Some?
    ensures Number(r).value == 0.0 ==> Arith(Div, l, r) == Ok(Null)
    ensures Number(r).value != 0.0 ==>
      exists q :: Arith(Div, l, r) == Ok(Float(q)) && q * Number(r).value == Number(l).value
  {
  }

  // Functions.

  /** COALESCE is its first argument that is not NULL; one that fails before it fails the whole. */
  lemma {:induction false} CoalesceIs(env: Env, es: seq<SqlExpr>, row: Document) returns (i: nat)
    ensures i <= |es| && forall j :: 0 <= j < i ==> Eval(env, es[j], row) == Ok(Null)
    ensures EvalCoalesce(env, es, row) == if i == |es| then Ok(Null) else Eval(env, es[i], row)
    ensures i < |es| ==> Eval(env, es[i], row) != Ok(Null)
  {
    i := 0;
    if es != [] && Eval(env, es[0], row) == Ok(Null) {
      i := CoalesceIs(env, es[1..], row);
      i := i + 1;
      forall j | 0 <= j < i ensures Eval(env, es[j], row) == Ok(Null) {
        if j > 0 { assert es[j] == es[1..][j - 1]; }
      }
    }
  }

  /** A NULL time has a NULL bucket; a step that is not positive fails. */
  lemma TimeBucketEdges(stepOf: Value, timeOf: Value)
    ensures timeOf.Null? ==> TimeBucket([stepOf, timeOf]) == Ok(Null)
    ensures !timeOf.Null? && AsIntMs(stepOf).Some? && AsIntMs(stepOf).value <= 0 ==> TimeBucket([stepOf, timeOf]) == Err
  {
  }

  lemma FloorIs(t: int, step: int, start: int)
    requires step > 0 && start % step == 0 && start <= t < start + step
    ensures FloorTo(t, step) == start
  {
    var p, q := start / step, t / step;
    assert start == p * step && t == q * step + t % step;
    assert q >= p + 1 ==> q * step >= (p + 1) * step;
    assert q <= p - 1 ==> q * step <= (p - 1) * step;
  }

  /** A bucket starts at a multiple of the step, at most a step below the time, unless that is below 64 bits. */
  lemma TimeBucketIs(stepOf: Value, timeOf: Value, start: int)
    requires AsIntMs(stepOf).Some? && AsIntMs(stepOf).value > 0 && AsIntMs(timeOf).Some? && InI64(start)
    requires start % AsIntMs(stepOf).value == 0
    requires start <= AsIntMs(timeOf).value < start + AsIntMs(stepOf).value
    ensures TimeBucket([stepOf, timeOf]) == Ok(if timeOf.Timestamp? then Timestamp(start) else Int(start))
  {
    var step, t := AsIntMs(stepOf).value, AsIntMs(timeOf).value;
    FloorIs(t, step, start);
    WrapIs(start, 0);
  }
}
