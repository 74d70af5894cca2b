/** What the SQL connectives, `BETWEEN` and `IN` compute: their laws, and readings that do not say how they are
    evaluated. */
module SqlLogic {
  import opened Ast
  import opened Evaluator
  import opened Prelude

  /** What a value says as a predicate, or its failure. */
  function Said(v: Result<Value>): Result<Ternary> {
    var x :- v;
    ToTernary(x)
  }

  function Valued(t: Result<Ternary>): Result<Value> {
    var x :- t;
    Ok(x.ToValue())
  }

  /** Evaluation on one row, as a function of the expression. */
  type Reading = SqlExpr -> Result<Value>

  function On(env: Env, row: Document): Reading { e => Eval(env, e, row) }

  // Three-valued logic: UNKNOWN stands for either truth value.

  predicate Admits(t: Ternary, b: bool) { t == Unknown || t == TernaryOf(b) }

  /** A connective admits exactly the outcomes of the values its operands admit. */
  lemma ConnectivesAdmit(l: Ternary, r: Ternary, b: bool)
    ensures Admits(l.AndWith(r), b) <==> exists x, y :: Admits(l, x) && Admits(r, y) && b == (x && y)
    ensures Admits(l.OrWith(r), b) <==> exists x, y :: Admits(l, x) && Admits(r, y) && b == (x || y)
    ensures Admits(l.Negate(), b) <==> Admits(l, !b)
  {
    assert Admits(l, true) || Admits(l, false);
    assert Admits(r, true) || Admits(r, false);
  }

  function AndOf(l: Result<Ternary>, r: Result<Ternary>): Result<Ternary> {
    var lt :- l;
    if lt == False then Ok(False) else var rt :- r; Ok(lt.AndWith(rt))
  }

  function OrOf(l: Result<Ternary>, r: Result<Ternary>): Result<Ternary> {
    var lt :- l;
    if lt == True then Ok(True) else var rt :- r; Ok(lt.OrWith(rt))
  }

  function NotOf(t: Result<Ternary>): Result<Ternary> {
    var x :- t;
    Ok(x.Negate())
  }

  ghost predicate Ands(ev: Reading, l: SqlExpr, r: SqlExpr) {
    ev(Binary(And, l, r)) == Valued(AndOf(Said(ev(l)), Said(ev(r))))
  }

  ghost predicate Ors(ev: Reading, l: SqlExpr, r: SqlExpr) {
    ev(Binary(Or, l, r)) == Valued(OrOf(Said(ev(l)), Said(ev(r))))
  }

  ghost predicate Nots(ev: Reading, e: SqlExpr) { ev(Unary(Not, e)) == Valued(NotOf(Said(ev(e)))) }

  lemma AndIs(env: Env, row: Document, l: SqlExpr, r: SqlExpr)
    ensures Ands(On(env, row), l, r)
  {
    var lt := Said(Eval(env, l, row));
    assert lt.Err? ==> Eval(env, Binary(And, l, r), row).Err?;
    assert lt == Ok(False) ==> Eval(env, Binary(And, l, r), row) == Ok(Bool(false));
  }

  lemma OrIs(env: Env, row: Document, l: SqlExpr, r: SqlExpr)
    ensures Ors(On(env, row), l, r)
  {
    var lt := Said(Eval(env, l, row));
    assert lt.Err? ==> Eval(env, Binary(Or, l, r), row).Err?;
    assert lt == Ok(True) ==> Eval(env, Binary(Or, l, r), row) == Ok(Bool(true));
  }

  lemma NotIs(env: Env, row: Document, e: SqlExpr)
    ensures Nots(On(env, row), e)
  {
  }

  lemma Decides(env: Env, row: Document, e: SqlExpr)
    ensures Keeps(env, e, row) <==> Said(On(env, row)(e)) == Ok(True)
    ensures Fails(env, e, row) <==> Said(On(env, row)(e)).Err?
  {
  }

  /** OR keeps what its left side keeps, and what its right side keeps once the left has a truth value. */
  lemma OrKeeps(env: Env, l: SqlExpr, r: SqlExpr, row: Document)
    ensures Keeps(env, Binary(Or, l, r), row) <==>
      Keeps(env, l, row) || (!Fails(env, l, row) && Keeps(env, r, row))
  {
    OrIs(env, row, l, r);
    Decides(env, row, l);
    Decides(env, row, r);
    Decides(env, row, Binary(Or, l, r));
  }

  /** A connective fails on its left operand, or on its right when the left has not settled it. */
  lemma ConnectivesFail(env: Env, l: SqlExpr, r: SqlExpr, row: Document)
    ensures Fails(env, Binary(And, l, r), row) <==>
      Fails(env, l, row) || (!Keeps(env, Unary(Not, l), row) && Fails(env, r, row))
    ensures Fails(env, Binary(Or, l, r), row) <==>
      Fails(env, l, row) || (!Keeps(env, l, row) && Fails(env, r, row))
  {
    AndIs(env, row, l, r);
    OrIs(env, row, l, r);
    NotIs(env, row, l);
    Decides(env, row, l);
    Decides(env, row, r);
    Decides(env, row, Unary(Not, l));
    Decides(env, row, Binary(And, l, r));
    Decides(env, row, Binary(Or, l, r));
  }

  lemma DeMorganOr(ev: Reading, l: SqlExpr, r: SqlExpr)
    requires Ors(ev, l, r) && Nots(ev, Binary(Or, l, r)) && Nots(ev, l) && Nots(ev, r)
    requires Ands(ev, Unary(Not, l), Unary(Not, r))
    ensures ev(Unary(Not, Binary(Or, l, r))) == ev(Binary(And, Unary(Not, l), Unary(Not, r)))
  {
  }

  lemma DeMorganAnd(ev: Reading, l: SqlExpr, r: SqlExpr)
    requires Ands(ev, l, r) && Nots(ev, Binary(And, l, r)) && Nots(ev, l) && Nots(ev, r)
    requires Ors(ev, Unary(Not, l), Unary(Not, r))
    ensures ev(Unary(Not, Binary(And, l, r))) == ev(Binary(Or, Unary(Not, l), Unary(Not, r)))
  {
  }

  /** De Morgan's laws, failures included. */
  lemma DeMorgan(env: Env, l: SqlExpr, r: SqlExpr, row: Document)
    ensures On(env, row)(Unary(Not, Binary(Or, l, r))) == On(env, row)(Binary(And, Unary(Not, l), Unary(Not, r)))
    ensures On(env, row)(Unary(Not, Binary(And, l, r))) == On(env, row)(Binary(Or, Unary(Not, l), Unary(Not, r)))
  {
    var ev := On(env, row);
    assert Nots(ev, l) && Nots(ev, r) by { NotIs(env, row, l); NotIs(env, row, r); }
    assert Ors(ev, l, r) && Nots(ev, Binary(Or, l, r)) by { OrIs(env, row, l, r); NotIs(env, row, Binary(Or, l, r)); }
    assert Ands(ev, l, r) && Nots(ev, Binary(And, l, r)) by {
      AndIs(env, row, l, r);
      NotIs(env, row, Binary(And, l, r));
    }
    AndIs(env, row, Unary(Not, l), Unary(Not, r));
    OrIs(env, row, Unary(Not, l), Unary(Not, r));
    DeMorganOr(ev, l, r);
    DeMorganAnd(ev, l, r);
  }

  /** The negated forms negate, failures and NULLs included. */
  lemma NegatedIn(env: Env, x: SqlExpr, list: seq<SqlExpr>, row: Document)
    ensures Eval(env, InList(x, list, true), row) == Eval(env, Unary(Not, InList(x, list, false)), row)
  {
    var t := Eval(env, InList(x, list, false), row);
    NotIs(env, row, InList(x, list, false));
  }

  lemma NegatedBetween(env: Env, x: SqlExpr, lo: SqlExpr, hi: SqlExpr, row: Document)
    ensures Eval(env, Between(x, lo, hi, true), row) == Eval(env, Unary(Not, Between(x, lo, hi, false)), row)
  {
    NotIs(env, row, Between(x, lo, hi, false));
  }

  // BETWEEN.

  function AtLeastAndAtMost(x: SqlExpr, lo: SqlExpr, hi: SqlExpr): SqlExpr {
    Binary(And, Binary(GtEq, x, lo), Binary(LtEq, x, hi))
  }

  /** Where a comparison outcome stands to a bound. */
  function Within(above: bool, ord: Option<int>): Ternary {
    if ord.None? then Unknown else TernaryOf(if above then ord.value >= 0 else ord.value <= 0)
  }

  lemma ComparisonEval(env: Env, op: BinaryOp, l: SqlExpr, r: SqlExpr, row: Document)
    requires IsComparison(op)
    ensures Eval(env, Binary(op, l, r), row) ==
      if Eval(env, l, row).Err? || Eval(env, r, row).Err? then Err
      else Ok(Comparison(env, op, Eval(env, l, row).value, Eval(env, r, row).value))
  {
  }

  lemma RangeSays(env: Env, above: bool, l: Value, r: Value)
    ensures ToTernary(Comparison(env, if above then GtEq else LtEq, l, r)) == Ok(Within(above, Compare(env, l, r)))
  {
  }

  lemma BetweenEval(env: Env, x: SqlExpr, lo: SqlExpr, hi: SqlExpr, row: Document)
    ensures Eval(env, Between(x, lo, hi, false), row) ==
      if Eval(env, x, row).Err? || Eval(env, lo, row).Err? || Eval(env, hi, row).Err? then Err
      else
        var v := Eval(env, x, row).value;
        Ok(Within(true, Compare(env, v, Eval(env, lo, row).value)).AndWith(
           Within(false, Compare(env, v, Eval(env, hi, row).value))).ToValue())
  {
  }

  /** BETWEEN is its two comparisons joined by AND, except that a failing upper bound always fails it. */
  lemma BetweenIs(env: Env, x: SqlExpr, lo: SqlExpr, hi: SqlExpr, row: Document)
    ensures Eval(env, Between(x, lo, hi, false), row) ==
            if Eval(env, hi, row).Err? then Err else On(env, row)(AtLeastAndAtMost(x, lo, hi))
  {
    BetweenEval(env, x, lo, hi, row);
    ComparisonEval(env, GtEq, x, lo, row);
    ComparisonEval(env, LtEq, x, hi, row);
    if Eval(env, x, row).Ok? {
      var v := Eval(env, x, row).value;
      if Eval(env, lo, row).Ok? { RangeSays(env, true, v, Eval(env, lo, row).value); }
      if Eval(env, hi, row).Ok? { RangeSays(env, false, v, Eval(env, hi, row).value); }
    }
    AndIs(env, row, Binary(GtEq, x, lo), Binary(LtEq, x, hi));
  }

  // IN.

  function Literals(vs: seq<Value>): (es: seq<SqlExpr>)
    ensures |es| == |vs| && forall k :: 0 <= k < |vs| ==> es[k] == Literal(vs[k])
  {
    seq(|vs|, k requires 0 <= k < |vs| => Literal(vs[k]))
  }

  function Candidates(ev: Reading, list: seq<SqlExpr>): seq<SqlExpr> {
    if list == [] then []
    else
      (if ev(list[0]).Ok? then Literals(Items(ev(list[0]).value)) else [list[0]]) + Candidates(ev, list[1..])
  }

  /** `x = c1 OR (x = c2 OR ...)`; FALSE when there is no candidate. */
  function Equalities(x: SqlExpr, cs: seq<SqlExpr>): SqlExpr {
    if cs == [] then Literal(Bool(false)) else Binary(Or, Binary(Eq, x, cs[0]), Equalities(x, cs[1..]))
  }

  predicate Hits(eq: Value -> Value, vs: seq<Value>, verdict: Value) {
    exists k :: 0 <= k < |vs| && eq(vs[k]) == verdict
  }

  function Seen(anyNull: bool): Ternary { if anyNull then Unknown else False }

  function Outcome(v: Value): Ternary { if v == Bool(true) then True else if v == Null then Unknown else False }

  function Equal(env: Env, left: Value): Value -> Value { v => Comparison(env, Eq, left, v) }

  /** What expressions say, as a function: `x = c` through `eq` for a literal, and OR as the connective. */
  type Verdicts = SqlExpr -> Result<Ternary>

  function Verdict(env: Env, row: Document): Verdicts { e => Said(Eval(env, e, row)) }

  ghost predicate EqualsOrs(says: Verdicts, x: SqlExpr, c: SqlExpr, e: SqlExpr) {
    says(Binary(Or, Binary(Eq, x, c), e)) == OrOf(says(Binary(Eq, x, c)), says(e))
  }

  ghost predicate EqualsSays(says: Verdicts, x: SqlExpr, eq: Value -> Value, v: Value) {
    says(Binary(Eq, x, Literal(v))) == Ok(Outcome(eq(v)))
  }

  ghost predicate ReadsEqualities(says: Verdicts, x: SqlExpr, eq: Value -> Value) {
    && says(Literal(Bool(false))) == Ok(False)
    && (forall c, e :: EqualsOrs(says, x, c, e))
    && (forall v :: EqualsSays(says, x, eq, v))
  }

  lemma EqTruth(env: Env, x: SqlExpr, left: Value, v: Value, row: Document)
    requires Eval(env, x, row) == Ok(left)
    ensures Eval(env, Binary(Eq, x, Literal(v)), row) == Ok(Comparison(env, Eq, left, v))
  {
    assert Eval(env, Literal(v), row) == Ok(v);
  }

  lemma ComparisonSays(env: Env, l: Value, r: Value)
    ensures ToTernary(Comparison(env, Eq, l, r)) == Ok(Outcome(Comparison(env, Eq, l, r)))
  {
  }

  lemma EqualsRead(env: Env, row: Document, x: SqlExpr, left: Value, v: Value)
    requires Eval(env, x, row) == Ok(left)
    ensures EqualsSays(Verdict(env, row), x, Equal(env, left), v)
  {
    EqTruth(env, x, left, v, row);
    ComparisonSays(env, left, v);
  }

  lemma OrsRead(env: Env, row: Document, x: SqlExpr, c: SqlExpr, e: SqlExpr)
    ensures EqualsOrs(Verdict(env, row), x, c, e)
  {
    OrIs(env, row, Binary(Eq, x, c), e);
  }

  lemma ReadingEqualities(env: Env, row: Document, x: SqlExpr, left: Value)
    requires Eval(env, x, row) == Ok(left)
    ensures ReadsEqualities(Verdict(env, row), x, Equal(env, left))
  {
    var says := Verdict(env, row);
    forall c, e ensures EqualsOrs(says, x, c, e) { OrsRead(env, row, x, c, e); }
    forall v ensures EqualsSays(says, x, Equal(env, left), v) { EqualsRead(env, row, x, left, v); }
  }

  lemma HitsSplit(eq: Value -> Value, vs: seq<Value>, verdict: Value)
    requires vs != []
    ensures Hits(eq, vs, verdict) <==> eq(vs[0]) == verdict || Hits(eq, vs[1..], verdict)
  {
    if eq(vs[0]) != verdict {
      if k :| 0 <= k < |vs| && eq(vs[k]) == verdict { assert vs[1..][k - 1] == vs[k]; }
      if k :| 0 <= k < |vs[1..]| && eq(vs[1..][k]) == verdict { assert vs[k + 1] == vs[1..][k]; }
    }
  }

  function After(hit: bool, anyNull: bool, rest: Result<Ternary>): Result<Ternary> {
    if hit then Ok(True) else OrOf(Ok(Seen(anyNull)), rest)
  }

  lemma AfterOne(v: Value, hit: bool, anyNull: bool, rest: Result<Ternary>)
    ensures OrOf(Ok(Outcome(v)), After(hit, anyNull, rest)) == After(v == Bool(true) || hit, v == Null || anyNull, rest)
  {
  }

  /** The equalities of one element's candidates, then the others. */
  lemma {:induction false} ItemEqualities(says: Verdicts, x: SqlExpr, eq: Value -> Value, vs: seq<Value>,
                                          rest: seq<SqlExpr>)
    requires ReadsEqualities(says, x, eq)
    ensures says(Equalities(x, Literals(vs) + rest)) ==
            After(Hits(eq, vs, Bool(true)), Hits(eq, vs, Null), says(Equalities(x, rest)))
  {
    var cs := Literals(vs) + rest;
    if vs == [] {
      assert cs == rest;
    } else {
      assert cs[0] == Literal(vs[0]) && cs[1..] == Literals(vs[1..]) + rest;
      ItemEqualities(says, x, eq, vs[1..], rest);
      assert EqualsOrs(says, x, cs[0], Equalities(x, cs[1..])) && EqualsSays(says, x, eq, vs[0]);
      HitsSplit(eq, vs, Bool(true));
      HitsSplit(eq, vs, Null);
      AfterOne(eq(vs[0]), Hits(eq, vs[1..], Bool(true)), Hits(eq, vs[1..], Null), says(Equalities(x, rest)));
    }
  }

  // The scan of the list, element by element.

  type Scan = (seq<SqlExpr>, bool) -> Result<Ternary>

  function In(env: Env, left: Value, row: Document): Scan { (list, anyNull) => EvalIn(env, left, list, row, anyNull) }

  ghost predicate Steps(scan: Scan, ev: Reading, eq: Value -> Value, list: seq<SqlExpr>, anyNull: bool) {
    scan(list, anyNull) ==
    if list == [] then Ok(Seen(anyNull))
    else if ev(list[0]).Err? then Err
    else if Hits(eq, Items(ev(list[0]).value), Bool(true)) then Ok(True)
    else scan(list[1..], anyNull || Hits(eq, Items(ev(list[0]).value), Null))
  }

  lemma CandidateHits(env: Env, left: Value, v: Value, verdict: Value)
    ensures AnyCandidate(env, left, v, verdict) <==> Hits(Equal(env, left), Items(v), verdict)
  {
    var eq, vs := Equal(env, left), Items(v);
    if AnyCandidate(env, left, v, verdict) {
      var k :| 0 <= k < |vs| && Comparison(env, Eq, left, vs[k]) == verdict;
      assert eq(vs[k]) == verdict;
    }
    if Hits(eq, vs, verdict) {
      var k :| 0 <= k < |vs| && eq(vs[k]) == verdict;
      assert Comparison(env, Eq, left, vs[k]) == verdict;
    }
  }

  lemma InSteps(env: Env, left: Value, list: seq<SqlExpr>, row: Document, anyNull: bool)
    ensures Steps(In(env, left, row), On(env, row), Equal(env, left), list, anyNull)
  {
    if list != [] && Eval(env, list[0], row).Ok? {
      CandidateHits(env, left, Eval(env, list[0], row).value, Bool(true));
      CandidateHits(env, left, Eval(env, list[0], row).value, Null);
    }
  }

  lemma OrOnward(a: bool, b: bool, hit: bool, rest: Result<Ternary>)
    ensures OrOf(Ok(Seen(a)), After(hit, b, rest)) == if hit then Ok(True) else OrOf(Ok(Seen(a || b)), rest)
  {
  }

  ghost predicate EqualsFails(says: Verdicts, ev: Reading, x: SqlExpr, e: SqlExpr) {
    ev(e).Err? ==> says(Binary(Eq, x, e)).Err?
  }

  /** The scan's flag is the UNKNOWN of the equalities already passed. */
  lemma {:induction false} ListEqualities(scan: Scan, ev: Reading, says: Verdicts, x: SqlExpr, eq: Value -> Value,
                                          list: seq<SqlExpr>, anyNull: bool)
    requires ReadsEqualities(says, x, eq) && (forall e :: EqualsFails(says, ev, x, e))
    requires forall l, b :: Steps(scan, ev, eq, l, b)
    ensures scan(list, anyNull) == OrOf(Ok(Seen(anyNull)), says(Equalities(x, Candidates(ev, list))))
  {
    assert Steps(scan, ev, eq, list, anyNull);
    if list != [] {
      var v, rest := ev(list[0]), Candidates(ev, list[1..]);
      if v.Err? {
        var cs := [list[0]] + rest;
        assert cs[0] == list[0] && cs[1..] == rest;
        assert EqualsOrs(says, x, list[0], Equalities(x, rest)) && EqualsFails(says, ev, x, list[0]);
      } else {
        var hit, blank := Hits(eq, Items(v.value), Bool(true)), Hits(eq, Items(v.value), Null);
        ItemEqualities(says, x, eq, Items(v.value), rest);
        ListEqualities(scan, ev, says, x, eq, list[1..], anyNull || blank);
        OrOnward(anyNull, blank, hit, says(Equalities(x, rest)));
      }
    }
  }

  lemma InEquals(env: Env, x: SqlExpr, left: Value, list: seq<SqlExpr>, row: Document)
    requires Eval(env, x, row) == Ok(left)
    ensures In(env, left, row)(list, false) ==
            OrOf(Ok(False), Verdict(env, row)(Equalities(x, Candidates(On(env, row), list))))
  {
    var scan, ev, says, eq := In(env, left, row), On(env, row), Verdict(env, row), Equal(env, left);
    ReadingEqualities(env, row, x, left);
    forall e ensures EqualsFails(says, ev, x, e) {}
    forall l, b ensures Steps(scan, ev, eq, l, b) { InSteps(env, left, l, row, b); }
    ListEqualities(scan, ev, says, x, eq, list, false);
  }

  lemma InListIs(env: Env, x: SqlExpr, list: seq<SqlExpr>, row: Document)
    ensures Eval(env, InList(x, list, false), row) ==
            if Eval(env, x, row).Err? then Err else Valued(In(env, Eval(env, x, row).value, row)(list, false))
  {
  }

  lemma EqualitiesValued(env: Env, row: Document, x: SqlExpr, cs: seq<SqlExpr>)
    ensures Valued(Verdict(env, row)(Equalities(x, cs))) == On(env, row)(Equalities(x, cs))
    ensures OrOf(Ok(False), Verdict(env, row)(Equalities(x, cs))) == Verdict(env, row)(Equalities(x, cs))
  {
    if cs != [] { OrIs(env, row, Binary(Eq, x, cs[0]), Equalities(x, cs[1..])); }
  }

  /** `x IN (..)` is the OR of its equalities, NULLs and failures included. */
  lemma InIsOr(env: Env, x: SqlExpr, list: seq<SqlExpr>, row: Document)
    ensures Eval(env, InList(x, list, false), row) ==
            if Eval(env, x, row).Err? then Err
            else On(env, row)(Equalities(x, Candidates(On(env, row), list)))
  {
    InListIs(env, x, list, row);
    if Eval(env, x, row).Ok? {
      InEquals(env, x, Eval(env, x, row).value, list, row);
      EqualitiesValued(env, row, x, Candidates(On(env, row), list));
    }
  }
}
