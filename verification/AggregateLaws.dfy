/** What grouped expressions and aggregates mean, apart from how they are computed. */
module AggregateLaws {
  import opened Aggregates
  import opened Ast
  import opened Evaluator
  import opened Int64
  import opened Prelude
  import opened Samples

  // Lowering replaces aggregates by their values and nothing else.

  lemma {:induction false} LowerFree(env: Env, e: SqlExpr, docs: seq<Document>)
    requires !HasAggregate(e)
    ensures Lower(env, e, docs) == Ok(e)
    decreases e, 1
  {
    match e
    case Unary(_, x) => LowerFree(env, x, docs);
    case IsNull(x, _) => LowerFree(env, x, docs);
    case Binary(_, l, r) =>
      LowerFree(env, l, docs);
      LowerFree(env, r, docs);
    case Func(_, args) => LowerAllFree(env, args, docs);
    case InList(x, list, _) =>
      LowerFree(env, x, docs);
      LowerAllFree(env, list, docs);
    case Between(x, lo, hi, _) =>
      LowerFree(env, x, docs);
      LowerFree(env, lo, docs);
      LowerFree(env, hi, docs);
    case Like(x, p, _, _) =>
      LowerFree(env, x, docs);
      LowerFree(env, p, docs);
    case _ =>
  }

  lemma {:induction false} LowerAllFree(env: Env, es: seq<SqlExpr>, docs: seq<Document>)
    requires forall i :: 0 <= i < |es| ==> !HasAggregate(es[i])
    ensures LowerAll(env, es, docs) == Ok(es)
    decreases es, 0
  {
    if es != [] {
      LowerFree(env, es[0], docs);
      LowerAllFree(env, es[1..], docs);
      assert es == [es[0]] + es[1..];
    }
  }

  /** Without aggregates a grouped expression is its value on the group's representative row; a comparison of an
      aggregate with such an expression compares the aggregate's value. */
  lemma GroupedMeans(env: Env, op: BinaryOp, func: AggFunc, c: string, e: SqlExpr, docs: seq<Document>,
                     rep: Document)
    requires !HasAggregate(e) && Supported(func)
    ensures EvalGroup(env, e, docs, rep) == Eval(env, e, rep)
    ensures EvalGroup(env, Binary(op, Aggregate(func, AggArg.Of(Column(c))), e), docs, rep) ==
            Eval(env, Binary(op, Literal(Agg(env, func, ColumnOf(c, docs))), e), rep)
  {
    LowerFree(env, e, docs);
    var agg: SqlExpr, v := Aggregate(func, AggArg.Of(Column(c))), Agg(env, func, ColumnOf(c, docs));
    assert EvalAggregate(env, func, AggArg.Of(Column(c)), docs) == Ok(v);
    assert Lower(env, agg, docs) == Ok(Literal(v));
    assert Lower(env, Binary(op, agg, e), docs) == Ok(Binary(op, Literal(v), e));
  }

  // Aggregates of a column of samples.

  /** A value of the samples that none undercuts, in the given direction. */
  ghost predicate Extremal(s: seq<Sample>, v: real, low: bool) {
    && (exists i :: 0 <= i < |s| && s[i].value == v)
    && (forall i :: 0 <= i < |s| ==> if low then v <= s[i].value else v >= s[i].value)
  }

  /** The value of a sample that none precedes, or follows, in time. */
  ghost predicate AtTheEnd(s: seq<Sample>, v: real, first: bool) {
    exists i :: 0 <= i < |s| && s[i].value == v &&
      forall j :: 0 <= j < |s| ==> if first then s[i].ts <= s[j].ts else s[j].ts <= s[i].ts
  }

  /** MIN and MAX are the least and the greatest value. */
  lemma ExtremesMean(s: Run)
    ensures OnSamples(Min, s) == Float(Best(Lowest, s).value) && Extremal(s, Best(Lowest, s).value, true)
    ensures OnSamples(Max, s) == Float(Best(Highest, s).value) && Extremal(s, Best(Highest, s).value, false)
  {
    var i := BestIs(Lowest, s);
    var j := BestIs(Highest, s);
    forall k | 0 <= k < |s| ensures s[i].value <= s[k].value && s[j].value >= s[k].value {
      assert Rank(Lowest, s[i]) <= Rank(Lowest, s[k]) && Rank(Highest, s[j]) <= Rank(Highest, s[k]);
    }
  }

  /** SUM is the total, AVG what adds up to it over the samples, COUNT their number. */
  lemma SumsMean(s: Run)
    ensures OnSamples(Sum, s) == Float(Total(s))
    ensures OnSamples(Avg, s) == Float(Total(s) / |s| as real) && Total(s) / |s| as real * |s| as real == Total(s)
    ensures |s| <= MAX ==> OnSamples(Count, s) == Int(|s|)
  {
  }

  /** FIRST and LAST are the values at the ends in time. */
  lemma EndsMean(s: Run)
    ensures OnSamples(First, s) == Float(Best(Earliest, s).value) && AtTheEnd(s, Best(Earliest, s).value, true)
    ensures OnSamples(Last, s) == Float(Best(Latest, s).value) && AtTheEnd(s, Best(Latest, s).value, false)
  {
    var i := BestIs(Earliest, s);
    var j := BestIs(Latest, s);
    forall k | 0 <= k < |s| ensures s[i].ts <= s[k].ts && s[k].ts <= s[j].ts {
      assert Rank(Earliest, s[i]) <= Rank(Earliest, s[k]);
      assert Rank(Latest, s[j]) <= Rank(Latest, s[k]);
    }
  }

  // Change aggregates sort each series by time first.

  ghost predicate InTimeOrder(s: seq<Sample>) { forall i, j :: 0 <= i < j < |s| ==> s[i].ts <= s[j].ts }

  lemma InTimeSnoc(s: seq<Sample>, x: Sample)
    requires InTimeOrder(s) && forall y :: y in s ==> y.ts <= x.ts
    ensures InTimeOrder(s + [x])
  {
    forall i | 0 <= i < |s| ensures s[i].ts <= x.ts { assert s[i] in s; }
  }

  lemma {:induction false} PlaceKeeps(s: seq<Sample>, x: Sample)
    ensures multiset(PlaceByTs(s, x)) == multiset(s) + multiset{x}
  {
    if s != [] && LastOf(s).ts > x.ts {
      PlaceKeeps(Front(s), x);
      assert s == Front(s) + [LastOf(s)];
    }
  }

  lemma {:induction false} PlaceOrders(s: seq<Sample>, x: Sample)
    requires InTimeOrder(s)
    ensures InTimeOrder(PlaceByTs(s, x))
  {
    if s != [] && LastOf(s).ts > x.ts {
      var rest, last := PlaceByTs(Front(s), x), LastOf(s);
      PlaceOrders(Front(s), x);
      PlaceKeeps(Front(s), x);
      forall y | y in rest ensures y.ts <= last.ts {
        assert y in multiset(rest);
        assert y in Front(s) || y == x;
      }
      InTimeSnoc(rest, last);
    }
  }

  /** The sort puts samples in time order, and keeps them all. */
  lemma {:induction false} SortByTsIs(s: seq<Sample>)
    ensures InTimeOrder(SortByTs(s)) && multiset(SortByTs(s)) == multiset(s)
  {
    if s != [] {
      var front, x := Front(s), LastOf(s);
      SortByTsIs(front);
      PlaceOrders(SortByTs(front), x);
      PlaceKeeps(SortByTs(front), x);
      assert multiset(s) == multiset(front) + multiset{x} by { assert s == front + [x]; }
    }
  }

  /** DELTA is the difference of the ends, INCREASE adds back what resets lost, RATE is per second; a series of
      fewer than two samples has no change, nor a rate without time between its ends. */
  lemma ChangesMean(s: seq<Sample>)
    ensures |s| < 2 ==> forall func :: ChangeOf(func, s).None?
    ensures |s| >= 2 ==>
      && ChangeOf(Delta, s) == Some(LastOf(s).value - s[0].value)
      && ChangeOf(AggFunc.Increase, s) == Some(LastOf(s).value - s[0].value + LostToResets(s))
      && (ChangeOf(Rate, s).None? <==> LastOf(s).ts <= s[0].ts)
      && (ChangeOf(Rate, s).Some? ==> ChangeOf(Rate, s).value * (LastOf(s).ts - s[0].ts) as real ==
                                      1000.0 * ChangeOf(AggFunc.Increase, s).value)
  {
    if |s| >= 2 {
      IncreaseIs(s);
      if LastOf(s).ts > s[0].ts { PerSecond(Samples.Increase(s), (LastOf(s).ts - s[0].ts) as real); }
    }
  }

  lemma PerSecond(x: real, ms: real)
    requires ms > 0.0
    ensures x / (ms / 1000.0) * ms == 1000.0 * x
  {
    var sec := ms / 1000.0;
    assert x / sec * sec == x;
    assert ms == 1000.0 * sec;
  }
}
