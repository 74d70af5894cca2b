/** Rewriting a query's aggregates to fold partial documents, and the meaning it keeps. */
module Rewrite {
  import opened Aggregates
  import opened Ast
  import opened Buckets
  import opened Evaluator
  import opened Int64
  import opened Partials
  import opened Prelude
  import opened Samples

  function Fold(func: AggFunc, k: Kind, f: string): SqlExpr {
    Aggregate(func, AggArg.Of(Column(Name(k, f))))
  }

  /** One aggregate over field `f` as a fold of partial columns. */
  function RewriteAgg(func: AggFunc, f: string): SqlExpr
    requires Supported(func) || Changes(func)
  {
    match func
    case Rate => Fold(Sum, PRate, f)
    case Increase => Fold(Sum, PInc, f)
    case Delta => Fold(Sum, PDel, f)
    case Count => Func("coalesce", [Fold(Sum, PCnt, f), Literal(Int(0))])
    case Sum => Fold(Sum, PSum, f)
    case Avg => Binary(Div, Fold(Sum, PSum, f), Fold(Sum, PCnt, f))
    case Min => Fold(Min, PMin, f)
    case Max => Fold(Max, PMax, f)
    case First => Fold(First, PFirst, f)
    case Last => Fold(Last, PLast, f)
  }

  lemma {:induction false} GroupRunsOrdered(b: Bucketing, g: Group, f: string, streams: seq<Stream>)
    requires |g.vals| == |g.cols| && Monotone(b) && ValidStreams(streams)
    ensures AllOrdered(GroupRuns(b, g, f, streams))
  {
    if streams != [] {
      GroupRunsOrdered(b, g, f, streams[..|streams| - 1]);
      var st := streams[|streams| - 1];
      if st.samples != [] { RunsAreBuckets(b, st.samples); }
      PickOrdered(b, g.bucket, Runs(b, st.samples));
      AllOrderedConcat(GroupRuns(b, g, f, streams[..|streams| - 1]), StreamRuns(b, g, st));
    }
  }

  lemma {:induction false} PickOrdered(b: Bucketing, bucket: int, runs: seq<Run>)
    requires AllOrdered(runs)
    ensures AllOrdered(PickRuns(b, bucket, runs))
  {
    if runs != [] {
      PickOrdered(b, bucket, runs[..|runs| - 1]);
      AllOrderedConcat(PickRuns(b, bucket, runs[..|runs| - 1]), [runs[|runs| - 1]]);
    }
  }

  function PickOf(func: AggFunc): Pick {
    match func case Min => Lowest case Max => Highest case First => Earliest case _ => Latest
  }

  lemma PickedKind(func: AggFunc, run: Run)
    requires (func.Min? || func.Max? || func.First? || func.Last?) && Ordered(run)
    ensures SameKey(PickOf(func), KindSample(FoldedKind(func), run), Best(PickOf(func), run))
  {
    BestOfOrdered(run);
  }

  /** Folding the per-run samples of the right column is folding all the samples. */
  lemma RunFold(func: AggFunc, runs: seq<Run>)
    requires func.Sum? || func.Min? || func.Max? || func.First? || func.Last?
    requires AllOrdered(runs)
    ensures OnSamples(func, Map(runs, Partials.Of(FoldedKind(func)))) == OnSamples(func, Flatten(runs))
  {
    FlattenEmpty(runs);
    var f := Partials.Of(FoldedKind(func));
    if func.Sum? {
      TotalOfRuns(runs, f);
    } else if runs != [] {
      RunPick(func, runs, f);
    }
  }

  lemma RunPick(func: AggFunc, runs: seq<Run>, f: Run -> Sample)
    requires (func.Min? || func.Max? || func.First? || func.Last?) && runs != [] && AllOrdered(runs)
    requires f == Partials.Of(FoldedKind(func))
    ensures Flatten(runs) != [] && Best(PickOf(func), Map(runs, f)).value == Best(PickOf(func), Flatten(runs)).value
  {
    forall i | 0 <= i < |runs| ensures SameKey(PickOf(func), f(runs[i]), Best(PickOf(func), runs[i])) {
      PickedKind(func, runs[i]);
    }
    BestOfRuns(PickOf(func), runs, f);
  }

  function FoldedKind(func: AggFunc): Kind {
    match func
    case Min => PMin
    case Max => PMax
    case First => PFirst
    case Last => PLast
    case _ => PSum
  }

  /** The rewritten aggregate over the group's partial documents is the aggregate of the group's
      samples: COUNT is 0 and the others NULL where the field is absent. */
  lemma PartialAggregate(env: Env, b: Bucketing, g: Group, plan: Plan, streams: seq<Stream>,
                         func: AggFunc, f: string, rep: Document)
    requires ValidGroup(g) && Monotone(b) && ValidStreams(streams) && Supported(func)
    requires f in plan.aggFields && '.' !in f && (func.Last? ==> plan.needsLast)
    requires |Flatten(GroupRuns(b, g, f, streams))| <= MAX
    ensures EvalGroup(env, RewriteAgg(func, f), GroupDocs(b, g, PartialDocs(b, plan, streams)), rep) ==
            Ok(OnSamples(func, Flatten(GroupRuns(b, g, f, streams))))
  {
    var docs, runs := GroupDocs(b, g, PartialDocs(b, plan, streams)), GroupRuns(b, g, f, streams);
    GroupRunsOrdered(b, g, f, streams);
    FlattenLength(runs);
    FlattenEmpty(runs);
    if func.Count? || func.Avg? {
      PartialCount(b, g, plan, streams, f);
      PartialColumn(b, g, plan, streams, PSum, f);
      RunFold(Sum, runs);
      AggOnFloats(env, Sum, Map(runs, Partials.Of(PSum)));
      CountOrAvg(env, func, f, docs, Flatten(runs), rep);
    } else {
      PartialColumn(b, g, plan, streams, FoldedKind(func), f);
      RunFold(func, runs);
      AggOnFloats(env, func, Map(runs, Partials.Of(FoldedKind(func))));
      FoldValue(env, func, FoldedKind(func), f, docs, rep);
    }
  }

  lemma FoldValue(env: Env, func: AggFunc, k: Kind, f: string, docs: seq<Document>, rep: Document)
    requires Supported(func)
    ensures EvalGroup(env, Fold(func, k, f), docs, rep) == Ok(Agg(env, func, ColumnOf(Name(k, f), docs)))
  {
  }

  /** SUM of the count column: the number of samples, or NULL when no document carries it. */
  lemma CountValue(env: Env, f: string, docs: seq<Document>, n: nat)
    requires Counts(ColumnOf(Name(PCnt, f), docs), n) && n <= MAX
    requires ColumnOf(Name(PCnt, f), docs) == [] ==> n == 0
    ensures var v := SumValues(ColumnOf(Name(PCnt, f), docs)); v == Int(n) || (v == Null && n == 0)
  {
    WrapSmall(n);
  }

  lemma CoalesceValue(env: Env, e: SqlExpr, v: Value, docs: seq<Document>, rep: Document)
    requires Lower(env, e, docs) == Ok(Literal(v))
    ensures EvalGroup(env, Func("coalesce", [e, Literal(Int(0))]), docs, rep) == Ok(if v.Null? then Int(0) else v)
  {
    LowerPair(env, e, v, Int(0), docs);
    LoweredCall(env, "coalesce", [e, Literal(Int(0))], [Literal(v), Literal(Int(0))], docs, rep);
    EvalCoalescePair(env, v, Int(0), rep);
  }

  lemma LoweredCall(env: Env, name: string, args: seq<SqlExpr>, low: seq<SqlExpr>, docs: seq<Document>, rep: Document)
    requires LowerAll(env, args, docs) == Ok(low)
    ensures EvalGroup(env, Func(name, args), docs, rep) == Eval(env, Func(name, low), rep)
  {
    assert Lower(env, Func(name, args), docs) == Ok(Func(name, low));
  }

  lemma CountOrAvg(env: Env, func: AggFunc, f: string, docs: seq<Document>, s: seq<Sample>, rep: Document)
    requires func.Count? || func.Avg?
    requires Counts(ColumnOf(Name(PCnt, f), docs), |s|) && |s| <= MAX
    requires ColumnOf(Name(PCnt, f), docs) == [] ==> s == []
    requires SumValues(ColumnOf(Name(PSum, f), docs)) == OnSamples(Sum, s)
    ensures EvalGroup(env, RewriteAgg(func, f), docs, rep) == Ok(OnSamples(func, s))
  {
    CountValue(env, f, docs, |s|);
    var sum, count := SumValues(ColumnOf(Name(PSum, f), docs)), SumValues(ColumnOf(Name(PCnt, f), docs));
    WrapSmall(|s|);
    if func.Count? {
      LowerColumn(env, Sum, Name(PCnt, f), docs);
      CoalesceValue(env, Fold(Sum, PCnt, f), count, docs, rep);
    } else {
      AvgValue(env, f, docs, sum, count, rep);
      MeanOf(s, count);
    }
  }

  lemma MeanOf(s: seq<Sample>, count: Value)
    requires |s| <= MAX && (count == Int(|s|) || (count == Null && s == []))
    ensures Arith(Div, OnSamples(Sum, s), count) == Ok(OnSamples(Avg, s))
  {
  }

  lemma DivValue(env: Env, l: SqlExpr, r: SqlExpr, docs: seq<Document>, x: Value, y: Value, rep: Document)
    requires Lower(env, l, docs) == Ok(Literal(x)) && Lower(env, r, docs) == Ok(Literal(y))
    ensures EvalGroup(env, Binary(Div, l, r), docs, rep) == Arith(Div, x, y)
  {
    LowerBinary(env, Div, l, r, docs, x, y);
    EvalDiv(env, x, y, rep);
  }

  lemma AvgValue(env: Env, f: string, docs: seq<Document>, sum: Value, count: Value, rep: Document)
    requires sum == SumValues(ColumnOf(Name(PSum, f), docs)) && count == SumValues(ColumnOf(Name(PCnt, f), docs))
    ensures EvalGroup(env, RewriteAgg(Avg, f), docs, rep) == Arith(Div, sum, count)
  {
    var l, r := Fold(Sum, PSum, f), Fold(Sum, PCnt, f);
    assert Lower(env, l, docs) == Ok(Literal(sum)) by { LowerColumn(env, Sum, Name(PSum, f), docs); }
    assert Lower(env, r, docs) == Ok(Literal(count)) by { LowerColumn(env, Sum, Name(PCnt, f), docs); }
    DivValue(env, l, r, docs, sum, count, rep);
  }
}
