/** The documents of gathered partial lists, whatever they come from, and what the rewritten aggregates make of them. */
module TierPieces {
  import opened Aggregates
  import opened Ast
  import opened Buckets
  import opened Evaluator
  import opened Int64
  import opened Partials
  import opened Prelude
  import opened RawGroups
  import opened Rewrite
  import opened RollupSplice
  import opened Samples
  import P = Pushdown

  /** One gathered stream of partials: raw ones of the source, or those folded from a rollup. */
  datatype Piece = Piece(st: Stream, partials: seq<TsPartial>)

  /** `partial_docs` over pieces in order. */
  function PieceDocs(plan: Plan, pieces: seq<Piece>): seq<Document> {
    if pieces == [] then []
    else
      var x := pieces[|pieces| - 1];
      PieceDocs(plan, pieces[..|pieces| - 1]) + StreamDocs(plan, x.st, x.partials)
  }

  ghost predicate ValidPartials(b: Bucketing, ps: seq<TsPartial>) {
    forall i :: 0 <= i < |ps| ==> Bucketed(b, ps[i]) && ps[i].count <= MAX
  }

  ghost predicate ValidPieces(b: Bucketing, pieces: seq<Piece>) {
    forall i :: 0 <= i < |pieces| ==> ValidStream(pieces[i].st) && ValidPartials(b, pieces[i].partials)
  }

  /** The partials of field `f` in the group, piece by piece. */
  function GroupPartials(g: Group, f: string, pieces: seq<Piece>): seq<TsPartial>
    requires |g.vals| == |g.cols|
  {
    if pieces == [] then []
    else
      var front, x := GroupPartials(g, f, pieces[..|pieces| - 1]), pieces[|pieces| - 1];
      if Contributes(g, f, x.st) then front + PickPartials(x.partials, g.bucket) else front
  }

  function KindReadings(k: Kind, ps: seq<TsPartial>): (s: seq<Sample>)
    ensures |s| == |ps| && forall i :: 0 <= i < |s| ==> s[i] == KindReading(k, ps[i])
  {
    seq(|ps|, i requires 0 <= i < |ps| => KindReading(k, ps[i]))
  }

  lemma ReadingsConcat(k: Kind, x: seq<TsPartial>, y: seq<TsPartial>)
    ensures FloatCells(KindReadings(k, x + y)) == FloatCells(KindReadings(k, x)) + FloatCells(KindReadings(k, y))
  {
  }

  /** The partials of one piece that are in the group. */
  function InGroupPartials(g: Group, st: Stream, ps: seq<TsPartial>): seq<TsPartial>
    requires |g.vals| == |g.cols|
  {
    if ColsMatch(g, st.labels) then PickPartials(ps, g.bucket) else []
  }

  predicate Taken(g: Group, st: Stream, p: TsPartial)
    requires |g.vals| == |g.cols|
  {
    ColsMatch(g, st.labels) && p.bucketTs == g.bucket
  }

  function TakenDocs(g: Group, plan: Plan, st: Stream, p: TsPartial): seq<Document>
    requires |g.vals| == |g.cols|
  {
    if Taken(g, st, p) then DocsOf(plan, st, p) else []
  }

  lemma NextDocs(b: Bucketing, g: Group, plan: Plan, st: Stream, front: seq<TsPartial>, p: TsPartial)
    requires ValidGroup(g) && Bucketed(b, p)
    ensures GroupDocs(b, g, StreamDocs(plan, st, front + [p])) ==
            GroupDocs(b, g, StreamDocs(plan, st, front)) + TakenDocs(g, plan, st, p)
  {
    assert (front + [p])[..|front|] == front;
    GroupConcat(b, g, StreamDocs(plan, st, front), DocsOf(plan, st, p));
    DocsGroup(b, g, plan, st, p);
  }

  /** A piece's partials of field `f` in the group. */
  function OwnPartials(g: Group, f: string, st: Stream, ps: seq<TsPartial>): seq<TsPartial>
    requires |g.vals| == |g.cols|
  {
    if st.field == f then InGroupPartials(g, st, ps) else []
  }

  lemma OwnNext(g: Group, f: string, st: Stream, front: seq<TsPartial>, p: TsPartial)
    requires |g.vals| == |g.cols|
    ensures InGroupPartials(g, st, front + [p]) == InGroupPartials(g, st, front) + if Taken(g, st, p) then [p] else []
    ensures OwnPartials(g, f, st, front + [p]) ==
            OwnPartials(g, f, st, front) + if st.field == f && Taken(g, st, p) then [p] else []
  {
    assert (front + [p])[..|front|] == front;
  }

  lemma GroupNext(g: Group, f: string, pieces: seq<Piece>)
    requires |g.vals| == |g.cols| && pieces != []
    ensures var front, x := pieces[..|pieces| - 1], pieces[|pieces| - 1];
            GroupPartials(g, f, pieces) == GroupPartials(g, f, front) + OwnPartials(g, f, x.st, x.partials)
  {
  }

  ghost predicate Lists(c: string, docs: seq<Document>, k: Kind, ps: seq<TsPartial>) {
    ColumnOf(c, docs) == FloatCells(KindReadings(k, ps))
  }

  lemma ListsConcat(c: string, docs: seq<Document>, more: seq<Document>, k: Kind, ps: seq<TsPartial>,
                    mine: seq<TsPartial>)
    requires Lists(c, docs, k, ps) && Lists(c, more, k, mine)
    ensures Lists(c, docs + more, k, ps + mine)
  {
    ColumnConcat(c, docs, more);
    ReadingsConcat(k, ps, mine);
  }

  lemma TakenColumn(g: Group, plan: Plan, st: Stream, p: TsPartial, k: Kind, f: string)
    requires |g.vals| == |g.cols| && ValidStream(st) && f in plan.aggFields && '.' !in f && FoldKind(plan, k)
    ensures Lists(Name(k, f), TakenDocs(g, plan, st, p), k, if st.field == f && Taken(g, st, p) then [p] else [])
  {
    if Taken(g, st, p) { DocsColumn(plan, st, p, k, f); }
  }

  lemma {:induction false} PieceColumn(b: Bucketing, g: Group, plan: Plan, st: Stream, ps: seq<TsPartial>, k: Kind,
                                       f: string)
    requires ValidGroup(g) && ValidStream(st) && ValidPartials(b, ps)
    requires f in plan.aggFields && '.' !in f && FoldKind(plan, k)
    ensures Lists(Name(k, f), GroupDocs(b, g, StreamDocs(plan, st, ps)), k, OwnPartials(g, f, st, ps))
  {
    if ps != [] {
      var front, p := ps[..|ps| - 1], ps[|ps| - 1];
      assert ps == front + [p];
      PieceColumn(b, g, plan, st, front, k, f);
      OwnNext(g, f, st, front, p);
      NextDocs(b, g, plan, st, front, p);
      TakenColumn(g, plan, st, p, k, f);
      ListsConcat(Name(k, f), GroupDocs(b, g, StreamDocs(plan, st, front)), TakenDocs(g, plan, st, p), k,
        OwnPartials(g, f, st, front), if st.field == f && Taken(g, st, p) then [p] else []);
    }
  }

  /** A float column of the group's documents lists one reading per partial of the field. */
  lemma {:induction false} PiecesColumn(b: Bucketing, g: Group, plan: Plan, pieces: seq<Piece>, k: Kind, f: string)
    requires ValidGroup(g) && ValidPieces(b, pieces) && f in plan.aggFields && '.' !in f && FoldKind(plan, k)
    ensures Lists(Name(k, f), GroupDocs(b, g, PieceDocs(plan, pieces)), k, GroupPartials(g, f, pieces))
  {
    if pieces != [] {
      var front, x := pieces[..|pieces| - 1], pieces[|pieces| - 1];
      var docs, more := PieceDocs(plan, front), StreamDocs(plan, x.st, x.partials);
      PiecesColumn(b, g, plan, front, k, f);
      GroupConcat(b, g, docs, more);
      PieceColumn(b, g, plan, x.st, x.partials, k, f);
      GroupNext(g, f, pieces);
      ListsConcat(Name(k, f), GroupDocs(b, g, docs), GroupDocs(b, g, more), k, GroupPartials(g, f, front),
        OwnPartials(g, f, x.st, x.partials));
    }
  }

  lemma {:induction false} CountedConcat(x: seq<TsPartial>, y: seq<TsPartial>)
    ensures Counted(x + y) == Counted(x) + Counted(y)
  {
    if y == [] {
      assert x + y == x;
    } else {
      CountedConcat(x, y[..|y| - 1]);
      assert (x + y)[..|x + y| - 1] == x + y[..|y| - 1];
    }
  }

  /** A count column that adds up to what the partials count, empty only without documents that carry it. */
  ghost predicate Tallies(c: string, docs: seq<Document>, ps: seq<TsPartial>, any: bool) {
    Counts(ColumnOf(c, docs), Counted(ps)) && (ColumnOf(c, docs) == [] <==> !any)
  }

  lemma TalliesConcat(c: string, docs: seq<Document>, more: seq<Document>, ps: seq<TsPartial>, mine: seq<TsPartial>,
                      any: bool, other: bool)
    requires Tallies(c, docs, ps, any) && Tallies(c, more, mine, other)
    ensures Tallies(c, docs + more, ps + mine, any || other)
  {
    ColumnConcat(c, docs, more);
    CountsConcat(ColumnOf(c, docs), Counted(ps), ColumnOf(c, more), Counted(mine));
    CountedConcat(ps, mine);
  }

  lemma TakenTallies(g: Group, plan: Plan, st: Stream, p: TsPartial, f: string)
    requires |g.vals| == |g.cols| && ValidStream(st) && f in plan.aggFields && '.' !in f && p.count <= MAX
    ensures Tallies(Name(PCnt, f), TakenDocs(g, plan, st, p), if st.field == f && Taken(g, st, p) then [p] else [],
              Taken(g, st, p))
  {
    if Taken(g, st, p) {
      DocsCount(plan, st, p, f);
      OneCount(p.firstTs, if st.field == f then p.count else 0);
      assert [p][..0] == [] && Counted([p]) == p.count;
    }
  }

  lemma OneCount(ts: I64, n: nat)
    requires n <= MAX
    ensures Counts([(ts, Int(n))], n)
  {
    var cells: Cells := [(ts, Int(n))];
    assert cells[..0] == [];
    assert ExactSum(cells) == ExactSum(cells[..0]) + n;
  }

  lemma {:induction false} PieceTallies(b: Bucketing, g: Group, plan: Plan, st: Stream, ps: seq<TsPartial>, f: string)
    requires ValidGroup(g) && ValidStream(st) && ValidPartials(b, ps) && f in plan.aggFields && '.' !in f
    ensures Tallies(Name(PCnt, f), GroupDocs(b, g, StreamDocs(plan, st, ps)), OwnPartials(g, f, st, ps),
              InGroupPartials(g, st, ps) != [])
  {
    if ps != [] {
      var front, p := ps[..|ps| - 1], ps[|ps| - 1];
      assert ps == front + [p];
      PieceTallies(b, g, plan, st, front, f);
      OwnNext(g, f, st, front, p);
      NextDocs(b, g, plan, st, front, p);
      TakenTallies(g, plan, st, p, f);
      TalliesConcat(Name(PCnt, f), GroupDocs(b, g, StreamDocs(plan, st, front)), TakenDocs(g, plan, st, p),
        OwnPartials(g, f, st, front), if st.field == f && Taken(g, st, p) then [p] else [],
        InGroupPartials(g, st, front) != [], Taken(g, st, p));
    }
  }

  /** Some piece has a partial in the group. */
  predicate Occupied(g: Group, pieces: seq<Piece>)
    requires |g.vals| == |g.cols|
  {
    exists i :: 0 <= i < |pieces| && InGroupPartials(g, pieces[i].st, pieces[i].partials) != []
  }

  lemma OccupiedNext(g: Group, pieces: seq<Piece>)
    requires |g.vals| == |g.cols| && pieces != []
    ensures var front, x := pieces[..|pieces| - 1], pieces[|pieces| - 1];
            Occupied(g, pieces) <==> Occupied(g, front) || InGroupPartials(g, x.st, x.partials) != []
  {
    var front, x := pieces[..|pieces| - 1], pieces[|pieces| - 1];
    if Occupied(g, front) {
      var i :| 0 <= i < |front| && InGroupPartials(g, front[i].st, front[i].partials) != [];
      assert pieces[i] == front[i];
    }
    if InGroupPartials(g, x.st, x.partials) != [] { assert pieces[|pieces| - 1] == x; }
    if Occupied(g, pieces) && InGroupPartials(g, x.st, x.partials) == [] {
      var i :| 0 <= i < |pieces| && InGroupPartials(g, pieces[i].st, pieces[i].partials) != [];
      assert front[i] == pieces[i];
    }
  }

  /** SUM of the count column is the number of samples the field's partials stand for. */
  lemma {:induction false} PiecesTally(b: Bucketing, g: Group, plan: Plan, pieces: seq<Piece>, f: string)
    requires ValidGroup(g) && ValidPieces(b, pieces) && f in plan.aggFields && '.' !in f
    ensures Tallies(Name(PCnt, f), GroupDocs(b, g, PieceDocs(plan, pieces)), GroupPartials(g, f, pieces),
              Occupied(g, pieces))
  {
    if pieces != [] {
      var front, x := pieces[..|pieces| - 1], pieces[|pieces| - 1];
      var docs, more := PieceDocs(plan, front), StreamDocs(plan, x.st, x.partials);
      PiecesTally(b, g, plan, front, f);
      GroupConcat(b, g, docs, more);
      PieceTallies(b, g, plan, x.st, x.partials, f);
      GroupNext(g, f, pieces);
      OccupiedNext(g, pieces);
      TalliesConcat(Name(PCnt, f), GroupDocs(b, g, docs), GroupDocs(b, g, more), GroupPartials(g, f, front),
        OwnPartials(g, f, x.st, x.partials), Occupied(g, front), InGroupPartials(g, x.st, x.partials) != []);
    }
  }

  lemma {:induction false} NotOccupied(g: Group, f: string, pieces: seq<Piece>)
    requires |g.vals| == |g.cols| && !Occupied(g, pieces)
    ensures GroupPartials(g, f, pieces) == []
  {
    if pieces != [] {
      OccupiedNext(g, pieces);
      NotOccupied(g, f, pieces[..|pieces| - 1]);
    }
  }

  /** The partials fold, under an aggregate, to what the samples do. */
  ghost predicate FoldsTo(func: AggFunc, ps: seq<TsPartial>, s: seq<Sample>)
    requires Supported(func)
  {
    && Counted(ps) == |s| && (ps == [] ==> s == [])
    && if func.Count? || func.Avg? then OnSamples(Sum, Readings(Sum, ps)) == OnSamples(Sum, s)
       else OnSamples(func, Readings(func, ps)) == OnSamples(func, s)
  }

  lemma ReadingsAre(func: AggFunc, ps: seq<TsPartial>)
    ensures KindReadings(FoldedKind(func), ps) == Readings(func, ps)
  {
  }

  /** The rewritten aggregate over the group's documents is the aggregate of the samples the partials fold to. */
  lemma PiecesAggregate(env: Env, b: Bucketing, g: Group, plan: Plan, pieces: seq<Piece>, func: AggFunc, f: string,
                        s: seq<Sample>, rep: Document)
    requires ValidGroup(g) && ValidPieces(b, pieces) && Supported(func)
    requires f in plan.aggFields && '.' !in f && (func.Last? ==> plan.needsLast)
    requires FoldsTo(func, GroupPartials(g, f, pieces), s) && |s| <= MAX
    ensures EvalGroup(env, RewriteAgg(func, f), GroupDocs(b, g, PieceDocs(plan, pieces)), rep) ==
            Ok(OnSamples(func, s))
  {
    var docs, ps := GroupDocs(b, g, PieceDocs(plan, pieces)), GroupPartials(g, f, pieces);
    if func.Count? || func.Avg? {
      PiecesTally(b, g, plan, pieces, f);
      if !Occupied(g, pieces) { NotOccupied(g, f, pieces); }
      PiecesColumn(b, g, plan, pieces, PSum, f);
      ReadingsAre(Sum, ps);
      AggOnFloats(env, Sum, Readings(Sum, ps));
      CountOrAvg(env, func, f, docs, s, rep);
    } else {
      PiecesColumn(b, g, plan, pieces, FoldedKind(func), f);
      ReadingsAre(func, ps);
      AggOnFloats(env, func, Readings(func, ps));
      FoldValue(env, func, FoldedKind(func), f, docs, rep);
    }
  }
}
