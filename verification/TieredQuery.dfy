/** A grouped query with a WHERE over rollup and source together answers as over the filtered raw rows. */
module TieredQuery {
  import opened Aggregates
  import opened Ast
  import opened Buckets
  import opened CounterChange
  import opened Evaluator
  import opened FilteredRows
  import opened GatherMerge
  import opened Int64
  import opened PartialPlan
  import opened Partials
  import opened Prelude
  import opened RawGroups
  import opened Rewrite
  import opened Rollup
  import opened RollupSplice
  import opened Samples
  import opened TierPieces
  import P = Pushdown

  // What the store selects keeps what a plan needs.

  /** Two selected streams are two narrowed ones, in the same order. */
  lemma {:induction false} SelectedPair(p: P.Range, streams: seq<Stream>, i: nat, j: nat)
    requires i < j < |Selected(p, streams)|
    ensures exists a, b :: 0 <= a < b < |streams| &&
              Selected(p, streams)[i] == Narrow(p, streams[a]) && Selected(p, streams)[j] == Narrow(p, streams[b])
  {
    var front, st := streams[..|streams| - 1], streams[|streams| - 1];
    var chosen := Selected(p, front);
    if j < |chosen| {
      SelectedPair(p, front, i, j);
      var a, b :| 0 <= a < b < |front| && chosen[i] == Narrow(p, front[a]) && chosen[j] == Narrow(p, front[b]);
      assert streams[a] == front[a] && streams[b] == front[b];
    } else {
      SelectedFrom(p, front, i);
      var a :| 0 <= a < |front| && Chosen(p, front[a].labels) && chosen[i] == Narrow(p, front[a]);
      assert streams[a] == front[a] && streams[|streams| - 1] == st;
    }
  }

  lemma {:induction false} ClipShorter(s: seq<Sample>, lo: int, hi: int)
    ensures |Clip(s, lo, hi)| <= |s|
  {
    if s != [] { ClipShorter(Front(s), lo, hi); }
  }

  lemma NarrowValid(p: P.Range, st: Stream)
    requires ValidStream(st)
    ensures ValidStream(Narrow(p, st))
  {
    ClipMembers(st.samples, p.t0, p.t1);
    ClipShorter(st.samples, p.t0, p.t1);
  }

  /** Each selected stream is valid and is a given one but for its samples. */
  lemma SelectedLike(p: P.Range, streams: seq<Stream>, i: nat) returns (j: nat)
    requires i < |Selected(p, streams)| && ValidStreams(streams)
    ensures j < |streams| && Selected(p, streams)[i] == Narrow(p, streams[j]) && ValidStream(Selected(p, streams)[i])
  {
    SelectedFrom(p, streams, i);
    j :| 0 <= j < |streams| && Chosen(p, streams[j].labels) && Selected(p, streams)[i] == Narrow(p, streams[j]);
    NarrowValid(p, streams[j]);
  }

  lemma SelectedOrdered(p: P.Range, streams: seq<Stream>)
    requires InSeriesOrder(streams)
    ensures InSeriesOrder(Selected(p, streams))
  {
    var chosen := Selected(p, streams);
    forall i, j | 0 <= i < j < |chosen|
      ensures chosen[i].series < chosen[j].series ||
              (chosen[i].series == chosen[j].series && chosen[i].field != chosen[j].field)
    {
      SelectedPair(p, streams, i, j);
    }
  }

  lemma SelectedConsistent(p: P.Range, streams: seq<Stream>)
    requires Consistent(streams) && ValidStreams(streams)
    ensures Consistent(Selected(p, streams)) && ValidStreams(Selected(p, streams))
  {
    var chosen := Selected(p, streams);
    forall i | 0 <= i < |chosen|
      ensures ValidStream(chosen[i]) && P.LabelColumn(chosen[i].field) && chosen[i].field != "ts"
      ensures chosen[i].field !in chosen[i].labels
    {
      var j := SelectedLike(p, streams, i);
    }
    forall i, j | 0 <= i < |chosen| && 0 <= j < |chosen| && chosen[i].series == chosen[j].series
      ensures chosen[i].labels == chosen[j].labels && chosen[i].tag == chosen[j].tag
    {
      var a := SelectedLike(p, streams, i);
      var b := SelectedLike(p, streams, j);
    }
  }

  lemma SelectedGathered(p: P.Range, g: Group, streams: seq<Stream>)
    requires Gathered(g, streams) && NoScores(streams)
    ensures Gathered(g, Selected(p, streams)) && NoScores(Selected(p, streams))
  {
    SelectedConsistent(p, streams);
    SelectedOrdered(p, streams);
    var chosen := Selected(p, streams);
    forall i | 0 <= i < |chosen|
      ensures NoScore(chosen[i].labels) && chosen[i].field != "_score" && chosen[i].field != "_rrf_score"
      ensures forall c :: 0 <= c < |g.cols| ==> chosen[i].field != g.cols[c]
    {
      var j := SelectedLike(p, streams, i);
    }
  }

  lemma SelectedName(p: P.Range, f: string, streams: seq<Stream>)
    requires FieldName(f, streams) && ValidStreams(streams)
    ensures FieldName(f, Selected(p, streams))
  {
    forall i | 0 <= i < |Selected(p, streams)| ensures f !in Selected(p, streams)[i].labels {
      var j := SelectedLike(p, streams, i);
    }
  }

  lemma {:induction false} PickClipShorter(b: Bucketing, bucket: int, s: seq<Sample>, lo: int, hi: int)
    ensures |PickSamples(b, bucket, Clip(s, lo, hi))| <= |PickSamples(b, bucket, s)|
  {
    if s != [] {
      PickClipShorter(b, bucket, Front(s), lo, hi);
      var front, x := Clip(Front(s), lo, hi), LastOf(s);
      assert Front(front + [x]) == front;
    }
  }

  lemma {:induction false} SelectedFewer(b: Bucketing, g: Group, f: string, p: P.Range, streams: seq<Stream>)
    requires |g.vals| == |g.cols|
    ensures |GroupSamples(b, g, f, Selected(p, streams))| <= |GroupSamples(b, g, f, streams)|
  {
    if streams != [] {
      var front, st := streams[..|streams| - 1], streams[|streams| - 1];
      SelectedFewer(b, g, f, p, front);
      PickClipShorter(b, g.bucket, st.samples, p.t0, p.t1);
      var chosen := Selected(p, front);
      if Chosen(p, st.labels) { assert (chosen + [Narrow(p, st)])[..|chosen|] == chosen; }
    }
  }

  // Both halves of every selected stream.

  /** A tiered read: rollup buckets below the split, the source from there on. */
  datatype Tiering = Tiering(step: nat, t0: I64, t1: I64, bucket: int, split: int)

  ghost predicate Tierable(r: Tiering) {
    && Usable(r.step, r.bucket) && Aligned(r.split, r.bucket) && r.t0 <= r.t1 && r.t0 < r.split
    && AlignedEnds(r.t0, r.t1, r.bucket, r.split)
  }

  function LowHalf(r: Tiering, s: seq<Sample>): seq<TsPartial>
    requires r.bucket > 0
  {
    RollupHalf(Rows(r.bucket, s), r.step, r.t0, r.t1, r.bucket, r.split)
  }

  function HighHalf(r: Tiering, s: seq<Sample>): seq<TsPartial> { SourceHalf(s, r.step, r.t1, r.split) }

  function BothHalves(r: Tiering, s: seq<Sample>): seq<TsPartial>
    requires r.bucket > 0
  {
    SplicePartials(s, r.step, r.t0, r.t1, r.bucket, r.split)
  }

  function HalfRuns(r: Tiering, s: seq<Sample>): seq<Run> { SpliceRuns(s, r.step, r.t0, r.t1, r.split) }

  function PieceOf(st: Stream, ps: seq<TsPartial>): seq<Piece> { if ps == [] then [] else [Piece(st, ps)] }

  /** What is gathered for the streams the WHERE selects: of each the rollup half, then the source half. */
  ghost function Halves(p: P.Range, r: Tiering, streams: seq<Stream>): seq<Piece>
    requires r.bucket > 0
  {
    if streams == [] then []
    else
      var front, st := Halves(p, r, streams[..|streams| - 1]), streams[|streams| - 1];
      if Chosen(p, st.labels) then
        front + (PieceOf(st, LowHalf(r, st.samples)) + PieceOf(st, HighHalf(r, st.samples)))
      else front
  }

  /** The group's partials of field `f`, and the runs they stand for. */
  ghost function TierPartials(p: P.Range, r: Tiering, g: Group, f: string, streams: seq<Stream>): seq<TsPartial>
    requires |g.vals| == |g.cols| && r.bucket > 0
  {
    if streams == [] then []
    else
      var front, st := TierPartials(p, r, g, f, streams[..|streams| - 1]), streams[|streams| - 1];
      if Chosen(p, st.labels) && Contributes(g, f, st) then
        front + PickPartials(BothHalves(r, st.samples), g.bucket)
      else front
  }

  ghost function TierRuns(p: P.Range, r: Tiering, g: Group, f: string, streams: seq<Stream>): seq<Run>
    requires |g.vals| == |g.cols|
  {
    if streams == [] then []
    else
      var front, st := TierRuns(p, r, g, f, streams[..|streams| - 1]), streams[|streams| - 1];
      if Chosen(p, st.labels) && Contributes(g, f, st) then
        front + PickRuns(By(r.step), g.bucket, HalfRuns(r, st.samples))
      else front
  }

  lemma FiguresConcat(b: Bucketing, x: seq<TsPartial>, u: seq<Run>, y: seq<TsPartial>, v: seq<Run>)
    requires Figures(b, x, u) && Figures(b, y, v)
    ensures Figures(b, x + y, u + v)
  {
    forall i | 0 <= i < |u + v| ensures SameFigures((x + y)[i], Summary(b, (u + v)[i])) {
      assert i >= |u| ==> (u + v)[i] == v[i - |u|] && (x + y)[i] == y[i - |u|];
    }
  }

  lemma HalvesStand(r: Tiering, s: seq<Sample>)
    requires Tierable(r) && Ordered(s)
    ensures Stands(By(r.step), BothHalves(r, s), HalfRuns(r, s))
  {
    SpliceStands(s, r.step, r.t0, r.t1, r.bucket, r.split);
  }

  lemma HalvesSamples(r: Tiering, s: seq<Sample>, bucket: int)
    requires Tierable(r) && Ordered(s)
    ensures var runs := PickRuns(By(r.step), bucket, HalfRuns(r, s));
            AllOrdered(runs) && Flatten(runs) == PickSamples(By(r.step), bucket, Clip(s, r.t0, r.t1))
  {
    SpliceSamples(s, r.step, r.t0, r.t1, r.split, bucket);
  }

  lemma PickedFigures(b: Bucketing, ps: seq<TsPartial>, runs: seq<Run>, bucket: int)
    requires Stands(b, ps, runs)
    ensures Figures(b, PickPartials(ps, bucket), PickRuns(b, bucket, runs))
  {
    PickStands(b, ps, runs, bucket);
  }

  /** One stream's partials in the group stand for its samples there. */
  lemma StreamStands(r: Tiering, s: seq<Sample>, bucket: int)
    requires Tierable(r) && Ordered(s)
    ensures var ps, runs := PickPartials(BothHalves(r, s), bucket), PickRuns(By(r.step), bucket, HalfRuns(r, s));
            && Figures(By(r.step), ps, runs) && AllOrdered(runs)
            && Flatten(runs) == PickSamples(By(r.step), bucket, Clip(s, r.t0, r.t1))
  {
    HalvesStand(r, s);
    PickedFigures(By(r.step), BothHalves(r, s), HalfRuns(r, s), bucket);
    HalvesSamples(r, s, bucket);
  }

  /** The range and the tiering are of the same query. */
  ghost predicate SameRange(p: P.Range, r: Tiering) { r.t0 == p.t0 && r.t1 == p.t1 }

  lemma SelectedSamplesNext(b: Bucketing, g: Group, f: string, p: P.Range, streams: seq<Stream>)
    requires |g.vals| == |g.cols| && streams != []
    ensures var front, st := streams[..|streams| - 1], streams[|streams| - 1];
            GroupSamples(b, g, f, Selected(p, streams)) ==
            GroupSamples(b, g, f, Selected(p, front)) +
              if Chosen(p, st.labels) && Contributes(g, f, st) then
                PickSamples(b, g.bucket, Clip(st.samples, p.t0, p.t1))
              else []
  {
    var front, st := streams[..|streams| - 1], streams[|streams| - 1];
    var chosen := Selected(p, front);
    if Chosen(p, st.labels) { assert (chosen + [Narrow(p, st)])[..|chosen|] == chosen; }
  }

  lemma {:induction false} TierFigures(p: P.Range, r: Tiering, g: Group, f: string, streams: seq<Stream>)
    requires |g.vals| == |g.cols| && Tierable(r) && SameRange(p, r) && ValidStreams(streams)
    ensures var runs := TierRuns(p, r, g, f, streams);
            && Figures(By(r.step), TierPartials(p, r, g, f, streams), runs) && AllOrdered(runs)
            && Flatten(runs) == GroupSamples(By(r.step), g, f, Selected(p, streams))
  {
    if streams != [] {
      var front, st := streams[..|streams| - 1], streams[|streams| - 1];
      TierFigures(p, r, g, f, front);
      SelectedSamplesNext(By(r.step), g, f, p, streams);
      if Chosen(p, st.labels) && Contributes(g, f, st) {
        var mine := PickRuns(By(r.step), g.bucket, HalfRuns(r, st.samples));
        assert ValidStream(st);
        StreamStands(r, st.samples, g.bucket);
        FiguresConcat(By(r.step), TierPartials(p, r, g, f, front), TierRuns(p, r, g, f, front),
          PickPartials(BothHalves(r, st.samples), g.bucket), mine);
        AllOrderedConcat(TierRuns(p, r, g, f, front), mine);
        FlattenConcat(TierRuns(p, r, g, f, front), mine);
      }
    }
  }

  /** Counts, sums and extremes are right for any number of series. */
  lemma FiguresFold(func: AggFunc, b: Bucketing, ps: seq<TsPartial>, runs: seq<Run>)
    requires Supported(func) && !func.First? && !func.Last? && Figures(b, ps, runs) && AllOrdered(runs)
    ensures FoldsTo(func, ps, Flatten(runs))
  {
    CountedLength(b, ps, runs);
    FlattenLength(runs);
    FlattenEmpty(runs);
    var fold := if func.Count? || func.Avg? then Sum else func;
    StandsValues(fold, b, ps, runs);
    SameValues(Readings(fold, ps), Map(runs, Partials.Of(FoldedKind(fold))));
    RunFold(fold, runs);
  }

  /** At most one series of the group carries the field. */
  ghost predicate Alone(p: P.Range, g: Group, f: string, streams: seq<Stream>)
    requires |g.vals| == |g.cols|
  {
    forall i, j :: 0 <= i < j < |streams| ==>
      !(Chosen(p, streams[i].labels) && Contributes(g, f, streams[i]) &&
        Chosen(p, streams[j].labels) && Contributes(g, f, streams[j]))
  }

  lemma {:induction false} NoneContribute(p: P.Range, r: Tiering, g: Group, f: string, streams: seq<Stream>)
    requires |g.vals| == |g.cols| && r.bucket > 0
    requires forall i :: 0 <= i < |streams| ==> !(Chosen(p, streams[i].labels) && Contributes(g, f, streams[i]))
    ensures TierPartials(p, r, g, f, streams) == [] && GroupSamples(By(r.step), g, f, Selected(p, streams)) == []
  {
    if streams != [] {
      NoneContribute(p, r, g, f, streams[..|streams| - 1]);
      SelectedSamplesNext(By(r.step), g, f, p, streams);
    }
  }

  /** The last stream has the field alone. */
  lemma LastAlone(p: P.Range, r: Tiering, g: Group, f: string, streams: seq<Stream>, func: AggFunc)
    requires |g.vals| == |g.cols| && Tierable(r) && SameRange(p, r) && ValidStreams(streams) && streams != []
    requires Alone(p, g, f, streams) && (func.First? || func.Last?)
    requires var st := streams[|streams| - 1]; Chosen(p, st.labels) && Contributes(g, f, st)
    ensures FoldsTo(func, TierPartials(p, r, g, f, streams), GroupSamples(By(r.step), g, f, Selected(p, streams)))
  {
    var front, st := streams[..|streams| - 1], streams[|streams| - 1];
    forall i | 0 <= i < |front| ensures !(Chosen(p, front[i].labels) && Contributes(g, f, front[i])) {
      assert streams[i] == front[i] && streams[|streams| - 1] == st;
    }
    NoneContribute(p, r, g, f, front);
    SelectedSamplesNext(By(r.step), g, f, p, streams);
    assert ValidStream(st);
    StreamFolds(r, st.samples, g.bucket, func);
    var ps, raw := PickPartials(BothHalves(r, st.samples), g.bucket),
                   PickSamples(By(r.step), g.bucket, Clip(st.samples, r.t0, r.t1));
    assert TierPartials(p, r, g, f, streams) == [] + ps == ps;
    assert GroupSamples(By(r.step), g, f, Selected(p, streams)) == [] + raw == raw;
  }

  lemma {:induction false} AloneFolds(p: P.Range, r: Tiering, g: Group, f: string, streams: seq<Stream>, func: AggFunc)
    requires |g.vals| == |g.cols| && Tierable(r) && SameRange(p, r) && ValidStreams(streams)
    requires Alone(p, g, f, streams) && (func.First? || func.Last?)
    ensures FoldsTo(func, TierPartials(p, r, g, f, streams), GroupSamples(By(r.step), g, f, Selected(p, streams)))
  {
    if streams != [] {
      var front, st := streams[..|streams| - 1], streams[|streams| - 1];
      if Chosen(p, st.labels) && Contributes(g, f, st) {
        LastAlone(p, r, g, f, streams, func);
      } else {
        AloneFolds(p, r, g, f, front, func);
        SelectedSamplesNext(By(r.step), g, f, p, streams);
        var s := GroupSamples(By(r.step), g, f, Selected(p, front));
        assert s + [] == s;
      }
    }
  }

  lemma StreamFolds(r: Tiering, s: seq<Sample>, bucket: int, func: AggFunc)
    requires Tierable(r) && Ordered(s) && (func.First? || func.Last?)
    ensures FoldsTo(func, PickPartials(BothHalves(r, s), bucket),
              PickSamples(By(r.step), bucket, Clip(s, r.t0, r.t1)))
  {
    SpliceExact(s, r.step, r.t0, r.t1, r.bucket, r.split, bucket, func);
    StreamStands(r, s, bucket);
  }

  /** Where times do not decide, or one series alone has the field, the partials fold to the selected samples. */
  lemma TierFolds(p: P.Range, r: Tiering, g: Group, f: string, streams: seq<Stream>, func: AggFunc)
    requires |g.vals| == |g.cols| && Tierable(r) && SameRange(p, r) && ValidStreams(streams) && Supported(func)
    requires func.First? || func.Last? ==> Alone(p, g, f, streams)
    ensures FoldsTo(func, TierPartials(p, r, g, f, streams), GroupSamples(By(r.step), g, f, Selected(p, streams)))
  {
    if func.First? || func.Last? {
      AloneFolds(p, r, g, f, streams, func);
    } else {
      TierFigures(p, r, g, f, streams);
      FiguresFold(func, By(r.step), TierPartials(p, r, g, f, streams), TierRuns(p, r, g, f, streams));
    }
  }

  // The gathered pieces.

  function FieldPieces(f: string, pieces: seq<Piece>): seq<Piece> {
    if pieces == [] then []
    else
      var front, x := FieldPieces(f, pieces[..|pieces| - 1]), pieces[|pieces| - 1];
      if x.st.field == f then front + [x] else front
  }

  /** Field by field the pieces come as listed; sorting by series and first bucket may interleave the fields. */
  ghost predicate Arranged(pieces: seq<Piece>, listed: seq<Piece>) {
    forall f :: FieldPieces(f, pieces) == FieldPieces(f, listed)
  }

  lemma {:induction false} FieldMembers(f: string, pieces: seq<Piece>, x: Piece)
    ensures x in FieldPieces(f, pieces) <==> x in pieces && x.st.field == f
  {
    if pieces != [] {
      FieldMembers(f, pieces[..|pieces| - 1], x);
      assert pieces == pieces[..|pieces| - 1] + [pieces[|pieces| - 1]];
    }
  }

  lemma ArrangedMembers(pieces: seq<Piece>, listed: seq<Piece>, x: Piece)
    requires Arranged(pieces, listed)
    ensures x in pieces <==> x in listed
  {
    FieldMembers(x.st.field, pieces, x);
    FieldMembers(x.st.field, listed, x);
  }

  lemma {:induction false} GroupOfField(g: Group, f: string, pieces: seq<Piece>)
    requires |g.vals| == |g.cols|
    ensures GroupPartials(g, f, pieces) == GroupPartials(g, f, FieldPieces(f, pieces))
  {
    if pieces != [] {
      var front, x := pieces[..|pieces| - 1], pieces[|pieces| - 1];
      GroupOfField(g, f, front);
      var mine := FieldPieces(f, front);
      if x.st.field == f { assert (mine + [x])[..|mine|] == mine; }
    }
  }

  lemma ArrangedPartials(g: Group, f: string, pieces: seq<Piece>, listed: seq<Piece>)
    requires |g.vals| == |g.cols| && Arranged(pieces, listed)
    ensures GroupPartials(g, f, pieces) == GroupPartials(g, f, listed)
  {
    GroupOfField(g, f, pieces);
    GroupOfField(g, f, listed);
  }

  lemma {:induction false} GroupPartialsConcat(g: Group, f: string, x: seq<Piece>, y: seq<Piece>)
    requires |g.vals| == |g.cols|
    ensures GroupPartials(g, f, x + y) == GroupPartials(g, f, x) + GroupPartials(g, f, y)
  {
    if y == [] {
      assert x + y == x;
    } else {
      GroupPartialsConcat(g, f, x, y[..|y| - 1]);
      assert (x + y)[..|x + y| - 1] == x + y[..|y| - 1];
    }
  }

  lemma {:induction false} PickPartialsConcat(x: seq<TsPartial>, y: seq<TsPartial>, bucket: int)
    ensures PickPartials(x + y, bucket) == PickPartials(x, bucket) + PickPartials(y, bucket)
  {
    if y == [] {
      assert x + y == x;
    } else {
      PickPartialsConcat(x, y[..|y| - 1], bucket);
      assert (x + y)[..|x + y| - 1] == x + y[..|y| - 1];
    }
  }

  lemma PiecePartials(g: Group, f: string, st: Stream, ps: seq<TsPartial>)
    requires |g.vals| == |g.cols|
    ensures GroupPartials(g, f, PieceOf(st, ps)) == if Contributes(g, f, st) then PickPartials(ps, g.bucket) else []
  {
    if ps != [] {
      var one := PieceOf(st, ps);
      assert one[..0] == [] && GroupPartials(g, f, one[..0]) == [];
    }
  }

  lemma {:induction false} HalvesPartials(p: P.Range, r: Tiering, g: Group, f: string, streams: seq<Stream>)
    requires |g.vals| == |g.cols| && r.bucket > 0
    ensures GroupPartials(g, f, Halves(p, r, streams)) == TierPartials(p, r, g, f, streams)
  {
    if streams != [] {
      var front, st := streams[..|streams| - 1], streams[|streams| - 1];
      HalvesPartials(p, r, g, f, front);
      if Chosen(p, st.labels) {
        var low, high := LowHalf(r, st.samples), HighHalf(r, st.samples);
        GroupPartialsConcat(g, f, Halves(p, r, front), PieceOf(st, low) + PieceOf(st, high));
        GroupPartialsConcat(g, f, PieceOf(st, low), PieceOf(st, high));
        PiecePartials(g, f, st, low);
        PiecePartials(g, f, st, high);
        PickPartialsConcat(low, high, g.bucket);
      }
    }
  }

  lemma HalvesNext(p: P.Range, r: Tiering, streams: seq<Stream>, x: Piece)
    requires r.bucket > 0 && streams != []
    ensures var front, st := streams[..|streams| - 1], streams[|streams| - 1];
            x in Halves(p, r, streams) <==> x in Halves(p, r, front) || (Chosen(p, st.labels) && HalfOf(r, st, x))
  {
  }

  lemma {:induction false} HalvesHave(p: P.Range, r: Tiering, streams: seq<Stream>, j: nat, x: Piece)
    requires r.bucket > 0 && j < |streams| && Chosen(p, streams[j].labels) && HalfOf(r, streams[j], x)
    ensures x in Halves(p, r, streams)
  {
    HalvesNext(p, r, streams, x);
    if j < |streams| - 1 {
      var front := streams[..|streams| - 1];
      assert front[j] == streams[j];
      HalvesHave(p, r, front, j, x);
    }
  }

  lemma {:induction false} HalvesFrom(p: P.Range, r: Tiering, streams: seq<Stream>, x: Piece) returns (j: nat)
    requires r.bucket > 0 && x in Halves(p, r, streams)
    ensures j < |streams| && Chosen(p, streams[j].labels) && HalfOf(r, streams[j], x)
  {
    HalvesNext(p, r, streams, x);
    var front, st := streams[..|streams| - 1], streams[|streams| - 1];
    if Chosen(p, st.labels) && HalfOf(r, st, x) {
      j := |streams| - 1;
    } else {
      j := HalvesFrom(p, r, front, x);
      assert streams[j] == front[j];
    }
  }

  ghost predicate HalfOf(r: Tiering, st: Stream, x: Piece)
    requires r.bucket > 0
  {
    x in PieceOf(st, LowHalf(r, st.samples)) || x in PieceOf(st, HighHalf(r, st.samples))
  }

  /** Runs of one bucket each, of a countable number of samples. */
  ghost predicate Fitting(b: Bucketing, runs: seq<Run>) {
    forall i :: 0 <= i < |runs| ==> OneBucket(b, runs[i]) && |runs[i]| <= MAX
  }

  lemma RunsFit(b: Bucketing, s: seq<Sample>)
    requires Monotone(b) && Ordered(s) && |s| <= MAX
    ensures Fitting(b, Runs(b, s))
  {
    if s != [] { RunsAreBuckets(b, s); }
    RunsSmall(b, s);
  }

  lemma CoarseBucketed(bucket: int, b: Bucketing, run: Run)
    requires bucket > 0 && Refines(bucket, b) && OneBucket(b, run)
    ensures Bucketed(b, Coarse(bucket, b, run)) && Bucketed(b, Summary(b, run))
  {
    var first, last := run[0].ts, run[|run| - 1].ts;
    assert b(Start(bucket, first)) == b(first) && b(Start(bucket, last)) == b(last);
    assert b(last) == b(first);
  }

  lemma CoarsesValid(bucket: int, b: Bucketing, runs: seq<Run>)
    requires bucket > 0 && Refines(bucket, b) && Fitting(b, runs)
    ensures ValidPartials(b, Coarses(bucket, b, runs)) && ValidPartials(b, Summaries(b, runs))
  {
    forall i | 0 <= i < |runs|
      ensures Bucketed(b, Coarse(bucket, b, runs[i])) && Bucketed(b, Summary(b, runs[i]))
    {
      CoarseBucketed(bucket, b, runs[i]);
    }
  }

  lemma HalvesValid(r: Tiering, s: seq<Sample>)
    requires Tierable(r) && Ordered(s) && |s| <= MAX
    ensures ValidPartials(By(r.step), LowHalf(r, s)) && ValidPartials(By(r.step), HighHalf(r, s))
  {
    RollupHalfExact(s, r.step, r.t0, r.t1, r.bucket, r.split);
    ClipMembers(s, r.t0, Smaller(r.t1, r.split - 1));
    ClipShorter(s, r.t0, Smaller(r.t1, r.split - 1));
    ClipMembers(s, r.split, r.t1);
    ClipShorter(s, r.split, r.t1);
    BucketMonotone(r.step);
    DividesRefines(r.bucket, r.step);
    RunsFit(By(r.step), Clip(s, r.t0, Smaller(r.t1, r.split - 1)));
    RunsFit(By(r.step), Clip(s, r.split, r.t1));
    CoarsesValid(r.bucket, By(r.step), Runs(By(r.step), Clip(s, r.t0, Smaller(r.t1, r.split - 1))));
    CoarsesValid(r.bucket, By(r.step), Runs(By(r.step), Clip(s, r.split, r.t1)));
  }

  /** Every gathered piece is a half of a selected stream. */
  lemma PieceFrom(p: P.Range, r: Tiering, streams: seq<Stream>, pieces: seq<Piece>, i: nat) returns (j: nat)
    requires r.bucket > 0 && Arranged(pieces, Halves(p, r, streams)) && i < |pieces|
    ensures j < |streams| && Chosen(p, streams[j].labels) && HalfOf(r, streams[j], pieces[i])
  {
    assert pieces[i] in pieces;
    ArrangedMembers(pieces, Halves(p, r, streams), pieces[i]);
    j := HalvesFrom(p, r, streams, pieces[i]);
  }

  lemma HalfValid(r: Tiering, st: Stream, x: Piece)
    requires Tierable(r) && ValidStream(st) && HalfOf(r, st, x)
    ensures x.st == st && ValidPartials(By(r.step), x.partials)
  {
    HalvesValid(r, st.samples);
  }

  lemma PiecesValid(p: P.Range, r: Tiering, streams: seq<Stream>, pieces: seq<Piece>)
    requires Tierable(r) && ValidStreams(streams) && Arranged(pieces, Halves(p, r, streams))
    ensures ValidPieces(By(r.step), pieces)
  {
    forall i | 0 <= i < |pieces|
      ensures ValidStream(pieces[i].st) && ValidPartials(By(r.step), pieces[i].partials)
    {
      var j := PieceFrom(p, r, streams, pieces, i);
      assert ValidStream(streams[j]);
      HalfValid(r, streams[j], pieces[i]);
    }
  }

  lemma HalfPicked(r: Tiering, g: Group, st: Stream, x: Piece)
    requires |g.vals| == |g.cols| && r.bucket > 0 && HalfOf(r, st, x) && InGroupPartials(g, x.st, x.partials) != []
    ensures ColsMatch(g, st.labels) && PickPartials(BothHalves(r, st.samples), g.bucket) != []
  {
    PickPartialsConcat(LowHalf(r, st.samples), HighHalf(r, st.samples), g.bucket);
  }

  /** The group has a partial exactly when it has a selected sample. */
  lemma OccupiedIsPopulated(p: P.Range, r: Tiering, g: Group, streams: seq<Stream>, pieces: seq<Piece>)
    requires |g.vals| == |g.cols| && Tierable(r) && SameRange(p, r) && ValidStreams(streams)
    requires Arranged(pieces, Halves(p, r, streams))
    ensures Occupied(g, pieces) <==> Populated(By(r.step), g, Selected(p, streams))
  {
    PopulatedIndex(By(r.step), g, Selected(p, streams));
    if Occupied(g, pieces) {
      var i :| 0 <= i < |pieces| && InGroupPartials(g, pieces[i].st, pieces[i].partials) != [];
      var j := PieceFrom(p, r, streams, pieces, i);
      HalfPicked(r, g, streams[j], pieces[i]);
      HasSample(p, r, g, streams, j);
    }
    if Populated(By(r.step), g, Selected(p, streams)) {
      var i :| 0 <= i < |Selected(p, streams)| && StreamRuns(By(r.step), g, Selected(p, streams)[i]) != [];
      SelectedFrom(p, streams, i);
      var j :| 0 <= j < |streams| && Chosen(p, streams[j].labels) && Selected(p, streams)[i] == Narrow(p, streams[j]);
      HasPartial(p, r, g, streams, j, pieces);
    }
  }

  lemma {:induction false} SelectedHas(p: P.Range, streams: seq<Stream>, j: nat)
    requires j < |streams| && Chosen(p, streams[j].labels)
    ensures Narrow(p, streams[j]) in Selected(p, streams)
  {
    if j < |streams| - 1 {
      var front := streams[..|streams| - 1];
      assert front[j] == streams[j];
      SelectedHas(p, front, j);
    }
  }

  lemma HasSample(p: P.Range, r: Tiering, g: Group, streams: seq<Stream>, j: nat)
    requires |g.vals| == |g.cols| && Tierable(r) && SameRange(p, r) && ValidStreams(streams) && j < |streams|
    requires Chosen(p, streams[j].labels) && ColsMatch(g, streams[j].labels)
    requires PickPartials(BothHalves(r, streams[j].samples), g.bucket) != []
    ensures exists i :: 0 <= i < |Selected(p, streams)| && StreamRuns(By(r.step), g, Selected(p, streams)[i]) != []
  {
    var s := streams[j].samples;
    assert ValidStream(streams[j]);
    StreamStands(r, s, g.bucket);
    FlattenEmpty(PickRuns(By(r.step), g.bucket, HalfRuns(r, s)));
    PickedSamples(By(r.step), g.bucket, Clip(s, p.t0, p.t1));
    FlattenEmpty(PickRuns(By(r.step), g.bucket, Runs(By(r.step), Clip(s, p.t0, p.t1))));
    SelectedHas(p, streams, j);
    var i :| 0 <= i < |Selected(p, streams)| && Selected(p, streams)[i] == Narrow(p, streams[j]);
    assert StreamRuns(By(r.step), g, Selected(p, streams)[i]) != [];
  }

  lemma HasPartial(p: P.Range, r: Tiering, g: Group, streams: seq<Stream>, j: nat, pieces: seq<Piece>)
    requires |g.vals| == |g.cols| && Tierable(r) && SameRange(p, r) && ValidStreams(streams) && j < |streams|
    requires Chosen(p, streams[j].labels) && StreamRuns(By(r.step), g, Narrow(p, streams[j])) != []
    requires Arranged(pieces, Halves(p, r, streams))
    ensures Occupied(g, pieces)
  {
    var st := streams[j];
    var s, low, high := st.samples, LowHalf(r, st.samples), HighHalf(r, st.samples);
    assert ValidStream(st);
    PickedSamples(By(r.step), g.bucket, Clip(s, p.t0, p.t1));
    FlattenEmpty(PickRuns(By(r.step), g.bucket, Runs(By(r.step), Clip(s, p.t0, p.t1))));
    StreamStands(r, s, g.bucket);
    FlattenEmpty(PickRuns(By(r.step), g.bucket, HalfRuns(r, s)));
    PickPartialsConcat(low, high, g.bucket);
    var x := Piece(st, if PickPartials(low, g.bucket) != [] then low else high);
    assert HalfOf(r, st, x);
    HalvesHave(p, r, streams, j, x);
    ArrangedMembers(pieces, Halves(p, r, streams), x);
    var i :| 0 <= i < |pieces| && pieces[i] == x;
    assert InGroupPartials(g, pieces[i].st, pieces[i].partials) != [];
  }

  // The query.

  lemma {:induction false} PieceGroup(b: Bucketing, g: Group, plan: Plan, st: Stream, ps: seq<TsPartial>)
    requires ValidGroup(g) && ValidPartials(b, ps)
    ensures GroupDocs(b, g, StreamDocs(plan, st, ps)) != [] <==> InGroupPartials(g, st, ps) != []
  {
    if ps != [] {
      var front, p := ps[..|ps| - 1], ps[|ps| - 1];
      assert ps == front + [p];
      PieceGroup(b, g, plan, st, front);
      OwnNext(g, st.field, st, front, p);
      NextDocs(b, g, plan, st, front, p);
    }
  }

  lemma {:induction false} PiecesGroup(b: Bucketing, g: Group, plan: Plan, pieces: seq<Piece>)
    requires ValidGroup(g) && ValidPieces(b, pieces)
    ensures GroupDocs(b, g, PieceDocs(plan, pieces)) != [] <==> Occupied(g, pieces)
  {
    if pieces != [] {
      var front, x := pieces[..|pieces| - 1], pieces[|pieces| - 1];
      PiecesGroup(b, g, plan, front);
      GroupConcat(b, g, PieceDocs(plan, front), StreamDocs(plan, x.st, x.partials));
      PieceGroup(b, g, plan, x.st, x.partials);
      OccupiedNext(g, pieces);
    }
  }

  lemma {:induction false} PiecesPlain(plan: Plan, pieces: seq<Piece>)
    requires forall i :: 0 <= i < |pieces| ==> NoScore(pieces[i].st.labels)
    ensures AllPlain(PieceDocs(plan, pieces))
  {
    if pieces != [] {
      var x := pieces[|pieces| - 1];
      PiecesPlain(plan, pieces[..|pieces| - 1]);
      StreamPlain(plan, x.st, x.partials);
    }
  }

  /** The streams of the table, and what is gathered of them for a query with a WHERE under a tiering. */
  datatype Read = Read(streams: seq<Stream>, filter: SqlExpr, r: Tiering, pieces: seq<Piece>)

  function Pushed(env: Env, q: Read): P.Range { P.Extract(env, q.filter, P.UNBOUNDED) }

  /** What the planner and the store establish: the pushdown consumes the WHERE, the query can be planned, and the
      range and the split are on rollup boundaries. */
  ghost predicate Askable(env: Env, grp: Grouping, plan: Plan, g: Group, q: Read) {
    && Consumed(env, q.filter) && Unshadowing(Pushed(env, q), q.streams)
    && Planned(grp, plan, q.r.step, g, q.streams) && !plan.hasChange
    && Tierable(q.r) && SameRange(Pushed(env, q), q.r)
  }

  /** And the pieces are the halves of the selected streams, arranged as listed. */
  ghost predicate Readable(env: Env, grp: Grouping, plan: Plan, g: Group, q: Read) {
    Askable(env, grp, plan, g, q) && Arranged(q.pieces, Halves(Pushed(env, q), q.r, q.streams))
  }

  /** FIRST and LAST only where one series of the group has the field. */
  function Ends(alone: bool): AggFunc -> bool { (func: AggFunc) => alone || (!func.First? && !func.Last?) }

  /** The group over the raw rows the WHERE keeps, and over the documents of the gathered pieces. */
  function ReadSides(env: Env, plan: Plan, g: Group, q: Read): Sides
    requires |g.vals| == |g.cols|
  {
    var raw := GroupDocs(By(q.r.step), g, KeepDocs(env, q.filter, RawDocs(q.streams)));
    var part := GroupDocs(By(q.r.step), g, PieceDocs(plan, q.pieces));
    Sides(raw, Rep(raw), part, Rep(part))
  }

  lemma RawValue(env: Env, b: Bucketing, g: Group, func: AggFunc, f: string, streams: seq<Stream>)
    requires Gathered(g, streams) && FieldName(f, streams) && Supported(func)
    ensures AggValue(env, func, f, GroupDocs(b, g, RawDocs(streams))) == OnSamples(func, GroupSamples(b, g, f, streams))
  {
    RawGroupColumn(b, g, f, streams);
    GroupSamplesAreRuns(b, g, f, streams);
    AggOnFloats(env, func, GroupSamples(b, g, f, streams));
  }

  lemma PartValue(env: Env, grp: Grouping, plan: Plan, g: Group, q: Read, alone: bool, func: AggFunc, f: string,
                  rep: Document)
    requires Readable(env, grp, plan, g, q) && Foldable(plan, func) && Ends(alone)(func)
    requires f in plan.aggFields && P.LabelColumn(f) && f != "ts"
    requires alone ==> Alone(Pushed(env, q), g, f, q.streams)
    ensures EvalGroup(env, RewriteAgg(func, f), GroupDocs(By(q.r.step), g, PieceDocs(plan, q.pieces)), rep) ==
            Ok(OnSamples(func, GroupSamples(By(q.r.step), g, f, Selected(Pushed(env, q), q.streams))))
  {
    var p, b := Pushed(env, q), By(q.r.step);
    PiecesValid(p, q.r, q.streams, q.pieces);
    ArrangedPartials(g, f, q.pieces, Halves(p, q.r, q.streams));
    HalvesPartials(p, q.r, g, f, q.streams);
    TierFolds(p, q.r, g, f, q.streams, func);
    SelectedFewer(b, g, f, p, q.streams);
    GroupSamplesAreRuns(b, g, f, q.streams);
    PiecesAggregate(env, b, g, plan, q.pieces, func, f, GroupSamples(b, g, f, Selected(p, q.streams)), rep);
  }

  lemma ReadValue(env: Env, grp: Grouping, plan: Plan, g: Group, q: Read, alone: bool, func: AggFunc, f: string,
                  rep: Document)
    requires Readable(env, grp, plan, g, q) && Foldable(plan, func) && Ends(alone)(func)
    requires f in plan.aggFields && P.LabelColumn(f) && f != "ts"
    requires alone ==> Alone(Pushed(env, q), g, f, q.streams)
    ensures var s := ReadSides(env, plan, g, q);
            EvalGroup(env, RewriteAgg(func, f), s.part, rep) == Ok(AggValue(env, func, f, s.raw))
  {
    var p := Pushed(env, q);
    PartValue(env, grp, plan, g, q, alone, func, f, rep);
    WhereIsNarrowing(env, q.filter, q.streams);
    SelectedGathered(p, g, q.streams);
    SelectedName(p, f, q.streams);
    RawValue(env, By(q.r.step), g, func, f, Selected(p, q.streams));
  }

  /** Both sides have the group or neither has, and a row of either represents it. */
  lemma ReadGroups(env: Env, grp: Grouping, plan: Plan, g: Group, q: Read)
    requires Readable(env, grp, plan, g, q)
    ensures var s := ReadSides(env, plan, g, q);
            && (s.raw == [] <==> s.part == [])
            && Represents(By(q.r.step), g, s.raw, s.rawRep) && Represents(By(q.r.step), g, s.part, s.partRep)
  {
    var p, b, s := Pushed(env, q), By(q.r.step), ReadSides(env, plan, g, q);
    WhereIsNarrowing(env, q.filter, q.streams);
    SelectedGathered(p, g, q.streams);
    RawPopulated(b, g, Selected(p, q.streams));
    PiecesValid(p, q.r, q.streams, q.pieces);
    PiecesGroup(b, g, plan, q.pieces);
    OccupiedIsPopulated(p, q.r, g, q.streams, q.pieces);
    RepInGroup(b, plan, g, Selected(p, q.streams));
    PartRepresents(env, grp, plan, g, q);
  }

  lemma PartRepresents(env: Env, grp: Grouping, plan: Plan, g: Group, q: Read)
    requires Readable(env, grp, plan, g, q)
    ensures var part := GroupDocs(By(q.r.step), g, PieceDocs(plan, q.pieces));
            Represents(By(q.r.step), g, part, Rep(part))
  {
    var docs := PieceDocs(plan, q.pieces);
    var part := GroupDocs(By(q.r.step), g, docs);
    forall i | 0 <= i < |q.pieces| ensures NoScore(q.pieces[i].st.labels) {
      var j := PieceFrom(Pushed(env, q), q.r, q.streams, q.pieces, i);
    }
    PiecesPlain(plan, q.pieces);
    GroupMembers(By(q.r.step), g, docs);
    if part != [] {
      assert part[0] in part;
      var i :| 0 <= i < |docs| && docs[i] == part[0];
    }
  }

  /** A grouped query with a WHERE, answered from rollup buckets below the split and source partials above it, has
      the groups and the values it has over all raw rows that the WHERE keeps. Counts, sums, averages and extremes are
      right for any number of series; FIRST and LAST where one series of the group has the field. */
  lemma TieredQueryAnswers(env: Env, grp: Grouping, plan: Plan, g: Group, q: Read, alone: bool, e: SqlExpr)
    requires Readable(env, grp, plan, g, q) && Eligible(grp, plan, e) && UsesOnly(Ends(alone), e)
    requires alone ==> forall f :: f in plan.aggFields ==> Alone(Pushed(env, q), g, f, q.streams)
    ensures var s := ReadSides(env, plan, g, q);
            (s.raw == [] <==> s.part == []) && (s.raw != [] || grp == Grouping([], None) ==> AnswersAlike(env, e, s))
  {
    var s := ReadSides(env, plan, g, q);
    ReadGroups(env, grp, plan, g, q);
    if s.raw != [] || grp == Grouping([], None) {
      forall func, f | Ends(alone)(func) && Foldable(plan, func) && f in plan.aggFields && P.LabelColumn(f) && f != "ts"
        ensures EvalGroup(env, RewriteAgg(func, f), s.part, s.partRep) == Ok(AggValue(env, func, f, s.raw))
      {
        ReadValue(env, grp, plan, g, q, alone, func, f, s.partRep);
      }
      AgreeFrom(env, grp, plan, q.r.step, g, s, Ends(alone));
      EligibleSame(env, grp, plan, e, s, Ends(alone));
      SameAnswers(env, e, s);
    }
  }

  /** Two series with a sample each in one rollup bucket: the rollup has lost which was earlier, and FIRST takes the
      series listed first. */
  lemma EndsTie()
    ensures var x: Run, y: Run := [Sample(30_000, 1.0)], [Sample(10_000, 2.0)];
            && OnSamples(First, x + y) == Float(2.0)
            && OnSamples(First, Readings(First, Coarses(60_000, By(0), [x, y]))) == Float(1.0)
  {
    var x: Run, y: Run := [Sample(30_000, 1.0)], [Sample(10_000, 2.0)];
    assert Front(x + y) == x;
    var s := Readings(First, Coarses(60_000, By(0), [x, y]));
    assert Start(60_000, 30_000) == 0 && Start(60_000, 10_000) == 0;
    assert s[0] == Sample(0, 1.0) && s[1] == Sample(0, 2.0);
    assert Front(s) == [s[0]];
  }

  /** The same without a rollup: partials of the streams the pushdown selects answer over the rows the WHERE keeps. */
  lemma FilteredQueryAnswers(env: Env, grp: Grouping, plan: Plan, step: int, g: Group, streams: seq<Stream>,
                             filter: SqlExpr, e: SqlExpr)
    requires Consumed(env, filter) && Unshadowing(P.Extract(env, filter, P.UNBOUNDED), streams)
    requires Planned(grp, plan, step, g, streams) && Eligible(grp, plan, e)
    ensures var p := P.Extract(env, filter, P.UNBOUNDED);
            var s := SidesOf(By(step), plan, g, Selected(p, streams));
            && s.raw == GroupDocs(By(step), g, KeepDocs(env, filter, RawDocs(streams)))
            && (s.raw == [] <==> s.part == [])
            && (s.raw != [] || grp == Grouping([], None) ==> AnswersAlike(env, e, s))
  {
    var p := P.Extract(env, filter, P.UNBOUNDED);
    WhereIsNarrowing(env, filter, streams);
    SelectedPlanned(grp, plan, step, g, p, streams);
    PartialsAnswerTheQuery(env, grp, plan, step, g, Selected(p, streams), e);
  }

  lemma SelectedPlanned(grp: Grouping, plan: Plan, step: int, g: Group, p: P.Range, streams: seq<Stream>)
    requires Planned(grp, plan, step, g, streams)
    ensures Planned(grp, plan, step, g, Selected(p, streams))
  {
    SelectedGathered(p, g, streams);
    forall f | f in plan.aggFields && P.LabelColumn(f) && f != "ts"
      ensures FieldName(f, Selected(p, streams))
      ensures |Flatten(GroupRuns(By(step), g, f, Selected(p, streams)))| <= MAX
      ensures plan.hasChange ==> TagsTell(g, f, Selected(p, streams))
    {
      SelectedName(p, f, streams);
      SelectedFewer(By(step), g, f, p, streams);
      GroupSamplesAreRuns(By(step), g, f, streams);
      GroupSamplesAreRuns(By(step), g, f, Selected(p, streams));
      if plan.hasChange { SelectedTags(p, g, f, streams); }
    }
  }

  lemma SelectedTags(p: P.Range, g: Group, f: string, streams: seq<Stream>)
    requires |g.vals| == |g.cols| && TagsTell(g, f, streams)
    ensures TagsTell(g, f, Selected(p, streams))
  {
    var chosen := Selected(p, streams);
    forall i, j | 0 <= i < j < |chosen| && Contributes(g, f, chosen[i]) && Contributes(g, f, chosen[j])
      ensures chosen[i].tag != chosen[j].tag
    {
      SelectedPair(p, streams, i, j);
    }
  }
}
