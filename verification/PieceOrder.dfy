/** The stable sort of gathered partial streams puts, field by field, each series' rollup half before its source
    half. */
module PieceOrder {
  import opened Ast
  import opened Buckets
  import opened Evaluator
  import opened FilteredRows
  import opened Int64
  import opened PartialPlan
  import opened Partials
  import opened Prelude
  import opened RawGroups
  import opened Rollup
  import opened RollupSplice
  import opened Samples
  import opened TierPieces
  import opened TieredQuery
  import P = Pushdown

  function FirstBucket(x: Piece): int { if x.partials == [] then 0 else x.partials[0].bucketTs }

  /** The sort key: the series, then the first bucket. */
  predicate Le(x: Piece, y: Piece) {
    x.st.series < y.st.series || (x.st.series == y.st.series && FirstBucket(x) <= FirstBucket(y))
  }

  function PlacePiece(s: seq<Piece>, x: Piece): seq<Piece> {
    if s == [] || Le(s[|s| - 1], x) then s + [x] else PlacePiece(s[..|s| - 1], x) + [s[|s| - 1]]
  }

  /** The stable sort of `partial_docs`. */
  function SortPieces(xs: seq<Piece>): seq<Piece> {
    if xs == [] then [] else PlacePiece(SortPieces(xs[..|xs| - 1]), xs[|xs| - 1])
  }

  ghost predicate InKeyOrder(s: seq<Piece>) { forall i, j :: 0 <= i < j < |s| ==> Le(s[i], s[j]) }

  lemma {:induction false} PlaceMembers(s: seq<Piece>, x: Piece, e: Piece)
    ensures e in PlacePiece(s, x) <==> e in s || e == x
  {
    if s != [] {
      PlaceMembers(s[..|s| - 1], x, e);
      assert s == s[..|s| - 1] + [s[|s| - 1]];
    }
  }

  lemma {:induction false} PlaceKeyOrder(s: seq<Piece>, x: Piece)
    requires InKeyOrder(s)
    ensures InKeyOrder(PlacePiece(s, x))
  {
    if s != [] {
      var front, last := s[..|s| - 1], s[|s| - 1];
      if Le(last, x) {
        forall i | 0 <= i < |s| ensures Le(s[i], x) { assert i < |s| - 1 ==> Le(s[i], s[|s| - 1]); }
      } else {
        PlaceKeyOrder(front, x);
        var out := PlacePiece(front, x);
        forall i | 0 <= i < |out| ensures Le(out[i], last) {
          assert out[i] in out;
          PlaceMembers(front, x, out[i]);
          if out[i] in front {
            var n :| 0 <= n < |front| && front[n] == out[i];
            assert s[n] == out[i];
          }
        }
      }
    }
  }

  /** Sorted pieces go by series, and within one by their first bucket. */
  lemma PiecesByKey(xs: seq<Piece>, i: nat, j: nat)
    requires i < j < |SortPieces(xs)|
    ensures var x, y := SortPieces(xs)[i], SortPieces(xs)[j];
            x.st.series < y.st.series || (x.st.series == y.st.series && FirstBucket(x) <= FirstBucket(y))
  {
    SortKeyOrder(xs);
    assert Le(SortPieces(xs)[i], SortPieces(xs)[j]);
  }

  lemma {:induction false} SortKeyOrder(xs: seq<Piece>)
    ensures InKeyOrder(SortPieces(xs))
  {
    if xs != [] {
      SortKeyOrder(xs[..|xs| - 1]);
      PlaceKeyOrder(SortPieces(xs[..|xs| - 1]), xs[|xs| - 1]);
    }
  }

  // Sorting and picking out a field commute.

  lemma FieldSnoc(f: string, s: seq<Piece>, x: Piece)
    ensures FieldPieces(f, s + [x]) == FieldPieces(f, s) + if x.st.field == f then [x] else []
  {
    assert (s + [x])[..|s|] == s;
  }

  lemma PlacedLast(s: seq<Piece>, x: Piece)
    requires s == [] || Le(s[|s| - 1], x)
    ensures PlacePiece(s, x) == s + [x]
  {
  }

  lemma PlacedBefore(front: seq<Piece>, last: Piece, x: Piece)
    requires !Le(last, x)
    ensures PlacePiece(front + [last], x) == PlacePiece(front, x) + [last]
  {
    assert (front + [last])[..|front|] == front;
  }

  lemma {:induction false} FieldPlace(f: string, s: seq<Piece>, x: Piece)
    requires InKeyOrder(s)
    ensures FieldPieces(f, PlacePiece(s, x)) ==
            if x.st.field == f then PlacePiece(FieldPieces(f, s), x) else FieldPieces(f, s)
  {
    if s == [] || Le(s[|s| - 1], x) {
      FieldSnoc(f, s, x);
      LastOfField(f, s, x);
      PlacedLast(FieldPieces(f, s), x);
    } else {
      var front, last := s[..|s| - 1], s[|s| - 1];
      assert s == front + [last];
      FieldPlace(f, front, x);
      FieldSnoc(f, PlacePiece(front, x), last);
      FieldSnoc(f, front, last);
      if last.st.field == f { PlacedBefore(FieldPieces(f, front), last, x); }
    }
  }

  /** What comes before the last comes before what the last comes before. */
  lemma LastOfField(f: string, s: seq<Piece>, x: Piece)
    requires InKeyOrder(s) && (s == [] || Le(s[|s| - 1], x))
    ensures var mine := FieldPieces(f, s); mine == [] || Le(mine[|mine| - 1], x)
  {
    var mine := FieldPieces(f, s);
    if mine != [] {
      var e := mine[|mine| - 1];
      assert e in mine;
      FieldMembers(f, s, e);
      var i :| 0 <= i < |s| && s[i] == e;
      assert i < |s| - 1 ==> Le(s[i], s[|s| - 1]);
    }
  }

  lemma {:induction false} FieldSort(f: string, xs: seq<Piece>)
    ensures FieldPieces(f, SortPieces(xs)) == SortPieces(FieldPieces(f, xs))
  {
    if xs != [] {
      var front, x := xs[..|xs| - 1], xs[|xs| - 1];
      FieldSort(f, front);
      SortKeyOrder(front);
      FieldPlace(f, SortPieces(front), x);
      var mine := FieldPieces(f, front);
      if x.st.field == f { assert (mine + [x])[..|mine|] == mine; }
    }
  }

  // One field: series by series, the rollup half first.

  /** A source half starts at the split or later. */
  predicate Late(r: Tiering, x: Piece) { x.partials != [] && x.partials[0].firstTs >= r.split }

  predicate Sooner(r: Tiering, x: Piece, y: Piece) {
    x.st.series < y.st.series || (x.st.series == y.st.series && !Late(r, x) && Late(r, y))
  }

  ghost predicate Strict(r: Tiering, s: seq<Piece>) { forall i, j :: 0 <= i < j < |s| ==> Sooner(r, s[i], s[j]) }

  ghost predicate SameMembers(a: seq<Piece>, b: seq<Piece>) { forall x :: x in a <==> x in b }

  lemma UpToLast(r: Tiering, s: seq<Piece>, x: Piece)
    requires Strict(r, s) && x in s
    ensures x == s[|s| - 1] || Sooner(r, x, s[|s| - 1])
  {
    var i :| 0 <= i < |s| && s[i] == x;
    if i < |s| - 1 { assert Sooner(r, s[i], s[|s| - 1]); }
  }

  lemma SameLast(r: Tiering, a: seq<Piece>, b: seq<Piece>)
    requires Strict(r, a) && Strict(r, b) && SameMembers(a, b) && a != [] && b != []
    ensures a[|a| - 1] == b[|b| - 1]
  {
    assert a[|a| - 1] in a && b[|b| - 1] in b;
    UpToLast(r, b, a[|a| - 1]);
    UpToLast(r, a, b[|b| - 1]);
  }

  lemma ButLast(r: Tiering, front: seq<Piece>, last: Piece, x: Piece)
    requires Strict(r, front + [last])
    ensures x in front <==> x in front + [last] && x != last
  {
    if x in front {
      var i :| 0 <= i < |front| && front[i] == x;
      assert Sooner(r, (front + [last])[i], (front + [last])[|front|]);
    }
  }

  lemma SameFront(r: Tiering, left: seq<Piece>, right: seq<Piece>, last: Piece)
    requires Strict(r, left + [last]) && Strict(r, right + [last]) && SameMembers(left + [last], right + [last])
    ensures Strict(r, left) && Strict(r, right) && SameMembers(left, right)
  {
    forall x ensures x in left <==> x in right {
      ButLast(r, left, last, x);
      ButLast(r, right, last, x);
    }
    StrictFront(r, left, last);
    StrictFront(r, right, last);
  }

  lemma StrictFront(r: Tiering, front: seq<Piece>, last: Piece)
    requires Strict(r, front + [last])
    ensures Strict(r, front)
  {
    var s := front + [last];
    forall i, j | 0 <= i < j < |front| ensures Sooner(r, front[i], front[j]) { assert Sooner(r, s[i], s[j]); }
  }

  lemma BothEmpty(a: seq<Piece>, b: seq<Piece>)
    requires SameMembers(a, b)
    ensures a == [] <==> b == []
  {
    assert a != [] ==> a[0] in a;
    assert b != [] ==> b[0] in b;
  }

  lemma {:induction false} StrictUnique(r: Tiering, a: seq<Piece>, b: seq<Piece>)
    requires Strict(r, a) && Strict(r, b) && SameMembers(a, b)
    ensures a == b
  {
    BothEmpty(a, b);
    if a != [] {
      SameLast(r, a, b);
      var left, right, last := a[..|a| - 1], b[..|b| - 1], a[|a| - 1];
      assert a == left + [last] && b == right + [last];
      SameFront(r, left, right, last);
      StrictUnique(r, left, right);
    }
  }

  /** The key agrees with the order wanted. */
  predicate Agrees(r: Tiering, x: Piece, y: Piece) {
    (Sooner(r, x, y) && Le(x, y)) || (Sooner(r, y, x) && !Le(x, y))
  }

  lemma StrictSnoc(r: Tiering, s: seq<Piece>, x: Piece)
    requires Strict(r, s) && forall e :: e in s ==> Sooner(r, e, x)
    ensures Strict(r, s + [x])
  {
    forall i, j | 0 <= i < j < |s + [x]| ensures Sooner(r, (s + [x])[i], (s + [x])[j]) {
      if j == |s| { assert s[i] in s; }
    }
  }

  lemma SoonerThanLast(r: Tiering, front: seq<Piece>, last: Piece, x: Piece)
    requires Strict(r, front + [last]) && Sooner(r, last, x)
    ensures forall e :: e in front + [last] ==> Sooner(r, e, x)
  {
    forall e | e in front + [last] ensures Sooner(r, e, x) { UpToLast(r, front + [last], e); }
  }

  lemma AllSooner(r: Tiering, front: seq<Piece>, last: Piece, x: Piece)
    requires Strict(r, front + [last]) && Sooner(r, x, last)
    ensures forall e :: e in PlacePiece(front, x) ==> Sooner(r, e, last)
  {
    forall e | e in PlacePiece(front, x) ensures Sooner(r, e, last) {
      PlaceMembers(front, x, e);
      if e in front {
        UpToLast(r, front + [last], e);
        ButLast(r, front, last, e);
      }
    }
  }

  /** Where the key agrees with the order, insertion keeps it. */
  lemma {:induction false} PlaceStrict(r: Tiering, s: seq<Piece>, x: Piece)
    requires Strict(r, s) && forall e :: e in s ==> Agrees(r, e, x)
    ensures Strict(r, PlacePiece(s, x))
  {
    if s == [] {
      assert Strict(r, [x]);
    } else {
      var front, last := s[..|s| - 1], s[|s| - 1];
      assert s == front + [last] && last in s;
      StrictFront(r, front, last);
      if Le(last, x) {
        SoonerThanLast(r, front, last, x);
        StrictSnoc(r, s, x);
      } else {
        PlaceStrict(r, front, x);
        AllSooner(r, front, last, x);
        StrictSnoc(r, PlacePiece(front, x), last);
      }
    }
  }

  /** A half of a selected stream of the field. */
  ghost predicate HalfOfField(p: P.Range, r: Tiering, f: string, streams: seq<Stream>, x: Piece)
    requires r.bucket > 0
  {
    exists j :: 0 <= j < |streams| && Chosen(p, streams[j].labels) && streams[j].field == f && HalfOf(r, streams[j], x)
  }

  lemma FirstSample(b: Bucketing, s: seq<Sample>)
    requires Runs(b, s) != []
    ensures Runs(b, s)[0][0] in s
  {
    Members(b, s);
    assert Runs(b, s)[0][0] in Runs(b, s)[0];
  }

  /** The first partial stands for samples from `ts` on, in its bucket, and starts no later. */
  ghost predicate StartsAt(b: Bucketing, ps: seq<TsPartial>, ts: int) {
    ps != [] && ps[0].firstTs <= ts && ps[0].bucketTs == b(ts)
  }

  lemma CoarseStart(bucket: int, b: Bucketing, s: seq<Sample>, split: int) returns (ts: I64)
    requires bucket > 0 && Coarses(bucket, b, Runs(b, s)) != [] && forall x :: x in s ==> x.ts < split
    ensures StartsAt(b, Coarses(bucket, b, Runs(b, s)), ts) && ts < split
  {
    FirstSample(b, s);
    ts := Runs(b, s)[0][0].ts;
  }

  lemma LowIs(r: Tiering, s: seq<Sample>) returns (low: seq<Sample>)
    requires Tierable(r) && Ordered(s)
    ensures LowHalf(r, s) == Coarses(r.bucket, By(r.step), Runs(By(r.step), low))
    ensures forall x :: x in low ==> x.ts < r.split
  {
    low := Clip(s, r.t0, Smaller(r.t1, r.split - 1));
    RollupHalfExact(s, r.step, r.t0, r.t1, r.bucket, r.split);
    ClipMembers(s, r.t0, Smaller(r.t1, r.split - 1));
  }

  lemma LowStart(r: Tiering, s: seq<Sample>) returns (ts: I64)
    requires Tierable(r) && Ordered(s) && LowHalf(r, s) != []
    ensures StartsAt(By(r.step), LowHalf(r, s), ts) && ts < r.split
  {
    var low := LowIs(r, s);
    ts := CoarseStart(r.bucket, By(r.step), low, r.split);
  }

  lemma HighStart(r: Tiering, s: seq<Sample>)
    requires Ordered(s) && HighHalf(r, s) != []
    ensures HighHalf(r, s)[0].firstTs >= r.split
    ensures HighHalf(r, s)[0].bucketTs == By(r.step)(HighHalf(r, s)[0].firstTs)
  {
    ClipMembers(s, r.split, r.t1);
    FirstSample(By(r.step), Clip(s, r.split, r.t1));
  }

  /** The rollup half is not late, the source half is, and the key does not put the source half first. */
  lemma HalfOrder(r: Tiering, st: Stream, x: Piece, y: Piece)
    requires Tierable(r) && ValidStream(st) && HalfOf(r, st, x) && HalfOf(r, st, y) && x != y
    ensures x.st == st && y.st == st && Late(r, x) != Late(r, y)
    ensures Late(r, y) ==> Le(x, y)
  {
    if LowHalf(r, st.samples) != [] { var ts := LowStart(r, st.samples); }
    if HighHalf(r, st.samples) != [] { HighStart(r, st.samples); }
    BucketMonotone(r.step);
  }

  lemma HalfStream(r: Tiering, st: Stream, x: Piece)
    requires r.bucket > 0 && HalfOf(r, st, x)
    ensures x.st == st
  {
  }

  lemma TwoHalves(r: Tiering, a: Stream, b: Stream, x: Piece, y: Piece)
    requires Tierable(r) && ValidStream(a) && HalfOf(r, a, x) && HalfOf(r, b, y) && x != y
    requires a == b || a.series != b.series
    requires Late(r, x) ==> Late(r, y)
    ensures Agrees(r, x, y)
  {
    HalfStream(r, a, x);
    HalfStream(r, b, y);
    if a == b { HalfOrder(r, a, x, y); }
  }

  lemma FieldHalfOrder(p: P.Range, r: Tiering, f: string, streams: seq<Stream>, x: Piece, y: Piece)
    requires Tierable(r) && ValidStreams(streams) && InSeriesOrder(streams) && x != y
    requires HalfOfField(p, r, f, streams, x) && HalfOfField(p, r, f, streams, y)
    requires Late(r, x) ==> Late(r, y)
    ensures Agrees(r, x, y)
  {
    var i :| 0 <= i < |streams| && Chosen(p, streams[i].labels) && streams[i].field == f && HalfOf(r, streams[i], x);
    var j :| 0 <= j < |streams| && Chosen(p, streams[j].labels) && streams[j].field == f && HalfOf(r, streams[j], y);
    SameOrOther(streams, i, j);
    TwoHalves(r, streams[i], streams[j], x, y);
  }

  lemma SameOrOther(streams: seq<Stream>, i: nat, j: nat)
    requires InSeriesOrder(streams) && ValidStreams(streams) && i < |streams| && j < |streams|
    requires streams[i].field == streams[j].field
    ensures (streams[i] == streams[j] || streams[i].series != streams[j].series) && ValidStream(streams[i])
  {
  }

  /** Each half of a selected stream once, the rollup's before the source's. */
  ghost predicate CameIn(p: P.Range, r: Tiering, streams: seq<Stream>, gathered: seq<Piece>)
    requires r.bucket > 0
  {
    && (forall x :: x in gathered <==> x in Halves(p, r, streams))
    && OnceEach(gathered) && RollupFirst(r, gathered)
  }

  ghost predicate OnceEach(s: seq<Piece>) { forall i, j :: 0 <= i < j < |s| ==> s[i] != s[j] }

  ghost predicate RollupFirst(r: Tiering, s: seq<Piece>) {
    forall i, j :: 0 <= i < j < |s| && Late(r, s[i]) ==> Late(r, s[j])
  }

  lemma {:induction false} FieldKeeps(f: string, r: Tiering, s: seq<Piece>)
    requires OnceEach(s) && RollupFirst(r, s)
    ensures OnceEach(FieldPieces(f, s)) && RollupFirst(r, FieldPieces(f, s))
  {
    if s != [] {
      var front, x := s[..|s| - 1], s[|s| - 1];
      FieldKeeps(f, r, front);
      var mine := FieldPieces(f, front);
      forall i | 0 <= i < |mine| ensures mine[i] != x && (Late(r, mine[i]) ==> Late(r, x)) {
        assert mine[i] in mine;
        FieldMembers(f, front, mine[i]);
        var n :| 0 <= n < |front| && front[n] == mine[i];
        assert s[n] == mine[i] && s[|s| - 1] == x;
      }
    }
  }

  lemma {:induction false} SortStrict(r: Tiering, xs: seq<Piece>)
    requires forall i, j :: 0 <= i < j < |xs| ==> Agrees(r, xs[i], xs[j])
    ensures Strict(r, SortPieces(xs)) && forall x :: x in SortPieces(xs) <==> x in xs
  {
    if xs != [] {
      var front, last := xs[..|xs| - 1], xs[|xs| - 1];
      SortStrict(r, front);
      var sorted := SortPieces(front);
      forall e | e in sorted ensures Agrees(r, e, last) {
        var n :| 0 <= n < |front| && front[n] == e;
        assert xs[n] == e && xs[|xs| - 1] == last;
      }
      PlaceStrict(r, sorted, last);
      forall x ensures x in SortPieces(xs) <==> x in xs {
        PlaceMembers(sorted, last, x);
        assert xs == front + [last];
      }
    }
  }

  lemma {:induction false} FieldConcat(f: string, a: seq<Piece>, b: seq<Piece>)
    ensures FieldPieces(f, a + b) == FieldPieces(f, a) + FieldPieces(f, b)
  {
    if b == [] {
      assert a + b == a;
    } else {
      FieldConcat(f, a, b[..|b| - 1]);
      assert (a + b)[..|a + b| - 1] == a + b[..|b| - 1];
    }
  }

  lemma FieldOne(f: string, st: Stream, ps: seq<TsPartial>)
    ensures FieldPieces(f, PieceOf(st, ps)) == if st.field == f then PieceOf(st, ps) else []
  {
    if ps != [] { FieldSnoc(f, [], Piece(st, ps)); }
  }

  lemma StrictConcat(r: Tiering, a: seq<Piece>, b: seq<Piece>)
    requires Strict(r, a) && Strict(r, b)
    requires forall i, j :: 0 <= i < |a| && 0 <= j < |b| ==> Sooner(r, a[i], b[j])
    ensures Strict(r, a + b)
  {
    forall i, j | 0 <= i < j < |a + b| ensures Sooner(r, (a + b)[i], (a + b)[j]) {
      if i < |a| <= j { assert Sooner(r, a[i], b[j - |a|]); }
    }
  }

  function BothPieces(st: Stream, low: seq<TsPartial>, high: seq<TsPartial>): seq<Piece> {
    PieceOf(st, low) + PieceOf(st, high)
  }

  lemma PairStrict(r: Tiering, st: Stream, low: seq<TsPartial>, high: seq<TsPartial>)
    requires (low != [] ==> low[0].firstTs < r.split) && (high != [] ==> high[0].firstTs >= r.split)
    ensures Strict(r, BothPieces(st, low, high))
    ensures forall i :: 0 <= i < |BothPieces(st, low, high)| ==> BothPieces(st, low, high)[i].st == st
  {
  }

  lemma BothStrict(r: Tiering, st: Stream)
    requires Tierable(r) && ValidStream(st)
    ensures var both := BothPieces(st, LowHalf(r, st.samples), HighHalf(r, st.samples));
            Strict(r, both) && forall i :: 0 <= i < |both| ==> both[i].st == st
  {
    if LowHalf(r, st.samples) != [] { var ts := LowStart(r, st.samples); }
    if HighHalf(r, st.samples) != [] { HighStart(r, st.samples); }
    PairStrict(r, st, LowHalf(r, st.samples), HighHalf(r, st.samples));
  }

  lemma FieldBoth(f: string, st: Stream, low: seq<TsPartial>, high: seq<TsPartial>)
    ensures FieldPieces(f, BothPieces(st, low, high)) == if st.field == f then BothPieces(st, low, high) else []
  {
    FieldConcat(f, PieceOf(st, low), PieceOf(st, high));
    FieldOne(f, st, low);
    FieldOne(f, st, high);
  }

  /** Pieces of the field before the last stream are of earlier series. */
  lemma EarlierSeries(p: P.Range, r: Tiering, f: string, streams: seq<Stream>, x: Piece)
    requires r.bucket > 0 && InSeriesOrder(streams) && streams != [] && streams[|streams| - 1].field == f
    requires x in FieldPieces(f, Halves(p, r, streams[..|streams| - 1]))
    ensures x.st.series < streams[|streams| - 1].series
  {
    var front := streams[..|streams| - 1];
    FieldMembers(f, Halves(p, r, front), x);
    var j := HalvesFrom(p, r, front, x);
    HalfStream(r, front[j], x);
    assert front[j] == streams[j];
  }

  lemma {:induction false} HalvesStrict(p: P.Range, r: Tiering, f: string, streams: seq<Stream>)
    requires Tierable(r) && ValidStreams(streams) && InSeriesOrder(streams)
    ensures Strict(r, FieldPieces(f, Halves(p, r, streams)))
  {
    if streams != [] {
      var front, st := streams[..|streams| - 1], streams[|streams| - 1];
      HalvesStrict(p, r, f, front);
      if Chosen(p, st.labels) {
        var mine, both := FieldPieces(f, Halves(p, r, front)),
                          BothPieces(st, LowHalf(r, st.samples), HighHalf(r, st.samples));
        FieldConcat(f, Halves(p, r, front), both);
        FieldBoth(f, st, LowHalf(r, st.samples), HighHalf(r, st.samples));
        assert ValidStream(st);
        BothStrict(r, st);
        if st.field == f {
          forall i, j | 0 <= i < |mine| && 0 <= j < |both| ensures Sooner(r, mine[i], both[j]) {
            assert mine[i] in mine;
            EarlierSeries(p, r, f, streams, mine[i]);
          }
          StrictConcat(r, mine, both);
        } else {
          assert mine + [] == mine;
        }
      }
    }
  }

  lemma FieldGathered(p: P.Range, r: Tiering, f: string, streams: seq<Stream>, gathered: seq<Piece>, i: nat)
    requires r.bucket > 0 && CameIn(p, r, streams, gathered) && i < |FieldPieces(f, gathered)|
    ensures HalfOfField(p, r, f, streams, FieldPieces(f, gathered)[i])
  {
    var x := FieldPieces(f, gathered)[i];
    assert x in FieldPieces(f, gathered);
    FieldMembers(f, gathered, x);
    var j := HalvesFrom(p, r, streams, x);
    HalfStream(r, streams[j], x);
  }

  lemma FieldArranged(p: P.Range, r: Tiering, f: string, streams: seq<Stream>, gathered: seq<Piece>)
    requires Tierable(r) && ValidStreams(streams) && InSeriesOrder(streams) && CameIn(p, r, streams, gathered)
    ensures FieldPieces(f, SortPieces(gathered)) == FieldPieces(f, Halves(p, r, streams))
  {
    var mine, listed := FieldPieces(f, gathered), FieldPieces(f, Halves(p, r, streams));
    FieldSort(f, gathered);
    FieldKeeps(f, r, gathered);
    forall i, j | 0 <= i < j < |mine| ensures Agrees(r, mine[i], mine[j]) {
      FieldGathered(p, r, f, streams, gathered, i);
      FieldGathered(p, r, f, streams, gathered, j);
      FieldHalfOrder(p, r, f, streams, mine[i], mine[j]);
    }
    SortStrict(r, mine);
    HalvesStrict(p, r, f, streams);
    forall x ensures x in SortPieces(mine) <==> x in listed {
      FieldMembers(f, gathered, x);
      FieldMembers(f, Halves(p, r, streams), x);
    }
    StrictUnique(r, SortPieces(mine), listed);
  }

  /** Sorted by series and first bucket, the gathered pieces come field by field in series order, each rollup half
      before its source half. */
  lemma SortArranges(p: P.Range, r: Tiering, streams: seq<Stream>, gathered: seq<Piece>)
    requires Tierable(r) && ValidStreams(streams) && InSeriesOrder(streams) && CameIn(p, r, streams, gathered)
    ensures Arranged(SortPieces(gathered), Halves(p, r, streams))
  {
    forall f ensures FieldPieces(f, SortPieces(gathered)) == FieldPieces(f, Halves(p, r, streams)) {
      FieldArranged(p, r, f, streams, gathered);
    }
  }

  /** The whole read: what the rollup and the source return in any order of series, the rollup's first, is sorted into
      documents, and the rewritten query over them answers as over the raw rows the WHERE keeps. */
  lemma GatheredQueryAnswers(env: Env, grp: Grouping, plan: Plan, g: Group, q: Read, gathered: seq<Piece>, alone: bool,
                             e: SqlExpr)
    requires Askable(env, grp, plan, g, q) && CameIn(Pushed(env, q), q.r, q.streams, gathered)
    requires q.pieces == SortPieces(gathered) && Eligible(grp, plan, e) && UsesOnly(Ends(alone), e)
    requires alone ==> forall f :: f in plan.aggFields ==> Alone(Pushed(env, q), g, f, q.streams)
    ensures var s := ReadSides(env, plan, g, q);
            (s.raw == [] <==> s.part == []) && (s.raw != [] || grp == Grouping([], None) ==> AnswersAlike(env, e, s))
  {
    SortArranges(Pushed(env, q), q.r, q.streams, gathered);
    TieredQueryAnswers(env, grp, plan, g, q, alone, e);
  }
}
