/** Tiered reads: group buckets below a split come from rollup rows, the rest from the source. */
module Rollup {
  import opened Aggregates
  import opened Ast
  import opened Buckets
  import opened Evaluator
  import opened Int64
  import opened Partials
  import opened Prelude
  import opened RawGroups
  import opened Rewrite
  import opened Samples

  function RoundDown(v: int, step: int): int
    requires step > 0
  {
    FloorTo(v, step)
  }

  function RoundUp(v: int, step: int): int
    requires step > 0
  {
    if FloorTo(v, step) == v then v else FloorTo(v, step) + step
  }

  predicate Aligned(v: int, step: int)
    requires step > 0
  {
    FloorTo(v, step) == v
  }

  lemma MultipleFloors(q: int, step: int)
    requires step > 0
    ensures Aligned(q * step, step)
  {
    var v := q * step;
    var d := v / step;
    assert v == d * step + v % step;
    assert (q - d) * step == v % step;
    assert q - d >= 1 ==> (q - d) * step >= step;
    assert q - d <= -1 ==> (q - d) * step <= -step;
  }

  /** The floor is the largest multiple at or below. */
  lemma FloorBounds(v: int, step: int)
    requires step > 0
    ensures FloorTo(v, step) <= v < FloorTo(v, step) + step && Aligned(FloorTo(v, step), step)
  {
    assert v == v / step * step + v % step;
    MultipleFloors(v / step, step);
  }

  lemma FloorUnique(v: int, step: int, edge: int)
    requires step > 0 && Aligned(edge, step) && edge <= v < edge + step
    ensures FloorTo(v, step) == edge
  {
    FloorBounds(v, step);
    FloorGap(edge, FloorTo(v, step), step);
    FloorGap(FloorTo(v, step), edge, step);
  }

  /** Distinct multiples are a step apart. */
  lemma FloorGap(a: int, b: int, step: int)
    requires step > 0 && Aligned(a, step) && Aligned(b, step)
    ensures a < b ==> a + step <= b
  {
    var p, q := a / step, b / step;
    assert p * step == a && q * step == b;
    assert q >= p + 1 ==> q * step >= (p + 1) * step;
    assert q <= p ==> q * step <= p * step;
  }

  /** Below, at and above an aligned boundary. */
  lemma FloorSide(v: int, step: int, edge: int)
    requires step > 0 && Aligned(edge, step)
    ensures FloorTo(v, step) >= edge <==> v >= edge
  {
    FloorBounds(v, step);
    if v >= edge { FloorMonotone(step, edge, v); }
  }

  /** A multiple of `fine * n` is a multiple of `fine`. */
  lemma AlignedNested(v: int, fine: int, n: int)
    requires fine > 0 && n > 0 && fine * n > 0 && Aligned(v, fine * n)
    ensures Aligned(v, fine)
  {
    var q := v / (fine * n);
    assert v == q * (fine * n) == (q * n) * fine;
    MultipleFloors(q * n, fine);
  }

  /** Flooring to a multiple of the fine step sees only the fine bucket. */
  lemma FloorNested(v: int, fine: int, n: int)
    requires fine > 0 && n > 0 && fine * n > 0
    ensures FloorTo(FloorTo(v, fine), fine * n) == FloorTo(v, fine * n)
  {
    FloorBounds(v, fine * n);
    FloorBounds(v, fine);
    var edge := FloorTo(v, fine * n);
    AlignedNested(edge, fine, n);
    FloorSide(v, fine, edge);
    FloorUnique(FloorTo(v, fine), fine * n, edge);
  }

  // Rollup rows and their folding into group-step partials.

  /** The start of a rollup bucket; the bucket that holds the smallest time starts there. */
  function Start(bucket: int, ts: I64): (start: I64)
    requires bucket > 0
    ensures start <= ts
  {
    FloorBounds(ts, bucket);
    if FloorTo(ts, bucket) < MIN then MIN else FloorTo(ts, bucket)
  }

  /** Rollup bucket starts as a bucketing. */
  function Starts(bucket: int): Bucketing
    requires bucket > 0
  {
    ts => if InI64(ts) then Start(bucket, ts) else FloorTo(ts, bucket)
  }

  /** One rollup row of one series; a row without its count stream has count 0. */
  datatype RollRow = RollRow(start: I64, count: nat, sum: real, min: real, max: real, first: real, last: real)

  function Open(bucketTs: int, row: RollRow): TsPartial {
    TsPartial(bucketTs, row.count, row.sum, row.min, row.max, row.start, row.first, row.start, row.last, 0.0)
  }

  /** Rows come in time order: the first stays put, the last advances. */
  function Grow(p: TsPartial, row: RollRow): TsPartial {
    p.(count := p.count + row.count, sum := p.sum + row.sum,
       min := if row.min < p.min then row.min else p.min,
       max := if row.max > p.max then row.max else p.max,
       lastTs := row.start, lastVal := row.last)
  }

  function FoldRow(b: Bucketing, ps: seq<TsPartial>, row: RollRow): seq<TsPartial> {
    if row.count < 1 then ps
    else if ps != [] && ps[|ps| - 1].bucketTs == b(row.start) then ps[|ps| - 1 := Grow(ps[|ps| - 1], row)]
    else ps + [Open(b(row.start), row)]
  }

  function FoldRows(b: Bucketing, rows: seq<RollRow>): seq<TsPartial> {
    if rows == [] then [] else FoldRow(b, FoldRows(b, rows[..|rows| - 1]), rows[|rows| - 1])
  }

  lemma FoldSnoc(b: Bucketing, rows: seq<RollRow>, row: RollRow)
    ensures FoldRows(b, rows + [row]) == FoldRow(b, FoldRows(b, rows), row)
  {
    assert (rows + [row])[..|rows|] == rows;
  }

  /** A row without samples changes nothing, wherever it stands. */
  lemma {:induction false} EmptyRowIgnored(b: Bucketing, before: seq<RollRow>, row: RollRow, after: seq<RollRow>)
    requires row.count == 0
    ensures FoldRows(b, before + [row] + after) == FoldRows(b, before + after)
  {
    if after == [] {
      assert before + [row] + after == before + [row] && before + after == before;
      FoldSnoc(b, before, row);
    } else {
      var front, last := after[..|after| - 1], after[|after| - 1];
      EmptyRowIgnored(b, before, row, front);
      assert after == front + [last];
      assert before + [row] + after == before + [row] + front + [last];
      assert before + after == before + front + [last];
      FoldSnoc(b, before + [row] + front, last);
      FoldSnoc(b, before + front, last);
    }
  }

  /** The inner loop of `rollup_partials`: one series' rows into group-step partials. */
  method RollupSeries(rows: seq<RollRow>, s: int) returns (partials: seq<TsPartial>)
    ensures partials == FoldRows(By(s), rows)
  {
    partials := [];
    var i := 0;
    while i < |rows|
      invariant 0 <= i <= |rows| && partials == FoldRows(By(s), rows[..i])
    {
      var row, n := rows[i], |partials|;
      assert rows[..i + 1][..i] == rows[..i];
      if row.count >= 1 {
        var bucketTs := if s > 0 then FloorTo(row.start, s) else 0;
        if n > 0 && partials[n - 1].bucketTs == bucketTs {
          partials := partials[n - 1 := Grow(partials[n - 1], row)];
        } else {
          partials := partials + [Open(bucketTs, row)];
        }
      }
      i := i + 1;
    }
    assert rows[..i] == rows;
  }

  /** The row a complete rollup stores for one of its buckets. */
  function ExactRow(bucket: int, r: Run): RollRow
    requires bucket > 0
  {
    RollRow(Start(bucket, r[0].ts), |r|, Total(r), Best(Lowest, r).value, Best(Highest, r).value,
            r[0].value, LastOf(r).value)
  }

  function ExactRows(bucket: int, runs: seq<Run>): seq<RollRow>
    requires bucket > 0
  {
    seq(|runs|, i requires 0 <= i < |runs| => ExactRow(bucket, runs[i]))
  }

  /** A group partial built from whole rollup buckets: only its end times are rounded down. */
  function Coarse(bucket: int, b: Bucketing, r: Run): TsPartial
    requires bucket > 0
  {
    Summary(b, r).(firstTs := Start(bucket, r[0].ts), lastTs := Start(bucket, LastOf(r).ts), increase := 0.0)
  }

  function Coarses(bucket: int, b: Bucketing, runs: seq<Run>): (ps: seq<TsPartial>)
    requires bucket > 0
  {
    seq(|runs|, i requires 0 <= i < |runs| => Coarse(bucket, b, runs[i]))
  }

  /** Samples of one bucket extend the open run together, or open one together. */
  function AddRun(b: Bucketing, runs: seq<Run>, r: Run): seq<Run> {
    if Continues(b, runs, r[0]) then
      var last: Run := runs[|runs| - 1] + r;
      runs[|runs| - 1 := last]
    else runs + [r]
  }

  lemma {:induction false} RunsExtend(b: Bucketing, x: seq<Sample>, r: Run)
    requires OneBucket(b, r)
    ensures Runs(b, x + r) == AddRun(b, Runs(b, x), r)
  {
    assert Front(x + r) == x + Front(r) && LastOf(x + r) == LastOf(r);
    if |r| == 1 {
      assert Front(x + r) == x && r == [r[0]];
    } else {
      RunsExtend(b, x, Front(r));
      assert Front(r) + [LastOf(r)] == r;
      var runs := Runs(b, x);
      if Continues(b, runs, r[0]) {
        assert runs[|runs| - 1] + Front(r) + [LastOf(r)] == runs[|runs| - 1] + r;
      }
    }
  }

  /** Every time shares its group bucket with the start of its rollup bucket. */
  ghost predicate Refines(bucket: int, b: Bucketing)
    requires bucket > 0
  {
    forall ts: I64 :: b(Start(bucket, ts)) == b(ts)
  }

  /** A bucket that divides the group step refines it; whole-range groups take any bucket. */
  lemma DividesRefines(bucket: int, s: int)
    requires bucket > 0 && s >= 0 && (s == 0 || s % bucket == 0)
    ensures Refines(bucket, By(s))
  {
    if s > 0 {
      var n := s / bucket;
      assert s == bucket * n;
      forall ts: I64 ensures By(s)(Start(bucket, ts)) == By(s)(ts) {
        FloorNested(ts, bucket, n);
        if FloorTo(ts, bucket) < MIN {
          FloorBounds(ts, bucket);
          FloorUnique(MIN, bucket, FloorTo(ts, bucket));
          FloorNested(MIN, bucket, n);
        }
      }
    }
  }

  lemma GrowsTo(bucket: int, b: Bucketing, last: Run, r: Run)
    requires bucket > 0 && OneBucket(Starts(bucket), r)
    ensures Coarse(bucket, b, last + r) == Grow(Coarse(bucket, b, last), ExactRow(bucket, r))
  {
    TotalConcat(last, r);
    BestConcat(Lowest, last, r);
    BestConcat(Highest, last, r);
    assert Starts(bucket)(r[|r| - 1].ts) == Starts(bucket)(r[0].ts);
    PairBest(Lowest, Best(Lowest, last), Best(Lowest, r));
    PairBest(Highest, Best(Highest, last), Best(Highest, r));
  }

  lemma PairBest(pick: Pick, x: Sample, y: Sample)
    ensures Best(pick, [x, y]) == if pick.Replaces(y, x) then y else x
  {
    assert Front([x, y]) == [x];
  }

  /** Folding exact rollup rows gives the coarse summaries of the raw samples. */
  lemma {:induction false} Coarsens(bucket: int, b: Bucketing, runs: seq<Run>)
    requires bucket > 0 && Refines(bucket, b)
    requires forall i :: 0 <= i < |runs| ==> OneBucket(Starts(bucket), runs[i])
    ensures FoldRows(b, ExactRows(bucket, runs)) == Coarses(bucket, b, Runs(b, Flatten(runs)))
  {
    if runs != [] {
      var front, r := runs[..|runs| - 1], runs[|runs| - 1];
      Coarsens(bucket, b, front);
      assert ExactRows(bucket, runs)[..|runs| - 1] == ExactRows(bucket, front);
      OneGroup(bucket, b, r);
      RunsExtend(b, Flatten(front), r);
      CoarsensStep(bucket, b, Runs(b, Flatten(front)), r);
    }
  }

  lemma OneGroup(bucket: int, b: Bucketing, r: Run)
    requires bucket > 0 && Refines(bucket, b) && OneBucket(Starts(bucket), r)
    ensures OneBucket(b, r)
  {
    forall i | 0 <= i < |r| ensures b(r[i].ts) == b(r[0].ts) {
      assert Starts(bucket)(r[i].ts) == Starts(bucket)(r[0].ts);
      assert b(Start(bucket, r[i].ts)) == b(r[i].ts);
      assert b(Start(bucket, r[0].ts)) == b(r[0].ts);
    }
  }

  lemma CoarsensStep(bucket: int, b: Bucketing, runs: seq<Run>, r: Run)
    requires bucket > 0 && Refines(bucket, b) && OneBucket(Starts(bucket), r)
    ensures FoldRow(b, Coarses(bucket, b, runs), ExactRow(bucket, r)) == Coarses(bucket, b, AddRun(b, runs, r))
  {
    assert b(Start(bucket, r[0].ts)) == b(r[0].ts);
    if Continues(b, runs, r[0]) {
      GrowsTo(bucket, b, runs[|runs| - 1], r);
      CoarsesUpdate(bucket, b, runs, runs[|runs| - 1] + r);
    } else {
      OpensTo(bucket, b, r);
      CoarsesSnoc(bucket, b, runs, r);
    }
  }

  lemma CoarsesUpdate(bucket: int, b: Bucketing, runs: seq<Run>, last: Run)
    requires bucket > 0 && runs != []
    ensures Coarses(bucket, b, runs[|runs| - 1 := last]) ==
            Coarses(bucket, b, runs)[|runs| - 1 := Coarse(bucket, b, last)]
  {
  }

  lemma CoarsesSnoc(bucket: int, b: Bucketing, runs: seq<Run>, r: Run)
    requires bucket > 0
    ensures Coarses(bucket, b, runs + [r]) == Coarses(bucket, b, runs) + [Coarse(bucket, b, r)]
  {
  }

  lemma OpensTo(bucket: int, b: Bucketing, r: Run)
    requires bucket > 0 && OneBucket(Starts(bucket), r)
    ensures Coarse(bucket, b, r) == Open(b(r[0].ts), ExactRow(bucket, r))
  {
    assert Starts(bucket)(r[|r| - 1].ts) == Starts(bucket)(r[0].ts);
  }
}
