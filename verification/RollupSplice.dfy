/** Where a tiered read splits, which rollup rows it takes, and why the two halves answer exactly. */
module RollupSplice {
  import opened Aggregates
  import opened Ast
  import opened Buckets
  import opened Evaluator
  import opened Int64
  import opened Partials
  import opened Prelude
  import opened RawGroups
  import opened Rewrite
  import opened Rollup
  import opened Samples

  datatype Route = Route(name: string, bucket: int, split: int)

  predicate Usable(s: int, bucket: int) { bucket > 0 && (s == 0 || s % bucket == 0) }

  /** The coarsest usable rollup; among equals the last one listed. */
  function Coarsest(s: int, rollups: seq<(string, int)>): (best: Option<(string, int)>)
    ensures best.Some? ==> best.value in rollups && Usable(s, best.value.1)
    ensures forall r :: r in rollups && Usable(s, r.1) ==> best.Some? && r.1 <= best.value.1
  {
    if rollups == [] then None
    else
      var rest, r := Coarsest(s, rollups[..|rollups| - 1]), rollups[|rollups| - 1];
      assert rollups == rollups[..|rollups| - 1] + [r];
      if Usable(s, r.1) && (rest.None? || rest.value.1 <= r.1) then Some(r) else rest
  }

  function GroupStep(s: int, bucket: int): int { if s > 0 then s else bucket }

  /** The split: the horizon rounded up, the rollup-complete boundary rounded down, the later of both. */
  function Split(step: int, horizon: Option<int>, complete: Option<int>): Option<int>
    requires step > 0
  {
    match (horizon, complete)
    case (Some(h), Some(c)) => Some(Larger(RoundUp(h, step), RoundDown(c, step)))
    case (Some(h), None) => Some(RoundUp(h, step))
    case (None, Some(c)) => Some(RoundDown(c, step))
    case (None, None) => None
  }

  function RollupRoute(horizon: Option<int>, complete: Option<int>, rollups: seq<(string, int)>, s: nat, t0: int)
    : (route: Option<Route>)
  {
    match Coarsest(s, rollups)
    case None => None
    case Some(best) =>
      match Split(GroupStep(s, best.1), horizon, complete)
      case None => None
      case Some(split) => if t0 >= split then None else Some(Route(best.0, best.1, split))
  }

  lemma RoundUpBounds(v: int, step: int)
    requires step > 0
    ensures v <= RoundUp(v, step) < v + step && Aligned(RoundUp(v, step), step)
  {
    FloorBounds(v, step);
    var q := v / step;
    MultipleFloors(q + 1, step);
    assert (q + 1) * step == q * step + step;
  }

  /** A route's bucket divides the group step, its split is on a group boundary above `t0` that no
      dropped block reaches, and it reads past the rollup-complete boundary only below the horizon's
      group bucket. */
  lemma RouteSound(horizon: Option<int>, complete: Option<int>, rollups: seq<(string, int)>, s: nat, t0: int)
    requires RollupRoute(horizon, complete, rollups, s, t0).Some?
    ensures var r := RollupRoute(horizon, complete, rollups, s, t0).value;
            && Usable(s, r.bucket) && (r.name, r.bucket) in rollups
            && Aligned(r.split, GroupStep(s, r.bucket)) && Aligned(r.split, r.bucket) && t0 < r.split
            && (horizon.Some? ==> horizon.value <= r.split)
            && ((complete.Some? && r.split <= complete.value) ||
                (horizon.Some? && r.split < horizon.value + GroupStep(s, r.bucket)))
  {
    var r := RollupRoute(horizon, complete, rollups, s, t0).value;
    var step := GroupStep(s, r.bucket);
    if horizon.Some? { RoundUpBounds(horizon.value, step); }
    if complete.Some? { FloorBounds(complete.value, step); }
    if s > 0 {
      assert s == r.bucket * (s / r.bucket);
      AlignedNested(r.split, r.bucket, s / r.bucket);
    }
  }

  /** Without a route, though a rollup is usable, nothing of the range lies below the horizon, nor a whole
      group bucket below the rollup-complete boundary. */
  lemma NoRouteNeeded(horizon: Option<int>, complete: Option<int>, rollups: seq<(string, int)>, s: nat, t0: int,
                      r: (string, int))
    requires RollupRoute(horizon, complete, rollups, s, t0).None? && r in rollups && Usable(s, r.1)
    ensures horizon.Some? ==> horizon.value <= t0
    ensures complete.Some? && s > 0 ==> complete.value < t0 + s
  {
    var best := Coarsest(s, rollups).value;
    var step := GroupStep(s, best.1);
    if horizon.Some? { RoundUpBounds(horizon.value, step); }
    if complete.Some? { FloorBounds(complete.value, step); }
  }

  // What the route is, from what a rollup must do for the grouping: replacing a sample's time by its row's
  // start must never move it to another group.

  ghost predicate Serves(s: int, r: (string, int)) { r.1 > 0 && Refines(r.1, By(s)) }

  /** A bucket that does not divide the group step moves the sample at the first group boundary. */
  lemma UnevenMoves(s: int, bucket: int)
    requires bucket > 0 && 0 < s <= MAX && s % bucket != 0
    ensures By(s)(Start(bucket, s)) != By(s)(s)
  {
    FloorBounds(s, bucket);
    FloorSide(s, bucket, 0);
    var start := Start(bucket, s);
    assert start != s;
    FloorUnique(start, s, 0);
    MultipleFloors(1, s);
  }

  lemma UsableServes(s: int, r: (string, int))
    requires 0 <= s <= MAX
    ensures Usable(s, r.1) <==> Serves(s, r)
  {
    if r.1 > 0 {
      if s == 0 {
      } else if s % r.1 == 0 {
        DividesRefines(r.1, s);
      } else {
        UnevenMoves(s, r.1);
      }
    }
  }

  /** The rollup at `i` serves, no other that does is coarser, and none listed later is as coarse. */
  ghost predicate Widest(s: int, rollups: seq<(string, int)>, i: int) {
    && 0 <= i < |rollups| && Serves(s, rollups[i])
    && (forall j :: 0 <= j < |rollups| && Serves(s, rollups[j]) ==> rollups[j].1 <= rollups[i].1)
    && (forall j :: i < j < |rollups| && Serves(s, rollups[j]) ==> rollups[j].1 < rollups[i].1)
  }

  /** No rollup is chosen exactly when none serves; otherwise it is the widest, the last one of equals. */
  lemma {:induction false} CoarsestServes(s: int, rollups: seq<(string, int)>) returns (i: int)
    requires 0 <= s <= MAX
    ensures Coarsest(s, rollups).None? <==> (forall r :: r in rollups ==> !Serves(s, r))
    ensures Coarsest(s, rollups).Some? ==> Widest(s, rollups, i) && Coarsest(s, rollups).value == rollups[i]
  {
    i := -1;
    if rollups != [] {
      var n := |rollups| - 1;
      var r := rollups[n];
      var before := CoarsestServes(s, rollups[..n]);
      assert rollups == rollups[..n] + [r];
      UsableServes(s, r);
      forall j | 0 <= j < n && Serves(s, rollups[j]) ensures rollups[..n][j] == rollups[j] {}
      var rest := Coarsest(s, rollups[..n]);
      i := if Serves(s, r) && (rest.None? || rest.value.1 <= r.1) then n else before;
    }
  }

  /** The group boundary at or above the horizon, and the one at or below the rollup-complete boundary: the
      first to be at least the former and less than a step below the latter, one of them being met. */
  ghost predicate SplitAt(step: int, horizon: Option<int>, complete: Option<int>, x: int)
    requires step > 0
  {
    && Aligned(x, step)
    && (horizon.Some? ==> horizon.value <= x)
    && (complete.Some? ==> complete.value < x + step)
    && ((horizon.Some? && x < horizon.value + step) || (complete.Some? && x <= complete.value))
  }

  lemma SplitIs(step: int, horizon: Option<int>, complete: Option<int>, x: int)
    requires step > 0
    ensures Split(step, horizon, complete) == Some(x) <==> SplitAt(step, horizon, complete, x)
  {
    if horizon.Some? { RoundUpBounds(horizon.value, step); }
    if complete.Some? { FloorBounds(complete.value, step); }
    if Aligned(x, step) {
      if horizon.Some? {
        FloorGap(x, RoundUp(horizon.value, step), step);
        FloorGap(RoundUp(horizon.value, step), x, step);
      }
      if complete.Some? {
        FloorGap(x, RoundDown(complete.value, step), step);
        FloorGap(RoundDown(complete.value, step), x, step);
      }
    }
  }

  /** The whole route: the widest rollup that serves, the split, and a range that begins below it. */
  lemma RouteIff(horizon: Option<int>, complete: Option<int>, rollups: seq<(string, int)>, s: nat, t0: int, r: Route)
    requires s <= MAX
    ensures RollupRoute(horizon, complete, rollups, s, t0) == Some(r) <==>
      (exists i :: Widest(s, rollups, i) && rollups[i] == (r.name, r.bucket)) &&
      SplitAt(if s > 0 then s else r.bucket, horizon, complete, r.split) && t0 < r.split
  {
    var i := CoarsestServes(s, rollups);
    if r.bucket > 0 { SplitIs(if s > 0 then s else r.bucket, horizon, complete, r.split); }
    forall k | Widest(s, rollups, k) ensures Coarsest(s, rollups).Some? && rollups[k] == rollups[i] {
      assert rollups[k] in rollups;
    }
  }

  /** A rollup that serves and a horizon above the range's start are enough for a route. */
  lemma RouteTaken(horizon: int, complete: Option<int>, rollups: seq<(string, int)>, s: nat, t0: int,
                   r: (string, int))
    requires s <= MAX && r in rollups && Serves(s, r) && t0 < horizon
    ensures RollupRoute(Some(horizon), complete, rollups, s, t0).Some?
  {
    UsableServes(s, r);
    RoundUpBounds(horizon, if s > 0 then s else Coarsest(s, rollups).value.1);
  }

  /** No group has samples on both sides of the split. */
  lemma SplitParts(horizon: Option<int>, complete: Option<int>, rollups: seq<(string, int)>, s: nat, t0: int,
                   x: int, y: int)
    requires s > 0 && RollupRoute(horizon, complete, rollups, s, t0).Some?
    requires x < RollupRoute(horizon, complete, rollups, s, t0).value.split <= y
    ensures By(s)(x) != By(s)(y)
  {
    RouteSound(horizon, complete, rollups, s, t0);
    var split := RollupRoute(horizon, complete, rollups, s, t0).value.split;
    FloorSide(x, s, split);
    FloorSide(y, s, split);
  }

  function FirstRow(t0: I64, bucket: int): int
    requires bucket > 0
  {
    if t0 == MIN then MIN else RoundUp(t0, bucket)
  }

  function LastRow(t1: I64, bucket: int, split: int): int
    requires bucket > 0
  {
    if t1 >= split - 1 then split - 1 else RoundDown(t1 + 1, bucket) - 1
  }

  /** The range ends fall between rollup buckets, or do not matter. */
  predicate AlignedEnds(t0: I64, t1: I64, bucket: int, split: int)
    requires bucket > 0
  {
    (t0 == MIN || Aligned(t0, bucket)) && (t1 >= split - 1 || Aligned(t1 + 1, bucket))
  }

  predicate RowTaken(t0: I64, t1: I64, bucket: int, split: int, ts: I64)
    requires bucket > 0
  {
    FirstRow(t0, bucket) <= Start(bucket, ts) <= LastRow(t1, bucket, split)
  }

  predicate BelowSplit(t0: I64, t1: I64, split: int, ts: I64) { t0 <= ts <= Smaller(t1, split - 1) }

  lemma StartSide(bucket: int, ts: I64, edge: int)
    requires bucket > 0 && Aligned(edge, bucket) && edge > MIN
    ensures Start(bucket, ts) >= edge <==> ts >= edge
  {
    FloorSide(ts, bucket, edge);
  }

  lemma AlignedTakes(t0: I64, t1: I64, bucket: int, split: int, ts: I64)
    requires bucket > 0 && Aligned(split, bucket) && t0 <= t1 && t0 < split && AlignedEnds(t0, t1, bucket, split)
    ensures RowTaken(t0, t1, bucket, split, ts) <==> BelowSplit(t0, t1, split, ts)
  {
    if t0 > MIN { StartSide(bucket, ts, t0); }
    if t1 >= split - 1 { StartSide(bucket, ts, split); } else { StartSide(bucket, ts, t1 + 1); }
  }

  /** The rows taken stand for exactly the range's samples below the split if and only if the ends
      are aligned: an unaligned end loses its partial bucket. */
  lemma TakesExactlyIff(t0: I64, t1: I64, bucket: int, split: int)
    requires bucket > 0 && Aligned(split, bucket) && t0 <= t1 && t0 < split
    ensures (forall ts: I64 :: RowTaken(t0, t1, bucket, split, ts) <==> BelowSplit(t0, t1, split, ts)) <==>
            AlignedEnds(t0, t1, bucket, split)
  {
    if AlignedEnds(t0, t1, bucket, split) {
      forall ts: I64 ensures RowTaken(t0, t1, bucket, split, ts) <==> BelowSplit(t0, t1, split, ts) {
        AlignedTakes(t0, t1, bucket, split, ts);
      }
    } else if t0 != MIN && !Aligned(t0, bucket) {
      FloorBounds(t0, bucket);
      RoundUpBounds(t0, bucket);
      assert !RowTaken(t0, t1, bucket, split, t0) && BelowSplit(t0, t1, split, t0);
    } else {
      LostEnd(t1, bucket);
      assert !RowTaken(t0, t1, bucket, split, t1) && BelowSplit(t0, t1, split, t1);
    }
  }

  /** Minute buckets and a range that starts one millisecond into one: the rest of that minute is lost. */
  lemma UnalignedStartLoses()
    ensures BelowSplit(1, 119_999, 120_000, 1) && !RowTaken(1, 119_999, 60_000, 120_000, 1)
  {
    RoundUpBounds(1, 60_000);
    FloorBounds(1, 60_000);
  }

  lemma LostEnd(t1: I64, bucket: int)
    requires bucket > 0 && !Aligned(t1 + 1, bucket)
    ensures Start(bucket, t1) >= RoundDown(t1 + 1, bucket)
  {
    FloorBounds(t1 + 1, bucket);
    FloorSide(t1, bucket, FloorTo(t1 + 1, bucket));
  }

  // Ranges of samples and of rows.

  function Clip(s: seq<Sample>, lo: int, hi: int): seq<Sample> {
    if s == [] then []
    else if lo <= LastOf(s).ts <= hi then Clip(Front(s), lo, hi) + [LastOf(s)]
    else Clip(Front(s), lo, hi)
  }

  lemma {:induction false} ClipMembers(s: seq<Sample>, lo: int, hi: int)
    requires Ordered(s)
    ensures Ordered(Clip(s, lo, hi))
    ensures forall x :: x in Clip(s, lo, hi) <==> x in s && lo <= x.ts <= hi
  {
    if s != [] {
      ClipMembers(Front(s), lo, hi);
      assert s == Front(s) + [LastOf(s)];
      forall x | x in Clip(Front(s), lo, hi) ensures x.ts < LastOf(s).ts {
        var i :| 0 <= i < |Front(s)| && Front(s)[i] == x;
        assert s[i] == x;
      }
    }
  }

  /** Both halves together hold each sample of the range once. */
  lemma {:induction false} ClipSplit(s: seq<Sample>, lo: int, mid: int, hi: int)
    requires Ordered(s) && lo <= mid
    ensures Clip(s, lo, Smaller(hi, mid - 1)) + Clip(s, mid, hi) == Clip(s, lo, hi)
  {
    if s != [] {
      ClipSplit(Front(s), lo, mid, hi);
      if mid > LastOf(s).ts { NoneAbove(Front(s), mid, hi); }
      assert Clip(s, lo, Smaller(hi, mid - 1)) + Clip(s, mid, hi) == Clip(s, lo, hi);
    }
  }

  lemma NoneAbove(s: seq<Sample>, mid: int, hi: int)
    requires Ordered(s) && forall i :: 0 <= i < |s| ==> s[i].ts < mid
    ensures Clip(s, mid, hi) == []
  {
    ClipMembers(s, mid, hi);
    if Clip(s, mid, hi) != [] {
      assert Clip(s, mid, hi)[0] in Clip(s, mid, hi);
    }
  }

  /** A range read of the rollup table. */
  function RowsIn(rows: seq<RollRow>, r0: int, r1: int): seq<RollRow> {
    if rows == [] then []
    else if r0 <= rows[|rows| - 1].start <= r1 then RowsIn(rows[..|rows| - 1], r0, r1) + [rows[|rows| - 1]]
    else RowsIn(rows[..|rows| - 1], r0, r1)
  }

  function RunsIn(bucket: int, runs: seq<Run>, r0: int, r1: int): (kept: seq<Run>)
    requires bucket > 0
    ensures forall i :: 0 <= i < |kept| ==> kept[i] in runs
  {
    if runs == [] then []
    else
      var r := runs[|runs| - 1];
      assert runs == runs[..|runs| - 1] + [r];
      if r0 <= Start(bucket, r[0].ts) <= r1 then RunsIn(bucket, runs[..|runs| - 1], r0, r1) + [r]
      else RunsIn(bucket, runs[..|runs| - 1], r0, r1)
  }

  lemma {:induction false} RowsOfRuns(bucket: int, runs: seq<Run>, r0: int, r1: int)
    requires bucket > 0
    ensures RowsIn(ExactRows(bucket, runs), r0, r1) == ExactRows(bucket, RunsIn(bucket, runs, r0, r1))
  {
    if runs != [] {
      RowsOfRuns(bucket, runs[..|runs| - 1], r0, r1);
      assert ExactRows(bucket, runs)[..|runs| - 1] == ExactRows(bucket, runs[..|runs| - 1]);
    }
  }

  lemma StartsMonotone(bucket: int)
    requires bucket > 0
    ensures Monotone(Starts(bucket))
  {
    forall x, y | x <= y ensures Starts(bucket)(x) <= Starts(bucket)(y) { StartsOrdered(bucket, x, y); }
  }

  lemma StartsOrdered(bucket: int, x: int, y: int)
    requires bucket > 0 && x <= y
    ensures Starts(bucket)(x) <= Starts(bucket)(y)
  {
    FloorMonotone(bucket, x, y);
    FloorBounds(x, bucket);
    FloorBounds(y, bucket);
  }

  lemma RunsInSnoc(bucket: int, front: seq<Run>, r: Run, r0: int, r1: int)
    requires bucket > 0
    ensures RunsIn(bucket, front + [r], r0, r1) ==
            if r0 <= Start(bucket, r[0].ts) <= r1 then RunsIn(bucket, front, r0, r1) + [r]
            else RunsIn(bucket, front, r0, r1)
  {
    assert (front + [r])[..|front|] == front;
  }

  /** A sample is kept or dropped with its bucket. */
  function AddTaken(bucket: int, kept: seq<Run>, x: Sample, r0: int, r1: int): seq<Run>
    requires bucket > 0
  {
    if r0 <= Start(bucket, x.ts) <= r1 then AddSample(Starts(bucket), kept, x) else kept
  }

  lemma RunsInContinues(bucket: int, runs: seq<Run>, x: Sample, r0: int, r1: int)
    requires bucket > 0 && Continues(Starts(bucket), runs, x)
    ensures RunsIn(bucket, AddSample(Starts(bucket), runs, x), r0, r1) ==
            AddTaken(bucket, RunsIn(bucket, runs, r0, r1), x, r0, r1)
  {
    var front, last := runs[..|runs| - 1], runs[|runs| - 1];
    var longer: Run := last + [x];
    assert runs == front + [last];
    var kept := RunsIn(bucket, front, r0, r1);
    GrowLast(Starts(bucket), front, last, x);
    GrowLast(Starts(bucket), kept, last, x);
    RunsInSnoc(bucket, front, last, r0, r1);
    RunsInSnoc(bucket, front, longer, r0, r1);
  }

  lemma GrowLast(b: Bucketing, front: seq<Run>, last: Run, x: Sample)
    requires b(last[0].ts) == b(x.ts)
    ensures AddSample(b, front + [last], x) == front + [last + [x]]
  {
    assert (front + [last])[|front| := last + [x]] == front + [last + [x]];
    assert (front + [last])[..|front|] == front;
  }

  lemma RunsInOpens(bucket: int, runs: seq<Run>, end: Sample, x: Sample, r0: int, r1: int)
    requires bucket > 0 && AreBuckets(Starts(bucket), runs, end) && (runs != [] ==> end.ts < x.ts)
    requires Monotone(Starts(bucket)) && !Continues(Starts(bucket), runs, x)
    ensures RunsIn(bucket, AddSample(Starts(bucket), runs, x), r0, r1) ==
            AddTaken(bucket, RunsIn(bucket, runs, r0, r1), x, r0, r1)
  {
    var kept := RunsIn(bucket, runs, r0, r1);
    RunsInSnoc(bucket, runs, [x], r0, r1);
    if kept != [] {
      var i :| 0 <= i < |runs| && runs[i] == kept[|kept| - 1];
      StrictlyBelow(Starts(bucket), runs, end, x, i);
    }
  }

  lemma StrictlyBelow(b: Bucketing, runs: seq<Run>, end: Sample, x: Sample, i: nat)
    requires Monotone(b) && AreBuckets(b, runs, end) && i < |runs| && end.ts < x.ts && !Continues(b, runs, x)
    ensures b(runs[i][0].ts) < b(x.ts)
  {
    var last := runs[|runs| - 1];
    assert OneBucket(b, last) && b(LastOf(last).ts) == b(last[0].ts) <= b(x.ts);
  }

  lemma RunsInAdded(bucket: int, front: seq<Sample>, x: Sample, r0: int, r1: int)
    requires bucket > 0 && Ordered(front + [x])
    ensures RunsIn(bucket, AddSample(Starts(bucket), Runs(Starts(bucket), front), x), r0, r1) ==
            AddTaken(bucket, RunsIn(bucket, Runs(Starts(bucket), front), r0, r1), x, r0, r1)
  {
    StartsMonotone(bucket);
    var end := if front == [] then x else LastOf(front);
    if front != [] {
      assert Ordered(front) && end.ts < x.ts by {
        assert (front + [x])[..|front|] == front;
        assert (front + [x])[|front| - 1] == end && (front + [x])[|front|] == x;
      }
      RunsAreBuckets(Starts(bucket), front);
    }
    var runs := Runs(Starts(bucket), front);
    if Continues(Starts(bucket), runs, x) {
      RunsInContinues(bucket, runs, x, r0, r1);
    } else {
      RunsInOpens(bucket, runs, end, x, r0, r1);
    }
  }

  lemma RunsOfSnoc(b: Bucketing, s: seq<Sample>, x: Sample)
    ensures Runs(b, s + [x]) == AddSample(b, Runs(b, s), x)
  {
    assert Front(s + [x]) == s;
  }

  /** Reading whole buckets in a range is cutting the samples of those buckets. */
  lemma {:induction false} RunsInRange(bucket: int, s: seq<Sample>, r0: int, r1: int, lo: int, hi: int)
    requires bucket > 0 && Ordered(s)
    requires forall ts: I64 :: r0 <= Start(bucket, ts) <= r1 <==> lo <= ts <= hi
    ensures RunsIn(bucket, Runs(Starts(bucket), s), r0, r1) == Runs(Starts(bucket), Clip(s, lo, hi))
  {
    if s != [] {
      var front, x := Front(s), LastOf(s);
      assert s == front + [x];
      RunsInRange(bucket, front, r0, r1, lo, hi);
      RunsInAdded(bucket, front, x, r0, r1);
      RunsOfSnoc(Starts(bucket), Clip(front, lo, hi), x);
      assert r0 <= Start(bucket, x.ts) <= r1 <==> lo <= x.ts <= hi;
    }
  }

  /** What the rollup half of a tiered read returns for one series, given its stored rows. */
  function RollupHalf(rows: seq<RollRow>, s: int, t0: I64, t1: I64, bucket: int, split: int): seq<TsPartial>
    requires bucket > 0
  {
    FoldRows(By(s), RowsIn(rows, FirstRow(t0, bucket), LastRow(t1, bucket, split)))
  }

  /** A complete rollup of a series. */
  function Rows(bucket: int, s: seq<Sample>): seq<RollRow>
    requires bucket > 0
  {
    ExactRows(bucket, Runs(Starts(bucket), s))
  }

  /** The rollup half is the coarse summary of the raw samples below the split. */
  lemma RollupHalfExact(samples: seq<Sample>, s: nat, t0: I64, t1: I64, bucket: int, split: int)
    requires Ordered(samples) && Usable(s, bucket) && Aligned(split, bucket) && t0 <= t1 && t0 < split
    requires AlignedEnds(t0, t1, bucket, split)
    ensures RollupHalf(Rows(bucket, samples), s, t0, t1, bucket, split) ==
            Coarses(bucket, By(s), Runs(By(s), Clip(samples, t0, Smaller(t1, split - 1))))
  {
    var r0, r1 := FirstRow(t0, bucket), LastRow(t1, bucket, split);
    var low := Clip(samples, t0, Smaller(t1, split - 1));
    RowsOfRuns(bucket, Runs(Starts(bucket), samples), r0, r1);
    forall ts: I64 ensures r0 <= Start(bucket, ts) <= r1 <==> t0 <= ts <= Smaller(t1, split - 1) {
      AlignedTakes(t0, t1, bucket, split, ts);
    }
    RunsInRange(bucket, samples, r0, r1, t0, Smaller(t1, split - 1));
    DividesRefines(bucket, s);
    StartsMonotone(bucket);
    ClipMembers(samples, t0, Smaller(t1, split - 1));
    if low != [] { RunsAreBuckets(Starts(bucket), low); }
    RunsCover(Starts(bucket), low);
    Coarsens(bucket, By(s), Runs(Starts(bucket), low));
  }

  // Both halves together.

  /** The source half: partials of the samples from the split on. */
  function SourceHalf(samples: seq<Sample>, s: int, t1: I64, split: int): seq<TsPartial> {
    Summaries(By(s), Runs(By(s), Clip(samples, split, t1)))
  }

  /** A partial list that stands for a list of runs: exact figures, and end times that keep the order. */
  ghost predicate Stands(b: Bucketing, ps: seq<TsPartial>, runs: seq<Run>) {
    Figures(b, ps, runs) && Ascending(ps)
  }

  ghost predicate Figures(b: Bucketing, ps: seq<TsPartial>, runs: seq<Run>) {
    |ps| == |runs| && forall i :: 0 <= i < |runs| ==> SameFigures(ps[i], Summary(b, runs[i]))
  }

  ghost predicate Ascending(ps: seq<TsPartial>) {
    forall i, j :: 0 <= i < j < |ps| ==> Earlier(ps[i], ps[j])
  }

  predicate Earlier(p: TsPartial, q: TsPartial) { p.firstTs < q.firstTs && p.lastTs < q.lastTs }

  predicate SameFigures(p: TsPartial, q: TsPartial) {
    p.bucketTs == q.bucketTs && p.count == q.count && p.sum == q.sum && p.min == q.min && p.max == q.max &&
    p.firstVal == q.firstVal && p.lastVal == q.lastVal
  }

  /** Both halves of a tiered read of one series, and the runs they stand for. */
  function SplicePartials(samples: seq<Sample>, s: nat, t0: I64, t1: I64, bucket: int, split: int): seq<TsPartial>
    requires bucket > 0
  {
    RollupHalf(Rows(bucket, samples), s, t0, t1, bucket, split) + SourceHalf(samples, s, t1, split)
  }

  function SpliceRuns(samples: seq<Sample>, s: nat, t0: I64, t1: I64, split: int): seq<Run> {
    Runs(By(s), Clip(samples, t0, Smaller(t1, split - 1))) + Runs(By(s), Clip(samples, split, t1))
  }

  /** The spliced partials of a series stand for the runs of both halves. */
  lemma SpliceStands(samples: seq<Sample>, s: nat, t0: I64, t1: I64, bucket: int, split: int)
    requires Ordered(samples) && Usable(s, bucket) && Aligned(split, bucket) && t0 <= t1 && t0 < split
    requires AlignedEnds(t0, t1, bucket, split)
    ensures Stands(By(s), SplicePartials(samples, s, t0, t1, bucket, split), SpliceRuns(samples, s, t0, t1, split))
  {
    var b, low, high := By(s), Clip(samples, t0, Smaller(t1, split - 1)), Clip(samples, split, t1);
    RollupHalfExact(samples, s, t0, t1, bucket, split);
    ClipMembers(samples, t0, Smaller(t1, split - 1));
    ClipMembers(samples, split, t1);
    BucketMonotone(s);
    CoarsesStand(bucket, s, low);
    SummariesStand(b, high);
    forall p, q | p in Coarses(bucket, b, Runs(b, low)) && q in Summaries(b, Runs(b, high))
      ensures Earlier(p, q)
    {
      Members(b, low);
      Members(b, high);
    }
    StandsConcat(b, Coarses(bucket, b, Runs(b, low)), Runs(b, low), Summaries(b, Runs(b, high)), Runs(b, high));
  }

  /** Every run is made of samples of the series. */
  lemma {:induction false} Members(b: Bucketing, s: seq<Sample>)
    ensures forall i, x :: 0 <= i < |Runs(b, s)| && x in Runs(b, s)[i] ==> x in s
  {
    if s != [] {
      Members(b, Front(s));
      assert s == Front(s) + [LastOf(s)];
    }
  }

  lemma StandsConcat(b: Bucketing, p: seq<TsPartial>, r: seq<Run>, q: seq<TsPartial>, t: seq<Run>)
    requires Stands(b, p, r) && Stands(b, q, t) && forall x, y :: x in p && y in q ==> Earlier(x, y)
    ensures Stands(b, p + q, r + t)
  {
    forall i | 0 <= i < |r + t| ensures SameFigures((p + q)[i], Summary(b, (r + t)[i])) {
      assert i >= |r| ==> (r + t)[i] == t[i - |r|] && (p + q)[i] == q[i - |r|];
    }
    forall i, j | 0 <= i < j < |p + q| ensures Earlier((p + q)[i], (p + q)[j]) {
      if i < |p| <= j { assert (p + q)[i] in p && (p + q)[j] in q; }
    }
  }

  /** Runs are in time order at both their ends. */
  lemma RunsAscend(b: Bucketing, s: seq<Sample>, i: nat, j: nat)
    requires Ordered(s) && Monotone(b) && i < j < |Runs(b, s)|
    ensures b(Runs(b, s)[i][0].ts) < b(Runs(b, s)[j][0].ts)
    ensures b(LastOf(Runs(b, s)[i]).ts) < b(LastOf(Runs(b, s)[j]).ts)
  {
    RunsAreBuckets(b, s);
    var runs := Runs(b, s);
    assert OneBucket(b, runs[i]) && OneBucket(b, runs[j]);
  }

  lemma SummariesStand(b: Bucketing, s: seq<Sample>)
    requires Ordered(s) && Monotone(b)
    ensures Stands(b, Summaries(b, Runs(b, s)), Runs(b, s))
  {
    var runs := Runs(b, s);
    forall i, j | 0 <= i < j < |runs| ensures Earlier(Summary(b, runs[i]), Summary(b, runs[j])) {
      RunsAscend(b, s, i, j);
    }
  }

  lemma CoarsesStand(bucket: int, s: nat, low: seq<Sample>)
    requires Usable(s, bucket) && Ordered(low)
    ensures Stands(By(s), Coarses(bucket, By(s), Runs(By(s), low)), Runs(By(s), low))
  {
    var b := By(s);
    BucketMonotone(s);
    DividesRefines(bucket, s);
    var runs := Runs(b, low);
    forall i, j | 0 <= i < j < |runs| ensures Earlier(Coarse(bucket, b, runs[i]), Coarse(bucket, b, runs[j])) {
      RunsAscend(b, low, i, j);
      StartOrder(bucket, b, runs[i][0].ts, runs[j][0].ts);
      StartOrder(bucket, b, LastOf(runs[i]).ts, LastOf(runs[j]).ts);
    }
  }

  lemma StartOrder(bucket: int, b: Bucketing, x: I64, y: I64)
    requires bucket > 0 && Refines(bucket, b) && Monotone(b) && b(x) < b(y)
    ensures Start(bucket, x) < Start(bucket, y)
  {
    assert b(Start(bucket, x)) == b(x) && b(Start(bucket, y)) == b(y);
  }

  // One group's fold over the spliced partials.

  function PickPartials(ps: seq<TsPartial>, bucket: int): seq<TsPartial> {
    if ps == [] then []
    else if ps[|ps| - 1].bucketTs == bucket then PickPartials(ps[..|ps| - 1], bucket) + [ps[|ps| - 1]]
    else PickPartials(ps[..|ps| - 1], bucket)
  }

  /** What the rewritten aggregate reads of a partial. */
  function Reading(func: AggFunc, p: TsPartial): Sample { KindReading(FoldedKind(func), p) }

  function Readings(func: AggFunc, ps: seq<TsPartial>): (s: seq<Sample>)
    ensures |s| == |ps| && forall i :: 0 <= i < |s| ==> s[i] == Reading(func, ps[i])
  {
    seq(|ps|, i requires 0 <= i < |ps| => Reading(func, ps[i]))
  }

  function Counted(ps: seq<TsPartial>): nat {
    if ps == [] then 0 else Counted(ps[..|ps| - 1]) + ps[|ps| - 1].count
  }

  lemma {:induction false} PickStands(b: Bucketing, ps: seq<TsPartial>, runs: seq<Run>, g: int)
    requires Stands(b, ps, runs)
    ensures Stands(b, PickPartials(ps, g), PickRuns(b, g, runs))
    ensures forall p :: p in PickPartials(ps, g) ==> p in ps
  {
    if ps != [] {
      var front, p, r := ps[..|ps| - 1], ps[|ps| - 1], runs[|runs| - 1];
      PickStands(b, front, runs[..|runs| - 1], g);
      assert SameFigures(p, Summary(b, r));
      assert forall q :: q in front ==> Earlier(q, p);
      if p.bucketTs == g {
        StandsConcat(b, PickPartials(front, g), PickRuns(b, g, runs[..|runs| - 1]), [p], [r]);
      }
      assert ps == front + [p];
    }
  }

  /** Equal values fold alike where times do not decide. */
  lemma {:induction false} SameValues(x: seq<Sample>, y: seq<Sample>)
    requires |x| == |y| && forall i :: 0 <= i < |x| ==> x[i].value == y[i].value
    ensures Total(x) == Total(y)
    ensures x != [] ==> Best(Lowest, x).value == Best(Lowest, y).value &&
                        Best(Highest, x).value == Best(Highest, y).value
  {
    if |x| > 1 { SameValues(Front(x), Front(y)); }
    if |x| == 1 { assert Total(x) == Total(Front(x)) + x[0].value && Total(y) == Total(Front(y)) + y[0].value; }
  }

  lemma {:induction false} CountedLength(b: Bucketing, ps: seq<TsPartial>, runs: seq<Run>)
    requires Figures(b, ps, runs)
    ensures Counted(ps) == SumLengths(runs)
  {
    if ps != [] {
      assert SameFigures(ps[|ps| - 1], Summary(b, runs[|runs| - 1]));
      CountedLength(b, ps[..|ps| - 1], runs[..|runs| - 1]);
    }
  }

  lemma {:induction false} FlattenEnds(runs: seq<Run>)
    requires runs != []
    ensures Flatten(runs) != [] && Flatten(runs)[0] == runs[0][0]
    ensures LastOf(Flatten(runs)) == LastOf(runs[|runs| - 1])
  {
    if |runs| > 1 { FlattenEnds(runs[..|runs| - 1]); } else { assert Flatten(runs[..0]) == []; }
  }

  /** Partials that stand for runs fold to what all the runs' samples fold to. */
  lemma StandsFold(func: AggFunc, b: Bucketing, ps: seq<TsPartial>, runs: seq<Run>)
    requires func.Sum? || func.Min? || func.Max? || func.First? || func.Last?
    requires Stands(b, ps, runs) && AllOrdered(runs) && Ordered(Flatten(runs))
    ensures OnSamples(func, Readings(func, ps)) == OnSamples(func, Flatten(runs))
  {
    FlattenEmpty(runs);
    if func.First? || func.Last? {
      if runs != [] { StandsEnds(func, b, ps, runs); }
    } else {
      StandsValues(func, b, ps, runs);
      SameValues(Readings(func, ps), Map(runs, Partials.Of(FoldedKind(func))));
      RunFold(func, runs);
    }
  }

  lemma StandsValues(func: AggFunc, b: Bucketing, ps: seq<TsPartial>, runs: seq<Run>)
    requires (func.Sum? || func.Min? || func.Max?) && Figures(b, ps, runs)
    ensures |Readings(func, ps)| == |runs|
    ensures var m := Map(runs, Partials.Of(FoldedKind(func)));
            forall i :: 0 <= i < |runs| ==> Readings(func, ps)[i].value == m[i].value
  {
    var m := Map(runs, Partials.Of(FoldedKind(func)));
    forall i | 0 <= i < |runs| ensures Readings(func, ps)[i].value == m[i].value {
      assert SameFigures(ps[i], Summary(b, runs[i]));
    }
  }

  lemma EndOfOrdered(func: AggFunc, s: Run)
    requires (func.First? || func.Last?) && Ordered(s)
    ensures OnSamples(func, s) == Float(if func.First? then s[0].value else LastOf(s).value)
  {
    BestOfOrdered(s);
  }

  lemma ReadingsOrdered(func: AggFunc, ps: seq<TsPartial>)
    requires Ascending(ps)
    ensures Ordered(Readings(func, ps))
  {
    var col := Readings(func, ps);
    forall i, j | 0 <= i < j < |col| ensures col[i].ts < col[j].ts { assert Earlier(ps[i], ps[j]); }
  }

  lemma StandsEnds(func: AggFunc, b: Bucketing, ps: seq<TsPartial>, runs: seq<Run>)
    requires (func.First? || func.Last?) && runs != [] && Stands(b, ps, runs) && Ordered(Flatten(runs))
    ensures Flatten(runs) != []
    ensures OnSamples(func, Readings(func, ps)) == OnSamples(func, Flatten(runs))
  {
    FlattenEnds(runs);
    ReadingsOrdered(func, ps);
    EndOfOrdered(func, Flatten(runs));
    EndOfOrdered(func, Readings(func, ps));
    assert SameFigures(ps[0], Summary(b, runs[0]));
    assert SameFigures(ps[|ps| - 1], Summary(b, runs[|runs| - 1]));
  }

  /** A tiered read answers one series exactly: in every group bucket the partials of both halves fold
      to the count, sum, minimum, maximum, first and last of the raw samples in the range. */
  lemma SpliceExact(samples: seq<Sample>, s: nat, t0: I64, t1: I64, bucket: int, split: int, g: int, func: AggFunc)
    requires Ordered(samples) && Usable(s, bucket) && Aligned(split, bucket) && t0 <= t1 && t0 < split
    requires AlignedEnds(t0, t1, bucket, split)
    requires func.Sum? || func.Min? || func.Max? || func.First? || func.Last?
    ensures var ps := PickPartials(SplicePartials(samples, s, t0, t1, bucket, split), g);
            var raw := PickSamples(By(s), g, Clip(samples, t0, t1));
            && Counted(ps) == |raw|
            && OnSamples(func, Readings(func, ps)) == OnSamples(func, raw)
  {
    var b, ps, runs := By(s), SplicePartials(samples, s, t0, t1, bucket, split), SpliceRuns(samples, s, t0, t1, split);
    SpliceStands(samples, s, t0, t1, bucket, split);
    PickStands(b, ps, runs, g);
    SpliceSamples(samples, s, t0, t1, split, g);
    CountedLength(b, PickPartials(ps, g), PickRuns(b, g, runs));
    FlattenLength(PickRuns(b, g, runs));
    StandsFold(func, b, PickPartials(ps, g), PickRuns(b, g, runs));
  }

  lemma {:induction false} PickRunsConcat(b: Bucketing, g: int, x: seq<Run>, y: seq<Run>)
    ensures PickRuns(b, g, x + y) == PickRuns(b, g, x) + PickRuns(b, g, y)
  {
    if y == [] {
      assert x + y == x;
    } else {
      assert (x + y)[..|x + y| - 1] == x + y[..|y| - 1];
      PickRunsConcat(b, g, x, y[..|y| - 1]);
    }
  }

  lemma {:induction false} PickSamplesConcat(b: Bucketing, g: int, x: seq<Sample>, y: seq<Sample>)
    ensures PickSamples(b, g, x + y) == PickSamples(b, g, x) + PickSamples(b, g, y)
  {
    if y == [] {
      assert x + y == x;
    } else {
      assert Front(x + y) == x + Front(y);
      PickSamplesConcat(b, g, x, Front(y));
    }
  }

  /** The runs of both halves in a group bucket hold the range's samples of that bucket, each once. */
  lemma SpliceSamples(samples: seq<Sample>, s: nat, t0: I64, t1: I64, split: int, g: int)
    requires Ordered(samples) && t0 < split
    ensures var runs := PickRuns(By(s), g, SpliceRuns(samples, s, t0, t1, split));
            && AllOrdered(runs) && Ordered(Flatten(runs))
            && Flatten(runs) == PickSamples(By(s), g, Clip(samples, t0, t1))
  {
    var b, low, high := By(s), Clip(samples, t0, Smaller(t1, split - 1)), Clip(samples, split, t1);
    ClipMembers(samples, t0, Smaller(t1, split - 1));
    ClipMembers(samples, split, t1);
    ClipMembers(samples, t0, t1);
    BucketMonotone(s);
    if low != [] { RunsAreBuckets(b, low); }
    if high != [] { RunsAreBuckets(b, high); }
    AllOrderedConcat(Runs(b, low), Runs(b, high));
    PickOrdered(b, g, Runs(b, low) + Runs(b, high));
    PickRunsConcat(b, g, Runs(b, low), Runs(b, high));
    FlattenConcat(PickRuns(b, g, Runs(b, low)), PickRuns(b, g, Runs(b, high)));
    PickedSamples(b, g, low);
    PickedSamples(b, g, high);
    ClipSplit(samples, t0, split, t1);
    PickSamplesConcat(b, g, low, high);
    PickedOrdered(b, g, Clip(samples, t0, t1));
  }
}
