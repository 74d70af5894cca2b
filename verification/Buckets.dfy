/** Per-bucket partial aggregates of one time-ordered series. */
module Buckets {
  import opened Int64
  import opened Samples
  import Evaluator

  /** One bucket's summary of one series. */
  datatype TsPartial = TsPartial(
    bucketTs: int, count: nat, sum: real, min: real, max: real,
    firstTs: I64, firstVal: real, lastTs: I64, lastVal: real, increase: real)

  /** `step <= 0` is one whole-range bucket at 0; buckets floor, also below zero. */
  function Bucket(step: int, ts: int): int {
    if step > 0 then Evaluator.FloorTo(ts, step) else 0
  }

  /** The bucket of a time, as a function. */
  type Bucketing = int -> int

  function By(step: int): Bucketing { ts => Bucket(step, ts) }

  ghost predicate Monotone(b: Bucketing) { forall x, y :: x <= y ==> b(x) <= b(y) }

  lemma BucketMonotone(step: int)
    ensures Monotone(By(step))
  {
    forall x, y | x <= y ensures By(step)(x) <= By(step)(y) {
      if step > 0 { FloorMonotone(step, x, y); }
    }
  }

  lemma FloorMonotone(step: int, x: int, y: int)
    requires step > 0 && x <= y
    ensures Evaluator.FloorTo(x, step) <= Evaluator.FloorTo(y, step)
  {
    var p, q := x / step, y / step;
    if p >= q + 1 { assert p * step >= (q + 1) * step; }
    assert p <= q ==> p * step <= q * step;
  }

  /** What a partial says about the samples it stands for. */
  function Summary(b: Bucketing, run: Run): TsPartial {
    TsPartial(b(run[0].ts), |run|, Total(run), Best(Lowest, run).value, Best(Highest, run).value,
              run[0].ts, run[0].value, LastOf(run).ts, LastOf(run).value, Increase(run))
  }

  function Summaries(b: Bucketing, runs: seq<Run>): seq<TsPartial> {
    seq(|runs|, i requires 0 <= i < |runs| => Summary(b, runs[i]))
  }

  predicate Continues(b: Bucketing, runs: seq<Run>, x: Sample) {
    runs != [] && b(runs[|runs| - 1][0].ts) == b(x.ts)
  }

  function AddSample(b: Bucketing, runs: seq<Run>, x: Sample): seq<Run> {
    if Continues(b, runs, x) then
      var last: Run := runs[|runs| - 1] + [x];
      runs[|runs| - 1 := last]
    else
      var last: Run := [x];
      runs + [last]
  }

  /** Cut into maximal stretches of one bucket each. */
  function Runs(b: Bucketing, s: seq<Sample>): seq<Run> {
    if s == [] then [] else AddSample(b, Runs(b, Front(s)), LastOf(s))
  }

  lemma AddSampleFlatten(b: Bucketing, runs: seq<Run>, x: Sample)
    ensures Flatten(AddSample(b, runs, x)) == Flatten(runs) + [x]
  {
    var out := AddSample(b, runs, x);
    if Continues(b, runs, x) {
      assert out[..|out| - 1] == runs[..|runs| - 1];
    } else {
      assert out[..|out| - 1] == runs;
    }
  }

  lemma {:induction false} RunsCover(b: Bucketing, s: seq<Sample>)
    ensures Flatten(Runs(b, s)) == s
  {
    if s != [] {
      RunsCover(b, Front(s));
      AddSampleFlatten(b, Runs(b, Front(s)), LastOf(s));
    }
  }

  ghost predicate OneBucket(b: Bucketing, run: Run) {
    forall i :: 0 <= i < |run| ==> b(run[i].ts) == b(run[0].ts)
  }

  /** Runs of one bucket each, in bucket and time order, ending with sample `end`. */
  ghost predicate AreBuckets(b: Bucketing, runs: seq<Run>, end: Sample) {
    && (forall i :: 0 <= i < |runs| ==> Ordered(runs[i]) && OneBucket(b, runs[i]))
    && (forall i, j :: 0 <= i < j < |runs| ==> b(runs[i][0].ts) < b(runs[j][0].ts))
    && (runs != [] ==> LastOf(runs[|runs| - 1]) == end)
  }

  lemma OrderedExtends(run: Run, x: Sample)
    requires Ordered(run) && LastOf(run).ts < x.ts
    ensures Ordered(run + [x])
  {
  }

  lemma AddSampleBuckets(b: Bucketing, runs: seq<Run>, end: Sample, x: Sample)
    requires Monotone(b) && AreBuckets(b, runs, end) && (runs != [] ==> end.ts < x.ts)
    ensures AreBuckets(b, AddSample(b, runs, x), x)
  {
    if runs != [] {
      var last := runs[|runs| - 1];
      assert OneBucket(b, last) && b(LastOf(last).ts) == b(last[0].ts) <= b(x.ts);
      if Continues(b, runs, x) { OrderedExtends(last, x); }
    }
  }

  /** In a time-ordered series the runs are the buckets: one run per bucket, in bucket order. */
  lemma {:induction false} RunsAreBuckets(b: Bucketing, s: Run)
    requires Monotone(b) && Ordered(s)
    ensures AreBuckets(b, Runs(b, s), LastOf(s))
  {
    if |s| == 1 {
      assert Front(s) == [];
      AddSampleBuckets(b, [], LastOf(s), LastOf(s));
    } else {
      RunsAreBuckets(b, Front(s));
      AddSampleBuckets(b, Runs(b, Front(s)), LastOf(Front(s)), LastOf(s));
    }
  }

  /** A sample of the open bucket updates its partial in place. */
  function Absorb(p: TsPartial, x: Sample): TsPartial {
    p.(count := p.count + 1, sum := p.sum + x.value,
       min := if x.value < p.min then x.value else p.min,
       max := if x.value > p.max then x.value else p.max,
       increase := p.increase + (if x.value >= p.lastVal then x.value - p.lastVal else x.value),
       lastTs := x.ts, lastVal := x.value)
  }

  lemma SummaryExtends(b: Bucketing, run: Run, x: Sample)
    ensures Summary(b, run + [x]) == Absorb(Summary(b, run), x)
  {
    assert Front(run + [x]) == run;
  }

  lemma SummaryOfOne(b: Bucketing, x: Sample)
    ensures Summary(b, [x]) == TsPartial(b(x.ts), 1, x.value, x.value, x.value, x.ts, x.value, x.ts, x.value, 0.0)
  {
    assert Front([x]) == [];
    assert Total([x]) == 0.0 + x.value;
  }

  lemma SummariesStep(b: Bucketing, runs: seq<Run>, x: Sample)
    ensures var ps := Summaries(b, runs);
            Summaries(b, AddSample(b, runs, x)) ==
            if ps != [] && ps[|ps| - 1].bucketTs == b(x.ts) then ps[|ps| - 1 := Absorb(ps[|ps| - 1], x)]
            else ps + [TsPartial(b(x.ts), 1, x.value, x.value, x.value, x.ts, x.value, x.ts, x.value, 0.0)]
  {
    if Continues(b, runs, x) {
      SummaryExtends(b, runs[|runs| - 1], x);
    } else {
      SummaryOfOne(b, x);
    }
  }

  lemma PrefixStep(b: Bucketing, samples: seq<Sample>, i: nat)
    requires i < |samples|
    ensures var ps, x := Summaries(b, Runs(b, samples[..i])), samples[i];
            Summaries(b, Runs(b, samples[..i + 1])) ==
            if ps != [] && ps[|ps| - 1].bucketTs == b(x.ts) then ps[|ps| - 1 := Absorb(ps[|ps| - 1], x)]
            else ps + [TsPartial(b(x.ts), 1, x.value, x.value, x.value, x.ts, x.value, x.ts, x.value, 0.0)]
  {
    assert Front(samples[..i + 1]) == samples[..i];
    SummariesStep(b, Runs(b, samples[..i]), samples[i]);
  }

  /** One series of `ts_partialize`: the last partial is updated or a new one opened. */
  method PartializeSeries(samples: seq<Sample>, step: int) returns (partials: seq<TsPartial>)
    ensures partials == Summaries(By(step), Runs(By(step), samples))
  {
    partials := [];
    var i := 0;
    while i < |samples|
      invariant 0 <= i <= |samples|
      invariant partials == Summaries(By(step), Runs(By(step), samples[..i]))
    {
      var s, n := samples[i], |partials|;
      PrefixStep(By(step), samples, i);
      if n > 0 && partials[n - 1].bucketTs == Bucket(step, s.ts) {
        partials := partials[n - 1 := Absorb(partials[n - 1], s)];
      } else {
        partials := partials + [TsPartial(Bucket(step, s.ts), 1, s.value, s.value, s.value,
                                          s.ts, s.value, s.ts, s.value, 0.0)];
      }
      i := i + 1;
    }
    assert samples[..i] == samples;
  }

  /** `ts_partialize`: series without samples are dropped. */
  method Partialize<L>(series: seq<(L, seq<Sample>)>, step: int) returns (out: seq<(L, seq<TsPartial>)>)
    ensures out == AllSummaries(series, step)
  {
    out := [];
    var i := 0;
    while i < |series|
      invariant 0 <= i <= |series| && out == AllSummaries(series[..i], step)
    {
      var partials := PartializeSeries(series[i].1, step);
      assert series[..i + 1][..i] == series[..i];
      assert partials == [] <==> series[i].1 == [] by {
        if series[i].1 != [] { assert |Runs(By(step), series[i].1)| > 0; }
      }
      if partials != [] { out := out + [(series[i].0, partials)]; }
      i := i + 1;
    }
    assert series[..i] == series;
  }

  function AllSummaries<L>(series: seq<(L, seq<Sample>)>, step: int): seq<(L, seq<TsPartial>)> {
    if series == [] then []
    else
      var last := series[|series| - 1];
      AllSummaries(series[..|series| - 1], step) +
      if last.1 == [] then [] else [(last.0, Summaries(By(step), Runs(By(step), last.1)))]
  }
}
