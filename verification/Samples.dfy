/** Runs of samples and the order-respecting folds SQL aggregates make over them. */
module Samples {
  import opened Int64

  datatype Sample = Sample(ts: I64, value: real)

  /** Samples in strictly increasing time, as a store returns one series. */
  ghost predicate Ordered(s: seq<Sample>) {
    forall i, j :: 0 <= i < j < |s| ==> s[i].ts < s[j].ts
  }

  function LastOf(s: seq<Sample>): Sample
    requires s != []
  {
    s[|s| - 1]
  }

  function Front(s: seq<Sample>): seq<Sample>
    requires s != []
  {
    s[..|s| - 1]
  }

  function Total(s: seq<Sample>): real {
    if s == [] then 0.0 else Total(Front(s)) + LastOf(s).value
  }

  /** Which of two samples a fold keeps. */
  datatype Pick = Lowest | Highest | Earliest | Latest {
    predicate Replaces(x: Sample, best: Sample) {
      match this
      case Lowest => x.value < best.value
      case Highest => x.value > best.value
      case Earliest => x.ts < best.ts
      case Latest => x.ts > best.ts
    }
  }

  /** Scan left to right, replacing the best only by a strictly better sample. */
  function Best(pick: Pick, s: seq<Sample>): (b: Sample)
    requires s != []
    ensures b in s
  {
    if |s| == 1 then s[0]
    else
      var b := Best(pick, Front(s));
      if pick.Replaces(LastOf(s), b) then LastOf(s) else b
  }

  /** Counter increase: a drop is a reset, and the new value is its own contribution. */
  function Increase(s: seq<Sample>): real {
    if |s| < 2 then 0.0
    else
      var prev, cur := s[|s| - 2].value, LastOf(s).value;
      Increase(Front(s)) + (if cur >= prev then cur - prev else cur)
  }

  /** The values a counter had reached at its resets, summed. */
  function LostToResets(s: seq<Sample>): real {
    if |s| < 2 then 0.0
    else
      var prev, cur := s[|s| - 2].value, LastOf(s).value;
      LostToResets(Front(s)) + (if cur < prev then prev else 0.0)
  }

  /** The increase is the net change, with every value lost to a reset added back. */
  lemma {:induction false} IncreaseIs(s: seq<Sample>)
    requires s != []
    ensures Increase(s) == LastOf(s).value - s[0].value + LostToResets(s)
  {
    if |s| > 1 { IncreaseIs(Front(s)); }
  }

  /** Over a cut, the increases add up with the step across it, where a drop counts the new value. */
  lemma {:induction false} IncreaseConcat(a: seq<Sample>, b: seq<Sample>)
    requires a != [] && b != []
    ensures Increase(a + b) == Increase(a) + Increase(b) +
      (if b[0].value < LastOf(a).value then b[0].value else b[0].value - LastOf(a).value)
  {
    if |b| == 1 {
      assert Front(a + b) == a;
    } else {
      assert Front(a + b) == a + Front(b);
      IncreaseConcat(a, Front(b));
    }
  }

  type Run = s: seq<Sample> | s != [] witness [Sample(0, 0.0)]

  ghost predicate AllOrdered(runs: seq<Run>) { forall i :: 0 <= i < |runs| ==> Ordered(runs[i]) }

  lemma AllOrderedConcat(a: seq<Run>, b: seq<Run>)
    requires AllOrdered(a) && AllOrdered(b)
    ensures AllOrdered(a + b)
  {
  }

  function Flatten(runs: seq<Run>): seq<Sample> {
    if runs == [] then [] else Flatten(runs[..|runs| - 1]) + runs[|runs| - 1]
  }

  lemma {:induction false} TotalConcat(a: seq<Sample>, b: seq<Sample>)
    ensures Total(a + b) == Total(a) + Total(b)
  {
    if b == [] {
      assert a + b == a;
    } else {
      assert Front(a + b) == a + Front(b);
      TotalConcat(a, Front(b));
    }
  }

  /** Folding a concatenation is folding the two bests. */
  lemma {:induction false} BestConcat(pick: Pick, a: Run, b: Run)
    ensures Best(pick, a + b) == Best(pick, [Best(pick, a), Best(pick, b)])
  {
    if |b| == 1 {
      assert Front(a + b) == a;
    } else {
      assert Front(a + b) == a + Front(b);
      BestConcat(pick, a, Front(b));
    }
  }

  /** How far a sample is from being picked: the least wins. */
  function Rank(pick: Pick, x: Sample): real {
    match pick
    case Lowest => x.value
    case Highest => -x.value
    case Earliest => x.ts as real
    case Latest => -(x.ts as real)
  }

  /** The best sample is the first one of least rank. */
  lemma {:induction false} BestIs(pick: Pick, s: Run) returns (i: nat)
    ensures i < |s| && Best(pick, s) == s[i]
    ensures forall j :: 0 <= j < |s| ==> Rank(pick, s[i]) <= Rank(pick, s[j])
    ensures forall j :: 0 <= j < i ==> Rank(pick, s[i]) < Rank(pick, s[j])
  {
    i := 0;
    if |s| > 1 {
      i := BestIs(pick, Front(s));
      if Rank(pick, LastOf(s)) < Rank(pick, s[i]) { i := |s| - 1; }
    }
  }

  /** In a time-ordered run the first sample is the earliest and the last the latest. */
  lemma {:induction false} BestOfOrdered(s: Run)
    requires Ordered(s)
    ensures Best(Earliest, s) == s[0] && Best(Latest, s) == LastOf(s)
  {
    if |s| > 1 { BestOfOrdered(Front(s)); }
  }

  lemma {:induction false} FlattenConcat(a: seq<Run>, b: seq<Run>)
    ensures Flatten(a + b) == Flatten(a) + Flatten(b)
  {
    if b == [] {
      assert a + b == a;
    } else {
      assert (a + b)[..|a + b| - 1] == a + b[..|b| - 1];
      FlattenConcat(a, b[..|b| - 1]);
    }
  }

  lemma {:induction false} FlattenEmpty(runs: seq<Run>)
    ensures runs == [] <==> Flatten(runs) == []
  {
  }

  /** One sample per run, built by `f`. */
  function Map(runs: seq<Run>, f: Run -> Sample): (s: seq<Sample>)
    ensures |s| == |runs|
    ensures forall i :: 0 <= i < |s| ==> s[i] == f(runs[i])
  {
    seq(|runs|, i requires 0 <= i < |runs| => f(runs[i]))
  }

  /** Sums add up over any cutting into runs. */
  lemma {:induction false} TotalOfRuns(runs: seq<Run>, f: Run -> Sample)
    requires forall r: Run :: f(r).value == Total(r)
    ensures Total(Map(runs, f)) == Total(Flatten(runs))
  {
    if runs != [] {
      var front, last := runs[..|runs| - 1], runs[|runs| - 1];
      TotalOfRuns(front, f);
      TotalConcat(Flatten(front), last);
      assert Front(Map(runs, f)) == Map(front, f);
    }
  }

  /** The best of the per-run bests is the best of all, as far as its sort key and value go. */
  lemma {:induction false} BestOfRuns(pick: Pick, runs: seq<Run>, f: Run -> Sample)
    requires runs != []
    requires forall i :: 0 <= i < |runs| ==> SameKey(pick, f(runs[i]), Best(pick, runs[i]))
    ensures Flatten(runs) != []
    ensures SameKey(pick, Best(pick, Map(runs, f)), Best(pick, Flatten(runs)))
  {
    FlattenEmpty(runs);
    var front, last := runs[..|runs| - 1], runs[|runs| - 1];
    if front == [] {
      assert Flatten(front) == [];
      assert Flatten(runs) == last;
      assert Map(runs, f) == [f(last)];
    } else {
      BestOfRuns(pick, front, f);
      BestConcat(pick, Flatten(front), last);
      assert Front(Map(runs, f)) == Map(front, f);
    }
  }

  /** Samples a fold cannot tell apart: the same value, and the same time when time decides. */
  predicate SameKey(pick: Pick, a: Sample, b: Sample) {
    a.value == b.value && (pick.Earliest? || pick.Latest? ==> a.ts == b.ts)
  }

  lemma {:induction false} FlattenLength(runs: seq<Run>)
    ensures |Flatten(runs)| == SumLengths(runs)
  {
    if runs != [] { FlattenLength(runs[..|runs| - 1]); }
  }

  function SumLengths(runs: seq<Run>): nat {
    if runs == [] then 0 else SumLengths(runs[..|runs| - 1]) + |runs[|runs| - 1]|
  }
}
