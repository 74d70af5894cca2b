/** Choosing neighbours: diverse ones first, the rest as backfill. */
module HnswSelect {
  import opened HnswGraph
  import opened HnswSearch
  import opened Prelude

  function IdsOf(s: seq<Cand>): (ids: seq<nat>)
    ensures |ids| == |s| && forall i :: 0 <= i < |s| ==> ids[i] == s[i].id
  {
    seq(|s|, i requires 0 <= i < |s| => s[i].id)
  }

  /** Is `c` at least as close to the base as to every kept node? */
  predicate Diverse(gap: (nat, nat) -> int, kept: seq<Cand>, c: Cand) {
    forall i :: 0 <= i < |kept| ==> gap(c.id, kept[i].id) >= c.d
  }

  /** The greedy split of a candidate list into kept and spilled. */
  ghost predicate Greedy(gap: (nat, nat) -> int, kept: seq<Cand>, spilled: seq<Cand>) {
    && (forall i :: 0 <= i < |kept| ==> Diverse(gap, kept[..i], kept[i]))
    && (forall i :: 0 <= i < |spilled| ==> !Diverse(gap, kept, spilled[i]))
  }

  /** Distance between two nodes. */
  function Gap(nodes: seq<Node>, dist: Distance): (nat, nat) -> int { GapOf(Vectors(nodes), dist) }

  function GapOf(vectors: seq<Stored>, dist: Distance): (nat, nat) -> int {
    (a: nat, b: nat) => if a < |vectors| && b < |vectors| then dist(vectors[a], vectors[b]) else 0
  }

  datatype Choice = Choice(kept: seq<Cand>, spilled: seq<Cand>)

  /** Candidate by candidate, until `max` are kept: keep the diverse, spill the rest. */
  function Choose(gap: (nat, nat) -> int, cand: seq<Cand>, max: nat): (b: Choice) {
    if cand == [] then Choice([], [])
    else
      Decide(gap, Choose(gap, cand[..|cand| - 1], max), cand[|cand| - 1], max)
  }

  /** The kept ids, then as many of the spilled ones as there is room for. */
  function Selected(gap: (nat, nat) -> int, cand: seq<Cand>, max: nat): seq<nat> {
    var ids := IdsOf(Choose(gap, cand, max).kept) + IdsOf(Choose(gap, cand, max).spilled);
    if |ids| <= max then ids else ids[..max]
  }

  lemma GreedyKeep(gap: (nat, nat) -> int, kept: seq<Cand>, spilled: seq<Cand>, c: Cand)
    requires Greedy(gap, kept, spilled) && Diverse(gap, kept, c)
    ensures Greedy(gap, kept + [c], spilled)
  {
    var more := kept + [c];
    forall i | 0 <= i < |more| ensures Diverse(gap, more[..i], more[i]) {
      assert more[..i] == kept[..i];
      assert kept[..|kept|] == kept;
    }
    forall i | 0 <= i < |spilled| ensures !Diverse(gap, more, spilled[i]) { StillCrowded(gap, kept, c, spilled[i]); }
  }

  lemma StillCrowded(gap: (nat, nat) -> int, kept: seq<Cand>, c: Cand, x: Cand)
    requires !Diverse(gap, kept, x)
    ensures !Diverse(gap, kept + [c], x)
  {
    var j :| 0 <= j < |kept| && gap(x.id, kept[j].id) < x.d;
    assert (kept + [c])[j] == kept[j];
  }

  lemma GreedySpill(gap: (nat, nat) -> int, kept: seq<Cand>, spilled: seq<Cand>, c: Cand)
    requires Greedy(gap, kept, spilled) && !Diverse(gap, kept, c)
    ensures Greedy(gap, kept, spilled + [c])
  {
  }

  /** Kept and spilled interleave to a prefix of the candidates. */
  ghost predicate Drawn(cand: seq<Cand>, n: nat, kept: seq<Cand>, spilled: seq<Cand>) {
    n <= |cand| && multiset(kept + spilled) == multiset(cand[..n])
  }

  ghost predicate Known(nodes: seq<Node>, s: seq<Cand>) { forall i :: 0 <= i < |s| ==> s[i].id < |nodes| }

  method IsDiverse(nodes: seq<Node>, dist: Distance, kept: seq<Cand>, c: Cand) returns (diverse: bool)
    requires Known(nodes, kept) && c.id < |nodes|
    ensures diverse == Diverse(Gap(nodes, dist), kept, c)
  {
    diverse := true;
    var j := 0;
    while j < |kept|
      invariant 0 <= j <= |kept| && diverse == Diverse(Gap(nodes, dist), kept[..j], c)
    {
      assert kept[..j + 1] == kept[..j] + [kept[j]];
      diverse := diverse && dist(nodes[c.id].vector, nodes[kept[j].id].vector) >= c.d;
      j := j + 1;
    }
    assert kept[..j] == kept;
  }

  lemma {:induction false} ChooseStops(gap: (nat, nat) -> int, cand: seq<Cand>, i: nat, max: nat)
    requires i <= |cand| && |Choose(gap, cand[..i], max).kept| >= max
    ensures Choose(gap, cand, max) == Choose(gap, cand[..i], max)
    decreases |cand|
  {
    if i < |cand| {
      assert cand[..|cand| - 1][..i] == cand[..i];
      ChooseStops(gap, cand[..|cand| - 1], i, max);
    } else {
      assert cand[..i] == cand;
    }
  }

  /** The choice after one more candidate. */
  function Decide(gap: (nat, nat) -> int, b: Choice, c: Cand, max: nat): Choice {
    if |b.kept| >= max then b
    else if Diverse(gap, b.kept, c) then Choice(b.kept + [c], b.spilled)
    else Choice(b.kept, b.spilled + [c])
  }

  lemma ChooseNext(gap: (nat, nat) -> int, cand: seq<Cand>, i: nat, max: nat)
    requires i < |cand|
    ensures Choose(gap, cand[..i + 1], max) == Decide(gap, Choose(gap, cand[..i], max), cand[i], max)
  {
    assert cand[..i + 1][..i] == cand[..i];
  }

  /** The first loop of `select_diverse`: sort candidates into kept and spilled until `max` are kept. */
  method Partition(nodes: seq<Node>, dist: Distance, cand: seq<Cand>, max: nat)
    returns (kept: seq<Cand>, spilled: seq<Cand>)
    requires Known(nodes, cand)
    ensures Choice(kept, spilled) == Choose(Gap(nodes, dist), cand, max)
  {
    kept, spilled := [], [];
    ghost var gap := Gap(nodes, dist);
    var i := 0;
    while i < |cand| && |kept| < max
      invariant 0 <= i <= |cand| && Known(nodes, kept) && Choice(kept, spilled) == Choose(gap, cand[..i], max)
    {
      var c := cand[i];
      var diverse := IsDiverse(nodes, dist, kept, c);
      ChooseNext(gap, cand, i, max);
      if diverse {
        kept := kept + [c];
      } else {
        spilled := spilled + [c];
      }
      i := i + 1;
    }
    if i < |cand| { ChooseStops(gap, cand, i, max); } else { assert cand[..i] == cand; }
  }

  /** What is chosen: a greedy diverse list, with every spilled candidate crowded out by a kept one; together
      they are the candidates up to where `max` were kept. */
  ghost predicate Chosen(gap: (nat, nat) -> int, cand: seq<Cand>, max: nat, b: Choice, n: nat) {
    Split(gap, cand, n, b.kept, b.spilled) && |b.kept| <= max && (n == |cand| || |b.kept| == max)
  }

  lemma ChosenNext(gap: (nat, nat) -> int, cand: seq<Cand>, c: Cand, max: nat, b: Choice, n: nat) returns (n': nat)
    requires Chosen(gap, cand, max, b, n)
    ensures Chosen(gap, cand + [c], max, Decide(gap, b, c, max), n')
  {
    var more := cand + [c];
    assert more[..n] == cand[..n];
    n' := n;
    if |b.kept| < max {
      SplitNext(gap, more, n, b.kept, b.spilled);
      n' := n + 1;
    }
  }

  lemma {:induction false} ChooseIs(gap: (nat, nat) -> int, cand: seq<Cand>, max: nat) returns (n: nat)
    ensures Chosen(gap, cand, max, Choose(gap, cand, max), n)
  {
    n := 0;
    if cand != [] {
      var front, c := cand[..|cand| - 1], cand[|cand| - 1];
      n := ChooseIs(gap, front, max);
      n := ChosenNext(gap, front, c, max, Choose(gap, front, max), n);
      assert cand == front + [c];
    }
  }

  ghost predicate Split(gap: (nat, nat) -> int, cand: seq<Cand>, n: nat, kept: seq<Cand>, spilled: seq<Cand>) {
    Greedy(gap, kept, spilled) && Drawn(cand, n, kept, spilled)
  }

  lemma SplitNext(gap: (nat, nat) -> int, cand: seq<Cand>, i: nat, kept: seq<Cand>, spilled: seq<Cand>)
    requires i < |cand| && Split(gap, cand, i, kept, spilled)
    ensures Diverse(gap, kept, cand[i]) ==> Split(gap, cand, i + 1, kept + [cand[i]], spilled)
    ensures !Diverse(gap, kept, cand[i]) ==> Split(gap, cand, i + 1, kept, spilled + [cand[i]])
  {
    DrawnNext(cand, i, kept, spilled);
    if Diverse(gap, kept, cand[i]) {
      GreedyKeep(gap, kept, spilled, cand[i]);
    } else {
      GreedySpill(gap, kept, spilled, cand[i]);
    }
  }

  lemma DrawnNext(cand: seq<Cand>, i: nat, kept: seq<Cand>, spilled: seq<Cand>)
    requires i < |cand| && Drawn(cand, i, kept, spilled)
    ensures Drawn(cand, i + 1, kept + [cand[i]], spilled) && Drawn(cand, i + 1, kept, spilled + [cand[i]])
  {
    assert cand[..i + 1] == cand[..i] + [cand[i]];
    assert kept + (spilled + [cand[i]]) == (kept + spilled) + [cand[i]];
    assert multiset((kept + [cand[i]]) + spilled) == multiset(kept + spilled) + multiset{cand[i]};
  }

  /** `select_diverse`: the kept ones first, nearest first, then the backfill. */
  method SelectDiverse(nodes: seq<Node>, dist: Distance, cand: seq<Cand>, max: nat) returns (out: seq<nat>)
    requires Known(nodes, cand)
    ensures out == Selected(Gap(nodes, dist), cand, max)
  {
    var kept, spilled := Partition(nodes, dist, cand, max);
    ghost var n := ChooseIs(Gap(nodes, dist), cand, max);
    out := IdsOf(kept);
    var k := 0;
    while k < |spilled| && |out| < max
      invariant 0 <= k <= |spilled| && out == IdsOf(kept) + IdsOf(spilled)[..k] && |out| <= max
    {
      out := out + [spilled[k].id];
      k := k + 1;
    }
  }

  /** As many ids as there are candidates, up to `max`; all of them candidates, none twice. */
  lemma SelectedIs(gap: (nat, nat) -> int, cand: seq<Cand>, max: nat)
    requires Distinct(IdsOf(cand))
    ensures |Selected(gap, cand, max)| == if |cand| <= max then |cand| else max
    ensures Distinct(Selected(gap, cand, max))
    ensures forall k :: 0 <= k < |Selected(gap, cand, max)| ==> Selected(gap, cand, max)[k] in IdsOf(cand)
  {
    var n := ChooseIs(gap, cand, max);
    var b := Choose(gap, cand, max);
    DrawnSize(cand, n, b.kept, b.spilled);
    assert IdsOf(b.kept) + IdsOf(b.spilled) == IdsOf(b.kept + b.spilled);
    ChosenGood(cand, b.kept, b.spilled, n, Selected(gap, cand, max));
  }

  /** Someone is chosen whenever there is a candidate and room. */
  lemma SelectedSome(gap: (nat, nat) -> int, cand: seq<Cand>, max: nat)
    requires cand != [] && max > 0
    ensures Selected(gap, cand, max) != []
  {
    var n := ChooseIs(gap, cand, max);
    var b := Choose(gap, cand, max);
    DrawnSize(cand, n, b.kept, b.spilled);
    assert b.kept == [] && b.spilled != [] ==> Diverse(gap, b.kept, b.spilled[0]);
  }

  lemma DrawnSize(cand: seq<Cand>, n: nat, kept: seq<Cand>, spilled: seq<Cand>)
    requires Drawn(cand, n, kept, spilled)
    ensures |kept| + |spilled| == n
  {
    assert |multiset(kept + spilled)| == |multiset(cand[..n])|;
  }

  /** Chosen ids come from the candidates, each at most once when the candidates are distinct. */
  lemma ChosenGood(cand: seq<Cand>, kept: seq<Cand>, spilled: seq<Cand>, n: nat, out: seq<nat>)
    requires Drawn(cand, n, kept, spilled) && out <= IdsOf(kept + spilled) && Distinct(IdsOf(cand))
    ensures Distinct(out) && forall k :: 0 <= k < |out| ==> out[k] in IdsOf(cand)
  {
    var all := kept + spilled;
    forall k | 0 <= k < |all| ensures all[k] in cand[..n] { assert all[k] in multiset(all); }
    forall k | 0 <= k < |out| ensures out[k] in IdsOf(cand) {
      var i :| 0 <= i < n && cand[i] == all[k];
      assert IdsOf(cand)[i] == out[k];
    }
    forall i, j | 0 <= i < j < |out| ensures out[i] != out[j] { DistinctDrawn(cand, n, all, i, j); }
  }

  lemma DistinctDrawn(cand: seq<Cand>, n: nat, all: seq<Cand>, i: nat, j: nat)
    requires n <= |cand| && multiset(all) == multiset(cand[..n]) && Distinct(IdsOf(cand)) && i < j < |all|
    ensures all[i].id != all[j].id
  {
    assert all[i] in multiset(all) && all[j] in multiset(all);
    var p :| 0 <= p < n && cand[..n][p] == all[i];
    var q :| 0 <= q < n && cand[..n][q] == all[j];
    if p == q {
      assert all == all[..i] + [all[i]] + all[i + 1..j] + [all[j]] + all[j + 1..];
      assert multiset(all)[all[i]] >= 2;
      OnceOnly(cand[..n], p);
    } else {
      assert IdsOf(cand)[p] != IdsOf(cand)[q];
    }
  }

  lemma OnceOnly(s: seq<Cand>, p: nat)
    requires p < |s| && Distinct(s)
    ensures multiset(s)[s[p]] == 1
  {
    assert s == s[..p] + [s[p]] + s[p + 1..];
    assert s[p] !in s[..p] && s[p] !in s[p + 1..];
  }
}
