/** Why a trimmed neighbour list holds what it holds, and that its order before does not matter. */
module HnswPrune {
  import opened HnswGraph
  import opened HnswLinks
  import opened HnswSearch
  import opened HnswSelect
  import opened Prelude

  /** Some kept node is nearer to `x` than `id` is. */
  ghost predicate Crowded(gap: (nat, nat) -> int, id: nat, kept: seq<nat>, x: nat) {
    exists i :: 0 <= i < |kept| && gap(x, kept[i]) < gap(id, x)
  }

  ghost predicate NearestFirst(gap: (nat, nat) -> int, id: nat, kept: seq<nat>) {
    forall i, j :: 0 <= i < j < |kept| ==> gap(id, kept[i]) <= gap(id, kept[j])
  }

  ghost predicate NoNearer(gap: (nat, nat) -> int, id: nat, kept: seq<nat>, x: nat) {
    forall i :: 0 <= i < |kept| ==> gap(id, kept[i]) <= gap(id, x)
  }

  /** The list of `id` trimmed to `out`: first the diverse ones `kept`, nearest first and beginning with the
      nearest of all; the others in it are crowded by these and also nearest first; one left out is no nearer
      than those others, and crowded too unless `max` were kept, none of them farther. */
  ghost predicate Explains(gap: (nat, nat) -> int, id: nat, list: seq<nat>, max: nat, kept: seq<nat>,
                           out: seq<nat>) {
    && kept <= out && |out| <= max && NearestFirst(gap, id, kept)
    && (forall x :: x in list && max > 0 ==> kept != [] && gap(id, kept[0]) <= gap(id, x))
    && (forall j :: 0 <= j < |kept| ==> !Crowded(gap, id, kept[..j], kept[j]))
    && (forall j :: |kept| <= j < |out| ==> Crowded(gap, id, kept, out[j]))
    && NearestFirst(gap, id, out[|kept|..])
    && (forall x :: x in list && x !in out ==>
          && NoNearer(gap, id, out[|kept|..], x)
          && (Crowded(gap, id, kept, x) || (|kept| == max && NoNearer(gap, id, kept, x))))
  }

  // The greedy choice over a sorted candidate list.

  lemma {:induction false} ChooseFirst(gap: (nat, nat) -> int, cand: seq<Cand>, max: nat)
    requires cand != [] && max > 0
    ensures var kept := Choose(gap, cand, max).kept; kept != [] && kept[0] == cand[0]
  {
    var front := cand[..|cand| - 1];
    if front == [] {
      assert Choose(gap, front, max) == Choice([], []);
    } else {
      ChooseFirst(gap, front, max);
    }
  }

  lemma {:induction false} ChooseSorted(gap: (nat, nat) -> int, cand: seq<Cand>, max: nat)
    requires SortedByDistance(cand)
    ensures SortedByDistance(Choose(gap, cand, max).kept) && SortedByDistance(Choose(gap, cand, max).spilled)
  {
    if cand != [] {
      var front, c := cand[..|cand| - 1], cand[|cand| - 1];
      var b := Choose(gap, front, max);
      ChooseSorted(gap, front, max);
      forall x | x in b.kept || x in b.spilled ensures x.d <= c.d {
        ChosenFrom(gap, front, max, x);
        var i :| 0 <= i < |front| && front[i] == x;
        assert cand[i] == x;
      }
      SnocSorted(b.kept, c);
      SnocSorted(b.spilled, c);
    }
  }

  lemma ChosenFrom(gap: (nat, nat) -> int, cand: seq<Cand>, max: nat, x: Cand)
    requires x in Choose(gap, cand, max).kept || x in Choose(gap, cand, max).spilled
    ensures x in cand
  {
    var b := Choose(gap, cand, max);
    var n := ChooseIs(gap, cand, max);
    assert x in multiset(b.kept + b.spilled);
    assert x in cand[..n];
  }

  /** A candidate is kept, crowded by a kept one, or comes after `max` that are no farther. */
  lemma CandidateFate(gap: (nat, nat) -> int, cand: seq<Cand>, max: nat, x: Cand)
    requires SortedByDistance(cand) && x in cand
    ensures var kept := Choose(gap, cand, max).kept;
            || x in kept || !Diverse(gap, kept, x)
            || (|kept| == max && forall k :: k in kept ==> k.d <= x.d)
  {
    var b := Choose(gap, cand, max);
    var n := ChooseIs(gap, cand, max);
    var j :| 0 <= j < |cand| && cand[j] == x;
    if j < n {
      assert cand[..n][j] == x && x in multiset(cand[..n]);
      assert x in b.kept + b.spilled;
    } else {
      forall k | k in b.kept ensures k.d <= x.d {
        assert k in multiset(b.kept + b.spilled);
        var i :| 0 <= i < n && cand[..n][i] == k;
        assert cand[i] == k;
      }
    }
  }

  // From candidates to ids.

  /** Candidates of `id`: each with its distance to it. */
  ghost predicate Measured(gap: (nat, nat) -> int, id: nat, list: seq<nat>, cand: seq<Cand>) {
    && (forall c :: c in cand ==> c.id in list && c.d == gap(id, c.id))
    && (forall x :: x in list ==> Cand(gap(id, x), x) in cand)
  }

  lemma SortedMeasured(gap: (nat, nat) -> int, id: nat, list: seq<nat>)
    requires Distinct(list)
    ensures var cand := SortByDistance(Neighbours(gap, id, list));
            && SortedByDistance(cand) && Distinct(IdsOf(cand)) && Dedup(cand) == cand && |cand| == |list|
            && Measured(gap, id, list, cand)
  {
    var all := Neighbours(gap, id, list);
    var cand := SortByDistance(all);
    SortSorts(all);
    SortHas(all);
    PermutedDistinct(all, cand);
    DedupDistinct(cand);
    assert |multiset(cand)| == |multiset(all)|;
    forall c | c in cand ensures c.id in list && c.d == gap(id, c.id) { assert c in multiset(cand); assert c in all; }
    forall x | x in list ensures Cand(gap(id, x), x) in cand {
      var k :| 0 <= k < |list| && list[k] == x;
      assert all[k] in multiset(all);
      assert all[k] in multiset(cand);
    }
  }

  lemma CrowdedIff(gap: (nat, nat) -> int, id: nat, kept: seq<Cand>, c: Cand)
    requires c.d == gap(id, c.id)
    ensures Crowded(gap, id, IdsOf(kept), c.id) <==> !Diverse(gap, kept, c)
  {
    if !Diverse(gap, kept, c) {
      var i :| 0 <= i < |kept| && gap(c.id, kept[i].id) < c.d;
      assert gap(c.id, IdsOf(kept)[i]) < gap(id, c.id);
    }
  }

  lemma KeptNearest(gap: (nat, nat) -> int, id: nat, list: seq<nat>, cand: seq<Cand>, max: nat, x: nat)
    requires SortedByDistance(cand) && Measured(gap, id, list, cand) && x in list && max > 0
    ensures var kept := IdsOf(Choose(gap, cand, max).kept); kept != [] && gap(id, kept[0]) <= gap(id, x)
  {
    var k :| 0 <= k < |cand| && cand[k] == Cand(gap(id, x), x);
    ChooseFirst(gap, cand, max);
    assert cand[0] in cand;
  }

  lemma KeptDiverse(gap: (nat, nat) -> int, id: nat, list: seq<nat>, cand: seq<Cand>, max: nat, j: nat)
    requires Measured(gap, id, list, cand) && j < |Choose(gap, cand, max).kept|
    ensures var kept := IdsOf(Choose(gap, cand, max).kept); !Crowded(gap, id, kept[..j], kept[j])
  {
    var kept := Choose(gap, cand, max).kept;
    var n := ChooseIs(gap, cand, max);
    ChosenFrom(gap, cand, max, kept[j]);
    assert IdsOf(kept[..j]) == IdsOf(kept)[..j];
    CrowdedIff(gap, id, kept[..j], kept[j]);
  }

  lemma KeptSorted(gap: (nat, nat) -> int, id: nat, list: seq<nat>, cand: seq<Cand>, max: nat)
    requires SortedByDistance(cand) && Measured(gap, id, list, cand)
    ensures NearestFirst(gap, id, IdsOf(Choose(gap, cand, max).kept))
  {
    var b := Choose(gap, cand, max);
    ChooseSorted(gap, cand, max);
    forall i | 0 <= i < |b.kept| ensures b.kept[i].d == gap(id, b.kept[i].id) {
      ChosenFrom(gap, cand, max, b.kept[i]);
    }
  }

  lemma SpilledCrowded(gap: (nat, nat) -> int, id: nat, list: seq<nat>, cand: seq<Cand>, max: nat, j: nat)
    requires Measured(gap, id, list, cand)
    requires |Choose(gap, cand, max).kept| <= j < |Selected(gap, cand, max)|
    ensures Crowded(gap, id, IdsOf(Choose(gap, cand, max).kept), Selected(gap, cand, max)[j])
  {
    var b := Choose(gap, cand, max);
    var n := ChooseIs(gap, cand, max);
    var c := b.spilled[j - |b.kept|];
    ChosenFrom(gap, cand, max, c);
    CrowdedIff(gap, id, b.kept, c);
  }

  lemma LeftOut(gap: (nat, nat) -> int, id: nat, list: seq<nat>, cand: seq<Cand>, max: nat, x: nat)
    requires SortedByDistance(cand) && Measured(gap, id, list, cand)
    requires x in list && x !in Selected(gap, cand, max)
    ensures var kept := IdsOf(Choose(gap, cand, max).kept);
            Crowded(gap, id, kept, x) || (|kept| == max && NoNearer(gap, id, kept, x))
  {
    var b, c := Choose(gap, cand, max), Cand(gap(id, x), x);
    var kept := IdsOf(b.kept);
    var n := ChooseIs(gap, cand, max);
    CandidateFate(gap, cand, max, c);
    CrowdedIff(gap, id, b.kept, c);
    forall i | 0 <= i < |kept| ensures kept[i] == Selected(gap, cand, max)[i] && b.kept[i].d == gap(id, kept[i]) {
      ChosenFrom(gap, cand, max, b.kept[i]);
    }
    assert c !in b.kept by {
      forall i | 0 <= i < |b.kept| ensures b.kept[i] != c { assert kept[i] in Selected(gap, cand, max); }
    }
  }

  /** The spilled candidates that still fit come nearest first, before those that do not. */
  lemma BackfillNearest(gap: (nat, nat) -> int, id: nat, list: seq<nat>, cand: seq<Cand>, max: nat)
    requires SortedByDistance(cand) && Measured(gap, id, list, cand)
    ensures |Choose(gap, cand, max).kept| <= |Selected(gap, cand, max)|
    ensures var more := Selected(gap, cand, max)[|Choose(gap, cand, max).kept|..];
            && NearestFirst(gap, id, more)
            && forall x :: x in list && x !in Selected(gap, cand, max) ==> NoNearer(gap, id, more, x)
  {
    var b, out := Choose(gap, cand, max), Selected(gap, cand, max);
    var n := ChooseIs(gap, cand, max);
    var more := out[|b.kept|..];
    ChooseSorted(gap, cand, max);
    forall i | 0 <= i < |b.spilled| ensures b.spilled[i].d == gap(id, b.spilled[i].id) {
      ChosenFrom(gap, cand, max, b.spilled[i]);
    }
    assert forall i :: 0 <= i < |more| ==> more[i] == b.spilled[i].id;
    forall x | x in list && x !in out ensures NoNearer(gap, id, more, x) {
      if more != [] { LeftOutLater(gap, id, list, cand, max, x); }
    }
  }

  lemma LeftOutLater(gap: (nat, nat) -> int, id: nat, list: seq<nat>, cand: seq<Cand>, max: nat, x: nat)
    requires SortedByDistance(cand) && Measured(gap, id, list, cand)
    requires x in list && x !in Selected(gap, cand, max) && |Choose(gap, cand, max).kept| < max
    ensures var b := Choose(gap, cand, max);
            forall i :: 0 <= i < |b.spilled| && |b.kept| + i < max ==> b.spilled[i].d <= gap(id, x)
  {
    var b, c := Choose(gap, cand, max), Cand(gap(id, x), x);
    var all := b.kept + b.spilled;
    ChooseSorted(gap, cand, max);
    assert IdsOf(all) == IdsOf(b.kept) + IdsOf(b.spilled);
    InAll(gap, cand, max, c);
    var k :| 0 <= k < |all| && all[k] == c;
    NotEarly(IdsOf(all), max, x, k);
  }

  lemma InAll(gap: (nat, nat) -> int, cand: seq<Cand>, max: nat, c: Cand)
    requires c in cand && |Choose(gap, cand, max).kept| < max
    ensures c in Choose(gap, cand, max).kept + Choose(gap, cand, max).spilled
  {
    var n := ChooseIs(gap, cand, max);
    assert cand[..n] == cand && c in multiset(cand);
  }

  lemma NotEarly(ids: seq<nat>, max: nat, x: nat, k: nat)
    requires k < |ids| && ids[k] == x && x !in (if |ids| <= max then ids else ids[..max])
    ensures k >= max
  {
    var out := if |ids| <= max then ids else ids[..max];
    assert forall i :: 0 <= i < |out| ==> out[i] == ids[i] && out[i] in out;
  }

  lemma SelectedExplained(gap: (nat, nat) -> int, id: nat, list: seq<nat>, cand: seq<Cand>, max: nat)
    requires SortedByDistance(cand) && Measured(gap, id, list, cand)
    ensures Explains(gap, id, list, max, IdsOf(Choose(gap, cand, max).kept), Selected(gap, cand, max))
  {
    var kept, out := IdsOf(Choose(gap, cand, max).kept), Selected(gap, cand, max);
    var n := ChooseIs(gap, cand, max);
    KeptSorted(gap, id, list, cand, max);
    forall x | x in list && max > 0 ensures kept != [] && gap(id, kept[0]) <= gap(id, x) {
      KeptNearest(gap, id, list, cand, max, x);
    }
    forall j | 0 <= j < |kept| ensures !Crowded(gap, id, kept[..j], kept[j]) {
      KeptDiverse(gap, id, list, cand, max, j);
    }
    BackfillNearest(gap, id, list, cand, max);
    forall j | |kept| <= j < |out| ensures Crowded(gap, id, kept, out[j]) {
      SpilledCrowded(gap, id, list, cand, max, j);
    }
    forall x | x in list && x !in out
      ensures Crowded(gap, id, kept, x) || (|kept| == max && NoNearer(gap, id, kept, x))
    {
      LeftOut(gap, id, list, cand, max, x);
    }
  }

  /** A list longer than `max` is trimmed to its diverse nearest, then to the crowded ones that still fit. */
  lemma PrunedExplained(gap: (nat, nat) -> int, id: nat, list: seq<nat>, max: nat) returns (kept: seq<nat>)
    requires Distinct(list) && |list| > max
    ensures Explains(gap, id, list, max, kept, PrunedList(gap, id, list, max))
  {
    var cand := SortByDistance(Neighbours(gap, id, list));
    SortedMeasured(gap, id, list);
    kept := IdsOf(Choose(gap, cand, max).kept);
    SelectedExplained(gap, id, list, cand, max);
  }

  // The order of the list does not matter.

  ghost predicate StrictlySorted(s: seq<Cand>) { forall i, j :: 0 <= i < j < |s| ==> s[i].d < s[j].d }

  ghost predicate Subset(s: seq<Cand>, t: seq<Cand>) { forall i :: 0 <= i < |s| ==> s[i] in t }

  /** The last of a sorted list that lies in another is no farther than that one's last. */
  lemma LastInto(s: seq<Cand>, t: seq<Cand>)
    requires StrictlySorted(t) && s != [] && Subset(s, t)
    ensures t != [] && s[|s| - 1].d <= t[|t| - 1].d
    ensures s[|s| - 1].d == t[|t| - 1].d ==> s[|s| - 1] == t[|t| - 1]
  {
    assert s[|s| - 1] in t;
  }

  lemma FrontInto(s: seq<Cand>, t: seq<Cand>)
    requires StrictlySorted(s) && s != [] && t != [] && s[|s| - 1] == t[|t| - 1] && Subset(s, t)
    ensures Subset(s[..|s| - 1], t[..|t| - 1])
  {
    var p, q := s[..|s| - 1], t[..|t| - 1];
    forall i | 0 <= i < |p| ensures p[i] in q {
      assert s[i] in t;
      var k :| 0 <= k < |t| && t[k] == s[i];
      assert q[k] == p[i];
    }
  }

  lemma {:induction false} SortedUnique(s: seq<Cand>, t: seq<Cand>)
    requires StrictlySorted(s) && StrictlySorted(t) && Subset(s, t) && Subset(t, s)
    ensures s == t
  {
    if s != [] {
      LastInto(s, t);
      LastInto(t, s);
      FrontInto(s, t);
      FrontInto(t, s);
      SortedUnique(s[..|s| - 1], t[..|t| - 1]);
      assert s == s[..|s| - 1] + [s[|s| - 1]] && t == t[..|t| - 1] + [t[|t| - 1]];
    }
  }

  ghost predicate DistancesDiffer(gap: (nat, nat) -> int, id: nat, list: seq<nat>) {
    forall x, y :: x in list && y in list && x != y ==> gap(id, x) != gap(id, y)
  }

  lemma SortedStrictly(gap: (nat, nat) -> int, id: nat, list: seq<nat>, s: seq<Cand>)
    requires SortedByDistance(s) && Distinct(IdsOf(s)) && Measured(gap, id, list, s)
    requires DistancesDiffer(gap, id, list)
    ensures StrictlySorted(s)
  {
    forall i, j | 0 <= i < j < |s| ensures s[i].d < s[j].d {
      assert s[i] in s && s[j] in s && IdsOf(s)[i] != IdsOf(s)[j];
    }
  }

  lemma MeasuredSubset(gap: (nat, nat) -> int, id: nat, a: seq<nat>, b: seq<nat>, s: seq<Cand>, t: seq<Cand>)
    requires Measured(gap, id, a, s) && Measured(gap, id, b, t) && forall x :: x in a ==> x in b
    ensures Subset(s, t)
  {
    forall i | 0 <= i < |s| ensures s[i] in t { assert s[i] in s; }
  }

  /** With distances to `id` all different, the trimmed list does not depend on the order of the list. */
  lemma PrunedOrderFree(gap: (nat, nat) -> int, id: nat, a: seq<nat>, b: seq<nat>, max: nat)
    requires Distinct(a) && Distinct(b) && |a| > max && |b| > max && forall x :: x in a <==> x in b
    requires DistancesDiffer(gap, id, a)
    ensures PrunedList(gap, id, a, max) == PrunedList(gap, id, b, max)
  {
    var s, t := SortByDistance(Neighbours(gap, id, a)), SortByDistance(Neighbours(gap, id, b));
    SortedMeasured(gap, id, a);
    SortedMeasured(gap, id, b);
    SortedStrictly(gap, id, a, s);
    SortedStrictly(gap, id, b, t);
    MeasuredSubset(gap, id, a, b, s, t);
    MeasuredSubset(gap, id, b, a, t, s);
    SortedUnique(s, t);
  }
}
