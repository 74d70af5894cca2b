/** One layer's links: trimming a list, and what linking a new node changes. */
module HnswLinks {
  import opened HnswGraph
  import opened HnswSearch
  import opened HnswSelect
  import opened Prelude

  // Sorting a neighbour list by distance before pruning.

  function Place(s: seq<Cand>, c: Cand): seq<Cand> {
    if s == [] || s[|s| - 1].d <= c.d then s + [c] else Place(s[..|s| - 1], c) + [s[|s| - 1]]
  }

  /** Stable sort by distance. */
  function SortByDistance(s: seq<Cand>): seq<Cand> {
    if s == [] then [] else Place(SortByDistance(s[..|s| - 1]), s[|s| - 1])
  }

  /** Drop every candidate that repeats the id before it. */
  function Dedup(s: seq<Cand>): (r: seq<Cand>)
    ensures s != [] ==> r != [] && r[|r| - 1].id == s[|s| - 1].id
  {
    if |s| < 2 then s
    else if s[|s| - 2].id == s[|s| - 1].id then Dedup(s[..|s| - 1])
    else Dedup(s[..|s| - 1]) + [s[|s| - 1]]
  }

  lemma {:induction false} PlaceSorts(s: seq<Cand>, c: Cand)
    requires SortedByDistance(s)
    ensures SortedByDistance(Place(s, c))
  {
    if s != [] && s[|s| - 1].d > c.d {
      var front, last := s[..|s| - 1], s[|s| - 1];
      PlaceSorts(front, c);
      PlaceHas(front, c);
      SnocSorted(Place(front, c), last);
    }
  }

  lemma SnocSorted(s: seq<Cand>, c: Cand)
    requires SortedByDistance(s) && forall x :: x in s ==> x.d <= c.d
    ensures SortedByDistance(s + [c])
  {
    forall i | 0 <= i < |s| ensures s[i].d <= c.d { assert s[i] in s; }
  }

  lemma {:induction false} PlaceHas(s: seq<Cand>, c: Cand)
    ensures forall x :: x in Place(s, c) ==> x in s || x == c
  {
    if s != [] && s[|s| - 1].d > c.d { PlaceHas(s[..|s| - 1], c); }
  }

  lemma {:induction false} PlaceCounts(s: seq<Cand>, c: Cand)
    ensures multiset(Place(s, c)) == multiset(s) + multiset{c}
  {
    if s != [] && s[|s| - 1].d > c.d {
      var front, last := s[..|s| - 1], s[|s| - 1];
      PlaceCounts(front, c);
      assert s == front + [last];
    }
  }

  lemma {:induction false} SortSorts(s: seq<Cand>)
    ensures SortedByDistance(SortByDistance(s))
  {
    if s != [] {
      SortSorts(s[..|s| - 1]);
      PlaceSorts(SortByDistance(s[..|s| - 1]), s[|s| - 1]);
    }
  }

  lemma {:induction false} SortHas(s: seq<Cand>)
    ensures multiset(SortByDistance(s)) == multiset(s)
  {
    if s != [] {
      var front, c := s[..|s| - 1], s[|s| - 1];
      SortHas(front);
      PlaceCounts(SortByDistance(front), c);
      assert multiset(s) == multiset(front) + multiset{c} by { assert s == front + [c]; }
    }
  }

  lemma {:induction false} DedupDistinct(s: seq<Cand>)
    requires Distinct(IdsOf(s))
    ensures Dedup(s) == s
  {
    if |s| >= 2 {
      assert IdsOf(s)[|s| - 2] != IdsOf(s)[|s| - 1];
      var front := s[..|s| - 1];
      forall i, j | 0 <= i < j < |front| ensures IdsOf(front)[i] != IdsOf(front)[j] {
        assert IdsOf(s)[i] != IdsOf(s)[j];
      }
      DedupDistinct(front);
    }
  }

  /** A permutation of candidates with distinct ids has distinct ids. */
  lemma PermutedDistinct(s: seq<Cand>, t: seq<Cand>)
    requires multiset(s) == multiset(t) && Distinct(IdsOf(s))
    ensures Distinct(IdsOf(t)) && forall k :: 0 <= k < |t| ==> t[k] in s
  {
    assert s[..|s|] == s;
    forall i, j | 0 <= i < j < |t| ensures IdsOf(t)[i] != IdsOf(t)[j] { DistinctDrawn(s, |s|, t, i, j); }
    forall k | 0 <= k < |t| ensures t[k] in s { assert t[k] in multiset(t); }
  }

  /** Each neighbour with its distance to `id`. */
  function Neighbours(gap: (nat, nat) -> int, id: nat, list: seq<nat>): (s: seq<Cand>)
    ensures IdsOf(s) == list
  {
    seq(|list|, k requires 0 <= k < |list| => Cand(gap(id, list[k]), list[k]))
  }

  /** `prune` on one list: the whole list when it fits, else the diverse selection of its nearest. */
  function PrunedList(gap: (nat, nat) -> int, id: nat, list: seq<nat>, max: nat): seq<nat> {
    if |list| <= max then list else Selected(gap, Dedup(SortByDistance(Neighbours(gap, id, list))), max)
  }

  /** A trimmed list holds `max` of its ids when there were more, none twice. */
  lemma PrunedListIs(gap: (nat, nat) -> int, id: nat, list: seq<nat>, max: nat)
    requires Distinct(list)
    ensures |PrunedList(gap, id, list, max)| == (if |list| <= max then |list| else max)
    ensures Distinct(PrunedList(gap, id, list, max))
    ensures forall k :: 0 <= k < |PrunedList(gap, id, list, max)| ==> PrunedList(gap, id, list, max)[k] in list
  {
    if |list| > max {
      var all := Neighbours(gap, id, list);
      var scored := SortByDistance(all);
      SortHas(all);
      PermutedDistinct(all, scored);
      DedupDistinct(scored);
      assert |scored| == |all| by { assert |multiset(scored)| == |multiset(all)|; }
      SelectedIs(gap, scored, max);
      FromList(list, all, scored, PrunedList(gap, id, list, max));
    }
  }

  lemma FromList(list: seq<nat>, all: seq<Cand>, scored: seq<Cand>, out: seq<nat>)
    requires IdsOf(all) == list && forall k :: 0 <= k < |scored| ==> scored[k] in all
    requires forall k :: 0 <= k < |out| ==> out[k] in IdsOf(scored)
    ensures forall k :: 0 <= k < |out| ==> out[k] in list
  {
    forall k | 0 <= k < |out| ensures out[k] in list {
      assert out[k] in IdsOf(scored);
      var i :| 0 <= i < |scored| && IdsOf(scored)[i] == out[k];
      var j :| 0 <= j < |all| && all[j] == scored[i];
      assert list[j] == out[k];
    }
  }

  lemma PrunedGood(nodes: seq<Node>, gap: (nat, nat) -> int, id: nat, l: nat, list: seq<nat>, max: nat)
    requires GoodList(nodes, id, l, list)
    ensures GoodList(nodes, id, l, PrunedList(gap, id, list, max)) && |PrunedList(gap, id, list, max)| <= max
  {
    PrunedListIs(gap, id, list, max);
  }

  method Pruned(nodes: seq<Node>, dist: Distance, id: nat, l: nat, max: nat) returns (list: seq<nat>)
    requires Wired(nodes) && OnLayer(nodes, l, id)
    ensures list == PrunedList(Gap(nodes, dist), id, nodes[id].neighbors[l], max)
  {
    list := nodes[id].neighbors[l];
    assert GoodList(nodes, id, l, list);
    if |list| <= max { return; }
    var all := Neighbours(Gap(nodes, dist), id, list);
    var scored := SortByDistance(all);
    SortHas(all);
    PermutedDistinct(all, scored);
    scored := Dedup(scored);
    DedupDistinct(SortByDistance(all));
    ScoredKnown(nodes, all, list, scored);
    list := SelectDiverse(nodes, dist, scored, max);
  }

  lemma ScoredKnown(nodes: seq<Node>, all: seq<Cand>, list: seq<nat>, scored: seq<Cand>)
    requires IdsOf(all) == list && (forall k :: 0 <= k < |list| ==> list[k] < |nodes|)
    requires forall k :: 0 <= k < |scored| ==> scored[k] in all
    ensures Known(nodes, scored)
  {
    forall k | 0 <= k < |scored| ensures scored[k].id < |nodes| {
      var i :| 0 <= i < |all| && all[i] == scored[k];
      assert list[i] == scored[k].id;
    }
  }

  // What a layer looks like after a new node was linked into it.

  /** The lists of layer `l` are the same. */
  ghost predicate Untouched(a: seq<Node>, b: seq<Node>, l: nat) {
    SameNodes(a, b) && forall i :: 0 <= i < |a| && l < |a[i].neighbors| ==> b[i].neighbors[l] == a[i].neighbors[l]
  }

  /** On layer `l` the new node lists `chosen`, each chosen node has it appended and is trimmed, and no
      other list changed. */
  ghost predicate Relinked(a: seq<Node>, b: seq<Node>, gap: (nat, nat) -> int, id: nat, l: nat, chosen: seq<nat>,
                           max: nat) {
    && SameNodes(a, b) && OnLayer(a, l, id) && b[id].neighbors[l] == chosen
    && forall i :: 0 <= i < |a| && i != id && l < |a[i].neighbors| ==>
         b[i].neighbors[l] == Backlinked(a, gap, id, l, chosen, max, i)
  }

  function Backlinked(a: seq<Node>, gap: (nat, nat) -> int, id: nat, l: nat, chosen: seq<nat>, max: nat,
                      i: nat): seq<nat>
    requires OnLayer(a, l, i)
  {
    if i in chosen then PrunedList(gap, i, a[i].neighbors[l] + [id], max) else a[i].neighbors[l]
  }

  /** While a list has room, a new link is appended and nothing is dropped: `m0` links on the ground layer, `m`
      above. */
  lemma LinkAppended(a: seq<Node>, gap: (nat, nat) -> int, id: nat, l: nat, chosen: seq<nat>, m: nat, m0: nat, i: nat)
    requires OnLayer(a, l, i) && i in chosen && |a[i].neighbors[l]| < (if l == 0 then m0 else m)
    ensures Backlinked(a, gap, id, l, chosen, Cap(m, m0, l), i) == a[i].neighbors[l] + [id]
  {
  }

  /** One more chosen node linked. */
  lemma RelinkNext(a: seq<Node>, b: seq<Node>, c: seq<Node>, gap: (nat, nat) -> int, id: nat, l: nat,
                   chosen: seq<nat>, nb: nat, max: nat)
    requires Relinked(a, b, gap, id, l, chosen, max) && OnLayer(a, l, nb) && nb != id && nb !in chosen
    requires OnlyLayer(b, c, l) && c[id].neighbors[l] == chosen + [nb]
    requires c[nb].neighbors[l] == PrunedList(gap, nb, b[nb].neighbors[l] + [id], max)
    requires forall i :: 0 <= i < |b| && i != id && i != nb ==> c[i] == b[i]
    ensures Relinked(a, c, gap, id, l, chosen + [nb], max)
  {
    forall i | 0 <= i < |a| && i != id && l < |a[i].neighbors|
      ensures c[i].neighbors[l] == Backlinked(a, gap, id, l, chosen + [nb], max, i)
    {
      assert b[i].neighbors[l] == Backlinked(a, gap, id, l, chosen, max, i);
    }
  }

  lemma RelinkedLater(a: seq<Node>, b: seq<Node>, c: seq<Node>, gap: (nat, nat) -> int, id: nat, l: nat,
                      chosen: seq<nat>, max: nat)
    requires Relinked(a, b, gap, id, l, chosen, max) && Untouched(b, c, l)
    ensures Relinked(a, c, gap, id, l, chosen, max)
  {
    forall i | 0 <= i < |a| && i != id && l < |a[i].neighbors|
      ensures c[i].neighbors[l] == Backlinked(a, gap, id, l, chosen, max, i)
    {
      assert b[i].neighbors[l] == Backlinked(a, gap, id, l, chosen, max, i);
    }
  }

  lemma RelinkedSince(a: seq<Node>, b: seq<Node>, c: seq<Node>, gap: (nat, nat) -> int, id: nat, l: nat,
                      chosen: seq<nat>, max: nat)
    requires Untouched(a, b, l) && Relinked(b, c, gap, id, l, chosen, max)
    ensures Relinked(a, c, gap, id, l, chosen, max)
  {
    forall i | 0 <= i < |a| && i != id && l < |a[i].neighbors|
      ensures c[i].neighbors[l] == Backlinked(a, gap, id, l, chosen, max, i)
    {
      assert c[i].neighbors[l] == Backlinked(b, gap, id, l, chosen, max, i);
    }
  }

  lemma SameVectors(a: seq<Node>, b: seq<Node>)
    requires SameNodes(a, b)
    ensures Vectors(a) == Vectors(b)
  {
  }

  // A search depends on its own layer only.

  lemma SamePaths(a: seq<Node>, b: seq<Node>, l: nat, p: seq<nat>)
    requires Untouched(a, b, l) && Path(a, l, p)
    ensures Path(b, l, p)
  {
    forall i | 0 < i < |p| ensures p[i] in b[p[i - 1]].neighbors[l] { assert OnLayer(a, l, p[i - 1]); }
  }

  lemma SameReachable(a: seq<Node>, b: seq<Node>, l: nat, x: nat)
    requires Untouched(a, b, l)
    ensures Reachable(a, l, x) == Reachable(b, l, x)
  {
    forall y | y in Reachable(a, l, x) ensures y in Reachable(b, l, x) {
      var p :| Path(a, l, p) && p[0] == x && p[|p| - 1] == y;
      SamePaths(a, b, l, p);
    }
    forall y | y in Reachable(b, l, x) ensures y in Reachable(a, l, x) {
      var p :| Path(b, l, p) && p[0] == x && p[|p| - 1] == y;
      SamePaths(b, a, l, p);
    }
  }

  lemma SameFound(a: seq<Node>, b: seq<Node>, score: nat -> int, l: nat, x: nat, ef: nat, visited: set<nat>,
                  out: seq<Cand>)
    requires Untouched(a, b, l) && Found(a, score, l, x, ef, visited, out)
    ensures Found(b, score, l, x, ef, visited, out)
  {
    SameReachable(a, b, l, x);
    forall c | c in out ensures Expanded(b, l, c.id, visited) { assert Expanded(a, l, c.id, visited); }
  }

  /** One layer's search on the way down. */
  datatype Step = Step(at: nat, visited: set<nat>, found: seq<Cand>)

  /** Searches from layer `top` down, each from the nearest node the one above it found. */
  ghost predicate Trail(nodes: seq<Node>, score: nat -> int, ef: nat, start: nat, top: nat, steps: seq<Step>) {
    steps == [] ||
    var above, s := steps[..|steps| - 1], steps[|steps| - 1];
    && Trail(nodes, score, ef, start, top, above)
    && |above| <= top && s.found != [] && s.at == Landing(start, above)
    && Found(nodes, score, top - |above|, s.at, ef, s.visited, s.found)
  }

  /** Where the last search ended: at the nearest node it found. */
  ghost function Landing(start: nat, steps: seq<Step>): nat {
    if steps == [] || steps[|steps| - 1].found == [] then start else steps[|steps| - 1].found[0].id
  }

  lemma TrailNext(nodes: seq<Node>, score: nat -> int, ef: nat, start: nat, top: nat, steps: seq<Step>, s: Step)
    requires Trail(nodes, score, ef, start, top, steps) && |steps| <= top && s.found != [] &&
             s.at == Landing(start, steps)
    requires Found(nodes, score, top - |steps|, s.at, ef, s.visited, s.found)
    ensures Trail(nodes, score, ef, start, top, steps + [s]) && Landing(start, steps + [s]) == s.found[0].id
  {
    assert (steps + [s])[..|steps|] == steps;
  }

  // Inserting a node, layer by layer.

  /** The node of a key soft-deleted. */
  function Retired(nodes: seq<Node>, byKey: map<Key, nat>, key: Key): seq<Node> {
    if key in byKey && byKey[key] < |nodes| then nodes[byKey[key] := nodes[byKey[key]].(deleted := true)] else nodes
  }

  function Admitted(nodes: seq<Node>, byKey: map<Key, nat>, key: Key, vector: Stored, level: nat): seq<Node> {
    Retired(nodes, byKey, key) + [Node(vector, key, Bare(level), false)]
  }

  /** The layers from `l` to `top` are linked to what their searches found; the others are untouched. */
  ghost predicate Woven(a: seq<Node>, b: seq<Node>, gap: (nat, nat) -> int, m: nat, m0: nat, id: nat, top: nat, l: nat,
                        steps: seq<Step>) {
    && SameNodes(a, b) && |steps| == top + 1 - l
    && (forall k: nat :: k < l || k > top ==> Untouched(a, b, k))
    && forall k: nat :: l <= k <= top ==> LinkedAt(a, b, gap, m, m0, id, top, steps, k)
  }

  ghost predicate LinkedAt(a: seq<Node>, b: seq<Node>, gap: (nat, nat) -> int, m: nat, m0: nat, id: nat, top: nat,
                           steps: seq<Step>, k: nat)
    requires 0 <= top - k < |steps|
  {
    LinkedTo(a, b, gap, m, m0, id, k, steps[top - k])
  }

  /** Layer `k` is linked to the diverse selection of what was found there. */
  ghost predicate LinkedTo(a: seq<Node>, b: seq<Node>, gap: (nat, nat) -> int, m: nat, m0: nat, id: nat, k: nat,
                           s: Step) {
    Relinked(a, b, gap, id, k, Selected(gap, s.found, Cap(m, m0, k)), Cap(m, m0, k))
  }

  lemma WovenNext(a: seq<Node>, b: seq<Node>, c: seq<Node>, gap: (nat, nat) -> int, m: nat, m0: nat, id: nat,
                  top: nat, l: nat, steps: seq<Step>, s: Step)
    requires l <= top && Woven(a, b, gap, m, m0, id, top, l + 1, steps) && OnlyLayer(b, c, l)
    requires LinkedTo(b, c, gap, m, m0, id, l, s)
    ensures Woven(a, c, gap, m, m0, id, top, l, steps + [s])
  {
    var more := steps + [s];
    forall k: nat | k < l || k > top ensures Untouched(a, c, k) { assert Untouched(a, b, k); }
    forall k: nat | l <= k <= top ensures LinkedAt(a, c, gap, m, m0, id, top, more, k) {
      if k == l {
        RelinkedSince(a, b, c, gap, id, l, Selected(gap, s.found, Cap(m, m0, l)), Cap(m, m0, l));
      } else {
        assert LinkedAt(a, b, gap, m, m0, id, top, steps, k);
        RelinkedLater(a, b, c, gap, id, k, Selected(gap, steps[top - k].found, Cap(m, m0, k)), Cap(m, m0, k));
      }
    }
  }

  /** Wiring under way: the layers above `l` are done, the new node is bare on the others. */
  ghost predicate Weaving(a: seq<Node>, b: seq<Node>, dist: Distance, query: Stored, ef: nat, m: nat, m0: nat, id: nat,
                          start: nat, top: nat, l: nat, steps: seq<Step>, cur: nat) {
    && Wired(b) && Capped(b, m, m0) && Woven(a, b, Gap(a, dist), m, m0, id, top, l, steps)
    && Trail(a, Score(a, dist, query), ef, start, top, steps) && cur == Landing(start, steps)
    && cur != id && (l > 0 ==> OnLayer(b, l - 1, cur)) && OnLayer(b, top, id)
    && forall k: nat :: k < l ==> Unlinked(b, id, k) && b[id].neighbors[k] == []
  }

  /** How a new node of a given level was attached below the entry `e`. */
  ghost predicate Attached(a: seq<Node>, b: seq<Node>, dist: Distance, ef: nat, m: nat, m0: nat, id: nat, level: nat,
                           e: nat) {
    exists down, wire :: AttachedVia(a, b, dist, ef, m, m0, id, level, e, down, wire)
  }

  /** A small-beam descent to the top layer the new node shares, then on each layer a wide-beam search whose
      diverse selection it is linked to. */
  ghost predicate AttachedVia(a: seq<Node>, b: seq<Node>, dist: Distance, ef: nat, m: nat, m0: nat, id: nat,
                              level: nat, e: nat, down: seq<Step>, wire: seq<Step>) {
    && e < |a| && id < |a| && a[e].neighbors != []
    && var entryLevel := |a[e].neighbors| - 1;
       var top := if level < entryLevel then level else entryLevel;
       var score := Score(a, dist, a[id].vector);
       && Trail(a, score, 8, e, entryLevel, down) && |down| == entryLevel - top
       && Trail(a, score, ef, Landing(e, down), top, wire) && |wire| == top + 1
       && Woven(a, b, Gap(a, dist), m, m0, id, top, 0, wire)
  }

  /** A new node, the last, not linked yet: everything else is in order. */
  ghost predicate Fresh(nodes: seq<Node>, m: nat, m0: nat, entry: Option<nat>, byKey: map<Key, nat>, id: nat,
                        level: nat) {
    && |nodes| == id + 1 && nodes[id].neighbors == Bare(level) && Isolated(nodes, id)
    && Wired(nodes) && Levelled(nodes) && Capped(nodes, m, m0) && Topped(nodes[..id], entry) && Indexed(nodes, byKey)
  }

  /** The first node is the entry. */
  lemma FirstSound(nodes: seq<Node>, m: nat, m0: nat, byKey: map<Key, nat>, id: nat, level: nat)
    requires Fresh(nodes, m, m0, None, byKey, id, level)
    ensures Sound(nodes, m, m0, Some(id), byKey) && id == 0
  {
  }

  /** What inserting below an entry `e` leaves. */
  ghost predicate Joined(nodes0: seq<Node>, byKey0: map<Key, nat>, e: nat, key: Key, vector: Stored, level: nat,
                         dist: Distance, ef: nat, m: nat, m0: nat, nodes: seq<Node>, entry: Option<nat>) {
    var before := Admitted(nodes0, byKey0, key, vector, level);
    && SameNodes(before, nodes) && Attached(before, nodes, dist, ef, m, m0, |nodes0|, level, e)
    && entry == if level >= Height(before, e) then Some(|nodes0|) else Some(e)
  }

  lemma {:induction false} TrailFinds(nodes: seq<Node>, score: nat -> int, ef: nat, start: nat, top: nat,
                                      steps: seq<Step>, i: nat)
    requires Trail(nodes, score, ef, start, top, steps) && i < |steps|
    ensures steps[i].found != []
  {
    if i < |steps| - 1 { TrailFinds(nodes, score, ef, start, top, steps[..|steps| - 1], i); }
  }

  lemma WovenLinked(a: seq<Node>, b: seq<Node>, gap: (nat, nat) -> int, m: nat, m0: nat, id: nat, top: nat,
                    wire: seq<Step>, l: nat)
    requires Woven(a, b, gap, m, m0, id, top, 0, wire) && l <= top && m > 0 && m0 > 0 && wire[top - l].found != []
    ensures OnLayer(b, l, id) && b[id].neighbors[l] != []
  {
    assert LinkedAt(a, b, gap, m, m0, id, top, wire, l);
    SelectedSome(gap, wire[top - l].found, Cap(m, m0, l));
  }

  lemma ViaLinked(a: seq<Node>, b: seq<Node>, dist: Distance, ef: nat, m: nat, m0: nat, id: nat, level: nat, e: nat,
                  down: seq<Step>, wire: seq<Step>, l: nat)
    requires AttachedVia(a, b, dist, ef, m, m0, id, level, e, down, wire) && m > 0 && m0 > 0 && l <= level &&
             l < Height(a, e)
    ensures OnLayer(b, l, id) && b[id].neighbors[l] != []
  {
    var top := |wire| - 1;
    TrailFinds(a, Score(a, dist, a[id].vector), ef, Landing(e, down), top, wire, top - l);
    WovenLinked(a, b, Gap(a, dist), m, m0, id, top, wire, l);
  }

  /** An attached node has a neighbour on every layer it shares with the entry. */
  lemma AttachedLinked(a: seq<Node>, b: seq<Node>, dist: Distance, ef: nat, m: nat, m0: nat, id: nat, level: nat,
                       e: nat, l: nat)
    requires Attached(a, b, dist, ef, m, m0, id, level, e) && m > 0 && m0 > 0 && l <= level && l < Height(a, e)
    ensures OnLayer(b, l, id) && b[id].neighbors[l] != []
  {
    var down: seq<Step>, wire: seq<Step> :| AttachedVia(a, b, dist, ef, m, m0, id, level, e, down, wire);
    ViaLinked(a, b, dist, ef, m, m0, id, level, e, down, wire, l);
  }
}
