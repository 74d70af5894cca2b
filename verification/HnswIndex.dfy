/** The index itself: insert, replace, soft delete and filtered search over the layered graph. */
module HnswIndex {
  import opened HnswGraph
  import opened HnswLinks
  import opened HnswSearch
  import opened HnswSelect
  import opened Prelude

  /** One layer of a walk down: search it from `cur`, and add the search to the trail. `nodes0` is the graph the
      trail is about; this layer of it is still the same. */
  method Follow(nodes: seq<Node>, dist: Distance, query: Stored, ef: nat, l: nat, cur: nat, ghost nodes0: seq<Node>,
                ghost start: nat, ghost top: nat, ghost steps: seq<Step>, ghost newcomer: nat)
    returns (cand: seq<Cand>, ghost s: Step)
    requires Wired(nodes) && OnLayer(nodes, l, cur) && Untouched(nodes, nodes0, l)
    requires Trail(nodes0, Score(nodes0, dist, query), ef, start, top, steps) && cur == Landing(start, steps) &&
             |steps| + l == top
    ensures cand != [] && Usable(nodes, l, cand) && s.found == cand && cand[0].id == Landing(start, steps + [s])
    ensures Trail(nodes0, Score(nodes0, dist, query), ef, start, top, steps + [s])
    ensures newcomer != cur && Unlinked(nodes, newcomer, l) ==> Lacks(cand, newcomer)
  {
    SameVectors(nodes, nodes0);
    ghost var visited;
    cand, visited := SearchLayer(nodes, dist, query, cur, ef, l);
    s := Step(cur, visited, cand);
    NearestFound(nodes, Score(nodes0, dist, query), l, cur, ef, visited, cand, newcomer);
    Followed(nodes, nodes0, Score(nodes0, dist, query), ef, start, top, l, steps, s);
  }

  lemma Followed(nodes: seq<Node>, nodes0: seq<Node>, score: nat -> int, ef: nat, start: nat, top: nat, l: nat,
                 steps: seq<Step>, s: Step)
    requires Untouched(nodes, nodes0, l) && Trail(nodes0, score, ef, start, top, steps) && s.at == Landing(start, steps)
    requires |steps| + l == top && s.found != [] && Found(nodes, score, l, s.at, ef, s.visited, s.found)
    ensures Trail(nodes0, score, ef, start, top, steps + [s]) && s.found[0].id == Landing(start, steps + [s])
  {
    SameFound(nodes, nodes0, score, l, s.at, ef, s.visited, s.found);
    TrailNext(nodes0, score, ef, start, top, steps, s);
  }

  ghost predicate Lacks(cand: seq<Cand>, id: nat) { forall i :: 0 <= i < |cand| ==> cand[i].id != id }

  /** Candidates on the layer, none twice. */
  ghost predicate Usable(nodes: seq<Node>, l: nat, cand: seq<Cand>) {
    Known(nodes, cand) && Distinct(IdsOf(cand)) && forall i :: 0 <= i < |cand| ==> OnLayer(nodes, l, cand[i].id)
  }

  /** Descend by a small beam from layer `from` to just above layer `to`. */
  method Descend(nodes: seq<Node>, dist: Distance, query: Stored, start: nat, from: nat, to: nat,
                 ghost newcomer: nat) returns (cur: nat, ghost steps: seq<Step>)
    requires Wired(nodes) && OnLayer(nodes, from, start) && to <= from
    ensures Trail(nodes, Score(nodes, dist, query), 8, start, from, steps) && |steps| == from - to
    ensures cur == Landing(start, steps) && OnLayer(nodes, to, cur)
    ensures newcomer != start && Isolated(nodes, newcomer) ==> cur != newcomer
  {
    cur, steps := start, [];
    var l := from;
    while l > to
      invariant to <= l <= from && OnLayer(nodes, l, cur)
      invariant Trail(nodes, Score(nodes, dist, query), 8, start, from, steps) && |steps| == from - l &&
                cur == Landing(start, steps)
      invariant newcomer != start && Isolated(nodes, newcomer) ==> cur != newcomer
    {
      var cand, s := Follow(nodes, dist, query, 8, l, cur, nodes, start, from, steps, newcomer);
      steps := steps + [s];
      cur := cand[0].id;
      l := l - 1;
    }
  }

  /** A layer search always finds something, on its layer, and never an unlinked node. */
  lemma NearestFound(nodes: seq<Node>, score: nat -> int, l: nat, cur: nat, ef: nat, visited: set<nat>, cand: seq<Cand>,
                     newcomer: nat)
    requires Found(nodes, score, l, cur, ef, visited, cand)
    ensures cand != [] && Usable(nodes, l, cand)
    ensures newcomer != cur && Unlinked(nodes, newcomer, l) ==> Lacks(cand, newcomer)
  {
    assert visited != {};
    forall i | 0 <= i < |cand| ensures OnLayer(nodes, l, cand[i].id) {
      assert cand[i] in cand;
      ReachableOnLayer(nodes, l, cur, cand[i].id);
    }
    if newcomer != cur && Unlinked(nodes, newcomer, l) {
      UnlinkedUnreached(nodes, l, cur, newcomer);
      forall i | 0 <= i < |cand| ensures cand[i].id != newcomer { assert cand[i] in cand; }
    }
    forall i, j | 0 <= i < j < |cand| ensures IdsOf(cand)[i] != IdsOf(cand)[j] {
      assert cand[i] in cand && cand[j] in cand && cand[i] != cand[j];
    }
  }

  datatype Hit = Hit(key: Key, d: int)

  predicate Kept(nodes: seq<Node>, keep: Key -> bool, id: nat) {
    id < |nodes| && !nodes[id].deleted && keep(nodes[id].key)
  }

  /** The live candidates that pass the filter, in candidate order. */
  function Hits(nodes: seq<Node>, keep: Key -> bool, cand: seq<Cand>): seq<Hit> {
    if cand == [] then []
    else
      var c := cand[|cand| - 1];
      if Kept(nodes, keep, c.id) then Hits(nodes, keep, cand[..|cand| - 1]) + [Hit(nodes[c.id].key, c.d)]
      else Hits(nodes, keep, cand[..|cand| - 1])
  }

  lemma {:induction false} HitsPrefix(nodes: seq<Node>, keep: Key -> bool, cand: seq<Cand>, n: nat)
    requires n <= |cand|
    ensures Hits(nodes, keep, cand[..n]) <= Hits(nodes, keep, cand)
    decreases |cand|
  {
    if n < |cand| {
      assert cand[..|cand| - 1][..n] == cand[..n];
      HitsPrefix(nodes, keep, cand[..|cand| - 1], n);
    } else {
      assert cand[..n] == cand;
    }
  }

  /** A hit is exactly a kept live candidate. */
  lemma {:induction false} HitsAre(nodes: seq<Node>, keep: Key -> bool, cand: seq<Cand>)
    ensures forall h :: h in Hits(nodes, keep, cand) ==>
              exists c :: c in cand && Kept(nodes, keep, c.id) && h == Hit(nodes[c.id].key, c.d)
    ensures forall c :: c in cand && Kept(nodes, keep, c.id) ==> Hit(nodes[c.id].key, c.d) in Hits(nodes, keep, cand)
  {
    if cand != [] {
      var front, c := cand[..|cand| - 1], cand[|cand| - 1];
      HitsAre(nodes, keep, front);
      assert cand == front + [c];
    }
  }

  ghost predicate NearestFirst(hits: seq<Hit>) {
    forall i, j :: 0 <= i < j < |hits| ==> hits[i].d <= hits[j].d && hits[i].key != hits[j].key
  }

  /** Hits of a sorted, duplicate-free candidate list are nearest first with distinct keys. */
  lemma {:induction false} HitsOrdered(nodes: seq<Node>, byKey: map<Key, nat>, keep: Key -> bool, cand: seq<Cand>)
    requires Indexed(nodes, byKey) && SortedByDistance(cand) && Distinct(IdsOf(cand))
    ensures NearestFirst(Hits(nodes, keep, cand))
  {
    if cand != [] {
      var front, c := cand[..|cand| - 1], cand[|cand| - 1];
      assert Distinct(IdsOf(front)) by {
        forall i, j | 0 <= i < j < |front| ensures IdsOf(front)[i] != IdsOf(front)[j] {
          assert IdsOf(cand)[i] != IdsOf(cand)[j];
        }
      }
      HitsOrdered(nodes, byKey, keep, front);
      HitsAre(nodes, keep, front);
      forall h | h in Hits(nodes, keep, front) && Kept(nodes, keep, c.id)
        ensures h.d <= c.d && h.key != nodes[c.id].key
      {
        var b :| b in front && Kept(nodes, keep, b.id) && h == Hit(nodes[b.id].key, b.d);
        var i :| 0 <= i < |front| && front[i] == b;
        assert IdsOf(cand)[i] != IdsOf(cand)[|cand| - 1];
      }
    }
  }

  method Collect(nodes: seq<Node>, keep: Key -> bool, cand: seq<Cand>, k: nat) returns (out: seq<Hit>)
    requires Known(nodes, cand) && k > 0
    ensures out == First(Hits(nodes, keep, cand), k)
  {
    out := [];
    var i := 0;
    while i < |cand| && |out| < k
      invariant 0 <= i <= |cand| && |out| <= k && out == Hits(nodes, keep, cand[..i])
    {
      var c := cand[i];
      assert cand[..i + 1][..i] == cand[..i];
      if !nodes[c.id].deleted && keep(nodes[c.id].key) { out := out + [Hit(nodes[c.id].key, c.d)]; }
      i := i + 1;
    }
    HitsPrefix(nodes, keep, cand, i);
    assert cand[..|cand|] == cand;
  }

  function First(hits: seq<Hit>, k: nat): seq<Hit> { if |hits| <= k then hits else hits[..k] }

  function Larger(a: nat, b: nat): (r: nat)
    ensures r >= a && r >= b && (r == a || r == b)
  {
    if a < b then b else a
  }

  lemma WeavingNext(a: seq<Node>, b: seq<Node>, c: seq<Node>, dist: Distance, query: Stored, ef: nat, m: nat, m0: nat,
                    id: nat, start: nat, top: nat, l: nat, steps: seq<Step>, s: Step, cur: nat, next: nat)
    requires l <= top && Weaving(a, b, dist, query, ef, m, m0, id, start, top, l + 1, steps, cur)
    requires Wired(c) && Capped(c, m, m0) && OnlyLayer(b, c, l) && LinkedTo(b, c, Gap(a, dist), m, m0, id, l, s)
    requires Trail(a, Score(a, dist, query), ef, start, top, steps + [s]) && next == Landing(start, steps + [s])
    requires next != id && OnLayer(b, l, next)
    ensures Weaving(a, c, dist, query, ef, m, m0, id, start, top, l, steps + [s], next)
  {
    WovenNext(a, b, c, Gap(a, dist), m, m0, id, top, l, steps, s);
    LowerUnlinked(b, c, l, id);
  }

  /** A descent from the entry to layer 0, and the beam search there. */
  ghost predicate Searched(nodes: seq<Node>, score: nat -> int, e: nat, ef: nat, down: seq<Step>, last: Step) {
    && e < |nodes| && |down| == |nodes[e].neighbors| - 1
    && Trail(nodes, score, 8, e, |down|, down) && last.at == Landing(e, down)
    && Found(nodes, score, 0, last.at, ef, last.visited, last.found)
  }

  /** One dictionary operation on the index. */
  datatype Op = Insert(key: Key, vector: seq<F32>) | Remove(key: Key)

  /** What an operation means for the dictionary of live vectors. */
  function Effect(dim: nat, prepare: seq<F32> -> Stored, dict: map<Key, Stored>, op: Op): map<Key, Stored> {
    match op
    case Insert(k, v) => if |v| != dim then dict else dict[k := prepare(v)]
    case Remove(k) => dict - {k}
  }

  /** The live vectors by key are the dictionary's. */
  ghost predicate Means(nodes: seq<Node>, byKey: map<Key, nat>, dict: map<Key, Stored>) {
    dict.Keys == byKey.Keys && forall k :: k in byKey ==> byKey[k] < |nodes| && dict[k] == nodes[byKey[k]].vector
  }

  lemma AdmittedMeans(nodes: seq<Node>, byKey: map<Key, nat>, key: Key, vector: Stored, level: nat, after: seq<Node>,
                      dict: map<Key, Stored>)
    requires Means(nodes, byKey, dict) && SameNodes(Admitted(nodes, byKey, key, vector, level), after)
    ensures Means(after, byKey[key := |nodes|], dict[key := vector])
  {
  }

  class Hnsw {
    const metric: Metric
    const dim: nat
    const m: nat
    const m0: nat
    const efConstruction: nat
    const ml: nat
    const quantized: bool
    const dist: Distance
    const prepare: seq<F32> -> Stored
    const nextRng: nat -> nat
    const levelOf: nat -> nat
    var efSearch: nat
    var nodes: seq<Node>
    var byKey: map<Key, nat>
    var entry: Option<nat>
    var rng: nat
    var dirty: bool

    /** The graph invariant. */
    ghost predicate Valid()
      reads this
    {
      m >= 2 && m0 == 2 * m && Sound(nodes, m, m0, entry, byKey)
    }

    /** The live vectors by key. */
    ghost predicate Represents(dict: map<Key, Stored>)
      reads this
    {
      Means(nodes, byKey, dict)
    }

    constructor (metric: Metric, dim: nat, m: nat, efConstruction: nat, efSearch: nat, ml: nat, quantized: bool,
                 dist: Distance, prepare: seq<F32> -> Stored, nextRng: nat -> nat, levelOf: nat -> nat)
      ensures Valid() && Represents(map[]) && !dirty
      ensures nodes == [] && entry == None && this.m == Larger(m, 2) && this.efConstruction == Larger(efConstruction, m)
      ensures this.efSearch == Larger(efSearch, 1) && this.dim == dim && this.prepare == prepare && this.dist == dist
      ensures this.metric == metric && this.ml == ml && this.quantized == quantized && this.nextRng == nextRng
      ensures this.levelOf == levelOf && rng == 0x2545_f491_4f6c_dd1d
    {
      this.metric, this.ml := metric, ml;
      this.dim, this.m, this.m0 := dim, if m < 2 then 2 else m, 2 * if m < 2 then 2 else m;
      this.efConstruction := if efConstruction < m then m else efConstruction;
      this.efSearch := if efSearch < 1 then 1 else efSearch;
      this.quantized, this.dist, this.prepare := quantized, dist, prepare;
      this.nextRng, this.levelOf := nextRng, levelOf;
      nodes, byKey, entry, rng, dirty := [], map[], None, 0x2545_f491_4f6c_dd1d, false;
    }

    /** An index holding given parts, with a clean flag. */
    constructor FromParts(metric: Metric, dim: nat, m: nat, m0: nat, efConstruction: nat, efSearch: nat, ml: nat,
                          rng: nat, quantized: bool, dist: Distance, prepare: seq<F32> -> Stored,
                          nextRng: nat -> nat, levelOf: nat -> nat,
                          nodes: seq<Node>, byKey: map<Key, nat>, entry: Option<nat>)
      ensures this.metric == metric && this.dim == dim && this.m == m && this.m0 == m0
      ensures this.efConstruction == efConstruction && this.efSearch == efSearch && this.ml == ml && this.rng == rng
      ensures this.quantized == quantized && this.dist == dist && this.prepare == prepare
      ensures this.nextRng == nextRng && this.levelOf == levelOf
      ensures this.nodes == nodes && this.byKey == byKey && this.entry == entry && !dirty
    {
      this.metric, this.dim, this.m, this.m0, this.efConstruction := metric, dim, m, m0, efConstruction;
      this.efSearch, this.ml, this.rng, this.quantized := efSearch, ml, rng, quantized;
      this.dist, this.prepare, this.nextRng, this.levelOf := dist, prepare, nextRng, levelOf;
      this.nodes, this.byKey, this.entry, dirty := nodes, byKey, entry, false;
    }

    /** Trim a list to its bound. */
    method Prune(id: nat, l: nat, max: nat)
      requires Wired(nodes) && OnLayer(nodes, l, id) && CappedBut(nodes, m, m0, id, l) && max == Cap(m, m0, l)
      modifies this`nodes
      ensures OnLayer(old(nodes), l, id)
      ensures nodes == SetList(old(nodes), id, l, PrunedList(Gap(old(nodes), dist), id, old(nodes[id].neighbors[l]),
                max))
      ensures Wired(nodes) && Capped(nodes, m, m0)
    {
      var list := Pruned(nodes, dist, id, l, max);
      assert GoodList(nodes, id, l, nodes[id].neighbors[l]);
      PrunedGood(nodes, Gap(nodes, dist), id, l, nodes[id].neighbors[l], max);
      SetListWired(nodes, id, l, list);
      SetListCaps(nodes, m, m0, id, l, list);
      nodes := SetList(nodes, id, l, list);
    }

    /** Link the new node and a chosen neighbour both ways, then trim the neighbour. */
    method Link(id: nat, nb: nat, l: nat)
      requires Wired(nodes) && Capped(nodes, m, m0) && OnLayer(nodes, l, id) && OnLayer(nodes, l, nb) && id != nb
      requires nb !in nodes[id].neighbors[l] && id !in nodes[nb].neighbors[l]
      requires |nodes[id].neighbors[l]| < Cap(m, m0, l)
      modifies this`nodes
      ensures Wired(nodes) && Capped(nodes, m, m0) && OnlyLayer(old(nodes), nodes, l)
      ensures nodes[id].neighbors[l] == old(nodes[id].neighbors[l]) + [nb]
      ensures nodes[nb].neighbors[l] == PrunedList(Gap(old(nodes), dist), nb, old(nodes[nb].neighbors[l]) + [id],
                Cap(m, m0, l))
      ensures forall i :: 0 <= i < |nodes| && i != id && i != nb ==> nodes[i] == old(nodes[i])
    {
      ghost var nodes0 := nodes;
      assert GoodList(nodes, id, l, nodes[id].neighbors[l]) && GoodList(nodes, nb, l, nodes[nb].neighbors[l]);
      var mine := nodes[id].neighbors[l] + [nb];
      SetListWired(nodes, id, l, mine);
      SetListCaps(nodes, m, m0, id, l, mine);
      SetListOnlyLayer(nodes0, nodes, id, l, mine);
      nodes := SetList(nodes, id, l, mine);
      var theirs := nodes[nb].neighbors[l] + [id];
      assert GoodList(nodes, nb, l, theirs);
      SetListWired(nodes, nb, l, theirs);
      SetListCaps(nodes, m, m0, nb, l, theirs);
      SetListOnlyLayer(nodes0, nodes, nb, l, theirs);
      nodes := SetList(nodes, nb, l, theirs);
      ghost var nodes1 := nodes;
      Prune(nb, l, if l == 0 then m0 else m);
      SameVectors(nodes0, nodes1);
      SetListOnlyLayer(nodes0, nodes1, nb, l, nodes[nb].neighbors[l]);
    }

    /** Link the new node to all chosen neighbours of one layer. */
    method Connect(id: nat, l: nat, chosen: seq<nat>)
      requires Wired(nodes) && Capped(nodes, m, m0) && OnLayer(nodes, l, id) && Unlinked(nodes, id, l)
      requires nodes[id].neighbors[l] == [] && Distinct(chosen) && |chosen| <= Cap(m, m0, l)
      requires forall k :: 0 <= k < |chosen| ==> OnLayer(nodes, l, chosen[k]) && chosen[k] != id
      modifies this`nodes
      ensures Wired(nodes) && Capped(nodes, m, m0) && OnlyLayer(old(nodes), nodes, l)
      ensures Relinked(old(nodes), nodes, Gap(old(nodes), dist), id, l, chosen, Cap(m, m0, l))
    {
      ghost var nodes0, gap := nodes, Gap(nodes, dist);
      var j := 0;
      while j < |chosen|
        invariant 0 <= j <= |chosen| && Wired(nodes) && Capped(nodes, m, m0) && OnlyLayer(nodes0, nodes, l)
        invariant Relinked(nodes0, nodes, gap, id, l, chosen[..j], Cap(m, m0, l))
        invariant forall k :: j <= k < |chosen| ==> id !in nodes[chosen[k]].neighbors[l]
      {
        ghost var before := nodes;
        assert chosen[j] !in chosen[..j];
        SameVectors(nodes0, nodes);
        Link(id, chosen[j], l);
        RelinkNext(nodes0, before, nodes, gap, id, l, chosen[..j], chosen[j], Cap(m, m0, l));
        assert chosen[..j + 1] == chosen[..j] + [chosen[j]];
        j := j + 1;
      }
      assert chosen[..j] == chosen;
    }

    /** Soft delete: the node stays for connectivity. */
    method Remove(key: Key)
      requires Valid()
      modifies this
      ensures Valid() && byKey == old(byKey) - {key} && entry == old(entry) && rng == old(rng) &&
              efSearch == old(efSearch)
      ensures nodes == Retired(old(nodes), old(byKey), key)
      ensures dirty == (old(dirty) || key in old(byKey))
    {
      if key in byKey {
        var id := byKey[key];
        RemoveKeeps(nodes, m, m0, entry, byKey, key);
        nodes := nodes[id := nodes[id].(deleted := true)];
        byKey := byKey - {key};
        dirty := true;
      }
    }

    /** Add a node whose lists are all empty. */
    method Append(key: Key, vector: Stored, level: nat) returns (id: nat)
      requires Valid() && key !in byKey
      modifies this`nodes, this`byKey
      ensures id == |old(nodes)| && byKey == old(byKey)[key := id]
      ensures nodes == old(nodes) + [Node(vector, key, Bare(level), false)]
      ensures Wired(nodes) && Levelled(nodes) && Capped(nodes, m, m0) && Indexed(nodes, byKey) && Isolated(nodes, id)
    {
      id := |nodes|;
      var n := Node(vector, key, Bare(level), false);
      AddNode(nodes, m, m0, n);
      nodes, byKey := nodes + [n], byKey[key := id];
    }

    /** Find the new node's neighbours on one layer and link them. */
    method WireLayer(ghost nodes0: seq<Node>, query: Stored, id: nat, ghost start: nat, ghost top: nat, l: nat,
                     ghost steps: seq<Step>, cur: nat) returns (next: nat, ghost s: Step)
      requires l <= top && Weaving(nodes0, nodes, dist, query, efConstruction, m, m0, id, start, top, l + 1, steps, cur)
      modifies this`nodes
      ensures Weaving(nodes0, nodes, dist, query, efConstruction, m, m0, id, start, top, l, steps + [s], next)
    {
      ghost var before, gap := nodes, Gap(nodes0, dist);
      assert Untouched(nodes0, nodes, l) && Unlinked(nodes, id, l);
      var cand;
      cand, s := Follow(nodes, dist, query, efConstruction, l, cur, nodes0, start, top, steps, id);
      next := cand[0].id;
      LinkChosen(nodes0, id, l, cand);
      WeavingNext(nodes0, before, nodes, dist, query, efConstruction, m, m0, id, start, top, l, steps, s, cur, next);
    }

    /** Select among the candidates and link the selection. */
    method LinkChosen(ghost nodes0: seq<Node>, id: nat, l: nat, cand: seq<Cand>)
      requires Wired(nodes) && Capped(nodes, m, m0) && OnLayer(nodes, l, id) && Unlinked(nodes, id, l) &&
               nodes[id].neighbors[l] == []
      requires Usable(nodes, l, cand) && Lacks(cand, id) && SameNodes(nodes0, nodes)
      modifies this`nodes
      ensures Wired(nodes) && Capped(nodes, m, m0) && OnlyLayer(old(nodes), nodes, l)
      ensures Relinked(old(nodes), nodes, Gap(nodes0, dist), id, l, Selected(Gap(nodes0, dist), cand, Cap(m, m0, l)),
                Cap(m, m0, l))
    {
      SameVectors(nodes0, nodes);
      var chosen := SelectDiverse(nodes, dist, cand, if l == 0 then m0 else m);
      SelectedIs(Gap(nodes0, dist), cand, Cap(m, m0, l));
      ChosenLinkable(nodes, l, id, cand, chosen);
      Connect(id, l, chosen);
    }

    /** Wire the new node into every layer it shares with the graph. */
    method Wire(id: nat, start: nat, top: nat) returns (ghost steps: seq<Step>)
      requires Wired(nodes) && Capped(nodes, m, m0) && OnLayer(nodes, top, id) && OnLayer(nodes, top, start)
      requires start != id && Isolated(nodes, id) && forall l :: 0 <= l <= top ==> nodes[id].neighbors[l] == []
      modifies this`nodes
      ensures Wired(nodes) && Capped(nodes, m, m0) && SameNodes(old(nodes), nodes) && |steps| == top + 1
      ensures Trail(old(nodes), Score(old(nodes), dist, old(nodes[id].vector)), efConstruction, start, top, steps)
      ensures Woven(old(nodes), nodes, Gap(old(nodes), dist), m, m0, id, top, 0, steps)
    {
      ghost var nodes0 := nodes;
      var query, cur, l := nodes[id].vector, start, top + 1;
      steps := [];
      while l > 0
        invariant 0 <= l <= top + 1 && Weaving(nodes0, nodes, dist, query, efConstruction, m, m0, id, start, top, l,
                    steps, cur)
      {
        l := l - 1;
        ghost var s;
        cur, s := WireLayer(nodes0, query, id, start, top, l, steps, cur);
        steps := steps + [s];
      }
    }

    /** Find the newest node's place from the entry down and wire it in. */
    method Settle(id: nat, level: nat, e: nat)
      requires Wired(nodes) && Capped(nodes, m, m0) && Isolated(nodes, id) && id < |nodes| && e < |nodes| && e != id
      requires nodes[e].neighbors != [] && nodes[id].neighbors == Bare(level)
      modifies this`nodes
      ensures Wired(nodes) && Capped(nodes, m, m0) && SameNodes(old(nodes), nodes)
      ensures Attached(old(nodes), nodes, dist, efConstruction, m, m0, id, level, e)
    {
      ghost var before := nodes;
      var entryLevel := |nodes[e].neighbors| - 1;
      var top := if level < entryLevel then level else entryLevel;
      var cur, down := Descend(nodes, dist, nodes[id].vector, e, entryLevel, top, id);
      ghost var wire := Wire(id, cur, top);
      assert AttachedVia(before, nodes, dist, efConstruction, m, m0, id, level, e, down, wire);
    }

    /** Wire the newest node in below the entry, and make it the entry when it is taller. */
    method Attach(id: nat, level: nat)
      requires entry.Some? && Fresh(nodes, m, m0, entry, byKey, id, level)
      modifies this`nodes, this`entry
      ensures Sound(nodes, m, m0, entry, byKey) && SameNodes(old(nodes), nodes)
      ensures Attached(old(nodes), nodes, dist, efConstruction, m, m0, id, level, old(entry).value)
      ensures entry == if level >= Height(old(nodes), old(entry).value) then Some(id) else old(entry)
    {
      var e := entry.value;
      ghost var before := nodes;
      BelowEntry(nodes, m, m0, e, byKey, id, level);
      if level > |nodes[e].neighbors| - 1 { entry := Some(id); }
      Settle(id, level, e);
      AttachedSound(before, nodes, m, m0, e, entry, byKey, id, level);
    }

    /** Retire the key's old node, if any, and append its new one. */
    method Admit(key: Key, vector: Stored, level: nat) returns (id: nat)
      requires Valid()
      modifies this
      ensures id == |old(nodes)| && nodes == Admitted(old(nodes), old(byKey), key, vector, level)
      ensures byKey == old(byKey)[key := id] && entry == old(entry) && rng == old(rng) && efSearch == old(efSearch)
      ensures Fresh(nodes, m, m0, entry, byKey, id, level)
    {
      if key in byKey { Remove(key); }
      ghost var before := nodes;
      id := Append(key, vector, level);
      assert nodes[..id] == before;
    }

    /** Insert below an entry. */
    method Join(key: Key, vector: Stored, level: nat)
      requires Valid() && entry.Some?
      modifies this
      ensures Valid() && rng == old(rng) && efSearch == old(efSearch) && byKey == old(byKey)[key := |old(nodes)|]
      ensures Joined(old(nodes), old(byKey), old(entry).value, key, vector, level, dist, efConstruction, m, m0, nodes,
                entry)
    {
      var id := Admit(key, vector, level);
      Attach(id, level);
    }

    /** Insert or replace. The new state is exactly: the old node of the key retired and a new one of the drawn
        level appended; then, unless it is the first, its place found from the entry down and links made on
        every layer it shares. */
    method Insert(key: Key, vector: seq<F32>)
      requires Valid()
      modifies this
      ensures Valid() && efSearch == old(efSearch)
      ensures |vector| != dim ==> nodes == old(nodes) && byKey == old(byKey) && entry == old(entry) &&
                                  rng == old(rng) && dirty == old(dirty)
      ensures |vector| == dim ==> dirty && rng == nextRng(old(rng)) && byKey == old(byKey)[key := |old(nodes)|]
      ensures |vector| == dim && old(entry).None? ==>
                nodes == Admitted(old(nodes), old(byKey), key, prepare(vector), levelOf(nextRng(old(rng)))) &&
                entry == Some(0)
      ensures |vector| == dim && old(entry).Some? ==>
                Joined(old(nodes), old(byKey), old(entry).value, key, prepare(vector), levelOf(nextRng(old(rng))), dist,
                       efConstruction, m, m0, nodes, entry)
    {
      if |vector| != dim { return; }
      var level := levelOf(nextRng(rng));
      if entry.None? {
        var id := Admit(key, prepare(vector), level);
        FirstSound(nodes, m, m0, byKey, id, level);
        entry := Some(id);
      } else {
        Join(key, prepare(vector), level);
      }
      rng, dirty := nextRng(rng), true;
    }

    /** The nearest kept live keys, nearest first: the first `k` live hits of a beam search on layer 0 from
        where the descent landed. With a beam as wide as what layer 0 reaches, none is missed. */
    method Search(query: seq<F32>, k: nat, keep: Key -> bool)
      returns (out: seq<Hit>, ghost down: seq<Step>, ghost last: Step)
      requires Valid()
      ensures |out| <= k && NearestFirst(out)
      ensures forall i :: 0 <= i < |out| ==> Answer(nodes, byKey, dist, prepare(query), keep, out[i])
      ensures |query| != dim || entry.None? ==> out == []
      ensures |query| == dim && entry.Some? && k > 0 ==>
                && Searched(nodes, Score(nodes, dist, prepare(query)), entry.value, Larger(efSearch, k), down, last)
                && out == First(Hits(nodes, keep, last.found), k)
                && (|Reachable(nodes, 0, last.at)| <= Larger(efSearch, k) ==>
                      NoneMissed(nodes, byKey, dist, prepare(query), keep, k, last.at, out))
    {
      out, down, last := [], [], Step(0, {}, []);
      if |query| != dim || k == 0 || entry.None? { return; }
      var q := prepare(query);
      var cur;
      cur, down := Descend(nodes, dist, q, entry.value, |nodes[entry.value].neighbors| - 1, 0, |nodes|);
      var ef := Larger(efSearch, k);
      var cand, visited := SearchLayer(nodes, dist, q, cur, ef, 0);
      last := Step(cur, visited, cand);
      NearestFound(nodes, Score(nodes, dist, q), 0, cur, ef, visited, cand, |nodes|);
      out := Collect(nodes, keep, cand, k);
      HitsOrdered(nodes, byKey, keep, cand);
      HitsAnswer(nodes, byKey, dist, q, keep, cur, ef, visited, cand);
      if |Reachable(nodes, 0, cur)| <= ef { MissesNone(nodes, byKey, dist, q, keep, k, cur, ef, visited, cand, out); }
    }

    /** One operation refines the dictionary's, and nodes are only ever added. */
    method Apply(op: Op, ghost dict: map<Key, Stored>)
      requires Valid() && Represents(dict)
      modifies this
      ensures Valid() && Represents(Effect(dim, prepare, dict, op))
      ensures After(dim, prepare, levelOf(nextRng(old(rng))), op, old(nodes), nodes)
      ensures efSearch == old(efSearch) && (rng == old(rng) || rng == nextRng(old(rng)))
    {
      match op
      case Insert(key, vector) => Put(key, vector, dict);
      case Remove(key) => Remove(key);
    }

    method Put(key: Key, vector: seq<F32>, ghost dict: map<Key, Stored>)
      requires Valid() && Represents(dict)
      modifies this
      ensures Valid() && Represents(Effect(dim, prepare, dict, Op.Insert(key, vector)))
      ensures After(dim, prepare, levelOf(nextRng(old(rng))), Op.Insert(key, vector), old(nodes), nodes)
      ensures efSearch == old(efSearch) && (rng == old(rng) || rng == nextRng(old(rng)))
    {
      ghost var nodes0, byKey0, level := nodes, byKey, levelOf(nextRng(rng));
      Insert(key, vector);
      if |vector| == dim {
        AdmittedMeans(nodes0, byKey0, key, prepare(vector), level, nodes, dict);
        AdmittedAfter(nodes0, byKey0, key, prepare(vector), level, nodes);
      }
    }
  }

  /** The earlier nodes keep key, vector and height. */
  ghost predicate Kin(a: seq<Node>, b: seq<Node>) {
    && |a| <= |b|
    && forall i :: 0 <= i < |a| ==>
         a[i].key == b[i].key && a[i].vector == b[i].vector && |a[i].neighbors| == |b[i].neighbors|
  }

  /** What an operation does to the nodes: an insert of the right dimension adds one, anything else none. */
  ghost predicate After(dim: nat, prepare: seq<F32> -> Stored, level: nat, op: Op, a: seq<Node>, b: seq<Node>) {
    && Kin(a, b)
    && (if op.Insert? && |op.vector| == dim then Newest(b, |a|, op.key, prepare(op.vector), level) else |b| == |a|)
  }

  ghost predicate Newest(nodes: seq<Node>, id: nat, key: Key, vector: Stored, level: nat) {
    |nodes| == id + 1 && nodes[id].key == key && nodes[id].vector == vector && |nodes[id].neighbors| == level + 1
  }

  lemma AdmittedAfter(nodes: seq<Node>, byKey: map<Key, nat>, key: Key, vector: Stored, level: nat, after: seq<Node>)
    requires SameNodes(Admitted(nodes, byKey, key, vector, level), after)
    ensures Kin(nodes, after) && Newest(after, |nodes|, key, vector, level)
  {
  }

  /** A hit is a live key that passes the filter, with its true distance. */
  predicate Answer(nodes: seq<Node>, byKey: map<Key, nat>, dist: Distance, q: Stored, keep: Key -> bool, h: Hit) {
    h.key in byKey && byKey[h.key] < |nodes| && keep(h.key) && h.d == dist(q, nodes[byKey[h.key]].vector)
  }

  /** A reachable live key that passes the filter is among the hits, or `k` nearer ones are. */
  ghost predicate NoneMissed(nodes: seq<Node>, byKey: map<Key, nat>, dist: Distance, q: Stored, keep: Key -> bool,
                             k: nat, base: nat, out: seq<Hit>) {
    forall key :: key in byKey && byKey[key] in Reachable(nodes, 0, base) && keep(key) ==>
      var h := Hit(key, dist(q, nodes[byKey[key]].vector));
      h in out || (|out| == k && forall i :: 0 <= i < |out| ==> out[i].d <= h.d)
  }

  lemma HitsAnswer(nodes: seq<Node>, byKey: map<Key, nat>, dist: Distance, q: Stored, keep: Key -> bool, cur: nat,
                   ef: nat, visited: set<nat>, cand: seq<Cand>)
    requires Indexed(nodes, byKey) && Found(nodes, Score(nodes, dist, q), 0, cur, ef, visited, cand)
    ensures forall h :: h in Hits(nodes, keep, cand) ==> Answer(nodes, byKey, dist, q, keep, h)
  {
    HitsAre(nodes, keep, cand);
  }

  lemma MissesNone(nodes: seq<Node>, byKey: map<Key, nat>, dist: Distance, q: Stored, keep: Key -> bool, k: nat,
                   cur: nat, ef: nat, visited: set<nat>, cand: seq<Cand>, out: seq<Hit>)
    requires Indexed(nodes, byKey) && Found(nodes, Score(nodes, dist, q), 0, cur, ef, visited, cand)
    requires |Reachable(nodes, 0, cur)| <= ef && NearestFirst(Hits(nodes, keep, cand)) && k > 0
    requires out == First(Hits(nodes, keep, cand), k)
    ensures NoneMissed(nodes, byKey, dist, q, keep, k, cur, out)
  {
    forall key | key in byKey && byKey[key] in Reachable(nodes, 0, cur) && keep(key)
      ensures var h := Hit(key, dist(q, nodes[byKey[key]].vector));
              h in out || (|out| == k && forall i :: 0 <= i < |out| ==> out[i].d <= h.d)
    {
      var id := byKey[key];
      AllReturned(nodes, Score(nodes, dist, q), cur, ef, visited, cand, id);
      HitsAre(nodes, keep, cand);
      var hits, h := Hits(nodes, keep, cand), Hit(key, dist(q, nodes[id].vector));
      var j :| 0 <= j < |hits| && hits[j] == h;
      if j < |out| { assert out[j] == h; }
    }
  }

  /** A beam wide enough for everything reachable returns everything reachable. */
  lemma AllReturned(nodes: seq<Node>, score: nat -> int, cur: nat, ef: nat, visited: set<nat>, cand: seq<Cand>, id: nat)
    requires Found(nodes, score, 0, cur, ef, visited, cand) && |Reachable(nodes, 0, cur)| <= ef
    requires id in Reachable(nodes, 0, cur)
    ensures At(score, id) in cand
  {
    var ids := set c | c in cand :: c.id;
    assert |cand| == |visited|;
    IdsCount(cand, score);
    SubsetSize(ids, visited);
    var c :| c in cand && c.id == id;
  }

  lemma {:induction false} IdsCount(cand: seq<Cand>, score: nat -> int)
    requires Distinct(cand) && forall c :: c in cand ==> c == At(score, c.id)
    ensures |set c | c in cand :: c.id| == |cand|
  {
    if cand != [] {
      var front, c := cand[..|cand| - 1], cand[|cand| - 1];
      assert forall x :: x in front ==> x in cand;
      IdsCount(front, score);
      assert cand == front + [c];
      var ids := set x | x in front :: x.id;
      assert c.id !in ids;
      assert (set x | x in cand :: x.id) == ids + {c.id};
    }
  }

  lemma RemoveKeeps(nodes: seq<Node>, m: nat, m0: nat, entry: Option<nat>, byKey: map<Key, nat>, key: Key)
    requires Wired(nodes) && Levelled(nodes) && Capped(nodes, m, m0) && Topped(nodes, entry) && Indexed(nodes, byKey)
    requires key in byKey
    ensures byKey[key] < |nodes|
    ensures var out := nodes[byKey[key] := nodes[byKey[key]].(deleted := true)];
            && Wired(out) && Levelled(out) && Capped(out, m, m0) && Topped(out, entry) && Indexed(out, byKey - {key})
            && forall i :: 0 <= i < |out| ==> out[i] == nodes[i].(deleted := nodes[i].deleted || nodes[i].key == key)
  {
    var out := nodes[byKey[key] := nodes[byKey[key]].(deleted := true)];
    forall i, l | 0 <= i < |out| && 0 <= l < |out[i].neighbors| ensures GoodList(out, i, l, out[i].neighbors[l]) {
      assert GoodList(nodes, i, l, nodes[i].neighbors[l]);
    }
  }

  lemma BelowEntry(nodes: seq<Node>, m: nat, m0: nat, e: nat, byKey: map<Key, nat>, id: nat, level: nat)
    requires Fresh(nodes, m, m0, Some(e), byKey, id, level)
    ensures Wired(nodes) && Capped(nodes, m, m0) && Isolated(nodes, id) && nodes[id].neighbors == Bare(level)
    ensures id < |nodes| && e < id && nodes[e].neighbors != []
  {
    assert nodes[..id][e] == nodes[e];
  }

  lemma AttachedSound(a: seq<Node>, b: seq<Node>, m: nat, m0: nat, e: nat, entry: Option<nat>, byKey: map<Key, nat>,
                      id: nat, level: nat)
    requires Fresh(a, m, m0, Some(e), byKey, id, level) && SameNodes(a, b) && Wired(b) && Capped(b, m, m0)
    requires entry == if level >= Height(a, e) then Some(id) else Some(e)
    ensures Sound(b, m, m0, entry, byKey)
  {
    TopKept(a, b, id, e, level, entry);
    SoundAfter(a, b, m, m0, entry, byKey);
  }

  lemma TopKept(a: seq<Node>, b: seq<Node>, id: nat, e: nat, level: nat, entry: Option<nat>)
    requires SameNodes(a, b) && |a| == id + 1 && e < id && Topped(a[..id], Some(e)) && |a[id].neighbors| == level + 1
    requires entry == if level > |a[e].neighbors| - 1 then Some(id) else Some(e)
    ensures Topped(b, entry)
  {
    forall i | 0 <= i < |b| ensures |b[i].neighbors| <= |b[entry.value].neighbors| {
      if i < id { assert a[..id][i] == a[i] && a[..id][e] == a[e]; }
    }
  }

  lemma ChosenLinkable(nodes: seq<Node>, l: nat, id: nat, cand: seq<Cand>, chosen: seq<nat>)
    requires forall i :: 0 <= i < |cand| ==> OnLayer(nodes, l, cand[i].id) && cand[i].id != id
    requires forall k :: 0 <= k < |chosen| ==> chosen[k] in IdsOf(cand)
    ensures forall k :: 0 <= k < |chosen| ==> OnLayer(nodes, l, chosen[k]) && chosen[k] != id
  {
    forall k | 0 <= k < |chosen| ensures OnLayer(nodes, l, chosen[k]) && chosen[k] != id {
      var i :| 0 <= i < |cand| && IdsOf(cand)[i] == chosen[k];
    }
  }

  lemma LowerUnlinked(a: seq<Node>, b: seq<Node>, l: nat, id: nat)
    requires OnlyLayer(a, b, l) && id < |a| && l < |a[id].neighbors|
    requires forall k: nat :: k < l ==> Unlinked(a, id, k) && a[id].neighbors[k] == []
    ensures forall k: nat :: k < l ==> Unlinked(b, id, k) && b[id].neighbors[k] == []
  {
    forall k: nat | k < l ensures Unlinked(b, id, k) && b[id].neighbors[k] == [] {
      OnlyLayerUnlinked(a, b, l, id, k);
    }
  }
}
