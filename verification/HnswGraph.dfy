/** The layered proximity graph and the invariant that makes its indexing safe. */
module HnswGraph {
  import opened ByteReaders
  import opened Prelude

  /** A float by its bit pattern. */
  type F32 = nat

  datatype Metric = Cosine | L2 | Dot
  type Key = seq<Byte>

  /** A stored vector: exact components, or int8 codes with scale and cached norm. */
  datatype Stored = Exact(comps: seq<F32>) | Q8(codes: seq<Byte>, scale: F32, norm: F32)

  /** `neighbors[l]` lists the node's layer-`l` neighbours. */
  datatype Node = Node(vector: Stored, key: Key, neighbors: seq<seq<nat>>, deleted: bool)

  function Vectors(nodes: seq<Node>): (vs: seq<Stored>)
    ensures |vs| == |nodes| && forall i :: 0 <= i < |nodes| ==> vs[i] == nodes[i].vector
  {
    seq(|nodes|, i requires 0 <= i < |nodes| => nodes[i].vector)
  }

  predicate Distinct<T(==)>(s: seq<T>) { forall i, j :: 0 <= i < j < |s| ==> s[i] != s[j] }

  /** Every id names another node that reaches up to layer `l`, at most once. */
  ghost predicate GoodList(nodes: seq<Node>, i: nat, l: nat, list: seq<nat>) {
    && Distinct(list)
    && forall k :: 0 <= k < |list| ==> OnLayer(nodes, l, list[k]) && list[k] != i
  }

  predicate OnLayer(nodes: seq<Node>, l: nat, i: nat) { i < |nodes| && l < |nodes[i].neighbors| }

  ghost predicate Wired(nodes: seq<Node>) {
    forall i, l :: 0 <= i < |nodes| && 0 <= l < |nodes[i].neighbors| ==> GoodList(nodes, i, l, nodes[i].neighbors[l])
  }

  ghost predicate Levelled(nodes: seq<Node>) {
    forall i :: 0 <= i < |nodes| ==> |nodes[i].neighbors| > 0
  }

  function Cap(m: nat, m0: nat, l: nat): nat { if l == 0 then m0 else m }

  ghost predicate Capped(nodes: seq<Node>, m: nat, m0: nat) {
    forall i, l :: 0 <= i < |nodes| && 0 <= l < |nodes[i].neighbors| ==> |nodes[i].neighbors[l]| <= Cap(m, m0, l)
  }

  /** Degrees within bounds, except that the list of `x` on layer `lx` may be over. */
  ghost predicate CappedBut(nodes: seq<Node>, m: nat, m0: nat, x: nat, lx: nat) {
    forall i, l :: 0 <= i < |nodes| && 0 <= l < |nodes[i].neighbors| && (i != x || l != lx) ==>
      |nodes[i].neighbors[l]| <= Cap(m, m0, l)
  }

  /** The entry exists exactly when there are nodes, and no node is taller. */
  ghost predicate Topped(nodes: seq<Node>, entry: Option<nat>) {
    match entry
    case None => nodes == []
    case Some(e) => e < |nodes| && forall i :: 0 <= i < |nodes| ==> |nodes[i].neighbors| <= |nodes[e].neighbors|
  }

  /** The key index is exactly the live nodes. */
  ghost predicate Indexed(nodes: seq<Node>, byKey: map<Key, nat>) {
    && (forall k :: k in byKey ==> byKey[k] < |nodes| && nodes[byKey[k]].key == k && !nodes[byKey[k]].deleted)
    && (forall i :: 0 <= i < |nodes| && !nodes[i].deleted ==> nodes[i].key in byKey && byKey[nodes[i].key] == i)
  }

  /** The graph invariant. */
  ghost predicate Sound(nodes: seq<Node>, m: nat, m0: nat, entry: Option<nat>, byKey: map<Key, nat>) {
    Wired(nodes) && Levelled(nodes) && Capped(nodes, m, m0) && Topped(nodes, entry) && Indexed(nodes, byKey)
  }

  lemma SoundAfter(a: seq<Node>, b: seq<Node>, m: nat, m0: nat, entry: Option<nat>, byKey: map<Key, nat>)
    requires Levelled(a) && Indexed(a, byKey) && SameNodes(a, b) && Wired(b) && Capped(b, m, m0) && Topped(b, entry)
    ensures Sound(b, m, m0, entry, byKey)
  {
    SameIndex(a, b, entry, byKey);
  }

  /** One empty list for each layer up to `level`. */
  function Bare(level: nat): (lists: seq<seq<nat>>)
    ensures |lists| == level + 1 && forall l :: 0 <= l <= level ==> lists[l] == []
  {
    seq(level + 1, _ => [])
  }

  /** How many layers node `i` reaches. */
  function Height(nodes: seq<Node>, i: nat): nat { if i < |nodes| then |nodes[i].neighbors| else 0 }

  /** Nothing links to `id` at all. */
  ghost predicate Isolated(nodes: seq<Node>, id: nat) { forall l: nat :: Unlinked(nodes, id, l) }

  /** Nothing links to `id` on layer `l`. */
  ghost predicate Unlinked(nodes: seq<Node>, id: nat, l: nat) {
    forall i :: 0 <= i < |nodes| && l < |nodes[i].neighbors| ==> id !in nodes[i].neighbors[l]
  }

  function SetList(nodes: seq<Node>, i: nat, l: nat, list: seq<nat>): seq<Node>
    requires OnLayer(nodes, l, i)
  {
    nodes[i := nodes[i].(neighbors := nodes[i].neighbors[l := list])]
  }

  /** The same nodes up to adjacency, layer by layer. */
  ghost predicate SameNodes(a: seq<Node>, b: seq<Node>) {
    && |a| == |b|
    && forall i :: 0 <= i < |a| ==>
         && a[i].vector == b[i].vector && a[i].key == b[i].key && a[i].deleted == b[i].deleted
         && |a[i].neighbors| == |b[i].neighbors|
  }

  lemma SetListWired(nodes: seq<Node>, x: nat, lx: nat, list: seq<nat>)
    requires Wired(nodes) && OnLayer(nodes, lx, x) && GoodList(nodes, x, lx, list)
    ensures Wired(SetList(nodes, x, lx, list)) && SameNodes(nodes, SetList(nodes, x, lx, list))
  {
    var out := SetList(nodes, x, lx, list);
    forall i, l | 0 <= i < |out| && 0 <= l < |out[i].neighbors| ensures GoodList(out, i, l, out[i].neighbors[l]) {
      assert GoodList(nodes, i, l, nodes[i].neighbors[l]);
    }
  }

  lemma SameIndex(a: seq<Node>, b: seq<Node>, entry: Option<nat>, byKey: map<Key, nat>)
    requires SameNodes(a, b)
    ensures Topped(a, entry) <==> Topped(b, entry)
    ensures Indexed(a, byKey) <==> Indexed(b, byKey)
    ensures Levelled(a) <==> Levelled(b)
  {
  }

  lemma SetListCaps(nodes: seq<Node>, m: nat, m0: nat, x: nat, lx: nat, list: seq<nat>)
    requires CappedBut(nodes, m, m0, x, lx) && OnLayer(nodes, lx, x)
    ensures CappedBut(SetList(nodes, x, lx, list), m, m0, x, lx)
    ensures |list| <= Cap(m, m0, lx) ==> Capped(SetList(nodes, x, lx, list), m, m0)
  {
  }

  /** Adjacency may differ on layer `l` only. */
  ghost predicate OnlyLayer(a: seq<Node>, b: seq<Node>, l: nat) {
    && SameNodes(a, b)
    && forall i, k :: 0 <= i < |a| && 0 <= k < |a[i].neighbors| && k != l ==> a[i].neighbors[k] == b[i].neighbors[k]
  }

  lemma SetListOnlyLayer(a: seq<Node>, nodes: seq<Node>, x: nat, lx: nat, list: seq<nat>)
    requires OnlyLayer(a, nodes, lx) && OnLayer(nodes, lx, x)
    ensures OnlyLayer(a, SetList(nodes, x, lx, list), lx)
  {
  }

  lemma OnlyLayerUnlinked(a: seq<Node>, b: seq<Node>, l: nat, id: nat, k: nat)
    requires OnlyLayer(a, b, l) && k != l && Unlinked(a, id, k)
    ensures Unlinked(b, id, k)
  {
  }

  /** A node with empty lists joins without disturbing anything. */
  lemma AddNode(nodes: seq<Node>, m: nat, m0: nat, n: Node)
    requires Wired(nodes) && Capped(nodes, m, m0) && forall l :: 0 <= l < |n.neighbors| ==> n.neighbors[l] == []
    ensures Wired(nodes + [n]) && Capped(nodes + [n], m, m0)
    ensures forall l: nat :: Unlinked(nodes + [n], |nodes|, l)
  {
    var out := nodes + [n];
    forall i, l | 0 <= i < |out| && 0 <= l < |out[i].neighbors| ensures GoodList(out, i, l, out[i].neighbors[l]) {
      if i < |nodes| { assert GoodList(nodes, i, l, nodes[i].neighbors[l]); }
    }
    forall l: nat, i | 0 <= i < |out| && l < |out[i].neighbors| ensures |nodes| !in out[i].neighbors[l] {
      if i < |nodes| { assert GoodList(nodes, i, l, nodes[i].neighbors[l]); }
    }
  }
}
