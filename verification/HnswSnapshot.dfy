/** Saving a graph to bytes and loading it back. */
module HnswSnapshot {
  import opened ByteReaders
  import opened HnswGraph
  import opened HnswIndex
  import opened Prelude

  const NO_ENTRY: nat := 0xFFFF_FFFF

  datatype Snapshot = Snapshot(
    quantized: bool, metric: Metric, dim: nat, m: nat, m0: nat, efConstruction: nat, efSearch: nat, ml: nat, rng: nat,
    entry: Option<nat>, nodes: seq<Node>)

  /** The bytes of "SKHNSW01" and "SKHNSW02". */
  function Magic(quantized: bool): seq<Byte> {
    [83, 75, 72, 78, 83, 87, 48, if quantized then 50 else 49]
  }

  function MetricTag(m: Metric): Byte { match m case Cosine => 0 case L2 => 1 case Dot => 2 }

  function MetricOf(tag: Byte): Option<Metric> {
    if tag == 0 then Some(Cosine) else if tag == 1 then Some(L2) else if tag == 2 then Some(Dot) else None
  }

  // Vectors and nodes.

  type Codes = (nat, (nat, seq<Byte>))

  function WriteCodes(): Codes -> seq<Byte> { Both(WriteLe(4), Both(WriteLe(4), Raw())) }

  function ReadCodes(dim: nat): Reader<Codes> { ReadBoth(ReadLe(4), ReadBoth(ReadLe(4), Take(dim))) }

  function WriteVector(): Stored -> seq<Byte> {
    (v: Stored) =>
      match v
      case Exact(comps) => Written(WriteLe(4))(comps)
      case Q8(codes, scale, norm) => WriteCodes()((scale, (norm, codes)))
  }

  function ReadVector(quantized: bool, dim: nat): Reader<Stored> {
    if quantized then ReadAs(ReadCodes(dim), (p: Codes) => Q8(p.1.1, p.0, p.1.0))
    else ReadAs(ReadExactly(ReadLe(4), dim), (comps: seq<nat>) => Exact(comps))
  }

  /** Homogeneous vectors of the index's dimension, each float in 32 bits. */
  ghost predicate HasShape(quantized: bool, dim: nat, v: Stored) {
    match v
    case Exact(comps) => !quantized && |comps| == dim && forall i :: 0 <= i < dim ==> comps[i] < Pow256(4)
    case Q8(codes, scale, norm) => quantized && |codes| == dim && scale < Pow256(4) && norm < Pow256(4)
  }

  lemma CodesBack(dim: nat, p: Codes)
    requires p.0 < Pow256(4) && p.1.0 < Pow256(4) && |p.1.1| == dim
    ensures Inverts(WriteCodes(), ReadCodes(dim), p)
  {
    WriteLeBack(4, p.0);
    WriteLeBack(4, p.1.0);
    RawBack(p.1.1);
    BothBack(WriteLe(4), ReadLe(4), p.1.0, Raw(), Take(dim), p.1.1);
    BothBack(WriteLe(4), ReadLe(4), p.0, Both(WriteLe(4), Raw()), ReadBoth(ReadLe(4), Take(dim)), p.1);
  }

  lemma VectorBack(quantized: bool, dim: nat, v: Stored)
    requires HasShape(quantized, dim, v)
    ensures Inverts(WriteVector(), ReadVector(quantized, dim), v)
  {
    match v
    case Exact(comps) =>
      forall i | 0 <= i < |comps| ensures Inverts(WriteLe(4), ReadLe(4), comps[i]) { WriteLeBack(4, comps[i]); }
      ExactlyBack(WriteLe(4), ReadLe(4), comps);
      AsBack(Written(WriteLe(4)), ReadExactly(ReadLe(4), dim), comps, (c: seq<nat>) => Exact(c), WriteVector(), v);
    case Q8(codes, scale, norm) =>
      CodesBack(dim, (scale, (norm, codes)));
      AsBack(WriteCodes(), ReadCodes(dim), (scale, (norm, codes)), (p: Codes) => Q8(p.1.1, p.0, p.1.0), WriteVector(),
        v);
  }

  lemma VectorExtends(quantized: bool, dim: nat)
    ensures Extends(ReadVector(quantized, dim))
  {
    TakeExtends(4);
    TakeExtends(dim);
    if quantized {
      BothExtends(ReadLe(4), Take(dim));
      BothExtends(ReadLe(4), ReadBoth(ReadLe(4), Take(dim)));
      AsExtends(ReadCodes(dim), (p: Codes) => Q8(p.1.1, p.0, p.1.0));
    } else {
      ExactlyExtends(ReadLe(4), dim);
      AsExtends(ReadExactly(ReadLe(4), dim), (comps: seq<nat>) => Exact(comps));
    }
  }

  function Bit(b: bool): seq<Byte> { [if b then 1 else 0] }

  /** The written parts of a node, in order: key, tombstone, adjacency, vector. */
  type NodeParts = (seq<Byte>, (seq<Byte>, (seq<seq<nat>>, Stored)))

  function PartsOf(n: Node): NodeParts { (n.key, (Bit(n.deleted), (n.neighbors, n.vector))) }

  function WriteParts(): NodeParts -> seq<Byte> {
    Both(Blob(), Both(Raw(), Both(Listed(Listed(WriteLe(4))), WriteVector())))
  }

  function ReadParts(quantized: bool, dim: nat): Reader<NodeParts> {
    ReadBoth(ReadBlob(), ReadBoth(Take(1), ReadBoth(ReadListed(ReadListed(ReadLe(4))), ReadVector(quantized, dim))))
  }

  function WriteNode(): Node -> seq<Byte> { (n: Node) => WriteParts()(PartsOf(n)) }

  function NodeFrom(): NodeParts -> Node {
    (p: NodeParts) => Node(p.1.1.1, p.0, p.1.1.0, p.1.0 != [0])
  }

  function ReadNode(quantized: bool, dim: nat): Reader<Node> { ReadAs(ReadParts(quantized, dim), NodeFrom()) }

  /** A node the 32-bit format can hold. */
  ghost predicate NodeFits(quantized: bool, dim: nat, n: Node) {
    && |n.key| < Pow256(4) && |n.neighbors| < Pow256(4) && HasShape(quantized, dim, n.vector)
    && (forall l :: 0 <= l < |n.neighbors| ==> ListFits(n.neighbors[l]))
  }

  ghost predicate ListFits(list: seq<nat>) {
    |list| < Pow256(4) && forall k :: 0 <= k < |list| ==> list[k] < Pow256(4)
  }

  lemma ListBack(list: seq<nat>)
    requires ListFits(list)
    ensures Inverts(Listed(WriteLe(4)), ReadListed(ReadLe(4)), list)
  {
    forall k | 0 <= k < |list| ensures Inverts(WriteLe(4), ReadLe(4), list[k]) { WriteLeBack(4, list[k]); }
    ListedBack(WriteLe(4), ReadLe(4), list);
  }

  lemma PartsBack(quantized: bool, dim: nat, n: Node)
    requires NodeFits(quantized, dim, n)
    ensures Inverts(WriteParts(), ReadParts(quantized, dim), PartsOf(n))
  {
    var lists, readLists := Listed(Listed(WriteLe(4))), ReadListed(ReadListed(ReadLe(4)));
    BlobBack(n.key);
    RawBack(Bit(n.deleted));
    forall l | 0 <= l < |n.neighbors| ensures Inverts(Listed(WriteLe(4)), ReadListed(ReadLe(4)), n.neighbors[l]) {
      ListBack(n.neighbors[l]);
    }
    ListedBack(Listed(WriteLe(4)), ReadListed(ReadLe(4)), n.neighbors);
    VectorBack(quantized, dim, n.vector);
    var wv, rv := WriteVector(), ReadVector(quantized, dim);
    BothBack(lists, readLists, n.neighbors, wv, rv, n.vector);
    BothBack(Raw(), Take(1), Bit(n.deleted), Both(lists, wv), ReadBoth(readLists, rv), (n.neighbors, n.vector));
    BothBack(Blob(), ReadBlob(), n.key, Both(Raw(), Both(lists, wv)), ReadBoth(Take(1), ReadBoth(readLists, rv)),
             (Bit(n.deleted), (n.neighbors, n.vector)));
  }

  lemma NodeBack(quantized: bool, dim: nat, n: Node)
    requires NodeFits(quantized, dim, n)
    ensures Inverts(WriteNode(), ReadNode(quantized, dim), n)
  {
    PartsBack(quantized, dim, n);
    NodeAs(WriteParts(), ReadParts(quantized, dim), n, WriteNode());
  }

  lemma NodeAs(wp: NodeParts -> seq<Byte>, rp: Reader<NodeParts>, n: Node, w: Node -> seq<Byte>)
    requires Inverts(wp, rp, PartsOf(n)) && w(n) == wp(PartsOf(n))
    ensures Inverts(w, ReadAs(rp, NodeFrom()), n)
  {
    assert Bit(n.deleted)[0] != 0 <==> n.deleted;
    AsBack(wp, rp, PartsOf(n), NodeFrom(), w, n);
  }

  lemma NodeExtends(quantized: bool, dim: nat)
    ensures Extends(ReadNode(quantized, dim))
  {
    BlobExtends();
    TakeExtends(1);
    TakeExtends(4);
    ListedExtends(ReadLe(4));
    ListedExtends(ReadListed(ReadLe(4)));
    VectorExtends(quantized, dim);
    var lists, rv := ReadListed(ReadListed(ReadLe(4))), ReadVector(quantized, dim);
    BothExtends(lists, rv);
    BothExtends(Take(1), ReadBoth(lists, rv));
    BothExtends(ReadBlob(), ReadBoth(Take(1), ReadBoth(lists, rv)));
    AsExtends(ReadParts(quantized, dim), NodeFrom());
  }

  // The whole snapshot.

  type Header = (seq<Byte>, (seq<Byte>, (seq<nat>, nat)))

  function HeaderOf(s: Snapshot): Header {
    (Magic(s.quantized), ([MetricTag(s.metric)],
      ([s.dim, s.m, s.m0, s.efConstruction, s.efSearch, s.ml, s.rng],
        if s.entry.Some? then s.entry.value else NO_ENTRY)))
  }

  function WriteHeader(): Header -> seq<Byte> {
    Both(Raw(), Both(Raw(), Both(Written(WriteLe(8)), WriteLe(4))))
  }

  function ReadHeader(): Reader<Header> {
    ReadBoth(Take(8), ReadBoth(Take(1), ReadBoth(ReadExactly(ReadLe(8), 7), ReadLe(4))))
  }

  /** The byte stream of `write_to`. */
  function Encode(s: Snapshot): seq<Byte> { WriteHeader()(HeaderOf(s)) + Listed(WriteNode())(s.nodes) }

  lemma ManySnoc<T>(write: T -> seq<Byte>, items: seq<T>, x: T)
    ensures WriteMany(write, items + [x]) == WriteMany(write, items) + write(x)
  {
    assert (items + [x])[..|items|] == items;
  }

  lemma ThreeWritten<T>(w: T -> seq<Byte>, a: T, b: T, c: T)
    ensures WriteMany(w, [a, b, c]) == w(a) + w(b) + w(c)
  {
    ManySnoc(w, [], a);
    ManySnoc(w, [a], b);
    ManySnoc(w, [a, b], c);
    assert [] + [a] == [a] && [a] + [b] == [a, b] && [a, b] + [c] == [a, b, c];
  }

  lemma TwoMore<T>(w: T -> seq<Byte>, items: seq<T>, x: T, y: T)
    ensures WriteMany(w, items + [x, y]) == WriteMany(w, items) + w(x) + w(y)
  {
    ManySnoc(w, items, x);
    ManySnoc(w, items + [x], y);
    assert items + [x] + [y] == items + [x, y];
  }

  lemma SevenWritten<T>(w: T -> seq<Byte>, a: T, b: T, c: T, d: T, e: T, f: T, g: T)
    ensures WriteMany(w, [a, b, c, d, e, f, g]) == w(a) + w(b) + w(c) + w(d) + w(e) + w(f) + w(g)
  {
    ThreeWritten(w, a, b, c);
    TwoMore(w, [a, b, c], d, e);
    TwoMore(w, [a, b, c] + [d, e], f, g);
    assert [a, b, c] + [d, e] + [f, g] == [a, b, c, d, e, f, g];
  }

  /** The file begins with "SKHNSW01", or "SKHNSW02" when quantized, the metric (cosine, L2, dot) and the parameters,
      little-endian, in this order. */
  lemma HeaderLayout(s: Snapshot)
    ensures WriteHeader()(HeaderOf(s)) ==
            [83, 75, 72, 78, 83, 87, 48, if s.quantized then 50 else 49] +
            ([if s.metric == Cosine then 0 else if s.metric == L2 then 1 else 2] +
             ((Le(8, s.dim) + Le(8, s.m) + Le(8, s.m0) + Le(8, s.efConstruction) + Le(8, s.efSearch) + Le(8, s.ml) +
               Le(8, s.rng)) + Le(4, if s.entry.Some? then s.entry.value else 0xFFFF_FFFF)))
  {
    SevenWritten(WriteLe(8), s.dim, s.m, s.m0, s.efConstruction, s.efSearch, s.ml, s.rng);
  }

  /** A node is read as deleted for any flag byte but zero. */
  lemma DeletedFlag(p: NodeParts)
    ensures NodeFrom()(p).deleted <==> p.1.0 != [0]
  {
  }

  function Known(h: Header): bool {
    var (magic, (tag, (params, entry))) := h;
    (magic == Magic(false) || magic == Magic(true)) && |tag| == 1 && MetricOf(tag[0]).Some? && |params| == 7
  }

  function SnapshotFrom(h: Header): seq<Node> -> Snapshot
    requires Known(h)
  {
    var (magic, (tag, (params, entry))) := h;
    (nodes: seq<Node>) =>
      Snapshot(magic == Magic(true), MetricOf(tag[0]).value, params[0], params[1], params[2], params[3], params[4],
               params[5], params[6], if entry == NO_ENTRY then None else Some(entry), nodes)
  }

  /** The nodes behind a header; bad magic and an unknown metric are errors. */
  function DecodeNodes(): Header -> Reader<Snapshot> {
    (h: Header) =>
      if !Known(h) then (data: seq<Byte>) => Bad
      else ReadAs(ReadListed(ReadNode(h.0 == Magic(true), h.1.1.0[0])), SnapshotFrom(h))
  }

  /** `read_from`. */
  function Decode(): Reader<Snapshot> { ReadThen(ReadHeader(), DecodeNodes()) }

  /** A snapshot whose numbers fit their fields. */
  ghost predicate Fits(s: Snapshot) {
    && s.dim < Pow256(8) && s.m < Pow256(8) && s.m0 < Pow256(8) && s.efConstruction < Pow256(8)
    && s.efSearch < Pow256(8) && s.ml < Pow256(8) && s.rng < Pow256(8)
    && (s.entry.Some? ==> s.entry.value < NO_ENTRY)
    && |s.nodes| < Pow256(4) && forall i :: 0 <= i < |s.nodes| ==> NodeFits(s.quantized, s.dim, s.nodes[i])
  }

  lemma ParamsBack(params: seq<nat>, entry: nat)
    requires |params| == 7 && entry <= NO_ENTRY && forall i :: 0 <= i < 7 ==> params[i] < Pow256(8)
    ensures Inverts(Both(Written(WriteLe(8)), WriteLe(4)), ReadBoth(ReadExactly(ReadLe(8), 7), ReadLe(4)),
              (params, entry))
  {
    assert Pow256(4) == NO_ENTRY + 1;
    forall i | 0 <= i < |params| ensures Inverts(WriteLe(8), ReadLe(8), params[i]) { WriteLeBack(8, params[i]); }
    ExactlyBack(WriteLe(8), ReadLe(8), params);
    WriteLeBack(4, entry);
    BothBack(Written(WriteLe(8)), ReadExactly(ReadLe(8), 7), params, WriteLe(4), ReadLe(4), entry);
  }

  lemma PrefixedBack<T>(magic: seq<Byte>, tag: seq<Byte>, w: T -> seq<Byte>, r: Reader<T>, x: T)
    requires |magic| == 8 && |tag| == 1 && Inverts(w, r, x)
    ensures Inverts(Both(Raw(), Both(Raw(), w)), ReadBoth(Take(8), ReadBoth(Take(1), r)), (magic, (tag, x)))
  {
    RawBack(magic);
    RawBack(tag);
    BothBack(Raw(), Take(1), tag, w, r, x);
    BothBack(Raw(), Take(8), magic, Both(Raw(), w), ReadBoth(Take(1), r), (tag, x));
  }

  lemma HeaderBack(s: Snapshot)
    requires Fits(s)
    ensures Inverts(WriteHeader(), ReadHeader(), HeaderOf(s))
  {
    var (magic, (tag, (params, entry))) := HeaderOf(s);
    ParamsBack(params, entry);
    PrefixedBack(magic, tag, Both(Written(WriteLe(8)), WriteLe(4)), ReadBoth(ReadExactly(ReadLe(8), 7), ReadLe(4)),
                 (params, entry));
  }

  lemma NodesBack(s: Snapshot, rest: seq<Byte>)
    requires Fits(s)
    ensures DecodeNodes()(HeaderOf(s))(Listed(WriteNode())(s.nodes) + rest) == Got(s, rest)
  {
    forall i | 0 <= i < |s.nodes| ensures Inverts(WriteNode(), ReadNode(s.quantized, s.dim), s.nodes[i]) {
      NodeBack(s.quantized, s.dim, s.nodes[i]);
    }
    ListedBack(WriteNode(), ReadNode(s.quantized, s.dim), s.nodes);
    HeaderKnown(s);
    ListAs(Listed(WriteNode()), ReadListed(ReadNode(s.quantized, s.dim)), s, rest);
  }

  lemma HeaderKnown(s: Snapshot)
    requires s.entry.Some? ==> s.entry.value < NO_ENTRY
    ensures Known(HeaderOf(s)) && SnapshotFrom(HeaderOf(s))(s.nodes) == s
    ensures (HeaderOf(s).0 == Magic(true)) == s.quantized && HeaderOf(s).1.1.0[0] == s.dim
  {
    assert Magic(true)[7] != Magic(false)[7];
  }

  lemma ListAs(w: seq<Node> -> seq<Byte>, r: Reader<seq<Node>>, s: Snapshot, rest: seq<Byte>)
    requires Inverts(w, r, s.nodes) && Known(HeaderOf(s)) && SnapshotFrom(HeaderOf(s))(s.nodes) == s
    ensures ReadAs(r, SnapshotFrom(HeaderOf(s)))(w(s.nodes) + rest) == Got(s, rest)
  {
  }

  /** Loading a saved graph gives it back, and leaves what follows in the stream. */
  lemma SnapshotRoundTrip(s: Snapshot, rest: seq<Byte>)
    requires Fits(s)
    ensures Decode()(Encode(s) + rest) == Got(s, rest)
  {
    HeaderBack(s);
    NodesBack(s, rest);
    ThenBack(WriteHeader(), ReadHeader(), HeaderOf(s), DecodeNodes(), Listed(WriteNode())(s.nodes), s, rest);
  }

  lemma HeaderExtends()
    ensures Extends(ReadHeader())
  {
    TakeExtends(8);
    TakeExtends(1);
    TakeExtends(4);
    ExactlyExtends(ReadLe(8), 7);
    var rp := ReadExactly(ReadLe(8), 7);
    BothExtends(rp, ReadLe(4));
    BothExtends(Take(1), ReadBoth(rp, ReadLe(4)));
    BothExtends(Take(8), ReadBoth(Take(1), ReadBoth(rp, ReadLe(4))));
  }

  lemma DecodeExtends()
    ensures Extends(Decode())
  {
    HeaderExtends();
    forall h: Header ensures Extends(DecodeNodes()(h)) {
      if Known(h) {
        NodeExtends(h.0 == Magic(true), h.1.1.0[0]);
        ListedExtends(ReadNode(h.0 == Magic(true), h.1.1.0[0]));
        AsExtends(ReadListed(ReadNode(h.0 == Magic(true), h.1.1.0[0])), SnapshotFrom(h));
      }
    }
    ThenExtends(ReadHeader(), DecodeNodes());
  }

  /** A snapshot cut short anywhere fails to load. */
  lemma TruncatedSnapshotFails(s: Snapshot, k: nat)
    requires Fits(s) && k < |Encode(s)|
    ensures Decode()(Encode(s)[..k]) == Bad
  {
    SnapshotRoundTrip(s, []);
    assert Encode(s) + [] == Encode(s);
    DecodeExtends();
    TruncationFails(Decode(), Encode(s), s, k);
  }

  // Saving and loading an index object.

  function SnapshotOf(h: Hnsw): Snapshot
    reads h
  {
    Snapshot(h.quantized, h.metric, h.dim, h.m, h.m0, h.efConstruction, h.efSearch, h.ml, h.rng, h.entry, h.nodes)
  }

  lemma ManyNext<T>(w: T -> seq<Byte>, s: seq<T>, i: nat)
    requires i < |s|
    ensures WriteMany(w, s[..i + 1]) == WriteMany(w, s[..i]) + w(s[i])
  {
    assert s[..i + 1][..i] == s[..i];
  }

  method WriteNodes(nodes: seq<Node>) returns (out: seq<Byte>)
    ensures out == WriteMany(WriteNode(), nodes)
  {
    out := [];
    var write, i := WriteNode(), 0;
    while i < |nodes|
      invariant 0 <= i <= |nodes| && out == WriteMany(write, nodes[..i])
    {
      ManyNext(write, nodes, i);
      out := out + write(nodes[i]);
      i := i + 1;
    }
    assert nodes[..i] == nodes;
  }

  method WriteTo(h: Hnsw) returns (out: seq<Byte>)
    ensures out == Encode(SnapshotOf(h))
  {
    var body := WriteNodes(h.nodes);
    out := WriteHeader()(HeaderOf(SnapshotOf(h))) + (Le(4, |h.nodes|) + body);
  }

  /** The key index rebuilt from the live nodes, later ones over earlier. */
  function KeyIndex(nodes: seq<Node>): map<Key, nat> {
    if nodes == [] then map[]
    else
      var n := nodes[|nodes| - 1];
      if n.deleted then KeyIndex(nodes[..|nodes| - 1]) else KeyIndex(nodes[..|nodes| - 1])[n.key := |nodes| - 1]
  }

  /** Every indexed key is a live node, and the last live node of a key is its entry. */
  lemma {:induction false} KeyIndexEntries(nodes: seq<Node>)
    ensures forall k :: k in KeyIndex(nodes) ==>
              var i := KeyIndex(nodes)[k]; i < |nodes| && nodes[i].key == k && !nodes[i].deleted
    ensures forall i :: 0 <= i < |nodes| && !nodes[i].deleted ==> nodes[i].key in KeyIndex(nodes)
  {
    if nodes != [] { KeyIndexEntries(nodes[..|nodes| - 1]); }
  }

  /** With live keys unique, the rebuilt index is the original. */
  lemma KeyIndexIs(nodes: seq<Node>, byKey: map<Key, nat>)
    requires Indexed(nodes, byKey)
    ensures KeyIndex(nodes) == byKey
  {
    KeyIndexEntries(nodes);
    forall k | k in byKey ensures k in KeyIndex(nodes) && KeyIndex(nodes)[k] == byKey[k] {
      assert nodes[byKey[k]].key in KeyIndex(nodes);
    }
  }

  method IndexKeys(nodes: seq<Node>) returns (byKey: map<Key, nat>)
    ensures byKey == KeyIndex(nodes)
  {
    byKey := map[];
    var id := 0;
    while id < |nodes|
      invariant 0 <= id <= |nodes| && byKey == KeyIndex(nodes[..id])
    {
      assert nodes[..id + 1][..id] == nodes[..id];
      if !nodes[id].deleted { byKey := byKey[nodes[id].key := id]; }
      id := id + 1;
    }
    assert nodes[..id] == nodes;
  }

  /** The same index, apart from the dirty flag. */
  ghost predicate SameIndexAs(a: Hnsw, b: Hnsw)
    reads a, b
  {
    && SnapshotOf(a) == SnapshotOf(b) && a.byKey == b.byKey
    && a.dist == b.dist && a.prepare == b.prepare && a.nextRng == b.nextRng && a.levelOf == b.levelOf
  }

  // Runs with saves in between.

  /** Components within 32 bits. */
  ghost predicate Floats(v: seq<F32>) { forall i :: 0 <= i < |v| ==> v[i] < Pow256(4) }

  /** What the index is given from outside: parameters of 64 bits, levels that can be counted in 32, and vectors
      prepared to the index's dimension and precision. */
  ghost predicate Given(h: Hnsw) {
    && h.dim < Pow256(8) && h.m0 < Pow256(8) && h.efConstruction < Pow256(8) && h.ml < Pow256(8)
    && (forall v :: |v| == h.dim && Floats(v) ==> HasShape(h.quantized, h.dim, h.prepare(v)))
    && (forall x :: h.levelOf(x) + 1 < Pow256(4)) && (forall x :: h.nextRng(x) < Pow256(8))
  }

  /** A node apart from its links. */
  ghost predicate Storable(quantized: bool, dim: nat, n: Node) {
    |n.key| < Pow256(4) && |n.neighbors| < Pow256(4) && HasShape(quantized, dim, n.vector)
  }

  ghost predicate AllStorable(quantized: bool, dim: nat, nodes: seq<Node>) {
    forall i :: 0 <= i < |nodes| ==> Storable(quantized, dim, nodes[i])
  }

  /** A valid index with what it was given, and nodes made from it. */
  ghost predicate Saveable(h: Hnsw)
    reads h
  {
    && h.Valid() && Given(h) && AllStorable(h.quantized, h.dim, h.nodes)
    && h.efSearch < Pow256(8) && h.rng < Pow256(8)
  }

  lemma {:induction false} BelowCount(n: nat) returns (ids: set<nat>)
    ensures |ids| == n && forall x: nat :: x in ids <==> x < n
  {
    ids := {};
    if n > 0 {
      ids := BelowCount(n - 1);
      ids := ids + {n - 1};
    }
  }

  lemma {:induction false} DistinctWithin(list: seq<nat>, ids: set<nat>)
    requires Distinct(list) && forall k :: 0 <= k < |list| ==> list[k] in ids
    ensures |list| <= |ids|
  {
    if list != [] { DistinctWithin(list[..|list| - 1], ids - {list[|list| - 1]}); }
  }

  /** A list of distinct ids below `n` has at most `n` of them. */
  lemma DistinctBelow(list: seq<nat>, n: nat)
    requires Distinct(list) && forall k :: 0 <= k < |list| ==> list[k] < n
    ensures |list| <= n
  {
    var ids := BelowCount(n);
    DistinctWithin(list, ids);
  }

  lemma WiredFits(quantized: bool, dim: nat, nodes: seq<Node>, i: nat)
    requires Wired(nodes) && AllStorable(quantized, dim, nodes) && |nodes| <= NO_ENTRY && i < |nodes|
    ensures NodeFits(quantized, dim, nodes[i])
  {
    assert Storable(quantized, dim, nodes[i]);
    assert Pow256(4) == NO_ENTRY + 1;
    forall l | 0 <= l < |nodes[i].neighbors| ensures ListFits(nodes[i].neighbors[l]) {
      assert GoodList(nodes, i, l, nodes[i].neighbors[l]);
      DistinctBelow(nodes[i].neighbors[l], |nodes|);
    }
  }

  /** Such an index fits the format while its nodes can be counted below the mark for no entry. */
  lemma SaveableFits(h: Hnsw)
    requires Saveable(h) && |h.nodes| <= NO_ENTRY
    ensures Fits(SnapshotOf(h))
  {
    assert Pow256(4) == NO_ENTRY + 1;
    forall i | 0 <= i < |h.nodes| ensures NodeFits(h.quantized, h.dim, h.nodes[i]) {
      WiredFits(h.quantized, h.dim, h.nodes, i);
    }
  }

  /** Save, then load: the graph comes back valid, equal and clean. */
  method Reload(h: Hnsw) returns (r: Hnsw)
    requires Saveable(h) && |h.nodes| <= NO_ENTRY
    ensures fresh(r) && Saveable(r) && SameIndexAs(h, r) && !r.dirty
  {
    var bytes := WriteTo(h);
    SaveableFits(h);
    SnapshotRoundTrip(SnapshotOf(h), []);
    assert bytes + [] == bytes;
    var s := Decode()(bytes).value;
    var byKey := IndexKeys(s.nodes);
    KeyIndexIs(h.nodes, h.byKey);
    r := new Hnsw.FromParts(s.metric, s.dim, s.m, s.m0, s.efConstruction, s.efSearch, s.ml, s.rng, s.quantized,
                            h.dist, h.prepare, h.nextRng, h.levelOf, s.nodes, byKey, s.entry);
  }

  /** An operation of a run, or a save followed by a load. */
  datatype Act = Do(op: Op) | SaveAndLoad

  /** Keys and components within the format. */
  ghost predicate Writable(act: Act) {
    act.Do? && act.op.Insert? ==> |act.op.key| < Pow256(4) && Floats(act.op.vector)
  }

  /** What a run means for the dictionary: saving and loading is nothing. */
  function Replay(dim: nat, prepare: seq<F32> -> Stored, dict: map<Key, Stored>, acts: seq<Act>): map<Key, Stored> {
    if acts == [] then dict
    else
      var before := Replay(dim, prepare, dict, acts[..|acts| - 1]);
      match acts[|acts| - 1]
      case Do(op) => Effect(dim, prepare, before, op)
      case SaveAndLoad => before
  }

  lemma AfterStorable(quantized: bool, dim: nat, prepare: seq<F32> -> Stored, level: nat, op: Op, a: seq<Node>,
                      b: seq<Node>)
    requires After(dim, prepare, level, op, a, b) && AllStorable(quantized, dim, a) && Writable(Do(op))
    requires forall v :: |v| == dim && Floats(v) ==> HasShape(quantized, dim, prepare(v))
    requires level + 1 < Pow256(4)
    ensures AllStorable(quantized, dim, b) && |b| <= |a| + 1
  {
    forall i | 0 <= i < |b| ensures Storable(quantized, dim, b[i]) {
      if i < |a| { assert Storable(quantized, dim, a[i]); }
    }
  }

  /** One act: the index goes on as it is, or as the one loaded. */
  method Perform(h: Hnsw, act: Act, ghost dict: map<Key, Stored>) returns (r: Hnsw)
    requires Saveable(h) && h.Represents(dict) && Writable(act) && |h.nodes| <= NO_ENTRY
    modifies h
    ensures (r == h || fresh(r)) && r.dim == h.dim && r.prepare == h.prepare
    ensures Saveable(r) && |r.nodes| <= |old(h.nodes)| + 1
    ensures r.Represents(if act.Do? then Effect(h.dim, h.prepare, dict, act.op) else dict)
  {
    match act
    case Do(op) =>
      r := h;
      ghost var nodes0, level := h.nodes, h.levelOf(h.nextRng(h.rng));
      h.Apply(op, dict);
      AfterStorable(h.quantized, h.dim, h.prepare, level, op, nodes0, h.nodes);
    case SaveAndLoad =>
      r := Reload(h);
  }

  /** Any run of inserts, replacements, removals, saves and loads keeps the graph invariant and refines the plain
      dictionary, as long as the nodes can be counted in the format. */
  method Run(h: Hnsw, acts: seq<Act>, ghost dict: map<Key, Stored>) returns (r: Hnsw)
    requires Saveable(h) && h.Represents(dict) && |h.nodes| + |acts| <= NO_ENTRY
    requires forall i :: 0 <= i < |acts| ==> Writable(acts[i])
    modifies h
    ensures (r == h || fresh(r)) && r.dim == h.dim && r.prepare == h.prepare
    ensures Saveable(r) && r.Represents(Replay(h.dim, h.prepare, dict, acts))
    ensures |r.nodes| <= |old(h.nodes)| + |acts|
    decreases |acts|
  {
    if acts == [] {
      r := h;
    } else {
      var front := acts[..|acts| - 1];
      r := Run(h, front, dict);
      r := Perform(r, acts[|acts| - 1], Replay(h.dim, h.prepare, dict, front));
    }
  }
}
