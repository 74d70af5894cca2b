/** Consistent-hash ring: clockwise placement, joins and leaves, and primary-owned arcs. */
module HashRing {
  import opened Prelude

  const U64_MAX: nat := 0xFFFF_FFFF_FFFF_FFFF
  type U64 = x: nat | x <= U64_MAX
  datatype NodeId = NodeId(name: string)

  // Tokens in ascending order.

  ghost predicate Increasing(s: seq<nat>) { forall i, j :: 0 <= i < j < |s| ==> s[i] < s[j] }

  ghost predicate IsMin(s: set<nat>, m: nat) { m in s && forall x :: x in s ==> m <= x }

  lemma {:induction false} MinExists(s: set<nat>)
    requires s != {}
    ensures exists m :: IsMin(s, m)
    decreases |s|
  {
    var a :| a in s;
    var rest := s - {a};
    if rest == {} {
      assert s == {a};
      assert IsMin(s, a);
    } else {
      MinExists(rest);
      var b :| IsMin(rest, b);
      var m := if b < a then b else a;
      forall x | x in s ensures m <= x { if x != a { assert x in rest; } }
      assert IsMin(s, m);
    }
  }

  /** The tokens of a set, smallest first. */
  ghost function Ascending(s: set<nat>): seq<nat>
    decreases |s|
  {
    if s == {} then []
    else
      MinExists(s);
      var m :| IsMin(s, m);
      [m] + Ascending(s - {m})
  }

  lemma {:induction false} AscendingIs(s: set<nat>)
    ensures forall t :: t in Ascending(s) <==> t in s
    ensures Increasing(Ascending(s))
    decreases |s|
  {
    if s != {} {
      MinExists(s);
      var m :| IsMin(s, m) && Ascending(s) == [m] + Ascending(s - {m});
      AscendingIs(s - {m});
      ConsIncreasing(m, Ascending(s - {m}));
    }
  }

  lemma ConsIncreasing(m: nat, rest: seq<nat>)
    requires Increasing(rest) && forall t :: t in rest ==> m < t
    ensures Increasing([m] + rest)
  {
    forall i | 0 <= i < |rest| ensures m < rest[i] { assert rest[i] in rest; }
  }

  /** An increasing list is determined by its elements. */
  lemma {:induction false} IncreasingUnique(a: seq<nat>, b: seq<nat>)
    requires Increasing(a) && Increasing(b) && forall t :: t in a <==> t in b
    ensures a == b
  {
    assert |a| > 0 ==> |b| > 0 by { if |a| > 0 { assert a[0] in b; } }
    assert |b| > 0 ==> |a| > 0 by { if |b| > 0 { assert b[0] in a; } }
    if a != [] {
      assert a[0] in b && b[0] in a;
      assert a[0] == b[0];
      forall t ensures t in a[1..] <==> t in b[1..] {
        assert t in a[1..] <==> t in a && t != a[0];
        assert t in b[1..] <==> t in b && t != b[0];
      }
      IncreasingUnique(a[1..], b[1..]);
    }
  }

  function Filter<T(!new)>(p: T -> bool, s: seq<T>): (out: seq<T>)
    ensures forall x :: x in out <==> x in s && p(x)
  {
    if s == [] then [] else if p(s[0]) then [s[0]] + Filter(p, s[1..]) else Filter(p, s[1..])
  }

  lemma {:induction false} FilterConcat<T(!new)>(p: T -> bool, a: seq<T>, b: seq<T>)
    ensures Filter(p, a + b) == Filter(p, a) + Filter(p, b)
  {
    if a == [] {
      assert a + b == b;
    } else {
      assert (a + b)[1..] == a[1..] + b;
      FilterConcat(p, a[1..], b);
    }
  }

  lemma {:induction false} FilterIncreasing(p: nat -> bool, s: seq<nat>)
    requires Increasing(s)
    ensures Increasing(Filter(p, s))
  {
    if s != [] {
      FilterIncreasing(p, s[1..]);
      var rest := Filter(p, s[1..]);
      forall i | 0 <= i < |rest| ensures s[0] < rest[i] { assert rest[i] in s[1..]; }
    }
  }

  /** Filtering the ascending tokens is ascending the filtered tokens. */
  lemma AscendingFilter(p: nat -> bool, s: set<nat>)
    ensures Filter(p, Ascending(s)) == Ascending(set t | t in s && p(t))
  {
    AscendingIs(s);
    AscendingIs(set t | t in s && p(t));
    FilterIncreasing(p, Ascending(s));
    IncreasingUnique(Filter(p, Ascending(s)), Ascending(set t | t in s && p(t)));
  }

  // The clockwise walk.

  type Vnodes = map<nat, NodeId>

  ghost function FromHash(v: Vnodes, h: nat): set<nat> { set t | t in v && t >= h }

  ghost function BelowHash(v: Vnodes, h: nat): set<nat> { set t | t in v && t < h }

  /** All tokens, clockwise from `h`. */
  ghost function Clockwise(v: Vnodes, h: nat): (tokens: seq<nat>)
    ensures forall t :: t in tokens <==> t in v
  {
    AscendingIs(FromHash(v, h));
    AscendingIs(BelowHash(v, h));
    Ascending(FromHash(v, h)) + Ascending(BelowHash(v, h))
  }

  function Owners(v: Vnodes, tokens: seq<nat>): (owners: seq<NodeId>)
    requires forall t :: t in tokens ==> t in v
    ensures |owners| == |tokens| && forall i :: 0 <= i < |tokens| ==> owners[i] == v[tokens[i]]
  {
    seq(|tokens|, i requires 0 <= i < |tokens| => assert tokens[i] in tokens; v[tokens[i]])
  }

  /** The owners met on the walk, each where it is first met. */
  function Firsts(s: seq<NodeId>): (out: seq<NodeId>)
    ensures forall x :: x in out <==> x in s
    ensures forall i, j :: 0 <= i < j < |out| ==> out[i] != out[j]
  {
    if s == [] then []
    else
      var out, x := Firsts(s[..|s| - 1]), s[|s| - 1];
      assert s == s[..|s| - 1] + [x];
      if x in out then out else out + [x]
  }

  /** The clockwise order of distinct nodes from `h`. */
  ghost function Order(v: Vnodes, h: nat): seq<NodeId> { Firsts(Owners(v, Clockwise(v, h))) }

  // Removing a node's tokens removes it from every clockwise order.

  function Except(x: NodeId): NodeId -> bool { (n: NodeId) => n != x }

  ghost predicate Without(v: Vnodes, w: Vnodes, x: NodeId) {
    && (forall t :: t in w <==> t in v && v[t] != x)
    && (forall t :: t in w ==> w[t] == v[t])
  }

  lemma {:induction false} FirstsFilter(s: seq<NodeId>, x: NodeId)
    ensures Firsts(Filter(Except(x), s)) == Filter(Except(x), Firsts(s))
  {
    if s != [] {
      var front, y := s[..|s| - 1], s[|s| - 1];
      FirstsFilter(front, x);
      assert s == front + [y];
      FilterSnoc(Except(x), front, y);
      FilterSnoc(Except(x), Firsts(front), y);
      FirstsSnoc(Filter(Except(x), front), y);
    }
  }

  lemma FilterSnoc<T(!new)>(p: T -> bool, s: seq<T>, y: T)
    ensures Filter(p, s + [y]) == if p(y) then Filter(p, s) + [y] else Filter(p, s)
  {
    FilterConcat(p, s, [y]);
    assert Filter(p, [y]) == if p(y) then [y] else [];
  }

  lemma FirstsSnoc(s: seq<NodeId>, y: NodeId)
    ensures Firsts(s + [y]) == if y in s then Firsts(s) else Firsts(s) + [y]
  {
    assert (s + [y])[..|s|] == s;
  }

  lemma OwnersCons(v: Vnodes, t: nat, tokens: seq<nat>)
    requires t in v && forall u :: u in tokens ==> u in v
    ensures Owners(v, [t] + tokens) == [v[t]] + Owners(v, tokens)
  {
  }

  lemma {:induction false} OwnersFilter(v: Vnodes, w: Vnodes, x: NodeId, tokens: seq<nat>, keep: nat -> bool)
    requires Without(v, w, x) && (forall t :: t in tokens ==> t in v)
    requires forall t :: t in v ==> (keep(t) <==> v[t] != x)
    ensures forall t :: t in Filter(keep, tokens) ==> t in w
    ensures Owners(w, Filter(keep, tokens)) == Filter(Except(x), Owners(v, tokens))
  {
    if tokens != [] {
      var t, rest := tokens[0], tokens[1..];
      assert tokens == [t] + rest;
      OwnersFilter(v, w, x, rest, keep);
      OwnersCons(v, t, rest);
      assert ([v[t]] + Owners(v, rest))[1..] == Owners(v, rest);
      if keep(t) { OwnersCons(w, t, Filter(keep, rest)); }
    }
  }

  lemma ClockwiseFilter(v: Vnodes, w: Vnodes, x: NodeId, h: nat, keep: nat -> bool)
    requires Without(v, w, x) && forall t :: t in v ==> (keep(t) <==> v[t] != x)
    ensures Filter(keep, Clockwise(v, h)) == Clockwise(w, h)
  {
    AscendingFilter(keep, FromHash(v, h));
    AscendingFilter(keep, BelowHash(v, h));
    FilterConcat(keep, Ascending(FromHash(v, h)), Ascending(BelowHash(v, h)));
    assert (set t | t in FromHash(v, h) && keep(t)) == FromHash(w, h);
    assert (set t | t in BelowHash(v, h) && keep(t)) == BelowHash(w, h);
  }

  /** Leaving: every clockwise order is the old one with the leaver deleted. */
  lemma LeaveOrder(v: Vnodes, w: Vnodes, x: NodeId, h: nat)
    requires Without(v, w, x)
    ensures Order(w, h) == Filter(Except(x), Order(v, h))
  {
    var keep := (t: nat) => t in v && v[t] != x;
    ClockwiseFilter(v, w, x, h, keep);
    OwnersFilter(v, w, x, Clockwise(v, h), keep);
    FirstsFilter(Owners(v, Clockwise(v, h)), x);
  }

  function InsertAt(s: seq<NodeId>, p: nat, x: NodeId): seq<NodeId>
    requires p <= |s|
  {
    s[..p] + [x] + s[p..]
  }

  lemma InsertCons(y: NodeId, s: seq<NodeId>, p: nat, x: NodeId)
    requires p <= |s|
    ensures InsertAt([y] + s, p + 1, x) == [y] + InsertAt(s, p, x)
  {
    assert ([y] + s)[..p + 1] == [y] + s[..p] && ([y] + s)[p + 1..] == s[p..];
  }

  /** A duplicate-free list is what remains without `x`, with `x` put back in its place. */
  lemma {:induction false} FilterOne(s: seq<NodeId>, x: NodeId) returns (p: nat)
    requires forall i, j :: 0 <= i < j < |s| ==> s[i] != s[j]
    ensures p <= |Filter(Except(x), s)|
    ensures s == if x in s then InsertAt(Filter(Except(x), s), p, x) else Filter(Except(x), s)
  {
    p := 0;
    if s != [] {
      var y, rest := s[0], s[1..];
      var left := Filter(Except(x), rest);
      var q := FilterOne(rest, x);
      assert s == [y] + rest;
      if y == x {
        assert x !in rest;
        assert Filter(Except(x), s) == left && InsertAt(left, 0, x) == [x] + left;
      } else {
        assert Filter(Except(x), s) == [y] + left;
        InsertCons(y, left, q, x);
        p := q + 1;
      }
    }
  }

  function Prefix(s: seq<NodeId>, n: nat): seq<NodeId> { if n <= |s| then s[..n] else s }

  lemma InsertPrefix(s: seq<NodeId>, p: nat, x: NodeId, n: nat)
    requires n <= p <= |s|
    ensures Prefix(InsertAt(s, p, x), n) == Prefix(s, n)
  {
  }

  /** Joining: each replica list is the old one with at most the joiner inserted and the tail cut. */
  lemma JoinReplicas(v: Vnodes, w: Vnodes, x: NodeId, h: nat, n: nat) returns (p: nat)
    requires Without(w, v, x)
    ensures p <= |Order(v, h)|
    ensures Prefix(Order(w, h), n) ==
            if x in Order(w, h) && p < n then Prefix(InsertAt(Order(v, h), p, x), n) else Prefix(Order(v, h), n)
  {
    LeaveOrder(w, v, x, h);
    p := FilterOne(Order(w, h), x);
    if p >= n { InsertPrefix(Order(v, h), p, x, n); }
  }

  // Membership changes.

  type TokenOf = (NodeId, nat) -> U64

  /** Place the first `k` virtual nodes of `x`; a colliding token changes owner. */
  function Placed(v: Vnodes, token: TokenOf, x: NodeId, k: nat): Vnodes {
    if k == 0 then v else Placed(v, token, x, k - 1)[token(x, k - 1) := x]
  }

  predicate HasToken(token: TokenOf, x: NodeId, k: nat, t: nat) { exists i :: 0 <= i < k && token(x, i) == t }

  lemma {:induction false} PlacedIs(v: Vnodes, token: TokenOf, x: NodeId, k: nat)
    ensures forall t :: t in Placed(v, token, x, k) <==> t in v || HasToken(token, x, k, t)
    ensures forall t :: t in Placed(v, token, x, k) ==>
              Placed(v, token, x, k)[t] == if HasToken(token, x, k, t) then x else v[t]
  {
    if k > 0 {
      PlacedIs(v, token, x, k - 1);
      assert forall t :: HasToken(token, x, k, t) <==> HasToken(token, x, k - 1, t) || token(x, k - 1) == t;
    }
  }

  function Dropped(v: Vnodes, x: NodeId): Vnodes { v - set t | t in v && v[t] == x }

  lemma DroppedIs(v: Vnodes, x: NodeId)
    ensures Without(v, Dropped(v, x), x)
  {
  }

  /** No token of the joiner is taken. */
  ghost predicate Free(v: Vnodes, token: TokenOf, x: NodeId, k: nat) {
    forall i :: 0 <= i < k ==> token(x, i) !in v
  }

  /** A joiner only adds itself exactly when none of its tokens was taken. */
  lemma JoinAddsOnlyIff(v: Vnodes, token: TokenOf, x: NodeId, k: nat)
    requires x !in v.Values
    ensures Without(Placed(v, token, x, k), v, x) <==> Free(v, token, x, k)
  {
    PlacedIs(v, token, x, k);
    forall t | t in v ensures v[t] != x { assert v[t] in v.Values; }
    if !Free(v, token, x, k) {
      var i :| 0 <= i < k && token(x, i) in v;
      assert HasToken(token, x, k, token(x, i));
    }
  }

  /** Adding a node and removing it again restores the ring if and only if none of its tokens was taken. */
  lemma AddRemoveRestoresIff(v: Vnodes, token: TokenOf, x: NodeId, k: nat)
    requires x !in v.Values
    ensures Dropped(Placed(v, token, x, k), x) == v <==> Free(v, token, x, k)
  {
    PlacedIs(v, token, x, k);
    var w := Placed(v, token, x, k);
    if Free(v, token, x, k) {
      JoinAddsOnlyIff(v, token, x, k);
      assert Dropped(w, x) == v;
    } else {
      var i :| 0 <= i < k && token(x, i) in v;
      assert HasToken(token, x, k, token(x, i));
      assert token(x, i) !in Dropped(w, x);
    }
  }

  /** Two nodes that share a token: adding and removing the second takes it from the first. */
  lemma SharedTokenLost(a: NodeId, b: NodeId)
    requires a != b
    ensures var token: TokenOf := (n: NodeId, i: nat) => 0;
            var v := Placed(map[], token, a, 1);
            v != map[] && b !in v.Values && Dropped(Placed(v, token, b, 1), b) == map[]
  {
    var token: TokenOf := (n: NodeId, i: nat) => 0;
    var v := Placed(map[], token, a, 1);
    PlacedIs(map[], token, a, 1);
    PlacedIs(v, token, b, 1);
    assert HasToken(token, a, 1, token(a, 0));
    assert 0 in v;
  }

  function PlacedAll(v: Vnodes, token: TokenOf, list: seq<NodeId>, k: nat): Vnodes {
    if list == [] then v else Placed(PlacedAll(v, token, list[..|list| - 1], k), token, list[|list| - 1], k)
  }

  /** Tokens tell members apart. */
  ghost predicate TokensDistinct(token: TokenOf, list: seq<NodeId>, k: nat) {
    forall x, y, i, j :: x in list && y in list && 0 <= i < k && 0 <= j < k && token(x, i) == token(y, j) ==> x == y
  }

  ghost predicate OwnedBy(token: TokenOf, list: seq<NodeId>, k: nat, t: nat, x: NodeId) {
    x in list && HasToken(token, x, k, t)
  }

  lemma {:induction false} PlacedAllIs(token: TokenOf, list: seq<NodeId>, k: nat)
    requires TokensDistinct(token, list, k)
    ensures forall t, x :: OwnedBy(token, list, k, t, x) ==>
              t in PlacedAll(map[], token, list, k) && PlacedAll(map[], token, list, k)[t] == x
    ensures forall t :: t in PlacedAll(map[], token, list, k) ==>
              OwnedBy(token, list, k, t, PlacedAll(map[], token, list, k)[t])
  {
    if list != [] {
      var front, y := list[..|list| - 1], list[|list| - 1];
      assert list == front + [y];
      PlacedAllIs(token, front, k);
      PlacedIs(PlacedAll(map[], token, front, k), token, y, k);
      forall t, x | OwnedBy(token, list, k, t, x)
        ensures t in PlacedAll(map[], token, list, k) && PlacedAll(map[], token, list, k)[t] == x
      {
        if x != y { assert OwnedBy(token, front, k, t, x); }
        if HasToken(token, y, k, t) { SameOwner(token, list, k, t, x, y); }
      }
    }
  }

  lemma SameOwner(token: TokenOf, list: seq<NodeId>, k: nat, t: nat, x: NodeId, y: NodeId)
    requires TokensDistinct(token, list, k) && OwnedBy(token, list, k, t, x) && OwnedBy(token, list, k, t, y)
    ensures x == y
  {
    var i :| 0 <= i < k && token(x, i) == t;
    var j :| 0 <= j < k && token(y, j) == t;
  }

  /** The order in which members join does not matter. */
  lemma JoinOrderIrrelevant(token: TokenOf, a: seq<NodeId>, b: seq<NodeId>, k: nat)
    requires TokensDistinct(token, a, k) && forall x :: x in a <==> x in b
    ensures PlacedAll(map[], token, a, k) == PlacedAll(map[], token, b, k)
  {
    PlacedAllIs(token, a, k);
    PlacedAllIs(token, b, k);
    var v, w := PlacedAll(map[], token, a, k), PlacedAll(map[], token, b, k);
    forall t | t in v ensures t in w && w[t] == v[t] { assert OwnedBy(token, b, k, t, v[t]); }
    forall t | t in w ensures t in v && v[t] == w[t] { assert OwnedBy(token, a, k, t, w[t]); }
  }

  // The ring object.

  method SortTokens(s: set<nat>) returns (out: seq<nat>)
    ensures out == Ascending(s)
  {
    out := [];
    var rest := s;
    AscendingIs(s);
    while rest != {}
      invariant Sorting(s, out, rest)
      decreases |rest|
    {
      MinExists(rest);
      var m :| m in rest && forall x :: x in rest ==> m <= x;
      MoveLeast(s, out, rest, m);
      out, rest := out + [m], rest - {m};
    }
    IncreasingUnique(out, Ascending(s));
  }

  /** `out` is the smaller part of `s`, in order. */
  ghost predicate Sorting(s: set<nat>, out: seq<nat>, rest: set<nat>) {
    && Increasing(out)
    && (forall t :: t in s <==> t in out || t in rest)
    && (forall t, u :: t in out && u in rest ==> t < u)
  }

  lemma MoveLeast(s: set<nat>, out: seq<nat>, rest: set<nat>, m: nat)
    requires Sorting(s, out, rest) && m in rest && forall x :: x in rest ==> m <= x
    ensures Sorting(s, out + [m], rest - {m})
  {
    SnocIncreasing(out, m);
  }

  lemma SnocIncreasing(s: seq<nat>, m: nat)
    requires Increasing(s) && forall t :: t in s ==> t < m
    ensures Increasing(s + [m])
  {
    forall i | 0 <= i < |s| ensures s[i] < m { assert s[i] in s; }
  }

  class Ring {
    const vnodesPerNode: nat
    const token: TokenOf
    const hash: seq<int> -> U64
    var vnodes: Vnodes
    var nodes: set<NodeId>

    ghost predicate Valid()
      reads this
    {
      vnodesPerNode >= 1 && vnodes.Values <= nodes && forall t :: t in vnodes ==> t <= U64_MAX
    }

    constructor (perNode: nat, token: TokenOf, hash: seq<int> -> U64)
      ensures Valid() && vnodes == map[] && nodes == {} && this.token == token && this.hash == hash
    {
      vnodesPerNode := if perNode < 1 then 1 else perNode;
      this.token, this.hash, vnodes, nodes := token, hash, map[], {};
    }

    method AddNode(node: NodeId)
      requires Valid()
      modifies this
      ensures Valid() && nodes == old(nodes) + {node}
      ensures vnodes == if node in old(nodes) then old(vnodes) else Placed(old(vnodes), token, node, vnodesPerNode)
    {
      if node in nodes { return; }
      nodes := nodes + {node};
      var i := 0;
      while i < vnodesPerNode
        invariant 0 <= i <= vnodesPerNode && nodes == old(nodes) + {node}
        invariant vnodes == Placed(old(vnodes), token, node, i)
      {
        vnodes := vnodes[token(node, i) := node];
        i := i + 1;
      }
      PlacedIs(old(vnodes), token, node, vnodesPerNode);
      OwnersPlaced(old(vnodes), vnodes, node);
    }

    method RemoveNode(node: NodeId)
      requires Valid()
      modifies this
      ensures Valid() && nodes == old(nodes) - {node} && vnodes == Dropped(old(vnodes), node)
    {
      DroppedIs(vnodes, node);
      OwnersDropped(vnodes, node);
      if node in nodes {
        nodes := nodes - {node};
        vnodes := vnodes - set t | t in vnodes && vnodes[t] == node;
      }
    }

    /** The next distinct owners clockwise, as many as asked for or as there are. */
    method ReplicasFor(key: seq<int>, rf: nat) returns (out: seq<NodeId>)
      requires Valid()
      ensures out == Prefix(Order(vnodes, hash(key)), rf)
      ensures |out| == if rf < |vnodes.Values| then rf else |vnodes.Values|
    {
      var h := hash(key);
      var want := if rf < |nodes| then rf else |nodes|;
      OwnersBound(vnodes, nodes, h);
      PrefixBound(Order(vnodes, h), rf, |nodes|);
      if want == 0 { return []; }
      var tokens := TokensFrom(vnodes, h);
      out := FirstOwners(vnodes, tokens, want);
    }

    method PrimaryFor(key: seq<int>) returns (out: Option<NodeId>)
      requires Valid()
      ensures out == Primary(vnodes, hash(key))
    {
      var r := ReplicasFor(key, 1);
      out := if r == [] then None else Some(r[0]);
    }
  }

  ghost function Primary(v: Vnodes, h: nat): Option<NodeId> {
    if Order(v, h) == [] then None else Some(Order(v, h)[0])
  }

  /** The tokens from `h` up, then those below it. */
  method TokensFrom(v: Vnodes, h: nat) returns (tokens: seq<nat>)
    ensures tokens == Clockwise(v, h)
  {
    var up := SortTokens(set t | t in v && t >= h);
    var down := SortTokens(set t | t in v && t < h);
    tokens := up + down;
  }

  lemma PrefixBound(s: seq<NodeId>, rf: nat, n: nat)
    requires |s| <= n
    ensures Prefix(s, if rf < n then rf else n) == Prefix(s, rf)
    ensures |Prefix(s, rf)| == if rf < |s| then rf else |s|
  {
  }

  lemma OwnersPlaced(v: Vnodes, w: Vnodes, x: NodeId)
    requires forall t :: t in w ==> w[t] == x || (t in v && w[t] == v[t])
    ensures w.Values <= v.Values + {x}
  {
  }

  lemma OwnersDropped(v: Vnodes, x: NodeId)
    ensures Dropped(v, x).Values <= v.Values - {x} && (x !in v.Values ==> Dropped(v, x) == v)
  {
    var w := Dropped(v, x);
    forall n | n in w.Values ensures n in v.Values && n != x {
      var t :| t in w && w[t] == n;
      assert v[t] == n;
    }
    if x !in v.Values {
      forall t | t in v ensures v[t] != x { assert v[t] in v.Values; }
    }
  }

  /** The clockwise order lists each owner once. */
  lemma OrderSize(v: Vnodes, h: nat)
    ensures |Order(v, h)| == |v.Values|
  {
    var order := Order(v, h);
    assert forall n :: n in order <==> n in v.Values by {
      forall n | n in v.Values ensures n in order {
        var t :| t in v && v[t] == n;
        var i :| 0 <= i < |Clockwise(v, h)| && Clockwise(v, h)[i] == t;
        assert Owners(v, Clockwise(v, h))[i] == n;
      }
      forall n | n in order ensures n in v.Values {
        var i :| 0 <= i < |Clockwise(v, h)| && Owners(v, Clockwise(v, h))[i] == n;
        assert Clockwise(v, h)[i] in Clockwise(v, h);
      }
    }
    DistinctCount(order, v.Values);
  }

  lemma {:induction false} DistinctCount(s: seq<NodeId>, elems: set<NodeId>)
    requires (forall i, j :: 0 <= i < j < |s| ==> s[i] != s[j]) && forall n :: n in s <==> n in elems
    ensures |s| == |elems|
  {
    if s == [] {
      assert elems == {};
    } else {
      var front, x := s[..|s| - 1], s[|s| - 1];
      assert s == front + [x];
      assert forall n :: n in front <==> n in elems - {x};
      DistinctCount(front, elems - {x});
    }
  }

  lemma OwnersBound(v: Vnodes, nodes: set<NodeId>, h: nat)
    requires v.Values <= nodes
    ensures |Order(v, h)| == |v.Values| <= |nodes|
  {
    OrderSize(v, h);
    SubsetSize(v.Values, nodes);
  }

  /** The loop of `replicas_for`: stop once `want` distinct owners are met. */
  method FirstOwners(v: Vnodes, tokens: seq<nat>, want: nat) returns (out: seq<NodeId>)
    requires want > 0 && forall t :: t in tokens ==> t in v
    ensures out == Prefix(Firsts(Owners(v, tokens)), want)
  {
    out := [];
    var i := 0;
    ghost var owners := Owners(v, tokens);
    while i < |tokens| && |out| < want
      invariant 0 <= i <= |tokens| && out == Firsts(owners[..i]) && |out| <= want
    {
      assert tokens[i] in tokens;
      assert owners[..i + 1][..i] == owners[..i];
      if v[tokens[i]] !in out { out := out + [v[tokens[i]]]; }
      i := i + 1;
    }
    FirstsPrefix(owners, i);
    assert owners[..|owners|] == owners;
  }

  lemma {:induction false} FirstsPrefix(s: seq<NodeId>, n: nat)
    requires n <= |s|
    ensures Firsts(s[..n]) <= Firsts(s)
    decreases |s|
  {
    if n < |s| {
      assert s[..|s| - 1][..n] == s[..n];
      FirstsPrefix(s[..|s| - 1], n);
    } else {
      assert s[..n] == s;
    }
  }
}
