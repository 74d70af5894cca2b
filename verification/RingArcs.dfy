/** The key space each member owns as primary. */
module RingArcs {
  import opened HashRing
  import opened Prelude

  /** An inclusive range of hashes. */
  datatype Arc = Arc(lo: nat, hi: nat)

  predicate In(h: nat, a: Arc) { a.lo <= h <= a.hi }

  ghost predicate Covered(arcs: seq<Arc>, h: nat) { exists k :: 0 <= k < |arcs| && In(h, arcs[k]) }

  ghost predicate TokenList(tokens: seq<nat>) {
    Increasing(tokens) && forall i :: 0 <= i < |tokens| ==> tokens[i] <= U64_MAX
  }

  /** How many tokens lie below `h`. */
  function Below(tokens: seq<nat>, h: nat): (b: nat)
    ensures b <= |tokens|
  {
    if tokens == [] then 0
    else if tokens[|tokens| - 1] < h then |tokens|
    else Below(tokens[..|tokens| - 1], h)
  }

  lemma {:induction false} BelowIs(tokens: seq<nat>, h: nat)
    requires Increasing(tokens)
    ensures forall i :: 0 <= i < |tokens| ==> (tokens[i] < h <==> i < Below(tokens, h))
  {
    if tokens != [] && tokens[|tokens| - 1] >= h {
      var front := tokens[..|tokens| - 1];
      BelowIs(front, h);
      forall i | 0 <= i < |tokens| ensures tokens[i] < h <==> i < Below(tokens, h) {
        if i < |front| { assert tokens[i] == front[i]; }
      }
    }
  }

  /** The index of the first token at or after `h`, wrapping to the first of all. */
  function Succ(tokens: seq<nat>, h: nat): (i: nat)
    requires tokens != []
    ensures i < |tokens|
  {
    if Below(tokens, h) == |tokens| then 0 else Below(tokens, h)
  }

  lemma FirstOfFirsts(s: seq<NodeId>)
    requires s != []
    ensures Firsts(s) != [] && Firsts(s)[0] == s[0]
  {
    FirstsPrefix(s, 1);
    assert s[..1] == [s[0]] && [s[0]][..0] == [];
    assert Firsts([s[0]]) == [s[0]];
  }

  /** The primary owns the next token clockwise. */
  lemma PrimaryIsSucc(v: Vnodes, h: nat)
    requires v != map[]
    ensures var tokens := Ascending(v.Keys);
            && tokens != [] && tokens[Succ(tokens, h)] in v
            && Primary(v, h) == Some(v[tokens[Succ(tokens, h)]])
  {
    var tokens := Ascending(v.Keys);
    AscendingIs(v.Keys);
    assert tokens != [] by {
      var t :| t in v.Keys;
      assert t in tokens;
    }
    assert tokens[Succ(tokens, h)] in tokens;
    ClockwiseCut(v, h);
    var walk := Clockwise(v, h);
    assert walk[0] == tokens[Succ(tokens, h)];
    assert Owners(v, walk)[0] == v[walk[0]];
    FirstOfFirsts(Owners(v, walk));
  }

  lemma UpperPart(v: Vnodes, h: nat)
    ensures var tokens := Ascending(v.Keys); Ascending(FromHash(v, h)) == tokens[Below(tokens, h)..]
  {
    var tokens := Ascending(v.Keys);
    var part := tokens[Below(tokens, h)..];
    AscendingIs(v.Keys);
    AscendingIs(FromHash(v, h));
    BelowIs(tokens, h);
    forall t ensures t in part <==> t in FromHash(v, h) { SplitMember(tokens, Below(tokens, h), h, t); }
    IncreasingUnique(part, Ascending(FromHash(v, h)));
  }

  lemma LowerPart(v: Vnodes, h: nat)
    ensures var tokens := Ascending(v.Keys); Ascending(BelowHash(v, h)) == tokens[..Below(tokens, h)]
  {
    var tokens := Ascending(v.Keys);
    var part := tokens[..Below(tokens, h)];
    AscendingIs(v.Keys);
    AscendingIs(BelowHash(v, h));
    BelowIs(tokens, h);
    forall t ensures t in part <==> t in BelowHash(v, h) { SplitMember(tokens, Below(tokens, h), h, t); }
    IncreasingUnique(part, Ascending(BelowHash(v, h)));
  }

  lemma SplitMember(tokens: seq<nat>, b: nat, h: nat, t: nat)
    requires b <= |tokens| && forall i :: 0 <= i < |tokens| ==> (tokens[i] < h <==> i < b)
    ensures t in tokens[b..] <==> t in tokens && t >= h
    ensures t in tokens[..b] <==> t in tokens && t < h
  {
  }

  /** The walk is the ascending list, cut at `h` and swapped. */
  lemma ClockwiseCut(v: Vnodes, h: nat)
    ensures var tokens := Ascending(v.Keys);
            var b := Below(tokens, h);
            Clockwise(v, h) == tokens[b..] + tokens[..b]
  {
    UpperPart(v, h);
    LowerPart(v, h);
  }

  /** The arcs behind one token: from just past the previous token, split where it wraps. */
  function ArcsAt(tokens: seq<nat>, i: nat): seq<Arc>
    requires i < |tokens|
  {
    var token, prev := tokens[i], if i == 0 then tokens[|tokens| - 1] else tokens[i - 1];
    if prev < token then [Arc(prev + 1, token)]
    else if prev < U64_MAX then [Arc(prev + 1, U64_MAX), Arc(0, token)]
    else [Arc(0, token)]
  }

  /** A hash lies behind a token exactly when that token is its successor. */
  lemma ArcsAtIs(tokens: seq<nat>, i: nat, h: U64)
    requires TokenList(tokens) && i < |tokens|
    ensures Covered(ArcsAt(tokens, i), h) <==> Succ(tokens, h) == i
  {
    BelowIs(tokens, h);
    var arcs := ArcsAt(tokens, i);
    var token, prev := tokens[i], if i == 0 then tokens[|tokens| - 1] else tokens[i - 1];
    if prev < token {
      assert Covered(arcs, h) <==> In(h, arcs[0]);
    } else if prev < U64_MAX {
      assert Covered(arcs, h) <==> In(h, arcs[0]) || In(h, arcs[1]);
    } else {
      assert Covered(arcs, h) <==> In(h, arcs[0]);
    }
  }

  predicate Apart(a: Arc, b: Arc) { a.hi < b.lo || b.hi < a.lo }

  /** Proper, pairwise disjoint arcs within the hash space. */
  ghost predicate Disjoint(arcs: seq<Arc>) {
    && (forall i :: 0 <= i < |arcs| ==> arcs[i].lo <= arcs[i].hi <= U64_MAX)
    && (forall i, j :: 0 <= i < j < |arcs| ==> Apart(arcs[i], arcs[j]))
  }

  lemma ArcsAtDisjoint(tokens: seq<nat>, i: nat)
    requires TokenList(tokens) && i < |tokens|
    ensures Disjoint(ArcsAt(tokens, i))
  {
  }

  lemma CoveredConcat(a: seq<Arc>, b: seq<Arc>, h: nat)
    ensures Covered(a + b, h) <==> Covered(a, h) || Covered(b, h)
  {
    if Covered(a, h) {
      var k :| 0 <= k < |a| && In(h, a[k]);
      assert In(h, (a + b)[k]);
    }
    if Covered(b, h) {
      var k :| 0 <= k < |b| && In(h, b[k]);
      assert In(h, (a + b)[|a| + k]);
    }
  }

  lemma DisjointConcat(a: seq<Arc>, b: seq<Arc>)
    requires Disjoint(a) && Disjoint(b) && forall h: U64 :: !(Covered(a, h) && Covered(b, h))
    ensures Disjoint(a + b)
  {
    forall i, j | 0 <= i < |a| && 0 <= j < |b| ensures Apart(a[i], b[j]) {
      var x := if a[i].lo < b[j].lo then b[j].lo else a[i].lo;
      if !Apart(a[i], b[j]) {
        assert In(x, a[i]) && In(x, b[j]);
        assert Covered(a, x) && Covered(b, x);
      }
    }
    forall i, j | 0 <= i < j < |a + b| ensures Apart((a + b)[i], (a + b)[j]) { }
  }

  /** The arcs of the first `n` tokens that `node` owns. */
  ghost predicate ArcsSoFar(v: Vnodes, tokens: seq<nat>, node: NodeId, n: nat, arcs: seq<Arc>)
    requires forall i :: 0 <= i < |tokens| ==> tokens[i] in v
  {
    && Disjoint(arcs)
    && forall h: U64 :: Covered(arcs, h) <==>
         tokens != [] && Succ(tokens, h) < n && v[tokens[Succ(tokens, h)]] == node
  }

  lemma ArcsStep(v: Vnodes, tokens: seq<nat>, node: NodeId, n: nat, arcs: seq<Arc>)
    requires TokenList(tokens) && (forall i :: 0 <= i < |tokens| ==> tokens[i] in v) && n < |tokens|
    requires ArcsSoFar(v, tokens, node, n, arcs)
    ensures ArcsSoFar(v, tokens, node, n + 1, if v[tokens[n]] == node then arcs + ArcsAt(tokens, n) else arcs)
  {
    var more := ArcsAt(tokens, n);
    ArcsAtDisjoint(tokens, n);
    forall h: U64 ensures Covered(more, h) <==> Succ(tokens, h) == n { ArcsAtIs(tokens, n, h); }
    forall h: U64 ensures Covered(arcs + more, h) <==> Covered(arcs, h) || Covered(more, h) {
      CoveredConcat(arcs, more, h);
    }
    if v[tokens[n]] == node { DisjointConcat(arcs, more); }
  }

  function OwnedArcs(v: Vnodes, tokens: seq<nat>, node: NodeId, n: nat): seq<Arc>
    requires n <= |tokens| && forall i :: 0 <= i < |tokens| ==> tokens[i] in v
  {
    if n == 0 then []
    else
      var arcs := OwnedArcs(v, tokens, node, n - 1);
      if v[tokens[n - 1]] == node then arcs + ArcsAt(tokens, n - 1) else arcs
  }

  lemma {:induction false} OwnedArcsAre(v: Vnodes, tokens: seq<nat>, node: NodeId, n: nat)
    requires TokenList(tokens) && n <= |tokens| && forall i :: 0 <= i < |tokens| ==> tokens[i] in v
    ensures ArcsSoFar(v, tokens, node, n, OwnedArcs(v, tokens, node, n))
  {
    if n > 0 {
      OwnedArcsAre(v, tokens, node, n - 1);
      ArcsStep(v, tokens, node, n - 1, OwnedArcs(v, tokens, node, n - 1));
    }
  }

  // Sorting the arcs.

  function PlaceArc(s: seq<Arc>, a: Arc): seq<Arc> {
    if s == [] || s[|s| - 1].lo <= a.lo then s + [a] else PlaceArc(s[..|s| - 1], a) + [s[|s| - 1]]
  }

  function SortArcs(s: seq<Arc>): seq<Arc> {
    if s == [] then [] else PlaceArc(SortArcs(s[..|s| - 1]), s[|s| - 1])
  }

  ghost predicate InOrder(s: seq<Arc>) {
    && (forall i :: 0 <= i < |s| ==> s[i].lo <= s[i].hi <= U64_MAX)
    && (forall i, j :: 0 <= i < j < |s| ==> s[i].hi < s[j].lo)
  }

  lemma {:induction false} PlaceArcIs(s: seq<Arc>, a: Arc)
    requires InOrder(s) && a.lo <= a.hi <= U64_MAX && forall b :: b in s ==> Apart(a, b)
    ensures InOrder(PlaceArc(s, a)) && forall b :: b in PlaceArc(s, a) <==> b in s || b == a
  {
    if s != [] {
      var front, last := s[..|s| - 1], s[|s| - 1];
      assert s == front + [last];
      assert last in s;
      if last.lo > a.lo {
        PlaceArcIs(front, a);
        var out := PlaceArc(front, a);
        forall i | 0 <= i < |out| ensures out[i].hi < last.lo { assert out[i] in out; }
      }
    }
  }

  lemma {:induction false} SortArcsIs(s: seq<Arc>)
    requires Disjoint(s)
    ensures InOrder(SortArcs(s)) && forall b :: b in SortArcs(s) <==> b in s
  {
    if s != [] {
      var front, last := s[..|s| - 1], s[|s| - 1];
      SortArcsIs(front);
      assert s == front + [last];
      forall b | b in SortArcs(front) ensures Apart(last, b) {
        var i :| 0 <= i < |front| && front[i] == b;
        assert Apart(s[i], s[|s| - 1]);
      }
      PlaceArcIs(SortArcs(front), last);
    }
  }

  lemma CoveredSame(a: seq<Arc>, b: seq<Arc>, h: nat)
    requires forall x :: x in a <==> x in b
    ensures Covered(a, h) <==> Covered(b, h)
  {
    if Covered(a, h) {
      var k :| 0 <= k < |a| && In(h, a[k]);
      assert a[k] in b;
    }
    if Covered(b, h) {
      var k :| 0 <= k < |b| && In(h, b[k]);
      assert b[k] in a;
    }
  }

  /** A member's arcs in ascending order; a sole member's are everything. */
  ghost function ArcsOf(v: Vnodes, nodes: set<NodeId>, node: NodeId): seq<Arc> {
    if node !in nodes then []
    else if |nodes| == 1 then [Arc(0, U64_MAX)]
    else
      AscendingOwned(v);
      SortArcs(OwnedArcs(v, Ascending(v.Keys), node, |Ascending(v.Keys)|))
  }

  lemma AscendingOwned(v: Vnodes)
    ensures forall i :: 0 <= i < |Ascending(v.Keys)| ==> Ascending(v.Keys)[i] in v
    ensures Increasing(Ascending(v.Keys))
  {
    var tokens := Ascending(v.Keys);
    AscendingIs(v.Keys);
    forall i | 0 <= i < |tokens| ensures tokens[i] in v { assert tokens[i] in tokens; }
  }

  ghost predicate Owned(v: Vnodes, nodes: set<NodeId>) { v.Values <= nodes && forall t :: t in v ==> t <= U64_MAX }

  /** The arcs hold exactly the hashes this member is primary of. */
  ghost predicate Exact(v: Vnodes, node: NodeId, arcs: seq<Arc>) {
    forall h: U64 :: Covered(arcs, h) <==> Primary(v, h) == Some(node)
  }

  lemma SortedArcs(v: Vnodes, node: NodeId, tokens: seq<nat>)
    requires (forall t :: t in v ==> t <= U64_MAX) && tokens == Ascending(v.Keys) && Increasing(tokens)
    requires forall i :: 0 <= i < |tokens| ==> tokens[i] in v
    ensures InOrder(SortArcs(OwnedArcs(v, tokens, node, |tokens|)))
    ensures Exact(v, node, SortArcs(OwnedArcs(v, tokens, node, |tokens|)))
  {
    var arcs := OwnedArcs(v, tokens, node, |tokens|);
    OwnedArcsAre(v, tokens, node, |tokens|);
    ArcsArePrimary(v, tokens, node, arcs);
    SortArcsIs(arcs);
    forall h: U64 ensures Covered(SortArcs(arcs), h) <==> Covered(arcs, h) { CoveredSame(SortArcs(arcs), arcs, h); }
  }

  /** The arcs are exact unless the sole member has lost all its tokens, where they claim everything. */
  lemma ArcsOfIs(v: Vnodes, nodes: set<NodeId>, node: NodeId)
    requires Owned(v, nodes)
    ensures InOrder(ArcsOf(v, nodes, node))
    ensures Exact(v, node, ArcsOf(v, nodes, node)) <==> (v != map[] || nodes != {node})
  {
    if node !in nodes {
      NeverPrimary(v, node);
    } else if |nodes| == 1 {
      OnlyMember(v, nodes, node);
    } else {
      AscendingOwned(v);
      SortedArcs(v, node, Ascending(v.Keys));
    }
  }

  /** A member may lose all its tokens to another that then leaves: its arcs still claim every hash, and no hash has
      a primary. */
  lemma LoneMemberClaims(a: NodeId, b: NodeId)
    requires a != b
    ensures var token: TokenOf := (n: NodeId, i: nat) => 0;
            var v := Dropped(Placed(Placed(map[], token, a, 1), token, b, 1), b);
            Covered(ArcsOf(v, {a}, a), 0) && Primary(v, 0) == None
  {
    var token: TokenOf := (n: NodeId, i: nat) => 0;
    var v := Dropped(Placed(Placed(map[], token, a, 1), token, b, 1), b);
    PlacedIs(map[], token, a, 1);
    PlacedIs(Placed(map[], token, a, 1), token, b, 1);
    assert v == map[];
    PrimaryOwns(v, 0);
    assert In(0, ArcsOf(v, {a}, a)[0]);
  }

  /** `primary_arcs`: disjoint ascending arcs. A hash lies in one exactly when this member is its
      primary, unless the sole member has lost all its tokens, where the arcs claim everything. */
  method PrimaryArcs(ring: Ring, node: NodeId) returns (arcs: seq<Arc>)
    requires ring.Valid()
    ensures arcs == ArcsOf(ring.vnodes, ring.nodes, node) && InOrder(arcs)
    ensures Exact(ring.vnodes, node, arcs) <==> (ring.vnodes != map[] || ring.nodes != {node})
  {
    ArcsOfIs(ring.vnodes, ring.nodes, node);
    if node !in ring.nodes { return []; }
    if |ring.nodes| == 1 { return [Arc(0, U64_MAX)]; }
    var tokens := SortTokens(ring.vnodes.Keys);
    AscendingOwned(ring.vnodes);
    arcs := CollectArcs(ring.vnodes, tokens, node);
    arcs := SortArcs(arcs);
  }

  /** The loop of `primary_arcs` over the ascending tokens. */
  method CollectArcs(v: Vnodes, tokens: seq<nat>, node: NodeId) returns (arcs: seq<Arc>)
    requires TokenList(tokens) && forall i :: 0 <= i < |tokens| ==> tokens[i] in v
    ensures arcs == OwnedArcs(v, tokens, node, |tokens|)
  {
    arcs := [];
    var i := 0;
    while i < |tokens|
      invariant 0 <= i <= |tokens| && arcs == OwnedArcs(v, tokens, node, i)
    {
      if v[tokens[i]] == node {
        var token, prev := tokens[i], if i == 0 then tokens[|tokens| - 1] else tokens[i - 1];
        var more;
        if prev < token {
          more := [Arc(prev + 1, token)];
        } else if prev < U64_MAX {
          more := [Arc(prev + 1, U64_MAX), Arc(0, token)];
        } else {
          more := [Arc(0, token)];
        }
        arcs := arcs + more;
      }
      i := i + 1;
    }
  }

  lemma PrimaryOwns(v: Vnodes, h: nat)
    ensures v == map[] ==> Primary(v, h) == None
    ensures v != map[] ==> Primary(v, h).Some? && Primary(v, h).value in v.Values
  {
    if v == map[] {
      OrderSize(v, h);
    } else {
      PrimaryIsSucc(v, h);
    }
  }

  lemma NeverPrimary(v: Vnodes, node: NodeId)
    requires node !in v.Values
    ensures forall h: U64 :: Primary(v, h) != Some(node)
  {
    forall h: U64 ensures Primary(v, h) != Some(node) { PrimaryOwns(v, h); }
  }

  lemma OnlyMember(v: Vnodes, nodes: set<NodeId>, node: NodeId)
    requires v.Values <= nodes && node in nodes && |nodes| == 1
    ensures nodes == {node}
    ensures (forall h: U64 :: Covered([Arc(0, U64_MAX)], h) <==> Primary(v, h) == Some(node)) <==> v != map[]
  {
    assert |nodes - {node}| == 0;
    assert nodes == {node};
    forall h: U64 ensures Covered([Arc(0, U64_MAX)], h) { assert In(h, [Arc(0, U64_MAX)][0]); }
    forall h: U64 ensures Primary(v, h) == Some(node) <==> v != map[] { PrimaryOwns(v, h); }
    if v == map[] {
      var zero: U64 := 0;
      assert Covered([Arc(0, U64_MAX)], zero) && Primary(v, zero) != Some(node);
    }
  }

  lemma ArcsArePrimary(v: Vnodes, tokens: seq<nat>, node: NodeId, arcs: seq<Arc>)
    requires tokens == Ascending(v.Keys) && forall i :: 0 <= i < |tokens| ==> tokens[i] in v
    requires ArcsSoFar(v, tokens, node, |tokens|, arcs)
    ensures forall h: U64 :: Covered(arcs, h) <==> Primary(v, h) == Some(node)
  {
    forall h: U64 ensures Covered(arcs, h) <==> Primary(v, h) == Some(node) {
      PrimaryOwns(v, h);
      if v != map[] {
        PrimaryIsSucc(v, h);
      } else {
        assert v.Keys == {};
      }
    }
  }

  /** `h` lies in arc `k` of member `n`. */
  ghost predicate LiesIn(v: Vnodes, nodes: set<NodeId>, h: nat, n: NodeId, k: nat) {
    n in nodes && k < |ArcsOf(v, nodes, n)| && In(h, ArcsOf(v, nodes, n)[k])
  }

  /** The members' arcs tile the hash space: every hash lies in exactly one arc of exactly one member. */
  lemma ArcsTile(v: Vnodes, nodes: set<NodeId>, h: U64)
    requires v != map[] && Owned(v, nodes)
    ensures exists n, k: nat :: LiesIn(v, nodes, h, n, k) &&
              forall n', k': nat :: LiesIn(v, nodes, h, n', k') ==> n' == n && k' == k
  {
    PrimaryOwns(v, h);
    var n := Primary(v, h).value;
    ArcsOfIs(v, nodes, n);
    var arcs := ArcsOf(v, nodes, n);
    assert Covered(arcs, h);
    var k: nat :| k < |arcs| && In(h, arcs[k]);
    forall n', k': nat | LiesIn(v, nodes, h, n', k') ensures n' == n && k' == k {
      ArcsOfIs(v, nodes, n');
      assert Covered(ArcsOf(v, nodes, n'), h);
    }
    assert LiesIn(v, nodes, h, n, k);
  }
}
