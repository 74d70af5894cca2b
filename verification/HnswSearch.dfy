/** Beam search on one layer: what it visits and what it returns. */
module HnswSearch {
  import opened HnswGraph
  import opened Prelude

  /** A node with its distance to the query; heaps order by distance, then id. */
  datatype Cand = Cand(d: int, id: nat)

  type Distance = (Stored, Stored) -> int

  predicate Less(a: Cand, b: Cand) { a.d < b.d || (a.d == b.d && a.id < b.id) }

  /** Candidates are totally ordered: the nearer first, of equally near ones the lower id. */
  lemma LessIs(a: Cand, b: Cand)
    ensures a.d < b.d ==> Less(a, b)
    ensures a.d == b.d && a.id < b.id ==> Less(a, b)
    ensures a == b || (Less(a, b) <==> !Less(b, a))
    ensures !Less(a, a)
  {
  }

  // Reachability on a layer.

  ghost predicate Path(nodes: seq<Node>, l: nat, p: seq<nat>) {
    && p != []
    && (forall i :: 0 <= i < |p| ==> OnLayer(nodes, l, p[i]))
    && forall i :: 0 < i < |p| ==> p[i] in nodes[p[i - 1]].neighbors[l]
  }

  ghost predicate Reaches(nodes: seq<Node>, l: nat, a: nat, b: nat) {
    exists p :: Path(nodes, l, p) && p[0] == a && p[|p| - 1] == b
  }

  /** The nodes reachable from `a` on layer `l`. */
  ghost function Reachable(nodes: seq<Node>, l: nat, a: nat): set<nat> {
    set b | 0 <= b < |nodes| && Reaches(nodes, l, a, b)
  }

  lemma ReachesSelf(nodes: seq<Node>, l: nat, a: nat)
    requires OnLayer(nodes, l, a)
    ensures a in Reachable(nodes, l, a)
  {
    assert Path(nodes, l, [a]);
    assert [a][0] == a && [a][|[a]| - 1] == a;
  }

  lemma ReachesNext(nodes: seq<Node>, l: nat, a: nat, b: nat, k: nat)
    requires Wired(nodes) && b in Reachable(nodes, l, a) && OnLayer(nodes, l, b) && k < |nodes[b].neighbors[l]|
    ensures nodes[b].neighbors[l][k] in Reachable(nodes, l, a)
  {
    var c := nodes[b].neighbors[l][k];
    assert GoodList(nodes, b, l, nodes[b].neighbors[l]);
    var p :| Path(nodes, l, p) && p[0] == a && p[|p| - 1] == b;
    var q := p + [c];
    assert Path(nodes, l, q) && q[0] == a && q[|q| - 1] == c;
  }

  lemma ReachableOnLayer(nodes: seq<Node>, l: nat, a: nat, b: nat)
    requires b in Reachable(nodes, l, a)
    ensures OnLayer(nodes, l, b)
  {
    var p :| Path(nodes, l, p) && p[0] == a && p[|p| - 1] == b;
    assert OnLayer(nodes, l, p[|p| - 1]);
  }

  /** A set that holds the start and is closed under neighbours holds everything reachable. */
  lemma {:induction false} ClosedHolds(nodes: seq<Node>, l: nat, s: set<nat>, p: seq<nat>)
    requires Path(nodes, l, p) && p[0] in s
    requires forall v, k :: v in s && OnLayer(nodes, l, v) && 0 <= k < |nodes[v].neighbors[l]| ==>
               nodes[v].neighbors[l][k] in s
    ensures p[|p| - 1] in s
  {
    if |p| > 1 {
      assert OnLayer(nodes, l, p[1]) && p[1] in nodes[p[0]].neighbors[l];
      var rest := p[1..];
      forall i | 0 < i < |rest| ensures rest[i] in nodes[rest[i - 1]].neighbors[l] {
        assert p[i + 1] in nodes[p[i]].neighbors[l];
      }
      ClosedHolds(nodes, l, s, rest);
    }
  }

  lemma UnlinkedEnd(nodes: seq<Node>, l: nat, p: seq<nat>, id: nat)
    requires Path(nodes, l, p) && Unlinked(nodes, id, l) && p[0] != id
    ensures p[|p| - 1] != id
  {
    if |p| > 1 { assert OnLayer(nodes, l, p[|p| - 2]) && p[|p| - 1] in nodes[p[|p| - 2]].neighbors[l]; }
  }

  /** A node nothing links to is reachable only from itself. */
  lemma UnlinkedUnreached(nodes: seq<Node>, l: nat, a: nat, id: nat)
    requires Unlinked(nodes, id, l) && a != id
    ensures id !in Reachable(nodes, l, a)
  {
    forall p | Path(nodes, l, p) && p[0] == a ensures p[|p| - 1] != id { UnlinkedEnd(nodes, l, p, id); }
  }

  // Heaps as sets of candidates.

  lemma {:induction false} NearestExists(s: set<Cand>)
    requires s != {}
    ensures exists c :: c in s && forall x :: x in s ==> x == c || Less(c, x)
    decreases |s|
  {
    var c :| c in s;
    if s != {c} {
      var rest := s - {c};
      assert rest != {};
      NearestExists(rest);
      var b :| b in rest && forall x :: x in rest ==> x == b || Less(b, x);
      var best := if Less(b, c) || b == c then b else c;
      forall x | x in s ensures x == best || Less(best, x) {
        if x != c { assert x in rest; }
      }
      assert best in s;
    }
  }

  lemma {:induction false} FarthestExists(s: set<Cand>)
    requires s != {}
    ensures exists c :: c in s && forall x :: x in s ==> x == c || Less(x, c)
    decreases |s|
  {
    var c :| c in s;
    if s != {c} {
      var rest := s - {c};
      assert rest != {};
      FarthestExists(rest);
      var b :| b in rest && forall x :: x in rest ==> x == b || Less(x, b);
      var best := if Less(c, b) || b == c then b else c;
      forall x | x in s ensures x == best || Less(x, best) {
        if x != c { assert x in rest; }
      }
      assert best in s;
    }
  }

  method Nearest(s: set<Cand>) returns (c: Cand)
    requires s != {}
    ensures c in s && forall x :: x in s ==> x == c || Less(c, x)
  {
    NearestExists(s);
    c :| c in s && forall x :: x in s ==> x == c || Less(c, x);
  }

  method Farthest(s: set<Cand>) returns (c: Cand)
    requires s != {}
    ensures c in s && forall x :: x in s ==> x == c || Less(x, c)
  {
    FarthestExists(s);
    c :| c in s && forall x :: x in s ==> x == c || Less(x, c);
  }

  /** Distance to the query, as a function of the node. */
  function Score(nodes: seq<Node>, dist: Distance, query: Stored): nat -> int { ScoreOf(Vectors(nodes), dist, query) }

  function ScoreOf(vectors: seq<Stored>, dist: Distance, query: Stored): nat -> int {
    (v: nat) => if v < |vectors| then dist(query, vectors[v]) else 0
  }

  function At(score: nat -> int, v: nat): Cand { Cand(score(v), v) }

  function Width(ef: nat): nat { if ef == 0 then 1 else ef }

  ghost predicate Scored(score: nat -> int, visited: set<nat>, s: set<Cand>) {
    forall c :: c in s ==> c.id in visited && c == At(score, c.id)
  }

  /** No node left out is closer than one that is held. */
  ghost predicate Closest(score: nat -> int, visited: set<nat>, result: set<Cand>) {
    forall v, c :: v in visited && c in result && At(score, v) !in result ==> c.d <= score(v)
  }

  /** What a beam of width `ef` holds after visiting `visited`. */
  ghost predicate Beam(score: nat -> int, ef: nat, visited: set<nat>, result: set<Cand>) {
    && visited != {} && Scored(score, visited, result) && Closest(score, visited, result)
    && |result| == (if |visited| <= Width(ef) then |visited| else Width(ef))
    && (|visited| <= Width(ef) ==> forall v :: v in visited ==> At(score, v) in result)
  }

  lemma BeamStart(score: nat -> int, ef: nat, entry: nat)
    ensures Beam(score, ef, {entry}, {At(score, entry)})
  {
    assert |{entry}| == 1 && |{At(score, entry)}| == 1;
  }

  lemma BeamSkip(score: nat -> int, ef: nat, visited: set<nat>, result: set<Cand>, v: nat, worst: Cand)
    requires Beam(score, ef, visited, result) && v !in visited && |result| >= ef
    requires worst in result && (forall x :: x in result ==> x == worst || Less(x, worst)) && score(v) >= worst.d
    ensures Beam(score, ef, visited + {v}, result)
  {
    assert |visited + {v}| == |visited| + 1;
  }

  lemma BeamPush(score: nat -> int, ef: nat, visited: set<nat>, result: set<Cand>, v: nat)
    requires Beam(score, ef, visited, result) && v !in visited && |result| < ef
    ensures Beam(score, ef, visited + {v}, result + {At(score, v)})
  {
    assert |visited + {v}| == |visited| + 1;
    assert At(score, v) !in result;
    assert |result + {At(score, v)}| == |result| + 1;
  }

  lemma BeamReplace(score: nat -> int, ef: nat, visited: set<nat>, result: set<Cand>, v: nat, worst: Cand, out: Cand)
    requires Beam(score, ef, visited, result) && v !in visited && |result| >= ef
    requires worst in result && score(v) < worst.d
    requires out in result + {At(score, v)}
    requires forall x :: x in result + {At(score, v)} ==> x == out || Less(x, out)
    ensures Beam(score, ef, visited + {v}, result + {At(score, v)} - {out})
  {
    var more := result + {At(score, v)};
    assert |visited + {v}| == |visited| + 1;
    assert At(score, v) !in result;
    assert |more| == |result| + 1;
    assert |more - {out}| == |more| - 1;
    forall u, c | u in visited + {v} && c in more - {out} && At(score, u) !in more - {out} ensures c.d <= score(u) {
      if At(score, u) != out { assert c == At(score, v) ==> worst.d <= score(u); }
    }
  }

  /** The neighbours of `v` on the layer have all been visited. */
  ghost predicate Expanded(nodes: seq<Node>, l: nat, v: nat, visited: set<nat>) {
    OnLayer(nodes, l, v) && forall k :: 0 <= k < |nodes[v].neighbors[l]| ==> nodes[v].neighbors[l][k] in visited
  }

  /** Every visited node other than `busy` is expanded or waits in the candidate heap. */
  ghost predicate Frontier(nodes: seq<Node>, l: nat, score: nat -> int, visited: set<nat>, cands: set<Cand>,
                           busy: int) {
    forall v :: v in visited && v != busy ==> Expanded(nodes, l, v, visited) || At(score, v) in cands
  }

  /** Every node in the beam other than `busy` is expanded or waits in the candidate heap. */
  ghost predicate Pursued(nodes: seq<Node>, l: nat, visited: set<nat>, cands: set<Cand>, result: set<Cand>, busy: int) {
    forall c :: c in result && c.id != busy ==> Expanded(nodes, l, c.id, visited) || c in cands
  }

  /** Every node in the beam is expanded. */
  ghost predicate Settled(nodes: seq<Node>, l: nat, visited: set<nat>, result: set<Cand>) {
    forall c :: c in result ==> Expanded(nodes, l, c.id, visited)
  }

  /** The state of a search between two visits. */
  ghost predicate Searching(nodes: seq<Node>, l: nat, score: nat -> int, ef: nat, reach: set<nat>,
                            cands: set<Cand>, visited: set<nat>, result: set<Cand>, busy: int) {
    && Beam(score, ef, visited, result) && visited <= reach && Scored(score, visited, cands)
    && (|reach| <= ef ==> Frontier(nodes, l, score, visited, cands, busy))
    && Pursued(nodes, l, visited, cands, result, busy)
  }

  lemma StillExpanded(nodes: seq<Node>, l: nat, visited: set<nat>, v: nat)
    ensures forall u :: Expanded(nodes, l, u, visited) ==> Expanded(nodes, l, u, visited + {v})
  {
  }

  lemma VisitKeeps(nodes: seq<Node>, l: nat, score: nat -> int, ef: nat, reach: set<nat>,
                   cands: set<Cand>, visited: set<nat>, result: set<Cand>, result': set<Cand>, busy: int, v: nat)
    requires Searching(nodes, l, score, ef, reach, cands, visited, result, busy) && v in reach
    requires Beam(score, ef, visited + {v}, result') && result' <= result + {At(score, v)}
    ensures Searching(nodes, l, score, ef, reach, cands + {At(score, v)}, visited + {v}, result', busy)
  {
    StillExpanded(nodes, l, visited, v);
  }

  lemma VisitSkips(nodes: seq<Node>, l: nat, score: nat -> int, ef: nat, reach: set<nat>,
                   cands: set<Cand>, visited: set<nat>, result: set<Cand>, busy: int, v: nat)
    requires Searching(nodes, l, score, ef, reach, cands, visited, result, busy)
    requires v in reach && v !in visited && |result| >= ef && Beam(score, ef, visited + {v}, result)
    ensures Searching(nodes, l, score, ef, reach, cands, visited + {v}, result, busy)
  {
    NoRoom(score, ef, visited, result, reach, v);
    StillExpanded(nodes, l, visited, v);
  }

  /** Offer one newly visited node to the beam. */
  method Offer(c: Cand, ghost score: nat -> int, ef: nat, ghost visited: set<nat>, result: set<Cand>)
    returns (taken: bool, result': set<Cand>)
    requires Beam(score, ef, visited, result) && c.id !in visited && c == At(score, c.id)
    ensures Beam(score, ef, visited + {c.id}, result') && result' <= result + {c}
    ensures !taken ==> result' == result && |result| >= ef
  {
    var worst := Farthest(result);
    taken := |result| < ef || c.d < worst.d;
    if !taken {
      BeamSkip(score, ef, visited, result, c.id, worst);
      return taken, result;
    }
    result' := result + {c};
    SizeGrows(result, c);
    if |result'| > ef {
      var out := Farthest(result');
      BeamReplace(score, ef, visited, result, c.id, worst, out);
      result' := result' - {out};
    } else {
      BeamPush(score, ef, visited, result, c.id);
    }
  }

  /** Visit one unvisited node. */
  method Visit(c: Cand, ghost nodes: seq<Node>, ghost l: nat, ghost score: nat -> int, ef: nat, ghost reach: set<nat>,
               cands: set<Cand>, visited: set<nat>, result: set<Cand>, ghost busy: int)
    returns (cands': set<Cand>, result': set<Cand>)
    requires Searching(nodes, l, score, ef, reach, cands, visited, result, busy)
    requires c.id in reach && c.id !in visited && c == At(score, c.id)
    ensures Searching(nodes, l, score, ef, reach, cands', visited + {c.id}, result', busy)
  {
    var taken;
    taken, result' := Offer(c, score, ef, visited, result);
    if taken {
      VisitKeeps(nodes, l, score, ef, reach, cands, visited, result, result', busy, c.id);
      cands' := cands + {c};
    } else {
      VisitSkips(nodes, l, score, ef, reach, cands, visited, result, busy, c.id);
      cands' := cands;
    }
  }

  /** Visit a neighbour unless it was visited. */
  method Meet(nb: nat, nodes: seq<Node>, dist: Distance, query: Stored, ghost l: nat, ef: nat, ghost reach: set<nat>,
              cands: set<Cand>, visited: set<nat>, result: set<Cand>, ghost busy: int)
    returns (cands': set<Cand>, visited': set<nat>, result': set<Cand>)
    requires nb in reach && nb < |nodes|
    requires Searching(nodes, l, Score(nodes, dist, query), ef, reach, cands, visited, result, busy)
    ensures Searching(nodes, l, Score(nodes, dist, query), ef, reach, cands', visited', result', busy)
    ensures visited' == visited + {nb} && (nb in visited ==> cands' == cands)
  {
    if nb in visited {
      cands', visited', result' := cands, visited + {nb}, result;
      assert visited' == visited;
    } else {
      var c := Cand(dist(query, nodes[nb].vector), nb);
      cands', result' := Visit(c, nodes, l, Score(nodes, dist, query), ef, reach, cands, visited, result, busy);
      visited' := visited + {nb};
    }
  }

  lemma PopKeeps(nodes: seq<Node>, l: nat, score: nat -> int, ef: nat, reach: set<nat>,
                 cands: set<Cand>, visited: set<nat>, result: set<Cand>, c: Cand)
    requires Searching(nodes, l, score, ef, reach, cands, visited, result, -1) && c in cands
    ensures Searching(nodes, l, score, ef, reach, cands - {c}, visited, result, c.id)
  {
  }

  lemma ExpandKeeps(nodes: seq<Node>, l: nat, score: nat -> int, ef: nat, reach: set<nat>,
                    cands: set<Cand>, visited: set<nat>, result: set<Cand>, cur: nat)
    requires Searching(nodes, l, score, ef, reach, cands, visited, result, cur) && Expanded(nodes, l, cur, visited)
    ensures Searching(nodes, l, score, ef, reach, cands, visited, result, -1)
  {
  }

  /** Visit the unvisited neighbours of `cur`. */
  method Expand(nodes: seq<Node>, dist: Distance, query: Stored, ef: nat, layer: nat, cur: nat, ghost reach: set<nat>,
                cands0: set<Cand>, visited0: set<nat>, result0: set<Cand>)
    returns (cands: set<Cand>, visited: set<nat>, result: set<Cand>)
    requires OnLayer(nodes, layer, cur)
    requires forall k :: 0 <= k < |nodes[cur].neighbors[layer]| ==>
               nodes[cur].neighbors[layer][k] in reach && nodes[cur].neighbors[layer][k] < |nodes|
    requires Searching(nodes, layer, Score(nodes, dist, query), ef, reach, cands0, visited0, result0, cur)
    ensures Searching(nodes, layer, Score(nodes, dist, query), ef, reach, cands, visited, result, -1)
    ensures visited0 <= visited && (visited == visited0 ==> cands == cands0)
  {
    cands, visited, result := cands0, visited0, result0;
    ghost var score := Score(nodes, dist, query);
    var list := nodes[cur].neighbors[layer];
    var j := 0;
    while j < |list|
      invariant 0 <= j <= |list|
      invariant Searching(nodes, layer, score, ef, reach, cands, visited, result, cur)
      invariant forall k :: 0 <= k < j ==> list[k] in visited
      invariant visited0 <= visited && (visited == visited0 ==> cands == cands0)
    {
      cands, visited, result := Meet(list[j], nodes, dist, query, layer, ef, reach, cands, visited, result, cur);
      j := j + 1;
    }
    ExpandKeeps(nodes, layer, score, ef, reach, cands, visited, result, cur);
  }

  lemma SizeGrows(s: set<Cand>, c: Cand)
    ensures c !in s ==> |s + {c}| == |s| + 1
  {
  }

  /** A full beam that could hold everything reachable has seen everything reachable. */
  lemma NoRoom(score: nat -> int, ef: nat, visited: set<nat>, result: set<Cand>, reach: set<nat>, v: nat)
    requires Beam(score, ef, visited, result) && visited <= reach && v in reach && v !in visited && |result| >= ef
    ensures |reach| > ef
  {
    SubsetSize(visited + {v}, reach);
    assert |visited + {v}| == |visited| + 1;
  }

  /** Nearest first, by distance alone. */
  ghost predicate SortedByDistance(s: seq<Cand>) { forall i, j :: 0 <= i < j < |s| ==> s[i].d <= s[j].d }

  /** The result heap emptied in order of distance. */
  method Drain(result: set<Cand>) returns (out: seq<Cand>)
    ensures SortedByDistance(out) && Distinct(out) && |out| == |result|
    ensures forall c :: c in out <==> c in result
  {
    out := [];
    var rest := result;
    while rest != {}
      invariant SortedByDistance(out) && Distinct(out) && |out| + |rest| == |result|
      invariant forall c :: c in result <==> c in out || c in rest
      invariant forall c, x :: c in out && x in rest ==> c.d <= x.d && c != x
      decreases |rest|
    {
      var c := Nearest(rest);
      out, rest := out + [c], rest - {c};
    }
  }

  /** What `search_layer` promises: a beam over what it visited, all of it reachable; every neighbour of a
      returned node was visited; and everything reachable was, once the beam is wide enough. */
  ghost predicate Found(nodes: seq<Node>, score: nat -> int, l: nat, entry: nat, ef: nat, visited: set<nat>,
                        out: seq<Cand>) {
    && entry in visited && visited <= Reachable(nodes, l, entry)
    && (|Reachable(nodes, l, entry)| <= ef ==> visited == Reachable(nodes, l, entry))
    && SortedByDistance(out) && Distinct(out)
    && |out| == (if |visited| <= Width(ef) then |visited| else Width(ef))
    && (forall c :: c in out ==> c.id in visited && c == At(score, c.id))
    && (forall v, c :: v in visited && c in out && At(score, v) !in out ==> c.d <= score(v))
    && (forall c :: c in out ==> Expanded(nodes, l, c.id, visited))
  }

  /** The beam when the search is over. */
  ghost predicate Ended(nodes: seq<Node>, l: nat, score: nat -> int, ef: nat, entry: nat, visited: set<nat>,
                        result: set<Cand>) {
    && Beam(score, ef, visited, result) && entry in visited && visited <= Reachable(nodes, l, entry)
    && (|Reachable(nodes, l, entry)| <= ef ==> visited == Reachable(nodes, l, entry))
    && Settled(nodes, l, visited, result)
  }

  /** A full beam with its nearest candidate beyond it: nothing in the beam still waits. */
  lemma BeyondEnds(nodes: seq<Node>, l: nat, score: nat -> int, ef: nat, entry: nat, cands: set<Cand>,
                   visited: set<nat>, result: set<Cand>, c: Cand, worst: Cand)
    requires Searching(nodes, l, score, ef, Reachable(nodes, l, entry), cands, visited, result, -1) && entry in visited
    requires c.d > worst.d && |result| >= ef
    requires forall x :: x in cands ==> x == c || Less(c, x)
    requires forall x :: x in result ==> x == worst || Less(x, worst)
    ensures Ended(nodes, l, score, ef, entry, visited, result)
  {
    SubsetSize(visited, Reachable(nodes, l, entry));
  }

  lemma NoneLeftEnds(nodes: seq<Node>, l: nat, score: nat -> int, ef: nat, entry: nat, visited: set<nat>,
                     result: set<Cand>)
    requires Searching(nodes, l, score, ef, Reachable(nodes, l, entry), {}, visited, result, -1) && entry in visited
    ensures Ended(nodes, l, score, ef, entry, visited, result)
  {
    if |Reachable(nodes, l, entry)| <= ef { AllSeen(nodes, l, score, visited, entry); }
  }

  lemma EndedFound(nodes: seq<Node>, l: nat, score: nat -> int, ef: nat, entry: nat, visited: set<nat>,
                   result: set<Cand>, out: seq<Cand>)
    requires Ended(nodes, l, score, ef, entry, visited, result)
    requires SortedByDistance(out) && Distinct(out) && |out| == |result| && forall c :: c in out <==> c in result
    ensures Found(nodes, score, l, entry, ef, visited, out)
  {
  }

  /** One turn of the loop: stop, or take the nearest candidate out and visit its neighbours. */
  method Advance(nodes: seq<Node>, dist: Distance, query: Stored, ghost entry: nat, ef: nat, layer: nat,
                 cands: set<Cand>, visited: set<nat>, result: set<Cand>)
    returns (stopped: bool, cands': set<Cand>, visited': set<nat>, result': set<Cand>)
    requires Wired(nodes) && cands != {} && entry in visited
    requires Searching(nodes, layer, Score(nodes, dist, query), ef, Reachable(nodes, layer, entry), cands, visited,
               result, -1)
    ensures stopped ==> Ended(nodes, layer, Score(nodes, dist, query), ef, entry, visited', result')
    ensures !stopped ==>
              && Searching(nodes, layer, Score(nodes, dist, query), ef, Reachable(nodes, layer, entry), cands',
                visited', result', -1)
              && visited <= visited' && (visited' == visited ==> cands' < cands)
  {
    ghost var score, reach := Score(nodes, dist, query), Reachable(nodes, layer, entry);
    BeamHolds(score, ef, visited, result);
    var c := Nearest(cands);
    var worst := Farthest(result);
    stopped, cands', visited', result' := c.d > worst.d && |result| >= ef, cands, visited, result;
    if stopped {
      BeyondEnds(nodes, layer, score, ef, entry, cands, visited, result, c, worst);
    } else {
      assert c.id in reach;
      ReachableOnLayer(nodes, layer, entry, c.id);
      NeighboursReached(nodes, layer, entry, c.id);
      PopKeeps(nodes, layer, score, ef, reach, cands, visited, result, c);
      cands', visited', result' := Expand(nodes, dist, query, ef, layer, c.id, reach, cands - {c}, visited, result);
    }
  }

  method SearchLayer(nodes: seq<Node>, dist: Distance, query: Stored, entry: nat, ef: nat, layer: nat)
    returns (out: seq<Cand>, ghost visited: set<nat>)
    requires Wired(nodes) && OnLayer(nodes, layer, entry)
    ensures Found(nodes, Score(nodes, dist, query), layer, entry, ef, visited, out)
  {
    ghost var score, reach := Score(nodes, dist, query), Reachable(nodes, layer, entry);
    var first := Cand(dist(query, nodes[entry].vector), entry);
    var cands, result, seen := {first}, {first}, {entry};
    Starts(nodes, layer, score, ef, entry);
    var stopped := false;
    while !stopped && cands != {}
      invariant !stopped ==> Searching(nodes, layer, score, ef, reach, cands, seen, result, -1)
      invariant !stopped ==> entry in seen && seen <= reach
      invariant stopped ==> Ended(nodes, layer, score, ef, entry, seen, result)
      decreases !stopped, reach - seen, cands
    {
      stopped, cands, seen, result := Advance(nodes, dist, query, entry, ef, layer, cands, seen, result);
    }
    if !stopped { NoneLeftEnds(nodes, layer, score, ef, entry, seen, result); }
    out := Drain(result);
    visited := seen;
    EndedFound(nodes, layer, score, ef, entry, seen, result, out);
  }

  lemma Starts(nodes: seq<Node>, l: nat, score: nat -> int, ef: nat, entry: nat)
    requires OnLayer(nodes, l, entry)
    ensures entry in Reachable(nodes, l, entry)
    ensures Searching(nodes, l, score, ef, Reachable(nodes, l, entry), {At(score, entry)}, {entry}, {At(score, entry)},
              -1)
  {
    ReachesSelf(nodes, l, entry);
    BeamStart(score, ef, entry);
  }

  lemma BeamHolds(score: nat -> int, ef: nat, visited: set<nat>, result: set<Cand>)
    requires Beam(score, ef, visited, result)
    ensures result != {}
  {
  }

  lemma NeighboursReached(nodes: seq<Node>, l: nat, a: nat, b: nat)
    requires Wired(nodes) && b in Reachable(nodes, l, a) && OnLayer(nodes, l, b)
    ensures forall k :: 0 <= k < |nodes[b].neighbors[l]| ==>
              nodes[b].neighbors[l][k] in Reachable(nodes, l, a) && nodes[b].neighbors[l][k] < |nodes|
  {
    forall k | 0 <= k < |nodes[b].neighbors[l]| ensures nodes[b].neighbors[l][k] in Reachable(nodes, l, a) {
      ReachesNext(nodes, l, a, b, k);
    }
  }

  lemma AllSeen(nodes: seq<Node>, l: nat, score: nat -> int, seen: set<nat>, entry: nat)
    requires Frontier(nodes, l, score, seen, {}, -1) && entry in seen && seen <= Reachable(nodes, l, entry)
    ensures seen == Reachable(nodes, l, entry)
  {
    forall v | v in Reachable(nodes, l, entry) ensures v in seen {
      var p :| Path(nodes, l, p) && p[0] == entry && p[|p| - 1] == v;
      forall u, k | u in seen && OnLayer(nodes, l, u) && 0 <= k < |nodes[u].neighbors[l]|
        ensures nodes[u].neighbors[l][k] in seen
      {
        assert Expanded(nodes, l, u, seen);
      }
      ClosedHolds(nodes, l, seen, p);
    }
  }
}
