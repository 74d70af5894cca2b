/** Sliced early stop for `LIMIT` reads of a time-series table: walking the range in time
    slices outward from an anchor answers like one gather over the whole range. */
module SliceWalk {
  import opened Int64
  import opened Prelude
  import opened RowOrder

  datatype OrderBy = Unordered | ByTs(desc: bool) | OtherKeys

  /** `plain`: not grouped, not DISTINCT, no per-group top-k. */
  datatype Query = Query(plain: bool, order: OrderBy, limit: Option<nat>, offset: nat)

  /** Of the stored rows, `kept` pass the residual filter; on `bad` ones it fails to evaluate, which fails a gather. */
  function Within(kept: set<Key>, t0: int, t1: int): set<Key> {
    set k | k in kept && t0 <= k.ts <= t1
  }

  /** `gather_docs`: the kept rows of `[t0, t1]`, one per (series, ts), series then time. */
  function Gather(kept: set<Key>, t0: int, t1: int): seq<Key> {
    Sort(BySeries, Within(kept, t0, t1))
  }

  /** Where a walk starts: the bounds, and which of them was replaced by an anchor. */
  datatype Anchor = Anchor(lo: int, hi: int, descAnchored: bool, ascAnchored: bool)

  function AnchorOf(desc: bool, t0: int, t1: int, range: Option<(int, int)>, wall: int): Anchor {
    if desc && t1 == MAX then
      Anchor(t0, if range.Some? then range.value.1 else wall, true, false)
    else if !desc && t0 == MIN && range.Some? then
      Anchor(range.value.0, t1, false, true)
    else
      Anchor(t0, t1, false, false)
  }

  function WalkDesc(order: OrderBy): bool { order != ByTs(false) }

  predicate Walkable(q: Query, a: Anchor) {
    q.plain && !q.order.OtherKeys? && q.limit.Some? && q.limit.value + q.offset > 0 &&
    if WalkDesc(q.order) then a.hi != MAX else a.lo != MIN
  }

  /** The rows beyond the anchor, gathered before the first slice. */
  function Edge(kept: set<Key>, a: Anchor): set<Key> {
    if a.descAnchored then Within(kept, SatAdd(a.hi, 1), MAX)
    else if a.ascAnchored then Within(kept, MIN, SatSub(a.lo, 1))
    else {}
  }

  /** Every row the walk could meet. */
  function Reach(kept: set<Key>, t0: int, t1: int, a: Anchor): set<Key> {
    Within(kept, t0, t1) + Edge(kept, a)
  }

  lemma GatherTieOrdered(kept: set<Key>, t0: int, t1: int)
    ensures TieOrdered(Gather(kept, t0, t1))
  {
  }

  /** Appending a slice that shares no millisecond with what is in hand. */
  lemma AppendTieOrdered(docs: seq<Key>, slice: seq<Key>)
    requires TieOrdered(docs) && TieOrdered(slice)
    requires forall x, y :: x in Elems(docs) && y in Elems(slice) ==> x.ts != y.ts
    ensures TieOrdered(docs + slice)
  {
    var s := docs + slice;
    forall i, j | 0 <= i < j < |s| ensures s[i].ts == s[j].ts ==> s[i].series < s[j].series {
      if i < |docs| <= j {
        assert docs[i] in Elems(docs) && slice[j - |docs|] in Elems(slice);
      }
    }
  }

  lemma WithinSplit(kept: set<Key>, a: int, b: int, c: int)
    requires a <= b + 1 <= c + 1
    ensures Within(kept, a, c) == Within(kept, a, b) + Within(kept, b + 1, c)
  {
  }

  /** Gather one more slice `[s0, s1]`, disjoint in time from the rows in hand; empty slices
      widen the next one fourfold, data brings it back to a minute. */
  method TakeSlice(kept: set<Key>, bad: set<Key>, docs: seq<Key>, s0: int, s1: int, width: int)
    returns (more: Result<seq<Key>>, next: int)
    requires TieOrdered(docs) && forall k :: k in Elems(docs) ==> !(s0 <= k.ts <= s1)
    requires 60_000 <= width
    ensures more.Err? <==> Within(bad, s0, s1) != {}
    ensures more.Ok? ==> TieOrdered(more.value) && Elems(more.value) == Elems(docs) + Within(kept, s0, s1)
    ensures next == if Within(kept, s0, s1) == {} then SatMul(width, 4) else 60_000
    ensures 60_000 <= next
  {
    var slice := Gather(kept, s0, s1);
    next := if slice == [] then SatMul(width, 4) else 60_000;
    NonemptyElems(slice);
    if Within(bad, s0, s1) != {} { return Err, next; }
    GatherTieOrdered(kept, s0, s1);
    AppendTieOrdered(docs, slice);
    ElemsConcat(docs, slice);
    more := Ok(docs + slice);
  }

  /** The rows in hand before the last slice were too few: it is only gathered when it is needed. */
  ghost predicate Needed(had: seq<Key>, edge: seq<Key>, slices: set<Key>, target: nat) {
    |had| < target && Elems(had) == Elems(edge) + slices
  }

  /** Backward walk over `[lo, hi0]`, after the rows `edge` above it. The rows returned are
      `edge` and all of `[cut, hi0]`; rows left below `cut` mean the target was reached, and down to `last`, above
      the slice gathered last, it was not. It fails on the first slice with a row the filter fails on. */
  method WalkBack(kept: set<Key>, bad: set<Key>, lo: int, hi0: int, edge: seq<Key>, target: nat)
    returns (r: Result<seq<Key>>, ghost cut: int, ghost last: int, ghost had: seq<Key>)
    requires InI64(lo) && InI64(hi0)
    requires TieOrdered(edge) && forall k :: k in Elems(edge) ==> k.ts > hi0
    ensures cut == hi0 + 1 || lo <= cut <= hi0
    ensures if r.Err? then Within(bad, lo, hi0) != {} else Within(bad, cut, hi0) == {}
    ensures r.Ok? ==> TieOrdered(r.value) && Elems(r.value) == Elems(edge) + Within(kept, cut, hi0)
    ensures r.Ok? ==> Within(kept, lo, cut - 1) == {} || |r.value| >= target
    ensures r.Ok? && cut <= hi0 ==> cut < last && Needed(had, edge, Within(kept, last, hi0), target)
  {
    var docs := edge;
    var hi, width := hi0, 60_000;
    cut, last, had := hi0 + 1, hi0 + 1, edge;
    while |docs| < target && lo <= hi
      invariant InI64(hi) && cut == hi + 1 && (hi == hi0 || lo <= cut <= hi0) && 60_000 <= width
      invariant TieOrdered(docs) && Elems(docs) == Elems(edge) + Within(kept, cut, hi0) && Within(bad, cut, hi0) == {}
      invariant cut <= hi0 ==> cut < last && Needed(had, edge, Within(kept, last, hi0), target)
      decreases hi - lo
    {
      last, had := cut, docs;
      var s0 := Larger(SatSub(hi, width - 1), lo);
      r, width := TakeSlice(kept, bad, docs, s0, hi, width);
      if r.Err? {
        WithinWider(bad, s0, hi, lo, hi0);
        return;
      }
      WithinSplit(kept, s0, hi, hi0);
      WithinSplit(bad, s0, hi, hi0);
      docs, cut := r.value, s0;
      if s0 == lo { break; }
      hi := s0 - 1;
    }
    r := Ok(docs);
  }

  lemma WithinWider(rows: set<Key>, a: int, b: int, c: int, d: int)
    requires Within(rows, a, b) != {} && c <= a && b <= d
    ensures Within(rows, c, d) != {}
  {
    var k :| k in Within(rows, a, b);
    assert k in Within(rows, c, d);
  }

  /** Forward walk over `[lo0, hi]`, mirror image of `WalkBack`. */
  method WalkForward(kept: set<Key>, bad: set<Key>, lo0: int, hi: int, edge: seq<Key>, target: nat)
    returns (r: Result<seq<Key>>, ghost cut: int, ghost last: int, ghost had: seq<Key>)
    requires InI64(lo0) && InI64(hi)
    requires TieOrdered(edge) && forall k :: k in Elems(edge) ==> k.ts < lo0
    ensures cut == lo0 - 1 || lo0 <= cut <= hi
    ensures if r.Err? then Within(bad, lo0, hi) != {} else Within(bad, lo0, cut) == {}
    ensures r.Ok? ==> TieOrdered(r.value) && Elems(r.value) == Elems(edge) + Within(kept, lo0, cut)
    ensures r.Ok? ==> Within(kept, cut + 1, hi) == {} || |r.value| >= target
    ensures r.Ok? && lo0 <= cut ==> last < cut && Needed(had, edge, Within(kept, lo0, last), target)
  {
    var docs := edge;
    var lo, width := lo0, 60_000;
    cut, last, had := lo0 - 1, lo0 - 1, edge;
    while |docs| < target && lo <= hi
      invariant InI64(lo) && cut == lo - 1 && (lo == lo0 || lo0 <= cut <= hi) && 60_000 <= width
      invariant TieOrdered(docs) && Elems(docs) == Elems(edge) + Within(kept, lo0, cut) && Within(bad, lo0, cut) == {}
      invariant lo0 <= cut ==> last < cut && Needed(had, edge, Within(kept, lo0, last), target)
      decreases hi - lo
    {
      last, had := cut, docs;
      var s1 := Smaller(SatAdd(lo, width - 1), hi);
      r, width := TakeSlice(kept, bad, docs, lo, s1, width);
      if r.Err? {
        WithinWider(bad, lo, s1, lo0, hi);
        return;
      }
      WithinSplit(kept, lo0, lo - 1, s1);
      WithinSplit(bad, lo0, lo - 1, s1);
      docs, cut := r.value, s1;
      if s1 == hi { break; }
      lo := s1 + 1;
    }
    r := Ok(docs);
  }

  function DropTake(s: seq<Key>, offset: nat, limit: Option<nat>): seq<Key> {
    var t := s[(if offset < |s| then offset else |s|)..];
    if limit.Some? && limit.value < |t| then t[..limit.value] else t
  }

  /** A page is the rows from the offset on, as many as there are up to the limit. */
  lemma DropTakeIs(s: seq<Key>, offset: nat, limit: Option<nat>, i: nat)
    ensures i < |DropTake(s, offset, limit)| <==> offset + i < |s| && (limit.Some? ==> i < limit.value)
    ensures i < |DropTake(s, offset, limit)| ==> DropTake(s, offset, limit)[i] == s[offset + i]
  {
  }

  /** The rows a plain query projects: sort, then offset and limit. */
  function Page(q: Query, docs: seq<Key>): seq<Key> {
    DropTake(if q.order.ByTs? then StableSort(q.order.desc, docs) else docs, q.offset, q.limit)
  }

  /** An `ORDER BY ts` page runs forward or backward in time, and rows of one time keep the order they came in. */
  lemma PageInTimeOrder(q: Query, docs: seq<Key>, i: nat, j: nat)
    requires q.order.ByTs? && TieOrdered(docs) && i < j < |Page(q, docs)|
    ensures var a, b := Page(q, docs)[i], Page(q, docs)[j];
            (if q.order.desc then a.ts >= b.ts else a.ts <= b.ts) && (a.ts == b.ts ==> a.series < b.series)
  {
    var s := StableSort(q.order.desc, docs);
    StableSortIsSort(q.order.desc, docs);
    DropTakeIs(s, q.offset, q.limit, i);
    DropTakeIs(s, q.offset, q.limit, j);
    assert Before(TimeOrder(q.order.desc), s[q.offset + i], s[q.offset + j]);
  }

  /** `docs` answers `q` over the row set `rows` as a full gather of `rows` would: the same page
      under an `ORDER BY ts`, enough of the rows for a bare `LIMIT`, and the gather itself
      otherwise. */
  ghost predicate Answers(q: Query, docs: seq<Key>, rows: set<Key>) {
    if q.plain && q.limit.Some? && q.order.ByTs? then
      Page(q, docs) == Page(q, Sort(BySeries, rows))
    else if q.plain && q.limit.Some? && q.order.Unordered? then
      && TieOrdered(docs) && Elems(docs) <= rows
      && (Elems(docs) == rows || |docs| >= q.limit.value + q.offset)
    else docs == Sort(BySeries, rows)
  }

  /** Rows in hand that all precede the rest, and are enough, give the same page. */
  lemma EnoughRowsSamePage(q: Query, docs: seq<Key>, rest: set<Key>)
    requires q.order.ByTs? && q.limit.Some? && TieOrdered(docs)
    requires forall x, y :: x in Elems(docs) && y in rest ==> Before(TimeOrder(q.order.desc), x, y)
    requires rest == {} || |docs| >= q.limit.value + q.offset
    ensures Page(q, docs) == Page(q, Sort(BySeries, Elems(docs) + rest))
  {
    var o, all := TimeOrder(q.order.desc), Elems(docs) + rest;
    StableSortIsSort(q.order.desc, docs);
    SortUnion(o, Elems(docs), rest);
    StableSortIsSort(q.order.desc, Sort(BySeries, all));
    var s, t := Sort(o, Elems(docs)), Sort(o, rest);
    assert StableSort(q.order.desc, Sort(BySeries, all)) == s + t;
    assert |s| == |docs| && |t| == |rest|;
    PrefixSamePage(s, t, q.offset, q.limit.value);
  }

  lemma PrefixSamePage(s: seq<Key>, t: seq<Key>, offset: nat, limit: nat)
    requires t == [] || |s| >= limit + offset
    ensures DropTake(s, offset, Some(limit)) == DropTake(s + t, offset, Some(limit))
  {
    if t == [] {
      assert s + t == s;
    } else {
      assert (s + t)[offset..][..limit] == s[offset..][..limit];
      assert |s[offset..]| == limit ==> s[offset..][..limit] == s[offset..];
    }
  }

  lemma EdgeFirst(kept: set<Key>, a: Anchor)
    requires InI64(a.lo) && InI64(a.hi) && !(a.descAnchored && a.ascAnchored)
    requires a.descAnchored ==> a.hi != MAX
    requires a.ascAnchored ==> a.lo != MIN
    ensures TieOrdered(Sort(BySeries, Edge(kept, a)))
    ensures forall k :: k in Edge(kept, a) ==> if a.descAnchored then k.ts > a.hi else k.ts < a.lo
  {
  }

  lemma ReachSplitBack(kept: set<Key>, t0: int, t1: int, a: Anchor, cut: int)
    requires InI64(t0) && InI64(a.hi) && a.hi != MAX && (cut == a.hi + 1 || a.lo <= cut <= a.hi)
    requires a.lo == t0 && (a.descAnchored || a.hi == t1) && (a.descAnchored ==> t1 == MAX) && !a.ascAnchored
    ensures Reach(kept, t0, t1, a) == Edge(kept, a) + Within(kept, cut, a.hi) + Within(kept, a.lo, cut - 1)
  {
  }

  lemma ReachSplitForward(kept: set<Key>, t0: int, t1: int, a: Anchor, cut: int)
    requires InI64(t1) && InI64(a.lo) && a.lo != MIN && (cut == a.lo - 1 || a.lo <= cut <= a.hi)
    requires a.hi == t1 && (a.ascAnchored || a.lo == t0) && (a.ascAnchored ==> t0 == MIN) && !a.descAnchored
    ensures Reach(kept, t0, t1, a) == Edge(kept, a) + Within(kept, a.lo, cut) + Within(kept, cut + 1, a.hi)
  {
  }

  /** Every row of `a` comes before every row of `b` in the walk's direction. */
  ghost predicate Precedes(order: OrderBy, a: set<Key>, b: set<Key>) {
    forall x, y :: x in a && y in b ==> Before(TimeOrder(WalkDesc(order)), x, y)
  }

  /** The rows in hand come before the rest and before every row the filter fails on, and are enough. */
  ghost predicate Walked(q: Query, docs: seq<Key>, rest: set<Key>, reach: set<Key>, bad: set<Key>) {
    && TieOrdered(docs) && reach == Elems(docs) + rest
    && Precedes(q.order, Elems(docs), rest) && Precedes(q.order, Elems(docs), bad)
    && (rest == {} || (q.limit.Some? && |docs| >= q.limit.value + q.offset))
  }

  /** Rows at or after `cut` on one side and before it on the other. */
  lemma CutPrecedes(order: OrderBy, a: set<Key>, b: set<Key>, cut: int)
    requires forall k :: k in a ==> if WalkDesc(order) then k.ts >= cut else k.ts <= cut
    requires forall k :: k in b ==> if WalkDesc(order) then k.ts < cut else k.ts > cut
    ensures Precedes(order, a, b)
  {
  }

  /** The walk of a plain `LIMIT` query, from the anchor out: an answer stops short of every row the filter fails
      on, and a failure means there is one. */
  method Walk(q: Query, kept: set<Key>, bad: set<Key>, t0: int, t1: int, range: Option<(int, int)>, wall: int)
    returns (r: Result<seq<Key>>, ghost rest: set<Key>)
    requires InI64(t0) && InI64(t1) && InI64(wall)
    requires range.Some? ==> InI64(range.value.0) && InI64(range.value.1)
    requires Walkable(q, AnchorOf(WalkDesc(q.order), t0, t1, range, wall))
    ensures var a := AnchorOf(WalkDesc(q.order), t0, t1, range, wall);
            if r.Err? then Reach(bad, t0, t1, a) != {}
            else Walked(q, r.value, rest, Reach(kept, t0, t1, a), Reach(bad, t0, t1, a))
  {
    var a := AnchorOf(WalkDesc(q.order), t0, t1, range, wall);
    var target := q.limit.value + q.offset;
    if Edge(bad, a) != {} { return Err, {}; }
    var edge := Sort(BySeries, Edge(kept, a));
    EdgeFirst(kept, a);
    if WalkDesc(q.order) {
      r, rest := Backward(q, kept, bad, t0, t1, a, edge, target);
    } else {
      r, rest := Forward(q, kept, bad, t0, t1, a, edge, target);
    }
  }

  method Backward(q: Query, kept: set<Key>, bad: set<Key>, t0: int, t1: int, a: Anchor, edge: seq<Key>, target: nat)
    returns (r: Result<seq<Key>>, ghost rest: set<Key>)
    requires InI64(t0) && InI64(a.hi) && a.hi != MAX && a.lo == t0 && (a.descAnchored || a.hi == t1)
    requires (a.descAnchored ==> t1 == MAX) && !a.ascAnchored && Edge(bad, a) == {} && WalkDesc(q.order)
    requires TieOrdered(edge) && Elems(edge) == Edge(kept, a) && forall k :: k in Edge(kept, a) ==> k.ts > a.hi
    requires q.limit.Some? && target == q.limit.value + q.offset
    ensures if r.Err? then Reach(bad, t0, t1, a) != {}
            else Walked(q, r.value, rest, Reach(kept, t0, t1, a), Reach(bad, t0, t1, a))
  {
    ghost var cut, last, had;
    r, cut, last, had := WalkBack(kept, bad, a.lo, a.hi, edge, target);
    rest := Within(kept, a.lo, cut - 1);
    ReachSplitBack(kept, t0, t1, a, cut);
    ReachSplitBack(bad, t0, t1, a, cut);
    if r.Err? {
      WithinWider(bad, a.lo, a.hi, t0, t1);
    } else {
      CutPrecedes(q.order, Elems(r.value), rest, cut);
      CutPrecedes(q.order, Elems(r.value), Within(bad, a.lo, cut - 1), cut);
      assert Reach(bad, t0, t1, a) == Within(bad, a.lo, cut - 1);
    }
  }

  method Forward(q: Query, kept: set<Key>, bad: set<Key>, t0: int, t1: int, a: Anchor, edge: seq<Key>, target: nat)
    returns (r: Result<seq<Key>>, ghost rest: set<Key>)
    requires InI64(t1) && InI64(a.lo) && a.lo != MIN && a.hi == t1 && (a.ascAnchored || a.lo == t0)
    requires (a.ascAnchored ==> t0 == MIN) && !a.descAnchored && Edge(bad, a) == {} && !WalkDesc(q.order)
    requires TieOrdered(edge) && Elems(edge) == Edge(kept, a) && forall k :: k in Edge(kept, a) ==> k.ts < a.lo
    requires q.limit.Some? && target == q.limit.value + q.offset
    ensures if r.Err? then Reach(bad, t0, t1, a) != {}
            else Walked(q, r.value, rest, Reach(kept, t0, t1, a), Reach(bad, t0, t1, a))
  {
    ghost var cut, last, had;
    r, cut, last, had := WalkForward(kept, bad, a.lo, a.hi, edge, target);
    rest := Within(kept, cut + 1, a.hi);
    ReachSplitForward(kept, t0, t1, a, cut);
    ReachSplitForward(bad, t0, t1, a, cut);
    if r.Err? {
      WithinWider(bad, a.lo, a.hi, t0, t1);
    } else {
      CutPrecedes(q.order, Elems(r.value), rest, cut);
      CutPrecedes(q.order, Elems(r.value), Within(bad, cut + 1, a.hi), cut);
      assert Reach(bad, t0, t1, a) == Within(bad, cut + 1, a.hi);
    }
  }

  /** The row-returning tail of the time-series SELECT. Whatever the anchor (a stale local
      frontier, the wall clock), it answers the query over the rows within reach. It fails only if the filter fails
      on a row within reach, and without a walk exactly then. */
  method SelectRows(q: Query, kept: set<Key>, bad: set<Key>, t0: int, t1: int, range: Option<(int, int)>, wall: int)
    returns (r: Result<seq<Key>>)
    requires InI64(t0) && InI64(t1) && InI64(wall)
    requires range.Some? ==> InI64(range.value.0) && InI64(range.value.1)
    ensures var a := AnchorOf(WalkDesc(q.order), t0, t1, range, wall);
            if Walkable(q, a) then
              && (r.Ok? ==> Answers(q, r.value, Reach(kept, t0, t1, a)))
              && (r.Ok? ==> Precedes(q.order, Elems(r.value), Reach(bad, t0, t1, a)))
              && (r.Err? ==> Reach(bad, t0, t1, a) != {})
            else
              && (r.Ok? ==> Answers(q, r.value, Within(kept, t0, t1)))
              && (r.Err? <==> Within(bad, t0, t1) != {})
  {
    var a := AnchorOf(WalkDesc(q.order), t0, t1, range, wall);
    if Walkable(q, a) {
      ghost var rest;
      r, rest := Walk(q, kept, bad, t0, t1, range, wall);
      if q.order.ByTs? && r.Ok? { EnoughRowsSamePage(q, r.value, rest); }
    } else if Within(bad, t0, t1) != {} {
      r := Err;
    } else {
      r := Ok(Gather(kept, t0, t1));
      GatherTieOrdered(kept, t0, t1);
    }
  }

  /** Which queries walk, and which way: a plain query with a LIMIT that asks for a row, ordered by `ts` or not at
      all, from its newest end unless it is ascending, when that end is known. */
  lemma WalksWhen(q: Query, t0: int, t1: int, range: Option<(int, int)>, wall: int)
    requires InI64(t0) && InI64(t1)
    ensures Walkable(q, AnchorOf(WalkDesc(q.order), t0, t1, range, wall)) <==>
      && q.plain && (q.order.ByTs? || q.order.Unordered?) && q.limit.Some? && (q.limit.value > 0 || q.offset > 0)
      && (q.order != ByTs(false) ==> t1 != MAX || (if range.Some? then range.value.1 else wall) != MAX)
      && (q.order == ByTs(false) ==> t0 != MIN || (range.Some? && range.value.0 != MIN))
    ensures q.order != ByTs(false) ==>
      AnchorOf(WalkDesc(q.order), t0, t1, range, wall).hi ==
      if t1 < MAX then t1 else if range.Some? then range.value.1 else wall
    ensures q.order == ByTs(false) ==>
      AnchorOf(WalkDesc(q.order), t0, t1, range, wall).lo ==
      if t0 > MIN || range.None? then t0 else range.value.0
  {
  }

  /** The walk's ordered page is that of the full-range gather. */
  predicate SamePage(desc: bool, kept: set<Key>, t0: int, t1: int, a: Anchor, limit: nat, offset: nat) {
    var q := Query(true, ByTs(desc), Some(limit), offset);
    Page(q, Sort(BySeries, Reach(kept, t0, t1, a))) == Page(q, Gather(kept, t0, t1))
  }

  /** Ordered pages of the walk equal those of the full-range gather, for all rows, limits and offsets, exactly when
      the anchor lies no further than just outside the pushed range. */
  lemma WalkMatchesGatherIff(desc: bool, t0: int, t1: int, range: Option<(int, int)>, wall: int)
    requires InI64(t0) && InI64(t1) && InI64(wall)
    requires range.Some? ==> InI64(range.value.0) && InI64(range.value.1)
    ensures var a := AnchorOf(desc, t0, t1, range, wall);
            (forall kept, limit: nat, offset: nat :: SamePage(desc, kept, t0, t1, a, limit, offset)) <==>
            (a.descAnchored ==> SatAdd(a.hi, 1) >= t0) && (a.ascAnchored ==> SatSub(a.lo, 1) <= t1)
  {
    var a := AnchorOf(desc, t0, t1, range, wall);
    if (a.descAnchored ==> SatAdd(a.hi, 1) >= t0) && (a.ascAnchored ==> SatSub(a.lo, 1) <= t1) {
      forall kept, limit: nat, offset: nat ensures SamePage(desc, kept, t0, t1, a, limit, offset) {
        assert Reach(kept, t0, t1, a) == Within(kept, t0, t1);
      }
    } else {
      var stray := {Key(0, if a.descAnchored then SatAdd(a.hi, 1) else SatSub(a.lo, 1))};
      StrayPage(desc, stray, t0, t1, a);
      assert !SamePage(desc, stray, t0, t1, a, 1, 0);
    }
  }

  /** A row the edge gather brings in from outside the pushed range is on the walk's page only. */
  lemma StrayPage(desc: bool, rows: set<Key>, t0: int, t1: int, a: Anchor)
    requires |rows| == 1 && Reach(rows, t0, t1, a) == rows && Within(rows, t0, t1) == {}
    ensures !SamePage(desc, rows, t0, t1, a, 1, 0)
  {
    PagesDiffer(Query(true, ByTs(desc), Some(1), 0), rows, {});
  }

  /** Rows already inside the pushed range are all the walk can meet. */
  lemma InRangeReach(kept: set<Key>, t0: int, t1: int, a: Anchor)
    requires forall k :: k in kept ==> t0 <= k.ts <= t1
    ensures Within(kept, t0, t1) == kept && Reach(kept, t0, t1, a) == kept
  {
  }

  lemma PagesDiffer(q: Query, a: set<Key>, b: set<Key>)
    requires q.order.ByTs? && q.offset == 0 && q.limit.Some? && a != b
    requires |a| <= q.limit.value && |b| <= q.limit.value
    ensures Page(q, Sort(BySeries, a)) != Page(q, Sort(BySeries, b))
  {
    SeriesTieOrdered(a);
    SeriesTieOrdered(b);
    WholePage(q, Sort(BySeries, a));
    WholePage(q, Sort(BySeries, b));
  }

  lemma SeriesTieOrdered(rows: set<Key>)
    ensures TieOrdered(Sort(BySeries, rows))
  {
  }

  lemma WholePage(q: Query, s: seq<Key>)
    requires q.order.ByTs? && q.offset == 0 && q.limit.Some? && |s| <= q.limit.value && TieOrdered(s)
    ensures Elems(Page(q, s)) == Elems(s)
  {
    StableSortSorted(q.order.desc, s);
    assert Page(q, s) == StableSort(q.order.desc, s);
  }
}
