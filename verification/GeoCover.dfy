/** The budgeted quadtree cover of a quantized rectangle. */
module GeoCover {
  import opened Morton

  /** Coordinates have `n` binary digits: 32 in the index. */
  predicate Fits(n: nat, la: nat, lo: nat) { la < Up2(1, n) && lo < Up2(1, n) }

  /** A quantized rectangle, all bounds inclusive. */
  datatype Rect = Rect(laMin: nat, loMin: nat, laMax: nat, loMax: nat)

  predicate InRect(r: Rect, la: nat, lo: nat) { r.laMin <= la <= r.laMax && r.loMin <= lo <= r.loMax }

  predicate Proper(r: Rect) { r.laMin <= r.laMax && r.loMin <= r.loMax }

  /** A quadtree cell: all codes that start with `prefix` and have `k` base-4 digits more. */
  datatype Cell = Cell(prefix: nat, k: nat)

  predicate Has(c: Cell, z: nat) { Down4(z, c.k) == c.prefix }

  function Base(c: Cell): nat { Up4(c.prefix, c.k) }

  function Top(c: Cell): int { Up4(c.prefix + 1, c.k) - 1 }

  /** The cell's extent on each axis, read off its base code. */
  function LaLow(c: Cell): nat { Compact(Base(c)) }

  function LoLow(c: Cell): nat { Odds(Base(c)) }

  function LaHigh(c: Cell): int { LaLow(c) + Up2(1, c.k) - 1 }

  function LoHigh(c: Cell): int { LoLow(c) + Up2(1, c.k) - 1 }

  lemma AxisBlock(x: nat, k: nat, p: nat)
    ensures Down2(x, k) == p <==> Up2(p, k) <= x <= Up2(p, k) + Up2(1, k) - 1
  {
    Down2Bounds(x, k, p);
    Up2Sum(p, 1, k);
  }

  lemma CodeIs(x: nat, y: nat, z: nat)
    ensures Code(x, y) == z <==> x == Compact(z) && y == Odds(z)
  {
    CompactCode(x, y);
    CodeCompact(z);
  }

  /** A cell holds exactly the points of its box. */
  lemma CellBox(c: Cell, la: nat, lo: nat)
    ensures Has(c, Code(la, lo)) <==> LaLow(c) <= la <= LaHigh(c) && LoLow(c) <= lo <= LoHigh(c)
  {
    Down4Code(la, lo, c.k);
    CodeIs(Down2(la, c.k), Down2(lo, c.k), c.prefix);
    CompactUp(c.prefix, c.k);
    AxisBlock(la, c.k, Compact(c.prefix));
    AxisBlock(lo, c.k, Odds(c.prefix));
  }

  predicate Disjoint(r: Rect, c: Cell) {
    LaHigh(c) < r.laMin || LaLow(c) > r.laMax || LoHigh(c) < r.loMin || LoLow(c) > r.loMax
  }

  predicate Inside(r: Rect, c: Cell) {
    LaLow(c) >= r.laMin && LaHigh(c) <= r.laMax && LoLow(c) >= r.loMin && LoHigh(c) <= r.loMax
  }

  lemma {:induction false} BlockNonempty(k: nat)
    ensures Up2(1, k) >= 1
  {
    if k > 0 { BlockNonempty(k - 1); }
  }

  /** A cell that is not disjoint from a proper rectangle shares a point with it. */
  lemma OverlapMeets(r: Rect, c: Cell) returns (la: nat, lo: nat)
    requires Proper(r) && !Disjoint(r, c)
    ensures InRect(r, la, lo) && Has(c, Code(la, lo))
  {
    BlockNonempty(c.k);
    la := if LaLow(c) < r.laMin then r.laMin else LaLow(c);
    lo := if LoLow(c) < r.loMin then r.loMin else LoLow(c);
    CellBox(c, la, lo);
  }

  ghost predicate Meets(r: Rect, c: Cell) { exists la: nat, lo: nat :: InRect(r, la, lo) && Has(c, Code(la, lo)) }

  // Subdivision.

  function Child(c: Cell, q: nat): Cell
    requires c.k > 0
  {
    Cell(4 * c.prefix + q, c.k - 1)
  }

  lemma {:induction false} Down4Next(z: nat, k: nat)
    requires k > 0
    ensures Down4(z, k) == Down4(z, k - 1) / 4
  {
    if k > 1 { Down4Next(z / 4, k - 1); }
  }

  /** Every code of a cell is in one of its four children. */
  lemma ChildHas(c: Cell, z: nat) returns (q: nat)
    requires c.k > 0 && Has(c, z)
    ensures q < 4 && Has(Child(c, q), z)
  {
    Down4Next(z, c.k);
    q := Down4(z, c.k - 1) % 4;
  }

  /** A cell of the space of `n`-digit coordinates. */
  predicate Legal(n: nat, c: Cell) { Up4(c.prefix + 1, c.k) <= Up4(1, n) }

  lemma {:induction false} Up4Monotone(x: nat, y: nat, k: nat)
    requires x <= y
    ensures Up4(x, k) <= Up4(y, k)
  {
    if k > 0 { Up4Monotone(x, y, k - 1); }
  }

  lemma {:induction false} Up4Shift(x: nat, k: nat)
    ensures Up4(4 * x, k) == 4 * Up4(x, k)
  {
    if k > 0 { Up4Shift(x, k - 1); }
  }

  lemma ChildLegal(n: nat, c: Cell, q: nat)
    requires c.k > 0 && q < 4 && Legal(n, c)
    ensures Legal(n, Child(c, q))
  {
    Up4Monotone(4 * c.prefix + q + 1, 4 * (c.prefix + 1), c.k - 1);
    Up4Shift(c.prefix + 1, c.k - 1);
  }

  ghost predicate AllLegal(n: nat, cells: seq<Cell>) { forall i :: 0 <= i < |cells| ==> Legal(n, cells[i]) }

  lemma PushedLegal(n: nat, stack: seq<Cell>, c: Cell)
    requires c.k > 0 && AllLegal(n, stack) && Legal(n, c)
    ensures AllLegal(n, Pushed(stack, c))
  {
    ChildLegal(n, c, 0);
    ChildLegal(n, c, 1);
    ChildLegal(n, c, 2);
    ChildLegal(n, c, 3);
  }

  // The loop.

  ghost predicate Covers(cells: seq<Cell>, z: nat) { exists i :: 0 <= i < |cells| && Has(cells[i], z) }

  /** Every point of the rectangle is in an emitted or a pending cell. */
  ghost predicate LosesNothing(n: nat, r: Rect, out: seq<Cell>, stack: seq<Cell>) {
    forall la: nat, lo: nat :: InRect(r, la, lo) && Fits(n, la, lo) ==>
      Covers(out, Code(la, lo)) || Covers(stack, Code(la, lo))
  }

  lemma CoversSnoc(cells: seq<Cell>, c: Cell, z: nat)
    ensures Covers(cells + [c], z) <==> Covers(cells, z) || Has(c, z)
  {
    if Covers(cells, z) {
      var i :| 0 <= i < |cells| && Has(cells[i], z);
      assert Has((cells + [c])[i], z);
    }
    if Has(c, z) { assert Has((cells + [c])[|cells|], z); }
  }

  lemma PruneLoses(n: nat, r: Rect, out: seq<Cell>, stack: seq<Cell>, c: Cell)
    requires LosesNothing(n, r, out, stack + [c]) && Disjoint(r, c)
    ensures LosesNothing(n, r, out, stack)
  {
    forall la: nat, lo: nat | InRect(r, la, lo) && Fits(n, la, lo)
      ensures Covers(out, Code(la, lo)) || Covers(stack, Code(la, lo))
    {
      CoversSnoc(stack, c, Code(la, lo));
      CellBox(c, la, lo);
    }
  }

  lemma EmitLoses(n: nat, r: Rect, out: seq<Cell>, stack: seq<Cell>, c: Cell)
    requires LosesNothing(n, r, out, stack + [c])
    ensures LosesNothing(n, r, out + [c], stack)
  {
    forall la: nat, lo: nat | InRect(r, la, lo) && Fits(n, la, lo)
      ensures Covers(out + [c], Code(la, lo)) || Covers(stack, Code(la, lo))
    {
      CoversSnoc(stack, c, Code(la, lo));
      CoversSnoc(out, c, Code(la, lo));
    }
  }

  function Pushed(stack: seq<Cell>, c: Cell): seq<Cell>
    requires c.k > 0
  {
    stack + [Child(c, 0), Child(c, 1), Child(c, 2), Child(c, 3)]
  }

  lemma SplitLoses(n: nat, r: Rect, out: seq<Cell>, stack: seq<Cell>, c: Cell)
    requires LosesNothing(n, r, out, stack + [c]) && c.k > 0
    ensures LosesNothing(n, r, out, Pushed(stack, c))
  {
    forall la: nat, lo: nat | InRect(r, la, lo) && Fits(n, la, lo)
      ensures Covers(out, Code(la, lo)) || Covers(Pushed(stack, c), Code(la, lo))
    {
      var z := Code(la, lo);
      CoversSnoc(stack, c, z);
      if Covers(stack, z) {
        var i :| 0 <= i < |stack| && Has(stack[i], z);
        assert Has(Pushed(stack, c)[i], z);
      } else if Has(c, z) {
        var q := ChildHas(c, z);
        assert Pushed(stack, c)[|stack| + q] == Child(c, q);
      }
    }
  }

  /** Pending work: a cell costs one more than its four children together. */
  function Work(k: nat): nat { if k == 0 then 1 else 1 + 4 * Work(k - 1) }

  function AllWork(stack: seq<Cell>): nat {
    if stack == [] then 0 else AllWork(stack[..|stack| - 1]) + Work(stack[|stack| - 1].k)
  }

  lemma {:induction false} WorkPositive(k: nat)
    ensures Work(k) >= 1
  {
    if k > 0 { WorkPositive(k - 1); }
  }

  lemma WorkSnoc(stack: seq<Cell>, c: Cell)
    ensures AllWork(stack + [c]) == AllWork(stack) + Work(c.k)
  {
    assert (stack + [c])[..|stack|] == stack;
  }

  lemma WorkTwo(stack: seq<Cell>, c0: Cell, c1: Cell)
    ensures AllWork(stack + [c0, c1]) == AllWork(stack) + Work(c0.k) + Work(c1.k)
  {
    WorkSnoc(stack, c0);
    WorkSnoc(stack + [c0], c1);
    assert stack + [c0, c1] == (stack + [c0]) + [c1];
  }

  lemma WorkFour(stack: seq<Cell>, c0: Cell, c1: Cell, c2: Cell, c3: Cell)
    ensures AllWork(stack + [c0, c1, c2, c3]) == AllWork(stack) + Work(c0.k) + Work(c1.k) + Work(c2.k) + Work(c3.k)
  {
    WorkTwo(stack, c0, c1);
    WorkTwo(stack + [c0, c1], c2, c3);
    assert stack + [c0, c1, c2, c3] == (stack + [c0, c1]) + [c2, c3];
  }

  lemma WorkPushed(stack: seq<Cell>, c: Cell)
    requires c.k > 0
    ensures AllWork(Pushed(stack, c)) == AllWork(stack) + Work(c.k) - 1
  {
    WorkFour(stack, Child(c, 0), Child(c, 1), Child(c, 2), Child(c, 3));
  }

  /** The whole space is one cell. */
  lemma RootHas(n: nat, la: nat, lo: nat)
    requires Fits(n, la, lo)
    ensures Has(Cell(0, n), Code(la, lo))
  {
    CellBox(Cell(0, n), la, lo);
    CompactUp(0, n);
    ZeroUp(n);
  }

  /** Codes of `n`-digit coordinates have `n` base-4 digits. */
  lemma CodeBelow(n: nat, la: nat, lo: nat)
    requires Fits(n, la, lo)
    ensures Code(la, lo) < Up4(1, n)
  {
    RootHas(n, la, lo);
    Down4Bounds(Code(la, lo), n, 0);
  }

  lemma {:induction false} ZeroUp(k: nat)
    ensures Up2(0, k) == 0
  {
    if k > 0 { ZeroUp(k - 1); }
  }

  // The cover without a budget.

  predicate Straddles(r: Rect, c: Cell) { !Disjoint(r, c) && !Inside(r, c) && c.k > 0 }

  /** How the cells of the quadtree lie to a rectangle: clear of it, or across its border and divisible. */
  datatype View = View(clear: Cell -> bool, across: Cell -> bool)

  function Seen(r: Rect): View { View((c: Cell) => Disjoint(r, c), (c: Cell) => Straddles(r, c)) }

  /** The largest cells not across the border, in the order the descent meets them. */
  function Pieces(v: View, c: Cell): seq<Cell>
    decreases c.k
  {
    if v.clear(c) then []
    else if !v.across(c) || c.k == 0 then [c]
    else
      Pieces(v, Child(c, 3)) + (Pieces(v, Child(c, 2)) + (Pieces(v, Child(c, 1)) + Pieces(v, Child(c, 0))))
  }

  /** Below `c`, with `used` cells out or pending besides it, no cell across the border is met at or over the budget. */
  predicate Fitted(v: View, c: Cell, used: nat, max: nat)
    decreases c.k
  {
    v.clear(c) || !v.across(c) || c.k == 0 ||
    var d3, d2, d1 := |Pieces(v, Child(c, 3))|, |Pieces(v, Child(c, 2))|, |Pieces(v, Child(c, 1))|;
    && used < max
    && Fitted(v, Child(c, 3), used + 3, max)
    && Fitted(v, Child(c, 2), used + d3 + 2, max)
    && Fitted(v, Child(c, 1), used + d3 + d2 + 1, max)
    && Fitted(v, Child(c, 0), used + d3 + d2 + d1, max)
  }

  function Decompose(r: Rect, c: Cell): seq<Cell> { Pieces(Seen(r), c) }

  /** The budget has room for the descent below `c`: it never fires. */
  predicate Room(r: Rect, c: Cell, used: nat, max: nat) { Fitted(Seen(r), c, used, max) }

  function PiecesOf(v: View): Cell -> seq<Cell> { (c: Cell) => Pieces(v, c) }

  function FittedIn(v: View, max: nat): (Cell, nat) -> bool { (c: Cell, used: nat) => Fitted(v, c, used, max) }

  /** What is still to come from the pending cells, the last first. */
  function Pending(f: Cell -> seq<Cell>, stack: seq<Cell>): seq<Cell> {
    if stack == [] then [] else f(stack[|stack| - 1]) + Pending(f, stack[..|stack| - 1])
  }

  /** Every pending cell has room when its turn comes, `n` cells being out now. */
  function AllRoom(f: Cell -> seq<Cell>, room: (Cell, nat) -> bool, n: nat, stack: seq<Cell>): bool
    decreases |stack|
  {
    stack == [] ||
    var rest, c := stack[..|stack| - 1], stack[|stack| - 1];
    room(c, n + |rest|) && AllRoom(f, room, n + |f(c)|, rest)
  }

  lemma PendingSnoc(f: Cell -> seq<Cell>, stack: seq<Cell>, c: Cell)
    ensures Pending(f, stack + [c]) == f(c) + Pending(f, stack)
  {
    assert (stack + [c])[..|stack|] == stack;
  }

  lemma RoomSnoc(f: Cell -> seq<Cell>, room: (Cell, nat) -> bool, n: nat, stack: seq<Cell>, c: Cell)
    ensures AllRoom(f, room, n, stack + [c]) <==> room(c, n + |stack|) && AllRoom(f, room, n + |f(c)|, stack)
  {
    assert (stack + [c])[..|stack|] == stack;
  }

  lemma PendingFour(f: Cell -> seq<Cell>, stack: seq<Cell>, c0: Cell, c1: Cell, c2: Cell, c3: Cell)
    ensures Pending(f, stack + [c0, c1, c2, c3]) == (f(c3) + (f(c2) + (f(c1) + f(c0)))) + Pending(f, stack)
  {
    var a := stack + [c0];
    var b := a + [c1];
    var d := b + [c2];
    PendingSnoc(f, stack, c0);
    PendingSnoc(f, a, c1);
    PendingSnoc(f, b, c2);
    PendingSnoc(f, d, c3);
    assert stack + [c0, c1, c2, c3] == d + [c3];
    assert f(c3) + (f(c2) + (f(c1) + (f(c0) + Pending(f, stack)))) ==
           (f(c3) + (f(c2) + (f(c1) + f(c0)))) + Pending(f, stack);
  }

  lemma RoomTwo(f: Cell -> seq<Cell>, room: (Cell, nat) -> bool, n: nat, stack: seq<Cell>, c0: Cell, c1: Cell)
    ensures AllRoom(f, room, n, stack + [c0, c1]) <==>
            room(c1, n + |stack| + 1) && room(c0, n + |stack| + |f(c1)|) &&
            AllRoom(f, room, n + |f(c1)| + |f(c0)|, stack)
  {
    assert stack + [c0, c1] == (stack + [c0]) + [c1];
    RoomSnoc(f, room, n, stack + [c0], c1);
    RoomSnoc(f, room, n + |f(c1)|, stack, c0);
  }

  lemma RoomFour(f: Cell -> seq<Cell>, room: (Cell, nat) -> bool, n: nat, stack: seq<Cell>, c0: Cell, c1: Cell,
                 c2: Cell, c3: Cell)
    ensures var used, d3, d2, d1 := n + |stack|, |f(c3)|, |f(c2)|, |f(c1)|;
            AllRoom(f, room, n, stack + [c0, c1, c2, c3]) <==>
              && room(c3, used + 3) && room(c2, used + d3 + 2) && room(c1, used + d3 + d2 + 1)
              && room(c0, used + d3 + d2 + d1) && AllRoom(f, room, n + d3 + d2 + d1 + |f(c0)|, stack)
  {
    assert stack + [c0, c1, c2, c3] == (stack + [c0, c1]) + [c2, c3];
    RoomTwo(f, room, n, stack + [c0, c1], c2, c3);
    RoomTwo(f, room, n + |f(c3)| + |f(c2)|, stack, c0, c1);
  }

  lemma {:induction false} CoversConcat(a: seq<Cell>, b: seq<Cell>, z: nat)
    ensures Covers(a + b, z) <==> Covers(a, z) || Covers(b, z)
  {
    if b == [] {
      assert a + b == a;
    } else {
      var front, c := b[..|b| - 1], b[|b| - 1];
      CoversConcat(a, front, z);
      CoversSnoc(a + front, c, z);
      CoversSnoc(front, c, z);
      assert a + b == (a + front) + [c] && b == front + [c];
    }
  }

  /** The full decomposition of a cell holds exactly its points in the rectangle. */
  lemma {:induction false} DecomposeExact(r: Rect, c: Cell, la: nat, lo: nat)
    ensures Covers(Decompose(r, c), Code(la, lo)) <==> Has(c, Code(la, lo)) && InRect(r, la, lo)
    decreases c.k
  {
    var z := Code(la, lo);
    CellBox(c, la, lo);
    if Straddles(r, c) {
      var d0, d1 := Decompose(r, Child(c, 0)), Decompose(r, Child(c, 1));
      var d2, d3 := Decompose(r, Child(c, 2)), Decompose(r, Child(c, 3));
      DecomposeExact(r, Child(c, 0), la, lo);
      DecomposeExact(r, Child(c, 1), la, lo);
      DecomposeExact(r, Child(c, 2), la, lo);
      DecomposeExact(r, Child(c, 3), la, lo);
      CoversConcat(d1, d0, z);
      CoversConcat(d2, d1 + d0, z);
      CoversConcat(d3, d2 + (d1 + d0), z);
      ChildrenHave(c, z);
    } else if !Disjoint(r, c) {
      assert Covers([c], z) <==> Has([c][0], z);
    }
  }

  lemma ChildrenHave(c: Cell, z: nat)
    requires c.k > 0
    ensures Has(c, z) <==> Has(Child(c, 0), z) || Has(Child(c, 1), z) || Has(Child(c, 2), z) || Has(Child(c, 3), z)
  {
    Down4Next(z, c.k);
    if Has(c, z) { var q := ChildHas(c, z); }
  }

  /** Every cell meets a proper rectangle. */
  ghost predicate Fitting(r: Rect, cells: seq<Cell>) {
    forall i :: 0 <= i < |cells| ==> Proper(r) ==> Meets(r, cells[i])
  }

  /** A cell that should have been divided came out. */
  ghost predicate Fired(wide: Cell -> bool, out: seq<Cell>) { exists i :: 0 <= i < |out| && wide(out[i]) }

  /** Until the budget fires, what is out and what is pending make up the full decomposition, and the pending cells
      have room exactly when the root has; it fires only if the root has none. */
  ghost predicate OnTrack(f: Cell -> seq<Cell>, room: (Cell, nat) -> bool, wide: Cell -> bool, root: Cell,
                          out: seq<Cell>, stack: seq<Cell>) {
    if Fired(wide, out) then !room(root, 0)
    else out + Pending(f, stack) == f(root) && (room(root, 0) <==> AllRoom(f, room, |out|, stack))
  }

  lemma FiredSnoc(wide: Cell -> bool, out: seq<Cell>, c: Cell)
    ensures Fired(wide, out + [c]) <==> Fired(wide, out) || wide(c)
  {
    if Fired(wide, out) {
      var i :| 0 <= i < |out| && wide(out[i]);
      assert wide((out + [c])[i]);
    }
    if wide(c) { assert wide((out + [c])[|out|]); }
  }

  lemma TrackStarts(f: Cell -> seq<Cell>, room: (Cell, nat) -> bool, wide: Cell -> bool, root: Cell)
    ensures OnTrack(f, room, wide, root, [], [root])
  {
    PendingSnoc(f, [], root);
    RoomSnoc(f, room, 0, [], root);
    assert [] + [root] == [root] && [] + f(root) == f(root) && f(root) + [] == f(root);
  }

  lemma TrackPrunes(f: Cell -> seq<Cell>, room: (Cell, nat) -> bool, wide: Cell -> bool, root: Cell, out: seq<Cell>,
                    rest: seq<Cell>, c: Cell)
    requires OnTrack(f, room, wide, root, out, rest + [c]) && f(c) == [] && room(c, |out| + |rest|)
    ensures OnTrack(f, room, wide, root, out, rest)
  {
    PendingSnoc(f, rest, c);
    RoomSnoc(f, room, |out|, rest, c);
    assert [] + Pending(f, rest) == Pending(f, rest);
  }

  lemma TrackEmits(f: Cell -> seq<Cell>, room: (Cell, nat) -> bool, wide: Cell -> bool, root: Cell, out: seq<Cell>,
                   rest: seq<Cell>, c: Cell)
    requires OnTrack(f, room, wide, root, out, rest + [c]) && f(c) == [c] && !wide(c) && room(c, |out| + |rest|)
    ensures OnTrack(f, room, wide, root, out + [c], rest)
  {
    PendingSnoc(f, rest, c);
    RoomSnoc(f, room, |out|, rest, c);
    FiredSnoc(wide, out, c);
    assert out + ([c] + Pending(f, rest)) == (out + [c]) + Pending(f, rest);
  }

  lemma TrackFires(f: Cell -> seq<Cell>, room: (Cell, nat) -> bool, wide: Cell -> bool, root: Cell, out: seq<Cell>,
                   rest: seq<Cell>, c: Cell)
    requires OnTrack(f, room, wide, root, out, rest + [c]) && wide(c) && !room(c, |out| + |rest|)
    ensures OnTrack(f, room, wide, root, out + [c], rest)
  {
    RoomSnoc(f, room, |out|, rest, c);
    FiredSnoc(wide, out, c);
  }

  lemma TrackSplits(f: Cell -> seq<Cell>, room: (Cell, nat) -> bool, wide: Cell -> bool, root: Cell, out: seq<Cell>,
                    rest: seq<Cell>, c: Cell, c0: Cell, c1: Cell, c2: Cell, c3: Cell)
    requires OnTrack(f, room, wide, root, out, rest + [c]) && f(c) == f(c3) + (f(c2) + (f(c1) + f(c0)))
    requires var used, d3, d2, d1 := |out| + |rest|, |f(c3)|, |f(c2)|, |f(c1)|;
             room(c, used) <==> room(c3, used + 3) && room(c2, used + d3 + 2) && room(c1, used + d3 + d2 + 1) &&
                                room(c0, used + d3 + d2 + d1)
    ensures OnTrack(f, room, wide, root, out, rest + [c0, c1, c2, c3])
  {
    PendingSnoc(f, rest, c);
    PendingFour(f, rest, c0, c1, c2, c3);
    RoomSnoc(f, room, |out|, rest, c);
    RoomFour(f, room, |out|, rest, c0, c1, c2, c3);
    assert |out| + |f(c)| == |out| + |f(c3)| + |f(c2)| + |f(c1)| + |f(c0)|;
  }

  ghost predicate Tracking(v: View, max: nat, root: Cell, out: seq<Cell>, stack: seq<Cell>) {
    OnTrack(PiecesOf(v), FittedIn(v, max), v.across, root, out, stack)
  }

  lemma TrackDivides(v: View, max: nat, root: Cell, out: seq<Cell>, rest: seq<Cell>, c: Cell, c0: Cell, c1: Cell,
                     c2: Cell, c3: Cell)
    requires Tracking(v, max, root, out, rest + [c]) && !v.clear(c) && v.across(c) && c.k > 0
    requires |out| + |rest| < max && c0 == Child(c, 0) && c1 == Child(c, 1) && c2 == Child(c, 2) && c3 == Child(c, 3)
    ensures Tracking(v, max, root, out, rest + [c0, c1, c2, c3])
  {
    TrackSplits(PiecesOf(v), FittedIn(v, max), v.across, root, out, rest, c, c0, c1, c2, c3);
  }

  /** One turn of the loop: prune, emit or split. */
  lemma TrackTurns(v: View, max: nat, root: Cell, out: seq<Cell>, rest: seq<Cell>, c: Cell)
    requires Tracking(v, max, root, out, rest + [c]) && !(v.clear(c) && v.across(c)) && (v.across(c) ==> c.k > 0)
    ensures v.clear(c) ==> Tracking(v, max, root, out, rest)
    ensures !v.clear(c) && (!v.across(c) || |out| + |rest| >= max) ==> Tracking(v, max, root, out + [c], rest)
    ensures v.across(c) && |out| + |rest| < max ==> Tracking(v, max, root, out, Pushed(rest, c))
  {
    var f, room := PiecesOf(v), FittedIn(v, max);
    if v.clear(c) {
      TrackPrunes(f, room, v.across, root, out, rest, c);
    } else if !v.across(c) {
      TrackEmits(f, room, v.across, root, out, rest, c);
    } else if |out| + |rest| < max {
      TrackDivides(v, max, root, out, rest, c, Child(c, 0), Child(c, 1), Child(c, 2), Child(c, 3));
    } else {
      TrackFires(f, room, v.across, root, out, rest, c);
    }
  }

  /** No piece is across the border. */
  lemma {:induction false} PiecesSettled(v: View, c: Cell)
    requires forall x :: v.across(x) ==> x.k > 0
    ensures !Fired(v.across, Pieces(v, c))
    decreases c.k
  {
    if !v.clear(c) && v.across(c) {
      var d0, d1 := Pieces(v, Child(c, 0)), Pieces(v, Child(c, 1));
      var d2, d3 := Pieces(v, Child(c, 2)), Pieces(v, Child(c, 3));
      PiecesSettled(v, Child(c, 0));
      PiecesSettled(v, Child(c, 1));
      PiecesSettled(v, Child(c, 2));
      PiecesSettled(v, Child(c, 3));
      FiredConcat(v.across, d1, d0);
      FiredConcat(v.across, d2, d1 + d0);
      FiredConcat(v.across, d3, d2 + (d1 + d0));
    }
  }

  lemma FiredConcat(wide: Cell -> bool, a: seq<Cell>, b: seq<Cell>)
    requires !Fired(wide, a) && !Fired(wide, b)
    ensures !Fired(wide, a + b)
  {
    forall i | 0 <= i < |a + b| ensures !wide((a + b)[i]) {
      if i < |a| { assert !wide(a[i]); } else { assert !wide(b[i - |a|]); }
    }
  }

  /** A straddling cell has a point outside the rectangle. */
  lemma StraddlesSpills(r: Rect, c: Cell) returns (la: nat, lo: nat)
    requires Straddles(r, c)
    ensures Has(c, Code(la, lo)) && !InRect(r, la, lo)
  {
    BlockNonempty(c.k);
    la := if LaHigh(c) > r.laMax then LaHigh(c) else LaLow(c);
    lo := if LoHigh(c) > r.loMax then LoHigh(c) else LoLow(c);
    CellBox(c, la, lo);
  }

  /** Every point of a legal cell has `n`-digit coordinates. */
  lemma LegalFits(n: nat, c: Cell, la: nat, lo: nat)
    requires Legal(n, c) && Has(c, Code(la, lo))
    ensures Fits(n, la, lo)
  {
    var z := Code(la, lo);
    Down4Bounds(z, c.k, c.prefix);
    Zero4Up(n);
    Down4Bounds(z, n, 0);
    CellBox(Cell(0, n), la, lo);
    CompactUp(0, n);
    ZeroUp(n);
  }

  lemma {:induction false} Zero4Up(k: nat)
    ensures Up4(0, k) == 0
  {
    if k > 0 { Zero4Up(k - 1); }
  }

  /** The cells hold no point outside the rectangle. */
  ghost predicate Exact(r: Rect, cells: seq<Cell>) {
    forall la: nat, lo: nat :: Covers(cells, Code(la, lo)) ==> InRect(r, la, lo)
  }

  lemma EndsComplete(v: View, max: nat, root: Cell, out: seq<Cell>)
    requires Tracking(v, max, root, out, []) && forall x :: v.across(x) ==> x.k > 0
    ensures out == Pieces(v, root) <==> Fitted(v, root, 0, max)
    ensures Fitted(v, root, 0, max) <==> !Fired(v.across, out)
  {
    PiecesSettled(v, root);
    if !Fired(v.across, out) { assert out + [] == out; }
  }

  lemma EndsExact(r: Rect, max: nat, root: Cell, out: seq<Cell>)
    requires Tracking(Seen(r), max, root, out, [])
    ensures out == Decompose(r, root) <==> Room(r, root, 0, max)
    ensures Exact(r, out) <==> Room(r, root, 0, max)
    ensures Room(r, root, 0, max) <==> !Fired(Seen(r).across, out)
  {
    EndsComplete(Seen(r), max, root, out);
    if Fired(Seen(r).across, out) {
      var i :| 0 <= i < |out| && Seen(r).across(out[i]);
      var la, lo := StraddlesSpills(r, out[i]);
      assert Covers(out, Code(la, lo));
    } else {
      forall la: nat, lo: nat | Covers(out, Code(la, lo)) ensures InRect(r, la, lo) { DecomposeExact(r, root, la, lo); }
    }
  }

  /** The invariant of the loop. */
  ghost predicate Going(n: nat, r: Rect, max: nat, out: seq<Cell>, stack: seq<Cell>) {
    && LosesNothing(n, r, out, stack) && |out| + |stack| <= max + 3 && Fitting(r, out)
    && AllLegal(n, out) && AllLegal(n, stack) && Tracking(Seen(r), max, Cell(0, n), out, stack)
  }

  ghost function GoingBy(n: nat, r: Rect, max: nat): (seq<Cell>, seq<Cell>) -> bool {
    (out: seq<Cell>, stack: seq<Cell>) => Going(n, r, max, out, stack)
  }

  lemma GoingStarts(n: nat, r: Rect, max: nat)
    ensures Going(n, r, max, [], [Cell(0, n)])
  {
    StartLoses(n, r);
    TrackStarts(PiecesOf(Seen(r)), FittedIn(Seen(r), max), Seen(r).across, Cell(0, n));
  }

  lemma GoingPrunes(n: nat, r: Rect, max: nat, out: seq<Cell>, rest: seq<Cell>, c: Cell)
    requires Going(n, r, max, out, rest + [c]) && Disjoint(r, c)
    ensures Going(n, r, max, out, rest)
  {
    PruneLoses(n, r, out, rest, c);
    TrackTurns(Seen(r), max, Cell(0, n), out, rest, c);
    assert forall i :: 0 <= i < |rest| ==> rest[i] == (rest + [c])[i];
  }

  lemma GoingEmits(n: nat, r: Rect, max: nat, out: seq<Cell>, rest: seq<Cell>, c: Cell)
    requires Going(n, r, max, out, rest + [c]) && !Disjoint(r, c) && (!Straddles(r, c) || |out| + |rest| >= max)
    ensures Going(n, r, max, out + [c], rest)
  {
    EmitLoses(n, r, out, rest, c);
    Emitted(r, c);
    TrackTurns(Seen(r), max, Cell(0, n), out, rest, c);
    assert forall i :: 0 <= i < |rest| ==> rest[i] == (rest + [c])[i];
    assert (rest + [c])[|rest|] == c;
  }

  lemma GoingSplits(n: nat, r: Rect, max: nat, out: seq<Cell>, rest: seq<Cell>, c: Cell)
    requires Going(n, r, max, out, rest + [c]) && Straddles(r, c) && |out| + |rest| < max
    ensures Going(n, r, max, out, Pushed(rest, c))
  {
    SplitLoses(n, r, out, rest, c);
    TrackTurns(Seen(r), max, Cell(0, n), out, rest, c);
    assert forall i :: 0 <= i < |rest| ==> rest[i] == (rest + [c])[i];
    assert (rest + [c])[|rest|] == c;
    PushedLegal(n, rest, c);
  }

  lemma GoingEnds(n: nat, r: Rect, max: nat, out: seq<Cell>)
    requires Going(n, r, max, out, [])
    ensures CoverOf(n, r, max, out)
  {
    forall la: nat, lo: nat | InRect(r, la, lo) && Fits(n, la, lo) ensures Covers(out, Code(la, lo)) {
      assert !Covers([], Code(la, lo));
    }
    EndsExact(r, max, Cell(0, n), out);
  }

  /** No point of the rectangle is lost, at most `max + 3` cells come out and each meets a proper rectangle. They
      hold no other point, are the full decomposition and none is across the border, exactly when the budget has
      room. */
  ghost predicate CoverOf(n: nat, r: Rect, max: nat, out: seq<Cell>) {
    && (forall la: nat, lo: nat :: InRect(r, la, lo) && Fits(n, la, lo) ==> Covers(out, Code(la, lo)))
    && |out| <= max + 3 && AllLegal(n, out) && Fitting(r, out)
    && (out == Decompose(r, Cell(0, n)) <==> Room(r, Cell(0, n), 0, max))
    && (Exact(r, out) <==> Room(r, Cell(0, n), 0, max))
    && (Fired(Seen(r).across, out) <==> !Room(r, Cell(0, n), 0, max))
  }

  /** Every turn keeps the invariant. */
  ghost predicate Turns(going: (seq<Cell>, seq<Cell>) -> bool, r: Rect, max: nat) {
    && (forall out, rest, c :: going(out, rest + [c]) && Disjoint(r, c) ==> going(out, rest))
    && (forall out, rest, c :: going(out, rest + [c]) && !Disjoint(r, c) ==>
          if Straddles(r, c) && |out| + |rest| < max then going(out, Pushed(rest, c)) else going(out + [c], rest))
  }

  /** Every turn uses up some of the pending work. */
  ghost predicate Shrinks(work: seq<Cell> -> nat) {
    && (forall rest, c :: work(rest) < work(rest + [c]))
    && (forall rest, c: Cell :: c.k > 0 ==> work(Pushed(rest, c)) < work(rest + [c]))
  }

  lemma Measure() returns (work: seq<Cell> -> nat)
    ensures Shrinks(work)
  {
    work := AllWork;
    forall rest, c ensures work(rest) < work(rest + [c]) {
      WorkSnoc(rest, c);
      WorkPositive(c.k);
    }
    forall rest, c: Cell | c.k > 0 ensures work(Pushed(rest, c)) < work(rest + [c]) {
      WorkSnoc(rest, c);
      WorkPushed(rest, c);
    }
  }

  lemma Invariant(n: nat, r: Rect, max: nat) returns (going: (seq<Cell>, seq<Cell>) -> bool)
    ensures going([], [Cell(0, n)]) && Turns(going, r, max)
    ensures forall out :: going(out, []) ==> CoverOf(n, r, max, out)
  {
    GoingStarts(n, r, max);
    going := GoingBy(n, r, max);
    forall out, rest, c | going(out, rest + [c]) && Disjoint(r, c) ensures going(out, rest) {
      GoingPrunes(n, r, max, out, rest, c);
    }
    forall out, rest, c | going(out, rest + [c]) && !Disjoint(r, c)
      ensures if Straddles(r, c) && |out| + |rest| < max then going(out, Pushed(rest, c)) else going(out + [c], rest)
    {
      if Straddles(r, c) && |out| + |rest| < max {
        GoingSplits(n, r, max, out, rest, c);
      } else {
        GoingEmits(n, r, max, out, rest, c);
      }
    }
    forall out | going(out, []) ensures CoverOf(n, r, max, out) { GoingEnds(n, r, max, out); }
  }

  /** The loop of `cover_ranges`. */
  method CoverCells(n: nat, r: Rect, maxRanges: nat) returns (out: seq<Cell>)
    ensures CoverOf(n, r, maxRanges, out)
  {
    out := [];
    var stack := [Cell(0, n)];
    ghost var going := Invariant(n, r, maxRanges);
    ghost var work := Measure();
    while stack != []
      invariant going(out, stack)
      decreases work(stack)
    {
      var c, rest := stack[|stack| - 1], stack[..|stack| - 1];
      assert stack == rest + [c];
      var base := Base(c);
      var side := Up2(1, c.k);
      var laLow, loLow := Compact(base), Odds(base);
      var laHigh, loHigh := laLow + side - 1, loLow + side - 1;
      if laHigh < r.laMin || laLow > r.laMax || loHigh < r.loMin || loLow > r.loMax {
        stack := rest;
        continue;
      }
      var fully := laLow >= r.laMin && laHigh <= r.laMax && loLow >= r.loMin && loHigh <= r.loMax;
      if fully || c.k == 0 || |out| + |rest| >= maxRanges {
        stack, out := rest, out + [c];
      } else {
        stack := Pushed(rest, c);
      }
    }
  }

  lemma Emitted(r: Rect, c: Cell)
    requires !Disjoint(r, c)
    ensures Proper(r) ==> Meets(r, c)
  {
    if Proper(r) { var la, lo := OverlapMeets(r, c); }
  }

  lemma StartLoses(n: nat, r: Rect)
    ensures LosesNothing(n, r, [], [Cell(0, n)])
  {
    forall la: nat, lo: nat | Fits(n, la, lo) ensures Covers([Cell(0, n)], Code(la, lo)) {
      RootHas(n, la, lo);
      assert Has([Cell(0, n)][0], Code(la, lo));
    }
  }
}
