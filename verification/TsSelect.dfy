/** The row path of a time-series SELECT end to end: pushdown, sliced gather, residual filter. */
module TsSelect {
  import opened Ast
  import opened Evaluator
  import opened Int64
  import opened Prelude
  import opened Pushdown
  import opened RowOrder
  import opened SliceWalk

  /** The stored samples rebuilt as rows, keyed by series and millisecond. */
  type Table = map<Key, Row>

  ghost predicate ValidTable(table: Table) {
    forall k :: k in table ==> table[k].ts == k.ts && WellFormed(table[k])
  }

  predicate Selects(env: Env, filter: Option<SqlExpr>, row: Row) {
    filter.Some? ==> Keeps(env, filter.value, Doc(row))
  }

  /** What the statement means: every stored row its WHERE keeps. */
  function Matching(env: Env, filter: Option<SqlExpr>, table: Table): set<Key> {
    set k | k in table && Selects(env, filter, table[k])
  }

  predicate AllAccept(matchers: seq<Matcher>, labels: Labels) {
    forall i :: 0 <= i < |matchers| ==> Accepts(matchers[i], labels)
  }

  /** What gathers can return: series the store matches, then the re-applied filter. */
  function Kept(env: Env, filter: Option<SqlExpr>, table: Table, matchers: seq<Matcher>): set<Key> {
    set k | k in table && AllAccept(matchers, table[k].labels) && Selects(env, filter, table[k])
  }

  /** The stored rows on which the filter fails, among series the store matches. */
  function Failing(env: Env, filter: Option<SqlExpr>, table: Table, matchers: seq<Matcher>): set<Key> {
    set k | k in table && AllAccept(matchers, table[k].labels) && filter.Some? &&
            Fails(env, filter.value, Doc(table[k]))
  }

  /** With safe time constants the plan answers the statement itself: pushing a range and matchers
      down and stopping early lose no row and change no page, whatever the anchor. A failed query means that the
      filter fails on a stored row; a time-ordered or bare `LIMIT` query may stop before it gets there. */
  method RunRowSelect(env: Env, filter: Option<SqlExpr>, table: Table, q: Query,
                      range: Option<(int, int)>, wall: int)
    returns (r: Result<seq<Key>>)
    requires ValidTable(table) && InI64(wall)
    requires range.Some? ==> InI64(range.value.0) && InI64(range.value.1)
    ensures (filter.Some? ==> SafeFilter(env, filter.value)) && r.Ok? ==>
              Answers(q, r.value, Matching(env, filter, table))
    ensures r.Err? ==> Failing(env, filter, table, []) != {}
  {
    var pushed := new Narrowing();
    if filter.Some? { pushed.ExtractPushdown(env, filter.value); }
    ghost var p := pushed.State();
    var kept := Kept(env, filter, table, pushed.matchers);
    var bad := Failing(env, filter, table, pushed.matchers);
    r := SelectRows(q, kept, bad, pushed.t0, pushed.t1, range, wall);
    FailingReached(bad, p.t0, p.t1, AnchorOf(WalkDesc(q.order), p.t0, p.t1, range, wall));
    assert bad <= Failing(env, filter, table, []);
    if filter.Some? ==> SafeFilter(env, filter.value) {
      PushedRowsAreMatching(env, filter, table, p);
      InRangeReach(kept, p.t0, p.t1, AnchorOf(WalkDesc(q.order), p.t0, p.t1, range, wall));
    }
  }

  lemma FailingReached(bad: set<Key>, t0: int, t1: int, a: Anchor)
    ensures bad == {} ==> Reach(bad, t0, t1, a) == {} && Within(bad, t0, t1) == {}
  {
  }

  lemma PushedRowsAreMatching(env: Env, filter: Option<SqlExpr>, table: Table, p: Range)
    requires ValidTable(table) && (filter.Some? ==> SafeFilter(env, filter.value))
    requires p == if filter.Some? then Extract(env, filter.value, UNBOUNDED) else UNBOUNDED
    ensures Kept(env, filter, table, p.matchers) == Matching(env, filter, table)
    ensures forall k :: k in Matching(env, filter, table) ==> p.t0 <= k.ts <= p.t1
  {
    forall k | k in Matching(env, filter, table)
      ensures AllAccept(p.matchers, table[k].labels) && p.t0 <= k.ts <= p.t1
    {
      if filter.Some? { ExtractSound(env, filter.value, UNBOUNDED, table[k]); }
    }
  }

  /** `ts > -5.5`. */
  function StrayFilter(): SqlExpr { Binary(Gt, Column("ts"), Unary(Neg, Literal(Float(5.5)))) }

  lemma StrayPushed(env: Env, row: Row)
    requires row == Row(map[], -5, map[], "")
    ensures Extract(env, StrayFilter(), UNBOUNDED) == Range(-4, MAX, []) && Keeps(env, StrayFilter(), Doc(row))
  {
    var rhs: SqlExpr := Unary(Neg, Literal(Float(5.5)));
    assert Eval(env, rhs, map[]) == Ok(Float(-5.5));
    TsLeafKeeps(env, Gt, Column("ts"), rhs, Leaf("ts", Gt, rhs), Float(-5.5), row);
    assert (5.5).Floor == 5 && (-5.5).Floor == -6;
  }

  /** `WHERE ts > -5.5` keeps the row at -5 and pushes `ts >= -4`. A descending walk anchored at a frontier of -10
      gathers the row from beyond its anchor; a gather of the pushed range does not. */
  lemma StrayRowReached(env: Env)
    ensures var rows := {Key(0, -5)};
            var p := Extract(env, StrayFilter(), UNBOUNDED);
            var a := AnchorOf(true, p.t0, p.t1, Some((-10, -10)), 0);
            && Kept(env, Some(StrayFilter()), map[Key(0, -5) := Row(map[], -5, map[], "")], p.matchers) == rows
            && Reach(rows, p.t0, p.t1, a) == rows && Gather(rows, p.t0, p.t1) == []
            && !SamePage(true, rows, p.t0, p.t1, a, 1, 0)
  {
    StrayPushed(env, Row(map[], -5, map[], ""));
    var rows, a := {Key(0, -5)}, AnchorOf(true, -4, MAX, Some((-10, -10)), 0);
    assert Reach(rows, -4, MAX, a) == rows && Within(rows, -4, MAX) == {};
    StrayPage(true, rows, -4, MAX, a);
  }
}
