/** The connection pool and circuit breaker, and every interleaving of concurrent calls over them. */
module PeerPool {
  import opened Prelude

  const MAX_IDLE_PER_PEER: nat := 32
  const BREAKER_THRESHOLD: nat := 3
  const BREAKER_COOLDOWN: nat := 10_000
  const U32_MAX: nat := 0xFFFF_FFFF

  datatype Addr = Addr(host: string)

  type ConnId = nat
  type CallId = nat

  type Idle = map<Addr, seq<ConnId>>

  /** Consecutive failures, and when the last one was recorded. */
  datatype Failures = Failures(count: nat, since: nat)

  type Breaker = map<Addr, Failures>

  // The lock sections, as functions of the locked map.

  function Popped(idle: Idle, a: Addr): Idle
    requires a in idle && idle[a] != []
  {
    idle[a := idle[a][..|idle[a]| - 1]]
  }

  function Returned(idle: Idle, a: Addr, c: ConnId): Idle {
    if a !in idle then idle[a := [c]]
    else if |idle[a]| < MAX_IDLE_PER_PEER then idle[a := idle[a] + [c]]
    else idle
  }

  function Bucket(idle: Idle, a: Addr): seq<ConnId> { if a in idle then idle[a] else [] }

  predicate Open(breaker: Breaker, a: Addr, now: nat) {
    a in breaker && breaker[a].count >= BREAKER_THRESHOLD && now - breaker[a].since < BREAKER_COOLDOWN
  }

  function Failed(breaker: Breaker, a: Addr, now: nat): Breaker {
    var n := if a in breaker then breaker[a].count else 0;
    breaker[a := Failures(if n < U32_MAX then n + 1 else n, now)]
  }

  // The breaker against the history of outcomes.

  /** An outcome recorded for a peer at some time. */
  datatype Mark = Mark(a: Addr, ok: bool, at: nat)

  predicate Fails(marks: seq<Mark>, a: Addr, p: nat) { p < |marks| && marks[p].a == a && !marks[p].ok }

  ghost predicate NoSuccessAfter(marks: seq<Mark>, a: Addr, p: nat) {
    forall q :: p < q < |marks| && marks[q].a == a ==> !marks[q].ok
  }

  /** The failures of a peer since its last success, by position. */
  ghost function Standing(marks: seq<Mark>, a: Addr): set<nat> {
    set p: nat | p < |marks| && Fails(marks, a, p) && NoSuccessAfter(marks, a, p)
  }

  /** Three failures with no success since the first, and one of them within the cooldown. */
  ghost predicate Tripped(marks: seq<Mark>, a: Addr, now: nat) {
    |Standing(marks, a)| >= 3 && exists p :: p in Standing(marks, a) && Within(marks, p, now)
  }

  ghost predicate Within(marks: seq<Mark>, p: nat, now: nat) {
    p < |marks| && now - marks[p].at < 10_000
  }

  /** A peer's entry is the number of its standing failures, saturated, and the time of the latest; it has none when
      no failure stands. */
  ghost predicate Counts(breaker: Breaker, marks: seq<Mark>, a: Addr) {
    var standing := Standing(marks, a);
    && (a in breaker <==> standing != {})
    && (a in breaker ==>
          && breaker[a].count == (if |standing| < U32_MAX then |standing| else U32_MAX)
          && (exists p :: p in standing && p < |marks| && marks[p].at == breaker[a].since)
          && (forall p :: p in standing && p < |marks| ==> marks[p].at <= breaker[a].since))
  }

  ghost predicate Follows(breaker: Breaker, marks: seq<Mark>, now: nat) {
    (forall a :: Counts(breaker, marks, a)) && forall p :: 0 <= p < |marks| ==> marks[p].at <= now
  }

  /** What recording an outcome does to the breaker. */
  function Noted(breaker: Breaker, m: Mark): Breaker {
    if m.ok then breaker - {m.a} else Failed(breaker, m.a, m.at)
  }

  lemma StandingNext(marks: seq<Mark>, m: Mark, a: Addr)
    ensures Standing(marks + [m], a) ==
            if m.a != a then Standing(marks, a) else if m.ok then {} else Standing(marks, a) + {|marks|}
  {
    var more := marks + [m];
    assert forall p :: 0 <= p < |marks| ==> more[p] == marks[p];
    assert more[|marks|] == m;
    forall p: nat | p < |marks| && Fails(marks, a, p)
      ensures NoSuccessAfter(more, a, p) <==> NoSuccessAfter(marks, a, p) && (m.a == a ==> !m.ok)
    {
      if NoSuccessAfter(more, a, p) {
        forall q | p < q < |marks| && marks[q].a == a ensures !marks[q].ok { assert more[q] == marks[q]; }
      }
    }
  }

  lemma CountsNext(breaker: Breaker, marks: seq<Mark>, m: Mark, a: Addr)
    requires Follows(breaker, marks, m.at)
    ensures Counts(Noted(breaker, m), marks + [m], a)
  {
    StandingNext(marks, m, a);
    assert Counts(breaker, marks, a);
    var more := marks + [m];
    assert forall p :: 0 <= p < |marks| ==> more[p] == marks[p];
    if m.a == a && !m.ok {
      assert |marks| !in Standing(marks, a) && more[|marks|].at == m.at;
    }
  }

  /** Recording an outcome keeps the breaker in step with the history. */
  lemma FollowsNext(breaker: Breaker, marks: seq<Mark>, m: Mark)
    requires Follows(breaker, marks, m.at)
    ensures Follows(Noted(breaker, m), marks + [m], m.at)
  {
    forall a ensures Counts(Noted(breaker, m), marks + [m], a) { CountsNext(breaker, marks, m, a); }
  }

  /** The breaker is open exactly when the history has tripped it. */
  lemma OpenIsTripped(breaker: Breaker, marks: seq<Mark>, a: Addr, now: nat)
    requires Counts(breaker, marks, a)
    ensures Open(breaker, a, now) <==> Tripped(marks, a, now)
  {
    if a in breaker {
      var p :| p in Standing(marks, a) && p < |marks| && marks[p].at == breaker[a].since;
      assert now - breaker[a].since < BREAKER_COOLDOWN ==> Within(marks, p, now);
    }
  }

  lemma OthersTripped(marks: seq<Mark>, m: Mark, b: Addr, t: nat)
    requires b != m.a
    ensures Tripped(marks + [m], b, t) <==> Tripped(marks, b, t)
  {
    StandingNext(marks, m, b);
    assert forall p: nat :: p < |marks| ==> (Within(marks + [m], p, t) <==> Within(marks, p, t));
  }

  /** A failure trips the breaker when it is at least the third, until the cooldown has passed. */
  lemma FailureTrips(marks: seq<Mark>, m: Mark, t: nat)
    requires !m.ok && forall p :: 0 <= p < |marks| ==> marks[p].at <= m.at
    ensures Tripped(marks + [m], m.a, t) <==>
            |Standing(marks, m.a)| + 1 >= 3 && t - m.at < 10_000
  {
    StandingNext(marks, m, m.a);
    var more, n := marks + [m], |marks|;
    assert n !in Standing(marks, m.a) && more[n] == m;
    if t - m.at < BREAKER_COOLDOWN {
      assert Within(more, n, t);
    } else {
      forall p: nat | p < |more| ensures !Within(more, p, t) { }
    }
  }

  /** The pool's own state, changed under its two locks. */
  class Pool {
    var idle: Idle
    var breaker: Breaker
    ghost var marks: seq<Mark>
    ghost var clock: nat

    /** Buckets are bounded, and the breaker follows the recorded outcomes. */
    ghost predicate Valid()
      reads this
    {
      (forall a :: a in idle ==> |idle[a]| <= MAX_IDLE_PER_PEER) && Follows(breaker, marks, clock)
    }

    constructor ()
      ensures Valid() && idle == map[] && marks == []
    {
      idle, breaker, marks, clock := map[], map[], [], 0;
    }

    method BreakerOpen(a: Addr, now: nat) returns (open: bool)
      requires Valid()
      ensures open <==> Tripped(marks, a, now)
    {
      OpenIsTripped(breaker, marks, a, now);
      open := false;
      if a in breaker { open := breaker[a].count >= BREAKER_THRESHOLD && now - breaker[a].since < BREAKER_COOLDOWN; }
    }

    method RecordOk(a: Addr, ghost now: nat)
      requires Valid() && clock <= now
      modifies this`breaker, this`marks, this`clock
      ensures Valid() && marks == old(marks) + [Mark(a, true, now)] && clock == now
      ensures breaker == old(breaker) - {a} && forall t: nat :: !Tripped(marks, a, t)
      ensures forall b, t: nat :: b != a ==> (Tripped(marks, b, t) <==> old(Tripped(marks, b, t)))
    {
      ghost var m := Mark(a, true, now);
      FollowsNext(breaker, marks, m);
      StandingNext(marks, m, a);
      forall b, t: nat | b != a ensures Tripped(marks + [m], b, t) <==> Tripped(marks, b, t) {
        OthersTripped(marks, m, b, t);
      }
      breaker := breaker - {a};
      marks, clock := marks + [m], now;
    }

    /** From the third failure in a row on, the breaker is open until the cooldown has passed. */
    method RecordErr(a: Addr, now: nat)
      requires Valid() && clock <= now
      modifies this`breaker, this`marks, this`clock
      ensures Valid() && marks == old(marks) + [Mark(a, false, now)] && clock == now
      ensures breaker == Failed(old(breaker), a, now)
      ensures forall t: nat :: Tripped(marks, a, t) <==> |old(Standing(marks, a))| + 1 >= 3 && t - now < 10_000
      ensures forall b, t: nat :: b != a ==> (Tripped(marks, b, t) <==> old(Tripped(marks, b, t)))
    {
      var entry := if a in breaker then breaker[a] else Failures(0, now);
      var n := if entry.count < U32_MAX then entry.count + 1 else entry.count;
      ghost var m := Mark(a, false, now);
      FollowsNext(breaker, marks, m);
      forall b, t: nat | b != a ensures Tripped(marks + [m], b, t) <==> Tripped(marks, b, t) {
        OthersTripped(marks, m, b, t);
      }
      forall t: nat
        ensures Tripped(marks + [m], a, t) <==>
                |Standing(marks, a)| + 1 >= BREAKER_THRESHOLD && t - now < BREAKER_COOLDOWN
      {
        FailureTrips(marks, m, t);
      }
      breaker := breaker[a := Failures(n, now)];
      marks, clock := marks + [m], now;
    }

    method TakeIdle(a: Addr) returns (c: Option<ConnId>)
      requires Valid()
      modifies this`idle
      ensures Valid() && (c.None? <==> Bucket(old(idle), a) == [])
      ensures c.None? ==> idle == old(idle)
      ensures c.Some? ==> a in old(idle) && old(idle)[a] != [] && idle == Popped(old(idle), a) &&
                          Bucket(old(idle), a) == Bucket(idle, a) + [c.value]
    {
      if a !in idle || idle[a] == [] { return None; }
      var bucket := idle[a];
      idle := idle[a := bucket[..|bucket| - 1]];
      return Some(bucket[|bucket| - 1]);
    }

    /** Kept for the next `TakeIdle` if and only if the peer's bucket has room. */
    method Put(a: Addr, c: ConnId)
      requires Valid()
      modifies this`idle
      ensures Valid() && idle == Returned(old(idle), a, c)
      ensures Bucket(idle, a) == Bucket(old(idle), a) + if |Bucket(old(idle), a)| < MAX_IDLE_PER_PEER then [c] else []
      ensures forall b :: b != a ==> Bucket(idle, b) == Bucket(old(idle), b)
    {
      if a in idle {
        if |idle[a]| < MAX_IDLE_PER_PEER { idle := idle[a := idle[a] + [c]]; }
      } else {
        idle := idle[a := [c]];
      }
    }

    /** Nothing of the peer is left for a later `TakeIdle`; every other peer keeps its own. */
    method DropBucket(a: Addr)
      requires Valid()
      modifies this`idle
      ensures Valid() && idle == old(idle) - {a} && Bucket(idle, a) == []
      ensures forall b :: b != a ==> Bucket(idle, b) == Bucket(old(idle), b)
    {
      idle := idle - {a};
    }
  }

  // Concurrent calls: each lock section, send, receive and dial is one step.

  /** A reply, tagged with the call whose request it answers. */
  datatype Reply = Reply(to: CallId, backpressure: bool)

  datatype CallKind = Call | Begin | Probe

  datatype Phase =
    | Start                                   // about to check the breaker
    | Take                                    // admitted, about to look for an idle connection
    | Dial                                    // about to open a fresh connection
    | Ready(c: ConnId, reused: bool)          // holds a connection, nothing sent
    | Sent(c: ConnId, reused: bool)           // holds a connection with its request in flight
    | Stale                                   // a reused connection failed; the bucket goes next
    | Replied(c: ConnId, r: Reply)            // reply read, breaker not yet updated
    | Returning(c: ConnId, r: Reply)          // breaker updated, connection not yet returned
    | Failing                                 // failed, breaker not yet updated
    | Done(r: Reply)
    | Refused                                 // failed fast on the open breaker
    | Errored

  datatype CallRec = CallRec(kind: CallKind, addr: Addr, phase: Phase)

  /** Where a connection is: at a place in an idle bucket, or held by a call. */
  datatype Owner = Slot(a: Addr, i: nat) | Held(id: CallId)

  /** A connection and the calls whose replies have not been read off it, oldest first. */
  datatype ConnRec = ConnRec(owner: Owner, unread: seq<CallId>)

  datatype State = State(
    now: nat, idle: Idle, breaker: Breaker, conns: map<ConnId, ConnRec>, calls: map<CallId, CallRec>)

  datatype Event =
    | Enter(id: CallId, kind: CallKind, a: Addr)
    | Check(id: CallId)
    | TakeIdleConn(id: CallId)
    | DialOk(id: CallId, c: ConnId)
    | DialFails(id: CallId)
    | SendOk(id: CallId)
    | IoFails(id: CallId)                     // a send or a receive fails: the connection is dropped
    | Recv(id: CallId, backpressure: bool)
    | DropRest(id: CallId)
    | Book(id: CallId)
    | GiveBack(id: CallId)
    | BookErr(id: CallId)
    | Abandon(id: CallId)                     // a begun call dropped before it is finished
    | Tick(now: nat)

  predicate Enabled(s: State, e: Event) {
    match e
    case Enter(id, _, _) => id !in s.calls
    case Check(id) => id in s.calls && s.calls[id].phase.Start?
    case TakeIdleConn(id) => id in s.calls && s.calls[id].phase.Take?
    case DialOk(id, c) => id in s.calls && s.calls[id].phase.Dial? && c !in s.conns
    case DialFails(id) => id in s.calls && s.calls[id].phase.Dial?
    case SendOk(id) => id in s.calls && s.calls[id].phase.Ready? && s.calls[id].phase.c in s.conns
    case IoFails(id) => id in s.calls && (s.calls[id].phase.Ready? || s.calls[id].phase.Sent?)
    case Recv(id, _) =>
      id in s.calls && s.calls[id].phase.Sent? && s.calls[id].phase.c in s.conns &&
      s.conns[s.calls[id].phase.c].unread != []
    case DropRest(id) => id in s.calls && s.calls[id].phase.Stale?
    case Book(id) => id in s.calls && s.calls[id].phase.Replied?
    case GiveBack(id) => id in s.calls && s.calls[id].phase.Returning?
    case BookErr(id) => id in s.calls && s.calls[id].phase.Failing?
    case Abandon(id) => id in s.calls && s.calls[id].phase.Sent? && s.calls[id].kind.Begin?
    case Tick(t) => t >= s.now
  }

  function Move(s: State, id: CallId, p: Phase): State
    requires id in s.calls
  {
    s.(calls := s.calls[id := s.calls[id].(phase := p)])
  }

  function Ok(s: State, a: Addr): State { s.(breaker := s.breaker - {a}) }

  function Err(s: State, a: Addr): State { s.(breaker := Failed(s.breaker, a, s.now)) }

  function Taken(s: State, id: CallId): State
    requires id in s.calls
  {
    var a := s.calls[id].addr;
    if a !in s.idle || s.idle[a] == [] then Move(s, id, Dial)
    else
      var c := s.idle[a][|s.idle[a]| - 1];
      var unread := if c in s.conns then s.conns[c].unread else [];
      Move(s.(idle := Popped(s.idle, a), conns := s.conns[c := ConnRec(Held(id), unread)]), id, Ready(c, true))
  }

  function Booked(s: State, id: CallId): State
    requires id in s.calls && s.calls[id].phase.Replied?
  {
    var CallRec(kind, a, Replied(c, r)) := s.calls[id];
    if kind.Probe? then Move(Ok(s, a).(conns := s.conns - {c}), id, Done(r))
    else Move(if r.backpressure then Err(s, a) else Ok(s, a), id, Returning(c, r))
  }

  function GivenBack(s: State, id: CallId): State
    requires id in s.calls && s.calls[id].phase.Returning?
  {
    var CallRec(_, a, Returning(c, r)) := s.calls[id];
    var n := if a in s.idle then |s.idle[a]| else 0;
    var unread := if c in s.conns then s.conns[c].unread else [];
    var conns := if n < MAX_IDLE_PER_PEER then s.conns[c := ConnRec(Slot(a, n), unread)]
                 else s.conns - {c};
    Move(s.(idle := Returned(s.idle, a, c), conns := conns), id, Done(r))
  }

  /** The peer's idle connections are dropped, and so closed. */
  function Emptied(s: State, a: Addr): State {
    s.(idle := s.idle - {a}, conns := s.conns - set c | c in Bucket(s.idle, a))
  }

  function After(s: State, e: Event): State
    requires Enabled(s, e)
  {
    match e
    case Enter(id, kind, a) => s.(calls := s.calls[id := CallRec(kind, a, if kind.Probe? then Dial else Start)])
    case Check(id) => Move(s, id, if Open(s.breaker, s.calls[id].addr, s.now) then Refused else Take)
    case TakeIdleConn(id) => Taken(s, id)
    case DialOk(id, c) => Move(s.(conns := s.conns[c := ConnRec(Held(id), [])]), id, Ready(c, false))
    case DialFails(id) => Move(s, id, Failing)
    case SendOk(id) =>
      var Ready(c, reused) := s.calls[id].phase;
      Move(s.(conns := s.conns[c := s.conns[c].(unread := s.conns[c].unread + [id])]), id, Sent(c, reused))
    case IoFails(id) =>
      var rec := s.calls[id];
      Move(s.(conns := s.conns - {rec.phase.c}), id, if rec.kind.Call? && rec.phase.reused then Stale else Failing)
    case Recv(id, bp) =>
      var c := s.calls[id].phase.c;
      var unread := s.conns[c].unread;
      Move(s.(conns := s.conns[c := s.conns[c].(unread := unread[1..])]), id, Replied(c, Reply(unread[0], bp)))
    case DropRest(id) => Move(Emptied(s, s.calls[id].addr), id, Dial)
    case Book(id) => Booked(s, id)
    case GiveBack(id) => GivenBack(s, id)
    case BookErr(id) => Move(Err(s, s.calls[id].addr), id, Errored)
    case Abandon(id) => Move(s.(conns := s.conns - {s.calls[id].phase.c}), id, Errored)
    case Tick(t) => s.(now := t)
  }

  // The invariant.

  /** Every idle connection is where the pool says, with nothing unread; buckets are bounded. */
  ghost predicate IdleOk(s: State) {
    && (forall a, i :: a in s.idle && 0 <= i < |s.idle[a]| ==>
          s.idle[a][i] in s.conns && s.conns[s.idle[a][i]] == ConnRec(Slot(a, i), []))
    && (forall a :: a in s.idle ==> |s.idle[a]| <= MAX_IDLE_PER_PEER)
  }

  predicate Holds(s: State, id: CallId, c: ConnId, unread: seq<CallId>) {
    c in s.conns && s.conns[c] == ConnRec(Held(id), unread)
  }

  /** A call holds its connection alone, with only its own request on it, and any reply it has is its own. */
  predicate CallOk(s: State, id: CallId, p: Phase) {
    match p
    case Ready(c, _) => Holds(s, id, c, [])
    case Sent(c, _) => Holds(s, id, c, [id])
    case Replied(c, r) => Holds(s, id, c, []) && r.to == id
    case Returning(c, r) => Holds(s, id, c, []) && r.to == id
    case Done(r) => r.to == id
    case _ => true
  }

  ghost predicate CallsOk(s: State) { forall id :: id in s.calls ==> CallOk(s, id, s.calls[id].phase) }

  ghost predicate Inv(s: State) { IdleOk(s) && CallsOk(s) }

  // Every step keeps it.

  /** Changing one connection a call holds, or a new one, disturbs nothing else. */
  lemma Touch(s: State, id: CallId, c: ConnId, rec: ConnRec, p: Phase)
    requires Inv(s) && id in s.calls && (c !in s.conns || s.conns[c].owner == Held(id))
    requires s.calls[id].phase.Ready? || s.calls[id].phase.Sent? || s.calls[id].phase.Dial?
    requires rec.owner == Held(id)
    requires CallOk(s.(conns := s.conns[c := rec]), id, p)
    ensures Inv(Move(s.(conns := s.conns[c := rec]), id, p))
  {
    var t := Move(s.(conns := s.conns[c := rec]), id, p);
    forall k | k in t.calls ensures CallOk(t, k, t.calls[k].phase) {
      if k != id { assert CallOk(s, k, s.calls[k].phase); }
    }
  }

  /** Dropping the connection a call holds disturbs nothing else. */
  lemma Discard(s: State, id: CallId, c: ConnId, p: Phase)
    requires Inv(s) && id in s.calls && Holds(s, id, c, if c in s.conns then s.conns[c].unread else [])
    requires p.Stale? || p.Failing? || p.Errored? || (p.Done? && p.r.to == id)
    ensures Inv(Move(s.(conns := s.conns - {c}), id, p))
  {
    var t := Move(s.(conns := s.conns - {c}), id, p);
    forall k | k in t.calls ensures CallOk(t, k, t.calls[k].phase) {
      if k != id { assert CallOk(s, k, s.calls[k].phase); }
    }
  }

  lemma MoveKeeps(s: State, id: CallId, p: Phase)
    requires Inv(s) && id in s.calls && CallOk(s, id, p)
    ensures Inv(Move(s, id, p))
  {
    var t := Move(s, id, p);
    forall k | k in t.calls ensures CallOk(t, k, t.calls[k].phase) {
      if k != id { assert CallOk(s, k, s.calls[k].phase); }
    }
  }

  lemma OkKeeps(s: State, a: Addr)
    requires Inv(s)
    ensures Inv(Ok(s, a))
  {
    var t := Ok(s, a);
    forall k | k in t.calls ensures CallOk(t, k, t.calls[k].phase) { assert CallOk(s, k, s.calls[k].phase); }
  }

  lemma ErrKeeps(s: State, a: Addr)
    requires Inv(s)
    ensures Inv(Err(s, a))
  {
    var t := Err(s, a);
    forall k | k in t.calls ensures CallOk(t, k, t.calls[k].phase) { assert CallOk(s, k, s.calls[k].phase); }
  }

  lemma TakenKeeps(s: State, id: CallId)
    requires Inv(s) && id in s.calls && s.calls[id].phase.Take?
    ensures Inv(Taken(s, id))
  {
    var a := s.calls[id].addr;
    if a !in s.idle || s.idle[a] == [] {
      MoveKeeps(s, id, Dial);
    } else {
      var c := s.idle[a][|s.idle[a]| - 1];
      assert s.conns[c] == ConnRec(Slot(a, |s.idle[a]| - 1), []);
      var t := Taken(s, id);
      forall k | k in t.calls ensures CallOk(t, k, t.calls[k].phase) {
        if k != id { assert CallOk(s, k, s.calls[k].phase); }
      }
    }
  }

  lemma GivenBackKeeps(s: State, id: CallId)
    requires Inv(s) && id in s.calls && s.calls[id].phase.Returning?
    ensures Inv(GivenBack(s, id))
  {
    var CallRec(_, a, Returning(c, r)) := s.calls[id];
    assert CallOk(s, id, s.calls[id].phase);
    var t := GivenBack(s, id);
    forall k | k in t.calls ensures CallOk(t, k, t.calls[k].phase) {
      if k != id { assert CallOk(s, k, s.calls[k].phase); }
    }
  }

  lemma DropKeeps(s: State, id: CallId)
    requires Inv(s) && id in s.calls
    ensures Inv(Move(Emptied(s, s.calls[id].addr), id, Dial))
  {
    var t := Emptied(s, s.calls[id].addr);
    forall k | k in t.calls ensures CallOk(t, k, t.calls[k].phase) { assert CallOk(s, k, s.calls[k].phase); }
    MoveKeeps(t, id, Dial);
  }

  lemma BookedKeeps(s: State, id: CallId)
    requires Inv(s) && id in s.calls && s.calls[id].phase.Replied?
    ensures Inv(Booked(s, id))
  {
    var CallRec(kind, a, Replied(c, r)) := s.calls[id];
    assert CallOk(s, id, s.calls[id].phase);
    OkKeeps(s, a);
    ErrKeeps(s, a);
    if kind.Probe? {
      Discard(Ok(s, a), id, c, Done(r));
    } else {
      MoveKeeps(if r.backpressure then Err(s, a) else Ok(s, a), id, Returning(c, r));
    }
  }

  lemma StepKeeps(s: State, e: Event)
    requires Inv(s) && Enabled(s, e)
    ensures Inv(After(s, e))
  {
    match e
    case Enter(id, kind, a) => EnterKeeps(s, id, kind, a);
    case Check(id) => MoveKeeps(s, id, if Open(s.breaker, s.calls[id].addr, s.now) then Refused else Take);
    case TakeIdleConn(id) => TakenKeeps(s, id);
    case DialOk(id, c) => Touch(s, id, c, ConnRec(Held(id), []), Ready(c, false));
    case DialFails(id) => MoveKeeps(s, id, Failing);
    case SendOk(id) =>
      assert CallOk(s, id, s.calls[id].phase);
      var Ready(c, reused) := s.calls[id].phase;
      assert s.conns[c].unread + [id] == [id];
      Touch(s, id, c, ConnRec(Held(id), [id]), Sent(c, reused));
    case IoFails(id) =>
      assert CallOk(s, id, s.calls[id].phase);
      var stale := s.calls[id].kind.Call? && s.calls[id].phase.reused;
      Discard(s, id, s.calls[id].phase.c, if stale then Stale else Failing);
    case Recv(id, bp) =>
      assert CallOk(s, id, s.calls[id].phase);
      var c := s.calls[id].phase.c;
      Touch(s, id, c, ConnRec(Held(id), []), Replied(c, Reply(id, bp)));
    case DropRest(id) => DropKeeps(s, id);
    case Book(id) => BookedKeeps(s, id);
    case GiveBack(id) => GivenBackKeeps(s, id);
    case BookErr(id) => ErrKeeps(s, s.calls[id].addr); MoveKeeps(Err(s, s.calls[id].addr), id, Errored);
    case Abandon(id) =>
      assert CallOk(s, id, s.calls[id].phase);
      Discard(s, id, s.calls[id].phase.c, Errored);
    case Tick(t) => TickKeeps(s, t);
  }

  lemma EnterKeeps(s: State, id: CallId, kind: CallKind, a: Addr)
    requires Inv(s) && id !in s.calls
    ensures Inv(After(s, Enter(id, kind, a)))
  {
    var t := After(s, Enter(id, kind, a));
    forall k | k in t.calls ensures CallOk(t, k, t.calls[k].phase) {
      if k != id { assert CallOk(s, k, s.calls[k].phase); }
    }
  }

  lemma TickKeeps(s: State, now: nat)
    requires Inv(s) && now >= s.now
    ensures Inv(s.(now := now))
  {
    var t := s.(now := now);
    forall k | k in t.calls ensures CallOk(t, k, t.calls[k].phase) { assert CallOk(s, k, s.calls[k].phase); }
  }

  // Whole runs.

  const EMPTY: State := State(0, map[], map[], map[], map[])

  /** The state after some events, if each was enabled in turn. */
  function Run(s: State, events: seq<Event>): Option<State> {
    if events == [] then Some(s)
    else match Run(s, events[..|events| - 1])
      case None => None
      case Some(t) => if Enabled(t, events[|events| - 1]) then Some(After(t, events[|events| - 1])) else None
  }

  lemma {:induction false} RunKeeps(s: State, events: seq<Event>)
    requires Inv(s) && Run(s, events).Some?
    ensures Inv(Run(s, events).value)
  {
    if events != [] {
      RunKeeps(s, events[..|events| - 1]);
      StepKeeps(Run(s, events[..|events| - 1]).value, events[|events| - 1]);
    }
  }

  /** The connection a call holds. */
  function HeldBy(p: Phase): Option<ConnId> {
    if p.Ready? || p.Sent? || p.Replied? || p.Returning? then Some(p.c) else None
  }

  /** After any interleaving of any calls: no idle connection has an unread reply, each bucket holds at most 32,
      no connection is in two places, be they buckets or calls, and every finished call got the reply to its own
      request. */
  lemma PoolSafety(events: seq<Event>)
    requires Run(EMPTY, events).Some?
    ensures var s := Run(EMPTY, events).value;
            && (forall a, i :: a in s.idle && 0 <= i < |s.idle[a]| ==>
                  s.idle[a][i] in s.conns && s.conns[s.idle[a][i]].unread == [])
            && (forall a :: a in s.idle ==> |s.idle[a]| <= 32)
            && (forall a, i, b, j :: a in s.idle && 0 <= i < |s.idle[a]| && b in s.idle && 0 <= j < |s.idle[b]| ==>
                  (s.idle[a][i] == s.idle[b][j] ==> a == b && i == j))
            && (forall id, a, i :: id in s.calls && a in s.idle && 0 <= i < |s.idle[a]| ==>
                  HeldBy(s.calls[id].phase) != Some(s.idle[a][i]))
            && (forall id, k :: id in s.calls && k in s.calls && HeldBy(s.calls[id].phase).Some? ==>
                  (HeldBy(s.calls[id].phase) == HeldBy(s.calls[k].phase) ==> id == k))
            && (forall id :: id in s.calls && s.calls[id].phase.Done? ==> s.calls[id].phase.r.to == id)
  {
    RunKeeps(EMPTY, events);
    var s := Run(EMPTY, events).value;
    forall id | id in s.calls
      ensures HeldBy(s.calls[id].phase).Some? ==>
                HeldBy(s.calls[id].phase).value in s.conns && s.conns[HeldBy(s.calls[id].phase).value].owner == Held(id)
      ensures s.calls[id].phase.Done? ==> s.calls[id].phase.r.to == id
    {
      assert CallOk(s, id, s.calls[id].phase);
    }
  }

  /** Finished calls take no further step. */
  predicate Finished(p: Phase) { p.Done? || p.Refused? || p.Errored? }

  /** The call an event belongs to. */
  function Actor(e: Event): Option<CallId> { if e.Tick? then None else Some(e.id) }

  lemma OthersStay(s: State, e: Event, id: CallId)
    requires Enabled(s, e) && id in s.calls && Actor(e) != Some(id)
    ensures id in After(s, e).calls && After(s, e).calls[id] == s.calls[id]
  {
    match e
    case Book(k) => assert Booked(s, k).calls.Keys == s.calls.Keys;
    case GiveBack(k) => assert GivenBack(s, k).calls.Keys == s.calls.Keys;
    case TakeIdleConn(k) => assert Taken(s, k).calls.Keys == s.calls.Keys;
    case _ =>
  }

  lemma FinishedIsFinal(s: State, e: Event, id: CallId)
    requires Enabled(s, e) && id in s.calls && Finished(s.calls[id].phase)
    ensures id in After(s, e).calls && After(s, e).calls[id] == s.calls[id]
  {
    assert Actor(e) != Some(id);
    OthersStay(s, e, id);
  }

  // What runs record.

  /** The outcome an event records: a reply that is not backpressure, or any answered probe, is a success;
      backpressure and a failed call are failures. */
  function Books(s: State, e: Event): Option<Mark>
    requires Enabled(s, e)
  {
    match e
    case Book(id) =>
      var CallRec(kind, a, phase) := s.calls[id];
      Some(Mark(a, kind.Probe? || !phase.r.backpressure, s.now))
    case BookErr(id) => Some(Mark(s.calls[id].addr, false, s.now))
    case _ => None
  }

  /** The outcomes recorded in a run, in order. */
  function Marks(events: seq<Event>): seq<Mark>
    requires Run(EMPTY, events).Some?
  {
    if events == [] then []
    else
      var front, e := events[..|events| - 1], events[|events| - 1];
      var m := Books(Run(EMPTY, front).value, e);
      if m.Some? then Marks(front) + [m.value] else Marks(front)
  }

  /** The calls that recorded them. */
  function Bookers(events: seq<Event>): (ids: seq<CallId>)
    requires Run(EMPTY, events).Some?
    ensures |ids| == |Marks(events)|
  {
    if events == [] then []
    else
      var front, e := events[..|events| - 1], events[|events| - 1];
      if Books(Run(EMPTY, front).value, e).Some? then Bookers(front) + [e.id] else Bookers(front)
  }

  /** A step changes the breaker by what it records, and nothing else does. */
  lemma StepBooks(s: State, e: Event)
    requires Enabled(s, e)
    ensures After(s, e).now >= s.now
    ensures After(s, e).breaker == if Books(s, e).Some? then Noted(s.breaker, Books(s, e).value) else s.breaker
    ensures Books(s, e).Some? ==> Books(s, e).value.at == s.now == After(s, e).now
  {
    match e
    case Book(id) =>
      assert After(s, e).breaker == Noted(s.breaker, Books(s, e).value);
    case _ =>
  }

  /** A reply that is not backpressure, and any reply to a probe, clears the peer; backpressure and a failed call are
      one more failure, now. */
  lemma OutcomeCounts(s: State, id: CallId)
    ensures Enabled(s, Book(id)) ==>
      var CallRec(kind, a, p) := s.calls[id];
      var t := After(s, Book(id)).breaker;
      if kind.Probe? || !p.r.backpressure then a !in t
      else a in t && t[a].since == s.now && (a !in s.breaker ==> t[a].count == 1)
    ensures Enabled(s, BookErr(id)) ==>
      var a, t := s.calls[id].addr, After(s, BookErr(id)).breaker;
      a in t && t[a].since == s.now && (a !in s.breaker ==> t[a].count == 1)
  {
  }

  /** In every run the breaker holds, for each peer, the number of failures since its last success and the time of
      the latest, and nothing for a peer with none. */
  lemma {:induction false} BreakerFollowsRun(events: seq<Event>)
    requires Run(EMPTY, events).Some?
    ensures var s := Run(EMPTY, events).value; Follows(s.breaker, Marks(events), s.now)
  {
    if events != [] {
      var front, e := events[..|events| - 1], events[|events| - 1];
      var s := Run(EMPTY, front).value;
      BreakerFollowsRun(front);
      StepBooks(s, e);
      if Books(s, e).Some? { FollowsNext(s.breaker, Marks(front), Books(s, e).value); }
    }
  }

  /** In every run `call` and `call_begin` are refused, without touching a connection, exactly when three recorded
      failures of the peer stand with no success since the first and one of them is within the cooldown. */
  lemma BreakerDecides(events: seq<Event>, id: CallId)
    requires Run(EMPTY, events).Some?
    requires var s := Run(EMPTY, events).value; id in s.calls && s.calls[id].phase.Start?
    ensures var s := Run(EMPTY, events).value;
            var t := After(s, Check(id));
            && t.idle == s.idle && t.conns == s.conns
            && t.calls[id].phase == if Tripped(Marks(events), s.calls[id].addr, s.now) then Refused else Take
  {
    var s := Run(EMPTY, events).value;
    BreakerFollowsRun(events);
    OpenIsTripped(s.breaker, Marks(events), s.calls[id].addr, s.now);
  }

  /** The phases of a call whose outcome is recorded. */
  predicate Recorded(p: Phase) { p.Returning? || p.Done? || p.Errored? }

  /** Each call has recorded at most one outcome, none before it is over, and one if it has its reply. */
  ghost predicate BookedOnce(s: State, ids: seq<CallId>) {
    && (forall p, q :: 0 <= p < q < |ids| ==> ids[p] != ids[q])
    && (forall p :: 0 <= p < |ids| ==> ids[p] in s.calls && Recorded(s.calls[ids[p]].phase))
    && (forall id :: id in s.calls && (s.calls[id].phase.Returning? || s.calls[id].phase.Done?) ==> id in ids)
  }

  lemma BookedOnceStep(s: State, e: Event, ids: seq<CallId>)
    requires Enabled(s, e) && BookedOnce(s, ids)
    ensures BookedOnce(After(s, e), if Books(s, e).Some? then ids + [e.id] else ids)
  {
    var t, more := After(s, e), if Books(s, e).Some? then ids + [e.id] else ids;
    forall id | id in s.calls && Actor(e) != Some(id) ensures id in t.calls && t.calls[id] == s.calls[id] {
      OthersStay(s, e, id);
    }
    ActorMoves(s, e);
    forall p | 0 <= p < |more| ensures more[p] in t.calls && Recorded(t.calls[more[p]].phase) {
      if p < |ids| { assert more[p] == ids[p]; }
    }
    forall id | id in t.calls && (t.calls[id].phase.Returning? || t.calls[id].phase.Done?) ensures id in more {
      if Actor(e) != Some(id) { assert id in ids; }
    }
  }

  /** A step records for its call exactly when it brings it among the recorded, unless the call is abandoned. */
  lemma ActorMoves(s: State, e: Event)
    requires Enabled(s, e)
    ensures forall id :: id in After(s, e).calls && id !in s.calls ==> Actor(e) == Some(id)
    ensures Actor(e).Some? ==>
              var id, t := Actor(e).value, After(s, e);
              && id in t.calls && (e.Enter? <==> id !in s.calls)
              && (Books(s, e).Some? ==> !Recorded(s.calls[id].phase) && Recorded(t.calls[id].phase))
              && (Books(s, e).None? && (t.calls[id].phase.Returning? || t.calls[id].phase.Done?) ==>
                    id in s.calls && s.calls[id].phase.Returning?)
              && (id in s.calls && Recorded(s.calls[id].phase) ==> t.calls[id].phase.Done?)
  {
  }

  /** In every run a call counts at most once for or against its peer, also when a stale connection made it try
      again, and exactly once when it has its reply. */
  lemma {:induction false} CallBooksOnce(events: seq<Event>)
    requires Run(EMPTY, events).Some?
    ensures BookedOnce(Run(EMPTY, events).value, Bookers(events))
  {
    if events != [] {
      var front, e := events[..|events| - 1], events[|events| - 1];
      CallBooksOnce(front);
      BookedOnceStep(Run(EMPTY, front).value, e, Bookers(front));
    }
  }
}
