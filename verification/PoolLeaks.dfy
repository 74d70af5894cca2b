/** No connection is lost: each one open is idle in its bucket or held by a call. */
module PoolLeaks {
  import opened PeerPool
  import opened Prelude

  /** A connection is where its record says: at that place of an idle bucket, or in that call's hands. */
  ghost predicate Placed(s: State, c: ConnId, owner: Owner) {
    match owner
    case Slot(a, i) => a in s.idle && i < |s.idle[a]| && s.idle[a][i] == c
    case Held(id) => id in s.calls && HeldBy(s.calls[id].phase) == Some(c)
  }

  ghost predicate NoLeak(s: State) { forall c :: c in s.conns ==> Placed(s, c, s.conns[c].owner) }

  lemma EnterPlaced(s: State, id: CallId, kind: CallKind, a: Addr)
    requires NoLeak(s) && id !in s.calls
    ensures NoLeak(After(s, Enter(id, kind, a)))
  {
    var t := After(s, Enter(id, kind, a));
    forall c | c in t.conns ensures Placed(t, c, t.conns[c].owner) { assert Placed(s, c, s.conns[c].owner); }
  }

  /** A call that keeps holding what it holds, or holds nothing before and after. */
  lemma MovePlaced(s: State, id: CallId, p: Phase)
    requires NoLeak(s) && id in s.calls && HeldBy(p) == HeldBy(s.calls[id].phase)
    ensures NoLeak(Move(s, id, p))
  {
    var t := Move(s, id, p);
    forall c | c in t.conns ensures Placed(t, c, t.conns[c].owner) { assert Placed(s, c, s.conns[c].owner); }
  }

  /** A call that lets go of a connection, which is closed. */
  lemma ClosePlaced(s: State, id: CallId, c: ConnId, p: Phase)
    requires NoLeak(s) && id in s.calls && HeldBy(s.calls[id].phase) == Some(c) && HeldBy(p).None?
    ensures NoLeak(Move(s.(conns := s.conns - {c}), id, p))
  {
    var t := Move(s.(conns := s.conns - {c}), id, p);
    forall k | k in t.conns ensures Placed(t, k, t.conns[k].owner) { assert Placed(s, k, s.conns[k].owner); }
  }

  /** A call that gets a connection or changes what is unread on its own. */
  lemma HoldPlaced(s: State, id: CallId, c: ConnId, unread: seq<CallId>, p: Phase)
    requires NoLeak(s) && id in s.calls && HeldBy(p) == Some(c)
    requires HeldBy(s.calls[id].phase).None? || HeldBy(s.calls[id].phase) == Some(c)
    ensures NoLeak(Move(s.(conns := s.conns[c := ConnRec(Held(id), unread)]), id, p))
  {
    var t := Move(s.(conns := s.conns[c := ConnRec(Held(id), unread)]), id, p);
    forall k | k in t.conns ensures Placed(t, k, t.conns[k].owner) {
      if k != c { assert Placed(s, k, s.conns[k].owner); }
    }
  }

  lemma TakePlaced(s: State, id: CallId)
    requires NoLeak(s) && id in s.calls && s.calls[id].phase.Take?
    ensures NoLeak(Taken(s, id))
  {
    var a := s.calls[id].addr;
    if a !in s.idle || s.idle[a] == [] {
      MovePlaced(s, id, Dial);
    } else {
      var t := Taken(s, id);
      forall k | k in t.conns ensures Placed(t, k, t.conns[k].owner) {
        if k in s.conns { assert Placed(s, k, s.conns[k].owner); }
      }
    }
  }

  lemma GivePlaced(s: State, id: CallId)
    requires NoLeak(s) && id in s.calls && s.calls[id].phase.Returning?
    ensures NoLeak(GivenBack(s, id))
  {
    var t := GivenBack(s, id);
    forall k | k in t.conns ensures Placed(t, k, t.conns[k].owner) {
      if k in s.conns { assert Placed(s, k, s.conns[k].owner); }
    }
  }

  lemma DropPlaced(s: State, id: CallId)
    requires NoLeak(s) && id in s.calls && s.calls[id].phase.Stale?
    ensures NoLeak(Move(Emptied(s, s.calls[id].addr), id, Dial))
  {
    var a := s.calls[id].addr;
    var t := Emptied(s, a);
    forall k | k in t.conns ensures Placed(t, k, t.conns[k].owner) {
      assert Placed(s, k, s.conns[k].owner);
      assert k !in Bucket(s.idle, a);
    }
    MovePlaced(t, id, Dial);
  }

  lemma BreakerPlaced(s: State, b: Breaker)
    requires NoLeak(s)
    ensures NoLeak(s.(breaker := b))
  {
    var t := s.(breaker := b);
    forall k | k in t.conns ensures Placed(t, k, t.conns[k].owner) { assert Placed(s, k, s.conns[k].owner); }
  }

  lemma BookPlaced(s: State, id: CallId)
    requires NoLeak(s) && id in s.calls && s.calls[id].phase.Replied?
    ensures NoLeak(Booked(s, id))
  {
    var CallRec(kind, a, Replied(c, r)) := s.calls[id];
    BreakerPlaced(s, PeerPool.Ok(s, a).breaker);
    BreakerPlaced(s, PeerPool.Err(s, a).breaker);
    if kind.Probe? {
      ClosePlaced(PeerPool.Ok(s, a), id, c, Done(r));
    } else {
      MovePlaced(if r.backpressure then PeerPool.Err(s, a) else PeerPool.Ok(s, a), id, Returning(c, r));
    }
  }

  lemma TickPlaced(s: State, now: nat)
    requires NoLeak(s)
    ensures NoLeak(s.(now := now))
  {
    var t := s.(now := now);
    forall k | k in t.conns ensures Placed(t, k, t.conns[k].owner) { assert Placed(s, k, s.conns[k].owner); }
  }

  lemma StepPlaced(s: State, e: Event)
    requires Inv(s) && NoLeak(s) && Enabled(s, e)
    ensures NoLeak(After(s, e))
  {
    match e
    case Enter(id, kind, a) => EnterPlaced(s, id, kind, a);
    case Check(id) => MovePlaced(s, id, if Open(s.breaker, s.calls[id].addr, s.now) then Refused else Take);
    case TakeIdleConn(id) => TakePlaced(s, id);
    case DialOk(id, c) => HoldPlaced(s, id, c, [], Ready(c, false));
    case DialFails(id) => MovePlaced(s, id, Failing);
    case SendOk(id) =>
      assert CallOk(s, id, s.calls[id].phase);
      var Ready(c, reused) := s.calls[id].phase;
      HoldPlaced(s, id, c, s.conns[c].unread + [id], Sent(c, reused));
    case IoFails(id) =>
      var stale := s.calls[id].kind.Call? && s.calls[id].phase.reused;
      ClosePlaced(s, id, s.calls[id].phase.c, if stale then Stale else Failing);
    case Recv(id, bp) =>
      assert CallOk(s, id, s.calls[id].phase);
      var c := s.calls[id].phase.c;
      var unread := s.conns[c].unread;
      HoldPlaced(s, id, c, unread[1..], Replied(c, Reply(unread[0], bp)));
    case DropRest(id) => DropPlaced(s, id);
    case Book(id) => BookPlaced(s, id);
    case GiveBack(id) => GivePlaced(s, id);
    case BookErr(id) =>
      BreakerPlaced(s, PeerPool.Err(s, s.calls[id].addr).breaker);
      MovePlaced(PeerPool.Err(s, s.calls[id].addr), id, Errored);
    case Abandon(id) => ClosePlaced(s, id, s.calls[id].phase.c, Errored);
    case Tick(t) => TickPlaced(s, t);
  }

  lemma {:induction false} RunPlaced(events: seq<Event>)
    requires Run(EMPTY, events).Some?
    ensures NoLeak(Run(EMPTY, events).value)
  {
    if events != [] {
      var front := events[..|events| - 1];
      RunPlaced(front);
      RunKeeps(EMPTY, front);
      StepPlaced(Run(EMPTY, front).value, events[|events| - 1]);
    }
  }

  /** After any interleaving, once every call has finished each connection still open is idle, at its place in its
      peer's bucket. */
  lemma AllIdleAtRest(events: seq<Event>, c: ConnId)
    requires Run(EMPTY, events).Some? && c in Run(EMPTY, events).value.conns
    requires forall id :: id in Run(EMPTY, events).value.calls ==> Finished(Run(EMPTY, events).value.calls[id].phase)
    ensures var s := Run(EMPTY, events).value;
            exists a, i :: a in s.idle && 0 <= i < |s.idle[a]| && s.idle[a][i] == c
  {
    RunPlaced(events);
    var s := Run(EMPTY, events).value;
    assert Placed(s, c, s.conns[c].owner);
  }
}
