/** How often a call tries: a lost reused connection is retried once, on a connection of its own. */
module PoolRetry {
  import opened PeerPool
  import opened Prelude

  predicate Sends(e: Event, id: CallId) { e.SendOk? && e.id == id }

  predicate Dials(e: Event, id: CallId) { (e.DialOk? || e.DialFails?) && e.id == id }

  /** How often a call has sent its request. */
  function SendCount(events: seq<Event>, id: CallId): nat {
    if events == [] then 0
    else SendCount(events[..|events| - 1], id) + (if Sends(events[|events| - 1], id) then 1 else 0)
  }

  /** How often a call has dialed its peer. */
  function DialCount(events: seq<Event>, id: CallId): nat {
    if events == [] then 0
    else DialCount(events[..|events| - 1], id) + (if Dials(events[|events| - 1], id) then 1 else 0)
  }

  /** What a call has done by each phase. */
  predicate Tried(kind: CallKind, p: Phase, sends: nat, dials: nat) {
    match p
    case Start => !kind.Probe? && sends == 0 && dials == 0
    case Take => !kind.Probe? && sends == 0 && dials == 0
    case Refused => sends == 0 && dials == 0
    case Dial => sends <= (if kind.Call? then 1 else 0) && dials == 0
    case Ready(_, reused) =>
      if reused then sends == 0 && dials == 0 && !kind.Probe?
      else sends <= (if kind.Call? then 1 else 0) && dials == 1
    case Sent(_, reused) =>
      if reused then sends == 1 && dials == 0 && !kind.Probe?
      else 1 <= sends <= (if kind.Call? then 2 else 1) && dials == 1
    case Stale => kind.Call? && sends <= 1 && dials == 0
    case Failing => Over(kind, sends, dials) && (dials == 1 || kind.Begin?)
    case Errored => Over(kind, sends, dials) && (dials == 1 || kind.Begin?)
    case _ => Over(kind, sends, dials) && sends >= 1
  }

  predicate Over(kind: CallKind, sends: nat, dials: nat) {
    dials <= 1 && sends <= 2 && (sends == 2 ==> kind.Call? && dials == 1)
  }

  lemma TriedStep(s: State, e: Event, id: CallId, sends: nat, dials: nat)
    requires Enabled(s, e) && Actor(e) == Some(id) && (id !in s.calls ==> sends == 0 && dials == 0)
    requires id in s.calls ==> Tried(s.calls[id].kind, s.calls[id].phase, sends, dials)
    ensures var t := After(s, e);
            && id in t.calls && (id in s.calls ==> t.calls[id].kind == s.calls[id].kind)
            && Tried(t.calls[id].kind, t.calls[id].phase, sends + (if Sends(e, id) then 1 else 0),
                     dials + (if Dials(e, id) then 1 else 0))
  {
  }

  lemma {:induction false} RunTries(events: seq<Event>, id: CallId)
    requires Run(EMPTY, events).Some?
    ensures var s := Run(EMPTY, events).value;
            if id in s.calls then
              Tried(s.calls[id].kind, s.calls[id].phase, SendCount(events, id), DialCount(events, id))
            else SendCount(events, id) == 0 && DialCount(events, id) == 0
  {
    if events != [] {
      var front, e := events[..|events| - 1], events[|events| - 1];
      var s := Run(EMPTY, front).value;
      RunTries(front, id);
      if Actor(e) == Some(id) {
        TriedStep(s, e, id, SendCount(front, id), DialCount(front, id));
      } else if id in s.calls {
        OthersStay(s, e, id);
      } else {
        ActorMoves(s, e);
      }
    }
  }

  /** In every run a call dials at most once and sends at most twice, twice only for `call` and only on a connection
      it dialed itself; `call` and `probe` fail only after dialing, so never on a reused connection alone; and a
      refused call has done neither. */
  lemma CallAttempts(events: seq<Event>, id: CallId)
    requires Run(EMPTY, events).Some? && id in Run(EMPTY, events).value.calls
    ensures var CallRec(kind, _, p) := Run(EMPTY, events).value.calls[id];
            && DialCount(events, id) <= 1 && SendCount(events, id) <= 2
            && (SendCount(events, id) == 2 ==> kind.Call? && DialCount(events, id) == 1)
            && ((p.Failing? || p.Errored?) && !kind.Begin? ==> DialCount(events, id) == 1)
            && (p.Done? ==> SendCount(events, id) >= 1)
            && (p.Refused? ==> SendCount(events, id) == 0 && DialCount(events, id) == 0)
  {
    RunTries(events, id);
  }

  /** A `call` that loses a reused connection has one way on: the peer's idle connections go, and it dials. */
  lemma StaleRetried(s: State, id: CallId, e: Event)
    requires Enabled(s, IoFails(id)) && s.calls[id].kind.Call? && s.calls[id].phase.reused
    ensures var t := After(s, IoFails(id));
            && t.breaker == s.breaker && (Enabled(t, e) && Actor(e) == Some(id) ==> e == DropRest(id))
            && Enabled(t, DropRest(id))
            && var u := After(t, DropRest(id));
               && u.calls[id].phase == Dial && Bucket(u.idle, s.calls[id].addr) == [] && u.breaker == s.breaker
               && forall b :: b != s.calls[id].addr ==> Bucket(u.idle, b) == Bucket(s.idle, b)
  {
  }
}
