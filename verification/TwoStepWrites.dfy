/** Recording a transition as the code does it, in two steps: the state is read and checked at one await and the
    row inserted at a later one, while other handlers run in between. When that comes to the same as one step, and
    a run in which it does not. */
module TwoStepWrites {
  import opened Escrow
  import opened Handlers
  import opened Optional
  import opened SessionLog

  /** A transition a process wants to record, and where it goes on once the row is in. */
  datatype Write = Write(sid: SessionId, to: SessionState, options: Options, next: Process)

  function Attempt(log: seq<Row>, p: Process): Option<Write> {
    match p
    case Opening(sid, tier, relay, expiresAt, done) =>
      if done >= 4 then None
      else Some(Write(sid, OpeningState(done), Options(Some(relay), Some(tier), Some(expiresAt)),
                      p.(done := done + 1)))
    case Dropping(sid, tier, failed, readAt) =>
      Some(Write(sid, RELAY_UNREACHABLE, Options(Some(failed), None, None),
                 Selecting(sid, tier, failed, Switch(CurrentRelay(log, sid), readAt, |log|))))
    case Selecting(sid, tier, failed, dropped) =>
      Some(Write(sid, FAILOVER_SELECT, Options(Some(failed), None, None), Choosing(sid, tier, failed, dropped)))
    case Reopening(sid, tier, failed, dropped, next) =>
      Some(Write(sid, TUNNEL_OPEN, Options(Some(next), Some(tier), None),
                 Reactivating(sid, tier, failed, dropped, next)))
    case Reactivating(sid, tier, _, _, next) =>
      Some(Write(sid, ACTIVE, Options(Some(next), Some(tier), None), Finished(FailedOver)))
    case Ending(sid) => Some(Write(sid, EXPIRED_NORMAL, Options(None, None, None), Finished(Ended)))
    case _ => None
  }

  /** The state a process has read for the transition it is about to insert, and how long the log was then. */
  datatype Held = Held(from: Option<SessionState>, readAt: nat)

  /** The orchestrator, and what its processes hold between the two steps. */
  datatype Desk = Desk(world: World, held: map<nat, Held>)

  const OPEN := Desk(START, map[])

  predicate Allowed(from: Option<SessionState>, to: SessionState) {
    if from.None? then to == PAID else IsValidTransition(from.value, to)
  }

  /** The row that is inserted; it links to the state that was read. */
  function Inserted(log: seq<Row>, from: Option<SessionState>, w: Write): Row {
    var o := w.options;
    Row(|log| + 1, w.sid, from, w.to, o.relay, if o.tier.Some? then o.tier else CurrentTier(log, w.sid),
        if o.expiresAt == Some(0) then None else o.expiresAt)
  }

  /** The first step reads the state and turns an invalid transition away; the second inserts. */
  function Resumed(x: Desk, pid: nat, a: Answer): Desk
    requires pid < |x.world.procs|
  {
    var w := x.world;
    var write := Attempt(w.log, w.procs[pid]);
    if write.None? then Desk(Handlers.Apply(w, Resume(pid, a)), x.held)
    else if pid in x.held then
      Desk(World(w.log + [Inserted(w.log, x.held[pid].from, write.value)], w.used, w.procs[pid := write.value.next]),
           x.held - {pid})
    else
      var current := CurrentState(w.log, write.value.sid);
      if Allowed(current, write.value.to) then Desk(w, x.held[pid := Held(current, |w.log|)])
      else Desk(w.(procs := w.procs[pid := Finished(InvalidTransition)]), x.held)
  }

  function Do(x: Desk, e: Handlers.Event): Desk {
    if e.Resume? then (if e.pid < |x.world.procs| then Resumed(x, e.pid, e.answer) else x)
    else Desk(Handlers.Apply(x.world, e), if e.Restart? then map[] else x.held)
  }

  function Shift(events: seq<Handlers.Event>): Desk {
    if events == [] then OPEN else Do(Shift(events[..|events| - 1]), events[|events| - 1])
  }

  // ---------------------------------------------------------------- what is held

  predicate HeldIs(w: World, pid: nat, h: Held) {
    && pid < |w.procs| && Attempt(w.log, w.procs[pid]).Some? && h.readAt <= |w.log|
    && var write := Attempt(w.log, w.procs[pid]).value;
    Allowed(h.from, write.to) && h.from == CurrentState(w.log[..h.readAt], write.sid)
  }

  predicate Holds(x: Desk) { forall pid :: pid in x.held ==> HeldIs(x.world, pid, x.held[pid]) }

  lemma HeldStays(w: World, t: World, pid: nat, h: Held)
    requires HeldIs(w, pid, h) && w.log <= t.log && pid < |t.procs| && t.procs[pid] == w.procs[pid]
    ensures HeldIs(t, pid, h)
  {
    assert t.log[..h.readAt] == w.log[..h.readAt];
  }

  lemma DoGrows(x: Desk, e: Handlers.Event)
    ensures x.world.log <= Do(x, e).world.log
  {}

  /** Who still holds what he read has not moved. */
  lemma HolderWaits(x: Desk, e: Handlers.Event, pid: nat)
    requires pid in x.held && pid in Do(x, e).held && HeldIs(x.world, pid, x.held[pid])
    ensures Do(x, e).held[pid] == x.held[pid]
    ensures pid < |Do(x, e).world.procs| && Do(x, e).world.procs[pid] == x.world.procs[pid]
  {}

  lemma NewlyHeld(x: Desk, e: Handlers.Event, pid: nat)
    requires pid in Do(x, e).held && pid !in x.held
    ensures HeldIs(Do(x, e).world, pid, Do(x, e).held[pid])
  {
    assert x.world.log[..|x.world.log|] == x.world.log;
  }

  lemma DoHolds(x: Desk, e: Handlers.Event)
    requires Holds(x)
    ensures Holds(Do(x, e))
  {
    DoGrows(x, e);
    forall pid | pid in Do(x, e).held ensures HeldIs(Do(x, e).world, pid, Do(x, e).held[pid]) {
      if pid in x.held {
        HolderWaits(x, e, pid);
        HeldStays(x.world, Do(x, e).world, pid, x.held[pid]);
      } else {
        NewlyHeld(x, e, pid);
      }
    }
  }

  lemma {:induction false} EveryShiftHolds(events: seq<Handlers.Event>)
    ensures Holds(Shift(events))
  {
    if events != [] {
      EveryShiftHolds(events[..|events| - 1]);
      DoHolds(Shift(events[..|events| - 1]), events[|events| - 1]);
    }
  }

  // ---------------------------------------------------------------- when it is as good as one step

  /** The event inserts a row, and the session is not in the state that was read. */
  predicate Stale(x: Desk, e: Handlers.Event) {
    && e.Resume? && e.pid in x.held && e.pid < |x.world.procs|
    && var write := Attempt(x.world.log, x.world.procs[e.pid]);
    write.Some? && CurrentState(x.world.log, write.value.sid) != x.held[e.pid].from
  }

  predicate NeverStale(events: seq<Handlers.Event>) {
    events == [] || (NeverStale(events[..|events| - 1]) && !Stale(Shift(events[..|events| - 1]), events[|events| - 1]))
  }

  /** A fresh event does what one event of the one-step handlers does, or nothing to their world. */
  lemma FreshIsOneStep(x: Desk, e: Handlers.Event)
    requires Holds(x) && !Stale(x, e)
    ensures Do(x, e).world == x.world || Do(x, e).world == Handlers.Apply(x.world, e)
  {
    if e.Resume? && e.pid < |x.world.procs| && Attempt(x.world.log, x.world.procs[e.pid]).Some? {
      var w, p := x.world, x.world.procs[e.pid];
      var write := Attempt(w.log, p).value;
      assert Step(w.log, w.used, p, e.answer) == Record(w.log, w.used, write.sid, write.to, write.options, write.next);
      if e.pid in x.held { assert HeldIs(w, e.pid, x.held[e.pid]); }
    }
  }

  lemma {:induction false} OneStepRun(events: seq<Handlers.Event>) returns (atomic: seq<Handlers.Event>)
    requires NeverStale(events)
    ensures Shift(events).world == Run(atomic)
  {
    atomic := [];
    if events != [] {
      var n := |events| - 1;
      var before := OneStepRun(events[..n]);
      EveryShiftHolds(events[..n]);
      FreshIsOneStep(Shift(events[..n]), events[n]);
      OneMore(START, before, events[n]);
      atomic := if Shift(events).world == Run(before) then before else before + [events[n]];
    }
  }

  lemma {:induction false} WellFormedNeverStale(events: seq<Handlers.Event>)
    requires WellFormed(Shift(events).world.log)
    ensures NeverStale(events)
  {
    if events != [] {
      var n := |events| - 1;
      var x, t := Shift(events[..n]), Shift(events);
      LogGrows(x, events[n]);
      if t.world.log != x.world.log { assert t.world.log[..|t.world.log| - 1] == x.world.log; }
      WellFormedNeverStale(events[..n]);
    }
  }

  lemma LogGrows(x: Desk, e: Handlers.Event)
    ensures var log := Do(x, e).world.log;
            log == x.world.log || (|log| == |x.world.log| + 1 && log[..|x.world.log|] == x.world.log)
    ensures Stale(x, e) ==>
              && |Do(x, e).world.log| == |x.world.log| + 1
              && var row := Do(x, e).world.log[|x.world.log|];
              row.fromState != CurrentState(x.world.log, row.sessionId)
  {}

  /** The log of a run is well formed exactly when no insertion finds its session in another state than was
      read; and then the whole run is a run of the one-step handlers, with all that holds of those. */
  lemma OneStepIff(events: seq<Handlers.Event>)
    ensures WellFormed(Shift(events).world.log) <==> NeverStale(events)
    ensures NeverStale(events) ==> exists atomic :: Shift(events).world == Run(atomic)
  {
    if NeverStale(events) {
      var atomic := OneStepRun(events);
      EveryRunKeepsInv(atomic);
    } else if WellFormed(Shift(events).world.log) {
      WellFormedNeverStale(events);
    }
  }

  /** The event inserts a row, and another of its session has come in since the state was read. */
  predicate Overlapped(x: Desk, e: Handlers.Event) {
    && e.Resume? && e.pid in x.held && e.pid < |x.world.procs|
    && var write := Attempt(x.world.log, x.world.procs[e.pid]);
    write.Some? && exists i :: x.held[e.pid].readAt <= i < |x.world.log| && x.world.log[i].sessionId == write.value.sid
  }

  predicate NeverOverlapped(events: seq<Handlers.Event>) {
    events == []
    || (NeverOverlapped(events[..|events| - 1]) && !Overlapped(Shift(events[..|events| - 1]), events[|events| - 1]))
  }

  /** In particular a run in which no two writes to one session overlap is a run of the one-step handlers. */
  lemma {:induction false} ApartIsNeverStale(events: seq<Handlers.Event>)
    requires NeverOverlapped(events)
    ensures NeverStale(events) && exists atomic :: Shift(events).world == Run(atomic)
  {
    if events != [] {
      var n := |events| - 1;
      ApartIsNeverStale(events[..n]);
      EveryShiftHolds(events[..n]);
      ApartIsFresh(Shift(events[..n]), events[n]);
    }
    OneStepIff(events);
  }

  lemma ApartIsFresh(x: Desk, e: Handlers.Event)
    requires Holds(x) && !Overlapped(x, e)
    ensures !Stale(x, e)
  {
    if Stale(x, e) {
      assert HeldIs(x.world, e.pid, x.held[e.pid]);
      StateUntouched(x.world.log, Attempt(x.world.log, x.world.procs[e.pid]).value.sid, x.held[e.pid].readAt);
    }
  }

  // ---------------------------------------------------------------- two tokens for one payment

  lemma OneMoreDone(events: seq<Handlers.Event>, e: Handlers.Event)
    ensures Shift(events + [e]) == Do(Shift(events), e)
  {
    assert (events + [e])[..|events|] == events;
  }

  /** Two purchases of one session, both having recorded its first `done` states. */
  predicate Twins(x: Desk, p: Process) {
    && p.Opening? && p.done <= 4 && x.world.procs == [p, p] && x.held == map[]
    && CurrentState(x.world.log, p.sid) == (if p.done == 0 then None else Some(OpeningState(p.done - 1)))
    && Occurrences(Trail(x.world.log, p.sid), PAID) == if p.done == 0 then 0 else 2
  }

  lemma TrailGrows(log: seq<Row>, row: Row, sid: SessionId)
    requires row.sessionId == sid
    ensures CurrentState(log + [row], sid) == Some(row.toState)
    ensures Occurrences(Trail(log + [row], sid), PAID)
         == Occurrences(Trail(log, sid), PAID) + if row.toState == PAID then 1 else 0
  {
    assert (log + [row])[..|log|] == log;
    assert Trail(log + [row], sid)[..|Trail(log, sid)|] == Trail(log, sid);
  }

  lemma BothRead(x: Desk, p: Process, a: Answer) returns (y: Desk)
    requires Twins(x, p) && p.done < 4
    ensures y == Do(Do(x, Resume(0, a)), Resume(1, a)) && y.world == x.world
    ensures var h := Held(CurrentState(x.world.log, p.sid), |x.world.log|); y.held == map[0 := h, 1 := h]
  {
    y := Do(Do(x, Resume(0, a)), Resume(1, a));
  }

  lemma Inserts(x: Desk, i: nat, p: Process, a: Answer) returns (y: Desk)
    requires i < |x.world.procs| && i in x.held && x.world.procs[i] == p && p.Opening? && p.done < 4
    ensures y == Do(x, Resume(i, a)) && y.held == x.held - {i}
    ensures y.world.procs == x.world.procs[i := p.(done := p.done + 1)]
    ensures CurrentState(y.world.log, p.sid) == Some(OpeningState(p.done))
    ensures Occurrences(Trail(y.world.log, p.sid), PAID)
         == Occurrences(Trail(x.world.log, p.sid), PAID) + if p.done == 0 then 1 else 0
  {
    y := Do(x, Resume(i, a));
    TrailGrows(x.world.log, Inserted(x.world.log, x.held[i].from, Attempt(x.world.log, p).value), p.sid);
  }

  lemma TwinsAgain(x: Desk, p: Process, z: Desk, y: Desk)
    requires Twins(x, p) && p.done < 4
    requires z.world.procs == [p, p][0 := p.(done := p.done + 1)] && y.held.Keys == {}
    requires y.world.procs == z.world.procs[1 := p.(done := p.done + 1)]
    requires CurrentState(y.world.log, p.sid) == Some(OpeningState(p.done))
    requires Occurrences(Trail(y.world.log, p.sid), PAID) == 2
    ensures Twins(y, p.(done := p.done + 1))
  {
    assert y.held == map[];
  }

  /** Both having read the state before either inserts, both insert the next one. */
  lemma BothInsert(x: Desk, p: Process, r: Desk, a: Answer) returns (y: Desk)
    requires Twins(x, p) && p.done < 4 && r.world == x.world && r.held.Keys == {0, 1}
    ensures y == Do(Do(r, Resume(0, a)), Resume(1, a))
    ensures Twins(y, p.(done := p.done + 1))
  {
    var z := Inserts(r, 0, p, a);
    y := Inserts(z, 1, p, a);
    TwinsAgain(x, p, z, y);
  }

  lemma {:induction false} BothOpened(sid: SessionId, tier: Tier, relay: RelayName, done: nat)
      returns (events: seq<Handlers.Event>)
    requires done <= 4
    ensures Twins(Shift(events), Process.Opening(sid, tier, relay, 3600, done))
  {
    if done == 0 {
      events := BothVerified(sid, tier, relay);
    } else {
      var a := Answer(None, 0, []);
      var four := BothOpened(sid, tier, relay, done - 1);
      var p := Process.Opening(sid, tier, relay, 3600, done - 1);
      var r := BothRead(Shift(four), p, a);
      var y := BothInsert(Shift(four), p, r, a);
      OneMoreDone(four, Resume(0, a));
      OneMoreDone(four + [Resume(0, a)], Resume(1, a));
      OneMoreDone(four + [Resume(0, a)] + [Resume(1, a)], Resume(0, a));
      OneMoreDone(four + [Resume(0, a)] + [Resume(1, a)] + [Resume(0, a)], Resume(1, a));
      events := four + [Resume(0, a)] + [Resume(1, a)] + [Resume(0, a)] + [Resume(1, a)];
    }
  }

  /** Two requests with one transaction are both verified before either has used it. */
  lemma BothVerified(sid: SessionId, tier: Tier, relay: RelayName) returns (events: seq<Handlers.Event>)
    ensures Twins(Shift(events), Process.Opening(sid, tier, relay, 3600, 0))
  {
    var begin, a := BeginPurchase(tier, 1, Some("tx"), Only(relay)), Answer(Some(sid), 0, []);
    assert Shift([]) == OPEN;
    OneMoreDone([], begin);
    OneMoreDone([] + [begin], begin);
    OneMoreDone([] + [begin] + [begin], Resume(0, a));
    OneMoreDone([] + [begin] + [begin] + [Resume(0, a)], Resume(1, a));
    events := [] + [begin] + [begin] + [Resume(0, a)] + [Resume(1, a)];
  }

  /** A run from the start in which one session is paid twice in the log and two tokens are issued for it. */
  lemma TwoTokens(sid: SessionId, tier: Tier, relay: RelayName) returns (events: seq<Handlers.Event>)
    ensures Shift(events).world.procs == [Finished(TokenIssued(sid)), Finished(TokenIssued(sid))]
    ensures Occurrences(Trail(Shift(events).world.log, sid), PAID) == 2
    ensures !NeverStale(events)
  {
    var a := Answer(None, 0, []);
    events := BothOpened(sid, tier, relay, 4);
    OneMoreDone(events, Resume(0, a));
    OneMoreDone(events + [Resume(0, a)], Resume(1, a));
    events := events + [Resume(0, a)] + [Resume(1, a)];
    OneStepIff(events);
    if NeverStale(events) {
      PaidAtMostOnce(Shift(events).world.log, sid);
      assert false;
    }
  }
}
