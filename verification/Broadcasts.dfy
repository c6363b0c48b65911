/** The handlers together with the live feed: a row is broadcast when its writer is next resumed, and others may
    have written and broadcast in between. In which order rows can be sent, and what a page that listens from the
    start then shows. */
module Broadcasts {
  import opened Escrow
  import opened Handlers
  import opened Optional
  import opened SessionLog
  import Replication

  /** The orchestrator, the row each process has inserted and not yet broadcast, and the positions of the
      broadcast rows in the order they were sent. */
  datatype Station = Station(world: World, unsent: map<nat, nat>, sent: seq<nat>)

  const SILENT := Station(START, map[], [])

  /** A process that has inserted a row broadcasts it before anything else; a restart loses what was not sent. */
  function Do(x: Station, e: Handlers.Event): Station {
    if e.Resume? && e.pid in x.unsent then Station(x.world, x.unsent - {e.pid}, x.sent + [x.unsent[e.pid]])
    else
      var w := Handlers.Apply(x.world, e);
      var unsent :=
        if e.Restart? then map[]
        else if e.Resume? && |w.log| > |x.world.log| then x.unsent[e.pid := |x.world.log|]
        else x.unsent;
      Station(w, unsent, x.sent)
  }

  function Air(events: seq<Handlers.Event>): Station {
    if events == [] then SILENT else Do(Air(events[..|events| - 1]), events[|events| - 1])
  }

  // ---------------------------------------------------------------- what is still to be sent

  predicate LastOfItsSession(log: seq<Row>, i: nat)
    requires i < |log|
  {
    forall j :: i < j < |log| ==> log[j].sessionId != log[i].sessionId
  }

  /** The writer of an unsent row still owns the session in the state it moved it to, or the row hands the
      session over or ends it; and only the hand-over may be followed by other rows of the session. */
  predicate Unsent(w: World, pid: nat, i: nat) {
    && pid < |w.procs| && i < |w.log|
    && (Owns(w.procs[pid]) == Some((w.log[i].sessionId, w.log[i].toState))
        || w.log[i].toState == ACTIVE || w.log[i].toState == EXPIRED_NORMAL)
    && (w.log[i].toState != ACTIVE ==> LastOfItsSession(w.log, i))
  }

  /** A row sent after a later row of its session is an ACTIVE row. */
  predicate InOrder(log: seq<Row>, sent: seq<nat>) {
    && (forall a :: 0 <= a < |sent| ==> sent[a] < |log|)
    && forall a, b :: 0 <= a < b < |sent| && sent[b] < sent[a] && log[sent[a]].sessionId == log[sent[b]].sessionId ==>
         log[sent[b]].toState == ACTIVE
  }

  predicate OnAir(x: Station) {
    && InOrder(x.world.log, x.sent)
    && forall pid :: pid in x.unsent ==> Unsent(x.world, pid, x.unsent[pid])
  }

  lemma StepHandsOver(log: seq<Row>, used: set<TxHash>, p: Process, a: Answer)
    ensures
      var f := Step(log, used, p, a);
      f.log == log
      || (|f.log| == |log| + 1 && f.log[..|log|] == log
          && var row := f.log[|log|];
             (Owns(f.proc) == Some((row.sessionId, row.toState)) || row.toState in {ACTIVE, EXPIRED_NORMAL}))
  {}

  lemma LastIsCurrent(log: seq<Row>, i: nat)
    requires i < |log| && LastOfItsSession(log, i)
    ensures CurrentState(log, log[i].sessionId) == Some(log[i].toState)
  {
    StateUntouched(log, log[i].sessionId, i + 1);
  }

  /** Nobody writes a session whose last row is unsent, unless that row is an ACTIVE one. */
  lemma UnsentIsLeftAlone(w: World, pid: nat, a: Answer, other: nat, i: nat)
    requires Inv(w) && pid < |w.procs| && other != pid && Unsent(w, other, i) && w.log[i].toState != ACTIVE
    requires |Apply(w, Resume(pid, a)).log| == |w.log| + 1
    ensures Apply(w, Resume(pid, a)).log[|w.log|].sessionId != w.log[i].sessionId
  {
    var p := w.procs[pid];
    assert Good(w.log, p) && Good(w.log, w.procs[other]);
    StepIsModest(w.log, w.used, p, a);
    LastIsCurrent(w.log, i);
    assert Separate(w.procs[if pid < other then pid else other], w.procs[if pid < other then other else pid]);
  }

  lemma OtherStaysUnsent(w: World, pid: nat, a: Answer, other: nat, i: nat)
    requires Inv(w) && pid < |w.procs| && other != pid && Unsent(w, other, i)
    ensures Unsent(Apply(w, Resume(pid, a)), other, i)
  {
    StepHandsOver(w.log, w.used, w.procs[pid], a);
    var log := Apply(w, Resume(pid, a)).log;
    if log != w.log {
      assert forall k :: 0 <= k < |w.log| ==> log[k] == log[..|w.log|][k] == w.log[k];
      if w.log[i].toState != ACTIVE { UnsentIsLeftAlone(w, pid, a, other, i); }
    }
  }

  lemma ResumeOnAir(x: Station, pid: nat, a: Answer)
    requires Inv(x.world) && OnAir(x) && pid < |x.world.procs| && pid !in x.unsent
    ensures OnAir(Do(x, Resume(pid, a)))
  {
    var w, t := x.world, Do(x, Resume(pid, a));
    StepHandsOver(w.log, w.used, w.procs[pid], a);
    assert forall k :: 0 <= k < |w.log| ==> t.world.log[k] == t.world.log[..|w.log|][k] == w.log[k];
    forall other | other in x.unsent ensures Unsent(t.world, other, x.unsent[other]) {
      OtherStaysUnsent(w, pid, a, other, x.unsent[other]);
    }
  }

  lemma SendOnAir(x: Station, pid: nat)
    requires OnAir(x) && pid in x.unsent
    ensures OnAir(Station(x.world, x.unsent - {pid}, x.sent + [x.unsent[pid]]))
  {
    assert Unsent(x.world, pid, x.unsent[pid]);
  }

  /** The feed does not change what the handlers do. */
  lemma {:induction false} Underlying(events: seq<Handlers.Event>) returns (base: seq<Handlers.Event>)
    ensures Air(events).world == Run(base)
  {
    base := [];
    if events != [] {
      var n := |events| - 1;
      var before := Underlying(events[..n]);
      OneMore(START, before, events[n]);
      base := if Air(events).world == Run(before) then before else before + [events[n]];
    }
  }

  /** In every run of handlers and feed, a row sent after a later row of its session is an ACTIVE row. */
  lemma {:induction false} EveryRunInOrder(events: seq<Handlers.Event>)
    ensures OnAir(Air(events))
  {
    if events != [] {
      var n := |events| - 1;
      EveryRunInOrder(events[..n]);
      var base := Underlying(events[..n]);
      EveryRunKeepsInv(base);
      var x, e := Air(events[..n]), events[n];
      if e.Resume? && e.pid in x.unsent {
        SendOnAir(x, e.pid);
      } else if e.Resume? && e.pid < |x.world.procs| {
        ResumeOnAir(x, e.pid, e.answer);
      } else if !e.Restart? {
        assert forall pid :: pid in x.unsent ==> Unsent(x.world, pid, x.unsent[pid]);
      }
    }
  }

  // ---------------------------------------------------------------- what a page displays

  /** The session's rows as a page that listens from the start receives them. */
  function Received(log: seq<Row>, sent: seq<nat>, sid: SessionId): seq<Row>
    requires forall a :: 0 <= a < |sent| ==> sent[a] < |log|
  {
    if sent == [] then [] else
      var row := log[sent[|sent| - 1]];
      Received(log, sent[..|sent| - 1], sid) + (if row.sessionId == sid then [row] else [])
  }

  lemma {:induction false} ShowsLastOrActive(log: seq<Row>, sent: seq<nat>, sid: SessionId, m: nat)
    requires InOrder(log, sent) && m in sent && m < |log| && log[m].sessionId == sid && LastOfItsSession(log, m)
    ensures Replication.PageState(Received(log, sent, sid)) in {Some(log[m].toState), Some(ACTIVE)}
  {
    var n := |sent| - 1;
    if log[sent[n]].sessionId != sid {
      assert m in sent[..n];
      ShowsLastOrActive(log, sent[..n], sid, m);
    }
  }

  /** In every run, once the session's last row is sent, the page shows the server's state or ACTIVE. */
  lemma PageShowsStateOrActive(events: seq<Handlers.Event>, sid: SessionId, m: nat)
    requires m in Air(events).sent && m < |Air(events).world.log| && Air(events).world.log[m].sessionId == sid
    requires LastOfItsSession(Air(events).world.log, m)
    ensures forall a :: 0 <= a < |Air(events).sent| ==> Air(events).sent[a] < |Air(events).world.log|
    ensures Replication.PageState(Received(Air(events).world.log, Air(events).sent, sid))
         in {CurrentState(Air(events).world.log, sid), Some(ACTIVE)}
  {
    EveryRunInOrder(events);
    ShowsLastOrActive(Air(events).world.log, Air(events).sent, sid, m);
    LastIsCurrent(Air(events).world.log, m);
  }

  // ---------------------------------------------------------------- an ended session shown as active

  lemma OneMoreDone(events: seq<Handlers.Event>, e: Handlers.Event)
    ensures Air(events + [e]) == Do(Air(events), e)
  {
    assert (events + [e])[..|events|] == events;
  }

  /** The purchase in the only process has recorded `done` states and sent all but the last. */
  predicate Opens(x: Station, sid: SessionId, tier: Tier, relay: RelayName, done: nat) {
    && 1 <= done <= 4 && x.world.procs == [Process.Opening(sid, tier, relay, 3600, done)]
    && |x.world.log| == done && (forall i :: 0 <= i < done ==> x.world.log[i].sessionId == sid)
    && x.world.log[done - 1].toState == OpeningState(done - 1)
    && x.unsent == map[0 := done - 1] && |x.sent| == done - 1 && forall i :: 0 <= i < done - 1 ==> x.sent[i] == i
  }

  lemma OpensNext(x: Station, sid: SessionId, tier: Tier, relay: RelayName, done: nat, a: Answer)
    requires Opens(x, sid, tier, relay, done) && done < 4
    ensures Opens(Do(Do(x, Resume(0, a)), Resume(0, a)), sid, tier, relay, done + 1)
  {}

  lemma {:induction false} Opened(sid: SessionId, tier: Tier, relay: RelayName, done: nat)
      returns (events: seq<Handlers.Event>)
    requires 1 <= done <= 4
    ensures Opens(Air(events), sid, tier, relay, done)
  {
    var a := Answer(Some(sid), 0, []);
    if done == 1 {
      var begin := BeginPurchase(tier, 1, Some("tx"), Only(relay));
      assert Air([]) == SILENT;
      OneMoreDone([], begin);
      OneMoreDone([] + [begin], Resume(0, a));
      OneMoreDone([] + [begin] + [Resume(0, a)], Resume(0, a));
      events := [] + [begin] + [Resume(0, a)] + [Resume(0, a)];
    } else {
      var before := Opened(sid, tier, relay, done - 1);
      OpensNext(Air(before), sid, tier, relay, done - 1, a);
      OneMoreDone(before, Resume(0, a));
      OneMoreDone(before + [Resume(0, a)], Resume(0, a));
      events := before + [Resume(0, a)] + [Resume(0, a)];
    }
  }

  /** The end request comes in, and its row is written and sent before the purchase's last. */
  lemma Overtakes(x: Station, sid: SessionId, tier: Tier, relay: RelayName, a: Answer) returns (y: Station)
    requires Opens(x, sid, tier, relay, 4)
    ensures y == Do(Do(Do(Do(x, BeginEnd(sid)), Resume(1, a)), Resume(1, a)), Resume(1, a))
    ensures |y.world.log| == 5 && y.world.log[..4] == x.world.log && y.world.log[4].sessionId == sid
    ensures y.world.log[4].toState == EXPIRED_NORMAL && y.unsent == map[0 := 3] && y.sent == x.sent + [4]
  {
    var begun := Do(x, BeginEnd(sid));
    var ending := Do(begun, Resume(1, a));
    assert ending.world.procs[1] == Ending(sid) && ending.world.log == x.world.log && ending.unsent == x.unsent;
    y := Do(Do(ending, Resume(1, a)), Resume(1, a));
  }

  /** And the purchase's last row is sent at the very end. */
  lemma SendsLast(y: Station, sid: SessionId, a: Answer) returns (z: Station)
    requires |y.world.log| == 5 && y.world.log[3].sessionId == y.world.log[4].sessionId == sid
    requires y.unsent == map[0 := 3] && (forall i :: 0 <= i < |y.sent| ==> y.sent[i] < 5)
    ensures z == Do(y, Resume(0, a)) && z.world == y.world && z.unsent == map[]
    ensures forall i :: 0 <= i < |z.sent| ==> z.sent[i] < |z.world.log|
    ensures Replication.PageState(Received(z.world.log, z.sent, sid)) == Some(y.world.log[3].toState)
    ensures CurrentState(z.world.log, sid) == Some(y.world.log[4].toState)
  {
    z := Do(y, Resume(0, a));
    assert z.sent == y.sent + [3];
  }

  /** A run from the start after which every row is sent, the session has ended, and the page shows it ACTIVE. */
  lemma EndedShownActive(sid: SessionId, tier: Tier, relay: RelayName) returns (events: seq<Handlers.Event>)
    ensures Air(events).unsent == map[] && CurrentState(Air(events).world.log, sid) == Some(EXPIRED_NORMAL)
    ensures forall a :: 0 <= a < |Air(events).sent| ==> Air(events).sent[a] < |Air(events).world.log|
    ensures Replication.PageState(Received(Air(events).world.log, Air(events).sent, sid)) == Some(ACTIVE)
  {
    var a := Answer(None, 0, []);
    events := Opened(sid, tier, relay, 4);
    var x := Air(events);
    var y := Overtakes(x, sid, tier, relay, a);
    OneMoreDone(events, BeginEnd(sid));
    OneMoreDone(events + [BeginEnd(sid)], Resume(1, a));
    OneMoreDone(events + [BeginEnd(sid)] + [Resume(1, a)], Resume(1, a));
    OneMoreDone(events + [BeginEnd(sid)] + [Resume(1, a)] + [Resume(1, a)], Resume(1, a));
    events := events + [BeginEnd(sid)] + [Resume(1, a)] + [Resume(1, a)] + [Resume(1, a)];
    assert y.world.log[3] == y.world.log[..4][3] == x.world.log[3];
    var z := SendsLast(y, sid, a);
    OneMoreDone(events, Resume(0, a));
    events := events + [Resume(0, a)];
  }
}
