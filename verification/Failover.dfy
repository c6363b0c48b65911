/** Does a failover end on another relay than the one in use? Always when no other failover of the session
    overlaps its read and its drop, and otherwise exactly when the log between the two says so. */
module Failover {
  import opened Escrow
  import opened Handlers
  import opened Optional
  import opened SessionLog

  // ---------------------------------------------------------------- what the results speak of

  /** A failover of the session that may still write. */
  predicate FailingOver(p: Process, sid: SessionId) {
    (p.Dropping? || HasDropped(p)) && p.sid == sid
  }

  predicate HasDropped(p: Process) { p.Selecting? || p.Choosing? || p.Reopening? || p.Reactivating? }

  /** The world after the first `k` events. */
  function At(events: seq<Handlers.Event>, k: nat): World
    requires k <= |events|
  {
    Run(events[..k])
  }

  /** The relay the session's rows name last between the failover's read and its drop, if they name any. */
  function NamedBetween(log: seq<Row>, sid: SessionId, d: Switch): Option<RelayName> {
    if d.readAt <= d.droppedAt <= |log| then CurrentRelay(log[d.readAt..d.droppedAt], sid) else None
  }

  /** Nothing, or nothing but the relay the failover read, is named in between. */
  predicate NothingElseNamed(log: seq<Row>, p: Process)
    requires HasDropped(p)
  {
    var named := NamedBetween(log, p.sid, p.dropped);
    named.None? || named == Some(p.failed)
  }

  /** The process goes on from `p` with the relay it dropped exactly when the search finds that relay. */
  predicate GoesOn(p: Process, q: Process, eligible: seq<RelayName>)
    requires p.Choosing?
  {
    q.Reopening? && q.dropped == p.dropped
    && (Some(q.next) == q.dropped.relay <==> Pick(eligible, p.failed) == p.dropped.relay)
  }

  /** Resumed with this answer, the process goes on with the relay it dropped. */
  predicate KeepsRelay(events: seq<Handlers.Event>, pid: nat, a: Answer) {
    KeepsDropped(Run(events + [Resume(pid, a)]), pid)
  }

  predicate KeepsDropped(w: World, pid: nat) {
    pid < |w.procs| && w.procs[pid].Reopening? && Some(w.procs[pid].next) == w.procs[pid].dropped.relay
  }

  /** No other failover of the session is in flight in the worlds after `from` to `to` events. */
  predicate Undisturbed(events: seq<Handlers.Event>, pid: nat, sid: SessionId, from: nat, to: nat)
    requires to <= |events|
  {
    forall k, q :: from <= k <= to && 0 <= q < |At(events, k).procs| && q != pid ==>
      !FailingOver(At(events, k).procs[q], sid)
  }

  /** Event `k` is the one in which the process reads the relay it holds as failed. */
  predicate ReadsAt(events: seq<Handlers.Event>, pid: nat, k: nat, sid: SessionId, failed: RelayName, readAt: nat) {
    && k < |events| && events[k].Resume? && events[k].pid == pid && |At(events, k).log| == readAt
    && pid < |At(events, k).procs| && At(events, k).procs[pid].ReadingRelay? && At(events, k).procs[pid].sid == sid
    && CurrentRelay(At(events, k).log, sid) == Some(failed)
  }

  /** Event `k` is the one in which the process records RELAY_UNREACHABLE. */
  predicate DropsAt(events: seq<Handlers.Event>, pid: nat, k: nat, p: Process)
    requires HasDropped(p)
  {
    && k < |events| && events[k].Resume? && events[k].pid == pid && |At(events, k).log| == p.dropped.droppedAt
    && pid < |At(events, k).procs| && At(events, k).procs[pid] == Dropping(p.sid, p.tier, p.failed, p.dropped.readAt)
    && CurrentRelay(At(events, k).log, p.sid) == p.dropped.relay
  }

  // ---------------------------------------------------------------- the results, over every run

  /** In every run, what a failover drops is what it read exactly when the last relay its session's log names
      between the two, if any, is that relay. */
  lemma DropsWhatItReadIff(events: seq<Handlers.Event>, pid: nat)
    requires pid < |Run(events).procs| && HasDropped(Run(events).procs[pid])
    ensures Run(events).procs[pid].dropped.readAt <= Run(events).procs[pid].dropped.droppedAt <= |Run(events).log|
    ensures Run(events).procs[pid].dropped.relay.Some?
    ensures Run(events).procs[pid].dropped.relay == Some(Run(events).procs[pid].failed)
       <==> NothingElseNamed(Run(events).log, Run(events).procs[pid])
  {
    EveryRunRemembers(events);
    DropsWhatItRead(Run(events).log, Run(events).procs[pid]);
  }

  /** In every run, a choosing failover can end on the relay it dropped, for some eligible relays, exactly
      when its session's log names another relay than the one it read, last before its drop. */
  lemma MayKeepRelayIff(events: seq<Handlers.Event>, pid: nat)
    requires pid < |Run(events).procs| && Run(events).procs[pid].Choosing?
    ensures (exists a: Answer :: KeepsRelay(events, pid, a))
       <==> !NothingElseNamed(Run(events).log, Run(events).procs[pid])
  {
    DropsWhatItReadIff(events, pid);
    var p := Run(events).procs[pid];
    if p.dropped.relay != Some(p.failed) {
      var a := Answer(None, 0, Only(p.dropped.relay.value));
      assert Pick(a.eligible, p.failed) == p.dropped.relay;
      ChoiceKeepsRelayIff(events, pid, a);
      assert KeepsRelay(events, pid, a);
    } else {
      forall a: Answer ensures !KeepsRelay(events, pid, a) {
        OneMore(START, events, Resume(pid, a));
        PickDiffers(a.eligible, p.failed);
      }
    }
  }

  /** Every failover of every run read its relay in one event and dropped it in a later one, and if no other
      failover of its session was in flight from the one to the other, whatever happened to other sessions,
      then what it drops is what it read and the relay it chooses is another. */
  lemma UndisturbedFailoverMoves(events: seq<Handlers.Event>, pid: nat) returns (read: nat, drop: nat)
    requires pid < |Run(events).procs| && (Run(events).procs[pid].Reopening? || Run(events).procs[pid].Reactivating?)
    ensures
      var p := Run(events).procs[pid];
      && read < drop && DropsAt(events, pid, drop, p) && ReadsAt(events, pid, read, p.sid, p.failed, p.dropped.readAt)
      && (Undisturbed(events, pid, p.sid, read + 1, drop) ==>
            p.dropped.relay == Some(p.failed) && p.dropped.relay != Some(p.next))
  {
    var p := Run(events).procs[pid];
    drop := DropMoment(events, pid);
    var before := events[..drop];
    read := ReadMoment(before, pid);
    assert before[..read] == events[..read];
    StayedAt(events, drop, pid, Dropping(p.sid, p.tier, p.failed, p.dropped.readAt), read + 1);
    FailoverAvoidsFailedRelay(events, pid);
    if Undisturbed(events, pid, p.sid, read + 1, drop) {
      DropsAsRead(events, pid, p, read, drop);
    }
  }

  /** From the start: a purchase, then two failovers that both read the relay before either drops it. The
      first moves the session to another relay and finishes; the second drops that relay, chooses it again
      and ends on it. */
  lemma OverlappingFailoversKeepRelay(sid: SessionId, tier: Tier, bob: RelayName, carol: RelayName)
      returns (before: seq<Handlers.Event>, later: seq<Handlers.Event>)
    requires bob != carol
    ensures CurrentState(Run(before).log, sid) == Some(ACTIVE) && CurrentRelay(Run(before).log, sid) == Some(carol)
    ensures |Run(before).procs| == 3 && Run(before).procs[1].Dropping? && Run(before).procs[2] == Finished(FailedOver)
    ensures CurrentState(Run(before + later).log, sid) == Some(ACTIVE)
    ensures CurrentRelay(Run(before + later).log, sid) == Some(carol)
    ensures |Run(before + later).procs| == 3 && Run(before + later).procs[1] == Finished(FailedOver)
  {
    var a := Answer(None, 0, [bob, carol]);
    before := Opened(sid, tier, bob, 4);
    before := ReadsRelay(before, sid, tier, bob);
    before := ReadsRelay(before, sid, tier, bob);
    var first := MoveOver(before, 2, sid, tier, bob, carol, a);
    later := MoveOver(before + first, 1, sid, tier, bob, carol, a);
    before := before + first;
  }

  /** In every run, a choosing failover picks the relay it dropped exactly when the search finds that relay. */
  lemma ChoiceKeepsRelayIff(events: seq<Handlers.Event>, pid: nat, a: Answer)
    requires pid < |Run(events).procs| && Run(events).procs[pid].Choosing?
    requires Pick(a.eligible, Run(events).procs[pid].failed).Some?
    ensures pid < |Run(events + [Resume(pid, a)]).procs|
    ensures GoesOn(Run(events).procs[pid], Run(events + [Resume(pid, a)]).procs[pid], a.eligible)
  {
    OneMore(START, events, Resume(pid, a));
  }

  /** A failover never picks the relay it read as failed. */
  lemma FailoverAvoidsFailedRelay(events: seq<Handlers.Event>, pid: nat)
    requires pid < |Run(events).procs| && (Run(events).procs[pid].Reopening? || Run(events).procs[pid].Reactivating?)
    ensures Run(events).procs[pid].next != Run(events).procs[pid].failed
  {
    EveryRunKeepsInv(events);
    assert Good(Run(events).log, Run(events).procs[pid]);
  }

  // ---------------------------------------------------------------- what a failover remembers

  predicate WasRead(log: seq<Row>, sid: SessionId, failed: RelayName, readAt: nat) {
    readAt <= |log| && CurrentRelay(log[..readAt], sid) == Some(failed)
  }

  /** The lengths and relays a failover carries along are those of the log. */
  predicate Remembers(log: seq<Row>, p: Process) {
    if p.Dropping? then WasRead(log, p.sid, p.failed, p.readAt)
    else if HasDropped(p) then
      var d := p.dropped;
      && WasRead(log, p.sid, p.failed, d.readAt) && d.readAt <= d.droppedAt < |log|
      && d.relay == CurrentRelay(log[..d.droppedAt], p.sid)
      && log[d.droppedAt].sessionId == p.sid && log[d.droppedAt].toState == RELAY_UNREACHABLE
    else true
  }

  predicate AllRemember(w: World) { forall i :: 0 <= i < |w.procs| ==> Remembers(w.log, w.procs[i]) }

  lemma DropsWhatItRead(log: seq<Row>, p: Process)
    requires HasDropped(p) && Remembers(log, p)
    ensures p.dropped.readAt <= p.dropped.droppedAt <= |log| && p.dropped.relay.Some?
    ensures p.dropped.relay == Some(p.failed) <==> NothingElseNamed(log, p)
  {
    RelayAfter(log, p.dropped.readAt, p.dropped.droppedAt, p.sid);
  }

  lemma StepAppends(log: seq<Row>, used: set<TxHash>, p: Process, a: Answer)
    ensures
      var f := Step(log, used, p, a);
      f.log == log || (|f.log| == |log| + 1 && f.log == log + [f.log[|log|]])
  {}

  lemma OneRowRemembers(log: seq<Row>, row: Row, p: Process)
    requires Remembers(log, p)
    ensures Remembers(log + [row], p)
  {
    if p.Dropping? {
      assert (log + [row])[..p.readAt] == log[..p.readAt];
    } else if HasDropped(p) {
      assert (log + [row])[..p.dropped.readAt] == log[..p.dropped.readAt];
      assert (log + [row])[..p.dropped.droppedAt] == log[..p.dropped.droppedAt];
    }
  }

  lemma StepRemembers(log: seq<Row>, used: set<TxHash>, p: Process, a: Answer)
    requires Remembers(log, p)
    ensures Remembers(Step(log, used, p, a).log, Step(log, used, p, a).proc)
  {
    var f := Step(log, used, p, a);
    StepAppends(log, used, p, a);
    if p.ReadingRelay? { assert log[..|log|] == log; }
    if f.log != log { OneRowRemembers(log, f.log[|log|], p); }
    if p.Dropping? { assert f.log[..|log|] == log; }
  }

  lemma ApplyRemembers(w: World, e: Handlers.Event)
    requires AllRemember(w)
    ensures AllRemember(Apply(w, e))
  {
    if e.Resume? && e.pid < |w.procs| {
      var f := Step(w.log, w.used, w.procs[e.pid], e.answer);
      StepRemembers(w.log, w.used, w.procs[e.pid], e.answer);
      StepAppends(w.log, w.used, w.procs[e.pid], e.answer);
      forall i | 0 <= i < |w.procs| ensures Remembers(f.log, w.procs[i]) {
        if f.log != w.log { OneRowRemembers(w.log, f.log[|w.log|], w.procs[i]); }
      }
    }
  }

  lemma {:induction false} EveryRunRemembers(events: seq<Handlers.Event>)
    ensures AllRemember(Run(events))
  {
    if events != [] {
      var n := |events| - 1;
      EveryRunRemembers(events[..n]);
      ApplyRemembers(Run(events[..n]), events[n]);
    }
  }

  // ---------------------------------------------------------------- a session past its opening

  /** The failover has found its session active and has not dropped the relay yet. */
  predicate Checked(p: Process) { p.ReadingTier? || p.ReadingRelay? || p.Dropping? }

  /** No purchase is opening the session a failover has found active. */
  predicate OpenedBefore(p: Process, q: Process) {
    Checked(p) && q.Opening? && q.sid == p.sid ==> q.done == 0 || q.done == 4
  }

  predicate Settled(w: World) {
    forall i, j :: 0 <= i < |w.procs| && 0 <= j < |w.procs| ==> OpenedBefore(w.procs[i], w.procs[j])
  }

  /** A purchase that has not recorded PAID cannot record it for a session with rows. */
  lemma NoSecondOpening(log: seq<Row>, used: set<TxHash>, q: Process, a: Answer)
    requires WellFormed(log) && q.Opening? && CurrentState(log, q.sid).Some?
    ensures
      var f := Step(log, used, q, a);
      q.done == 0 ==> f.proc == Finished(InvalidTransition) && f.log == log
  {
    DealIsKept(log, q.sid);
  }

  lemma CheckedHasRows(log: seq<Row>, p: Process)
    requires WellFormed(log) && Good(log, p) && Checked(p)
    ensures CurrentState(log, p.sid).Some?
  {
    DealIsKept(log, p.sid);
  }

  lemma StepSettles(w: World, pid: nat, a: Answer, i: nat)
    requires Handlers.Inv(w) && Settled(w) && pid < |w.procs| && i < |w.procs|
    ensures
      var w' := Apply(w, Resume(pid, a));
      OpenedBefore(w'.procs[i], w'.procs[pid]) && OpenedBefore(w'.procs[pid], w'.procs[i])
  {
    var p, q := w.procs[pid], w.procs[i];
    assert Good(w.log, p) && Good(w.log, q) && OpenedBefore(p, q) && OpenedBefore(q, p);
    if p.Opening? && Checked(q) && p.sid == q.sid {
      CheckedHasRows(w.log, q);
      NoSecondOpening(w.log, w.used, p, a);
    }
  }

  lemma ApplySettles(w: World, e: Handlers.Event)
    requires Handlers.Inv(w) && Settled(w)
    ensures Settled(Apply(w, e))
  {
    var w' := Apply(w, e);
    if e.Resume? && e.pid < |w.procs| {
      forall i, j | 0 <= i < |w'.procs| && 0 <= j < |w'.procs| ensures OpenedBefore(w'.procs[i], w'.procs[j]) {
        if i == e.pid { StepSettles(w, e.pid, e.answer, j); }
        else if j == e.pid { StepSettles(w, e.pid, e.answer, i); }
        else { assert OpenedBefore(w.procs[i], w.procs[j]); }
      }
    } else {
      forall i, j | 0 <= i < |w'.procs| && 0 <= j < |w'.procs| ensures OpenedBefore(w'.procs[i], w'.procs[j]) {
        if i < |w.procs| && j < |w.procs| { assert OpenedBefore(w.procs[i], w.procs[j]); }
      }
    }
  }

  lemma {:induction false} EveryRunSettles(events: seq<Handlers.Event>)
    ensures Settled(Run(events))
  {
    if events != [] {
      var n := |events| - 1;
      EveryRunSettles(events[..n]);
      EveryRunKeepsInv(events[..n]);
      ApplySettles(Run(events[..n]), events[n]);
    }
  }

  // ---------------------------------------------------------------- who names a relay

  /** Between a failover's check and its drop only another failover of the session writes a row that names
      a relay for it. */
  lemma OnlyFailoversName(log: seq<Row>, used: set<TxHash>, q: Process, a: Answer, sid: SessionId)
    requires WellFormed(log) && CurrentState(log, sid).Some? && !FailingOver(q, sid)
    requires q.Opening? && q.sid == sid ==> q.done == 0 || q.done == 4
    ensures
      var f := Step(log, used, q, a);
      f.log == log || (f.log == log + [f.log[|log|]] && (f.log[|log|].sessionId != sid || f.log[|log|].relay.None?))
  {
    if q.Opening? && q.sid == sid { NoSecondOpening(log, used, q, a); }
  }

  /** In the worlds after `from` to `to` events the process is `p`. */
  predicate StaysAt(events: seq<Handlers.Event>, pid: nat, p: Process, from: nat, to: nat)
    requires to <= |events|
  {
    forall k :: from <= k <= to ==> pid < |At(events, k).procs| && At(events, k).procs[pid] == p
  }

  lemma NextWorld(events: seq<Handlers.Event>, k: nat)
    requires k < |events|
    ensures At(events, k + 1) == Apply(At(events, k), events[k])
  {
    assert events[..k + 1][..k] == events[..k];
  }

  lemma {:induction false} NothingNamed(events: seq<Handlers.Event>, pid: nat, p: Process, from: nat, to: nat)
    requires from <= to <= |events| && p.Dropping? && StaysAt(events, pid, p, from, to)
    requires Undisturbed(events, pid, p.sid, from, to) && |At(events, from).log| == p.readAt
    ensures p.readAt <= |At(events, to).log| && CurrentRelay(At(events, to).log[p.readAt..], p.sid).None?
  {
    if from < to {
      NothingNamed(events, pid, p, from, to - 1);
      NextWorld(events, to - 1);
      NothingNamedNext(At(events, to - 1), events[to - 1], pid, p, events[..to - 1]);
    }
  }

  lemma NothingNamedNext(w: World, e: Handlers.Event, pid: nat, p: Process, events: seq<Handlers.Event>)
    requires w == Run(events) && pid < |w.procs| && w.procs[pid] == p && p.Dropping?
    requires pid < |Apply(w, e).procs| && Apply(w, e).procs[pid] == p
    requires forall q :: 0 <= q < |w.procs| && q != pid ==> !FailingOver(w.procs[q], p.sid)
    requires p.readAt <= |w.log| && CurrentRelay(w.log[p.readAt..], p.sid).None?
    ensures p.readAt <= |Apply(w, e).log| && CurrentRelay(Apply(w, e).log[p.readAt..], p.sid).None?
  {
    if e.Resume? && e.pid < |w.procs| {
      assert e.pid != pid;
      EveryRunKeepsInv(events);
      EveryRunSettles(events);
      assert Good(w.log, p) && OpenedBefore(p, w.procs[e.pid]);
      CheckedHasRows(w.log, p);
      OnlyFailoversName(w.log, w.used, w.procs[e.pid], e.answer, p.sid);
      var log := Apply(w, e).log;
      if log != w.log { UnnamedRow(w.log, log[|w.log|], p.readAt, p.sid); }
    }
  }

  lemma UnnamedRow(log: seq<Row>, row: Row, a: nat, sid: SessionId)
    requires a <= |log| && (row.sessionId != sid || row.relay.None?)
    ensures CurrentRelay((log + [row])[a..], sid) == CurrentRelay(log[a..], sid)
  {
    var rows := (log + [row])[a..];
    assert rows[..|rows| - 1] == log[a..];
  }

  // ---------------------------------------------------------------- read and drop as moments of the run

  lemma {:induction false} ReadMoment(events: seq<Handlers.Event>, pid: nat) returns (k: nat)
    requires pid < |Run(events).procs| && Run(events).procs[pid].Dropping?
    ensures
      var p := Run(events).procs[pid];
      ReadsAt(events, pid, k, p.sid, p.failed, p.readAt) && StaysAt(events, pid, p, k + 1, |events|)
  {
    var n, p := |events| - 1, Run(events).procs[pid];
    var w := Run(events[..n]);
    assert events[..n + 1] == events;
    if pid < |w.procs| && w.procs[pid] == p {
      k := ReadMoment(events[..n], pid);
      assert events[..n][..k] == events[..k];
      StayedAt(events, n, pid, p, k + 1);
      StaysOneMore(events, n, pid, p, k + 1);
    } else {
      k := n;
      StaysOneMore(events, n, pid, p, n + 1);
    }
  }

  /** A stretch of the run up to `n` events is a stretch of the whole run. */
  lemma StayedAt(events: seq<Handlers.Event>, n: nat, pid: nat, p: Process, from: nat)
    requires n <= |events| && StaysAt(events[..n], pid, p, from, n)
    ensures StaysAt(events, pid, p, from, n)
  {
    forall k | from <= k <= n ensures pid < |At(events, k).procs| && At(events, k).procs[pid] == p {
      assert events[..n][..k] == events[..k];
      assert At(events[..n], k) == At(events, k);
    }
  }

  lemma StaysOneMore(events: seq<Handlers.Event>, n: nat, pid: nat, p: Process, from: nat)
    requires |events| == n + 1 && from <= n + 1 && (from <= n ==> StaysAt(events, pid, p, from, n))
    requires pid < |Run(events).procs| && Run(events).procs[pid] == p
    ensures StaysAt(events, pid, p, from, n + 1)
  {
    assert events[..n + 1] == events;
  }

  /** A failover past its drop was past it before the event with the same facts, or drops in the event. */
  lemma DroppedBefore(w: World, e: Handlers.Event, pid: nat)
    requires pid < |Apply(w, e).procs| && HasDropped(Apply(w, e).procs[pid])
    ensures pid < |w.procs|
    ensures
      var p, q := Apply(w, e).procs[pid], w.procs[pid];
      if HasDropped(q) then q.sid == p.sid && q.tier == p.tier && q.failed == p.failed && q.dropped == p.dropped
      else
        && e.Resume? && e.pid == pid && q == Dropping(p.sid, p.tier, p.failed, p.dropped.readAt)
        && p.dropped == Switch(CurrentRelay(w.log, p.sid), q.readAt, |w.log|)
  {}

  lemma {:induction false} DropMoment(events: seq<Handlers.Event>, pid: nat) returns (k: nat)
    requires pid < |Run(events).procs| && HasDropped(Run(events).procs[pid])
    ensures DropsAt(events, pid, k, Run(events).procs[pid])
  {
    var n := |events| - 1;
    DroppedBefore(Run(events[..n]), events[n], pid);
    if HasDropped(Run(events[..n]).procs[pid]) {
      k := DropMoment(events[..n], pid);
      assert events[..n][..k] == events[..k];
    } else {
      k := n;
    }
  }

  lemma DropsAsRead(events: seq<Handlers.Event>, pid: nat, p: Process, read: nat, drop: nat)
    requires HasDropped(p) && read < drop && DropsAt(events, pid, drop, p)
    requires ReadsAt(events, pid, read, p.sid, p.failed, p.dropped.readAt)
    requires StaysAt(events, pid, Dropping(p.sid, p.tier, p.failed, p.dropped.readAt), read + 1, drop)
    requires Undisturbed(events, pid, p.sid, read + 1, drop)
    ensures p.dropped.relay == Some(p.failed)
  {
    NextWorld(events, read);
    NothingNamed(events, pid, Dropping(p.sid, p.tier, p.failed, p.dropped.readAt), read + 1, drop);
    var log := At(events, drop).log;
    EveryRunRemembers(events[..drop]);
    assert Remembers(log, At(events, drop).procs[pid]);
    RelayAfter(log, p.dropped.readAt, |log|, p.sid);
    assert log[..|log|] == log && log[p.dropped.readAt..|log|] == log[p.dropped.readAt..];
  }

  // ---------------------------------------------------------------- two failovers that overlap

  /** The purchase in the only process records its next state. */
  lemma OpensOne(w: World, sid: SessionId, tier: Tier, bob: RelayName, done: nat, a: Answer) returns (w': World)
    requires done < 4 && w.procs == [Process.Opening(sid, tier, bob, 3600, done)]
    requires CurrentState(w.log, sid) == if done == 0 then None else Some(OpeningState(done - 1))
    ensures w' == Apply(w, Resume(0, a)) && w'.procs == [Process.Opening(sid, tier, bob, 3600, done + 1)]
    ensures CurrentState(w'.log, sid) == Some(OpeningState(done))
    ensures CurrentTier(w'.log, sid) == Some(tier) && CurrentRelay(w'.log, sid) == Some(bob)
  {
    w' := Apply(w, Resume(0, a));
    var row := NewRow(w.log, sid, OpeningState(done), Options(Some(bob), Some(tier), Some(3600))).value;
    assert (w.log + [row])[..|w.log|] == w.log;
  }

  /** A verified purchase that has recorded nothing yet. */
  lemma Bought(sid: SessionId, tier: Tier, bob: RelayName) returns (events: seq<Handlers.Event>)
    ensures Run(events).log == [] && Run(events).procs == [Process.Opening(sid, tier, bob, 3600, 0)]
  {
    var begin, a := BeginPurchase(tier, 1, Some("tx"), Only(bob)), Answer(Some(sid), 0, []);
    OneMore(START, [], begin);
    assert Run([]) == START;
    OneMore(START, [] + [begin], Resume(0, a));
    events := [] + [begin] + [Resume(0, a)];
  }

  /** A session bought and opened on `bob`, by the only process so far. */
  lemma {:induction false} Opened(sid: SessionId, tier: Tier, bob: RelayName, done: nat)
      returns (events: seq<Handlers.Event>)
    requires 1 <= done <= 4
    ensures
      var w := Run(events);
      && w.procs == [Process.Opening(sid, tier, bob, 3600, done)]
      && CurrentState(w.log, sid) == Some(OpeningState(done - 1))
      && CurrentTier(w.log, sid) == Some(tier) && CurrentRelay(w.log, sid) == Some(bob)
  {
    var a := Answer(None, 0, []);
    var before := [];
    if done == 1 { before := Bought(sid, tier, bob); } else { before := Opened(sid, tier, bob, done - 1); }
    var w := OpensOne(Run(before), sid, tier, bob, done - 1, a);
    OneMore(START, before, Resume(0, a));
    events := before + [Resume(0, a)];
  }

  /** One more failover begins and reads the relay. */
  lemma ReadsRelay(events: seq<Handlers.Event>, sid: SessionId, tier: Tier, bob: RelayName)
      returns (more: seq<Handlers.Event>)
    requires CurrentState(Run(events).log, sid) == Some(ACTIVE)
    requires CurrentTier(Run(events).log, sid) == Some(tier) && CurrentRelay(Run(events).log, sid) == Some(bob)
    ensures
      var w := Run(events);
      Run(more) == w.(procs := w.procs + [Dropping(sid, tier, bob, |w.log|)])
  {
    var w, i, a := Run(events), |Run(events).procs|, Answer(None, 0, []);
    OneMore(START, events, BeginFailover(sid));
    more := events + [BeginFailover(sid)];
    OnlyReads(more, i, a, ReadingTier(sid));
    more := more + [Resume(i, a)];
    OnlyReads(more, i, a, ReadingRelay(sid, Some(tier)));
    more := more + [Resume(i, a)];
    OnlyReads(more, i, a, Dropping(sid, tier, bob, |w.log|));
    more := more + [Resume(i, a)];
    assert Run(more).procs == w.procs + [Dropping(sid, tier, bob, |w.log|)];
  }

  /** A resumption that only reads. */
  lemma OnlyReads(events: seq<Handlers.Event>, i: nat, a: Answer, next: Process)
    requires i < |Run(events).procs|
    requires Step(Run(events).log, Run(events).used, Run(events).procs[i], a)
          == Effect(Run(events).log, Run(events).used, next)
    ensures Run(events + [Resume(i, a)]) == Run(events).(procs := Run(events).procs[i := next])
  {
    OneMore(START, events, Resume(i, a));
  }

  lemma PickSecond(bob: RelayName, carol: RelayName)
    requires bob != carol
    ensures Pick([bob, carol], bob) == Some(carol)
  {
    assert [bob, carol][1..] == [carol];
  }

  lemma Chooses(w: World, j: nat, sid: SessionId, tier: Tier, bob: RelayName, d: Switch, carol: RelayName, a: Answer)
    requires j < |w.procs| && bob != carol && a.eligible == [bob, carol] && w.procs[j] == Choosing(sid, tier, bob, d)
    ensures Apply(w, Resume(j, a)) == w.(procs := w.procs[j := Reopening(sid, tier, bob, d, carol)])
  {
    PickSecond(bob, carol);
  }

  /** The failover's first half: drop, select and choose. */
  lemma DropAndChoose(
    w: World, j: nat, sid: SessionId, tier: Tier, bob: RelayName, readAt: nat, carol: RelayName, a: Answer)
      returns (w': World)
    requires j < |w.procs| && bob != carol && a.eligible == [bob, carol]
    requires w.procs[j] == Dropping(sid, tier, bob, readAt) && CurrentState(w.log, sid) == Some(ACTIVE)
    ensures w' == RunFrom(w, [Resume(j, a)] + [Resume(j, a)] + [Resume(j, a)])
    ensures CurrentState(w'.log, sid) == Some(FAILOVER_SELECT)
    ensures w'.procs
         == w.procs[j := Reopening(sid, tier, bob, Switch(CurrentRelay(w.log, sid), readAt, |w.log|), carol)]
  {
    var r, d := Resume(j, a), Switch(CurrentRelay(w.log, sid), readAt, |w.log|);
    var w1 := Recorded(w, j, a, sid, RELAY_UNREACHABLE, Options(Some(bob), None, None), Selecting(sid, tier, bob, d));
    var w2 := Recorded(w1, j, a, sid, FAILOVER_SELECT, Options(Some(bob), None, None), Choosing(sid, tier, bob, d));
    w' := Apply(w2, r);
    Chooses(w2, j, sid, tier, bob, d, carol, a);
    assert w1 == RunFrom(w, [r]) by { assert [r][..0] == []; }
    OneMore(w, [r], r);
    OneMore(w, [r] + [r], r);
  }

  /** The second half: reopen and reactivate on the chosen relay. */
  lemma ReopenAndActivate(
    w: World, j: nat, sid: SessionId, tier: Tier, bob: RelayName, d: Switch, carol: RelayName, a: Answer)
      returns (w': World)
    requires j < |w.procs|
    requires w.procs[j] == Reopening(sid, tier, bob, d, carol) && CurrentState(w.log, sid) == Some(FAILOVER_SELECT)
    ensures w' == RunFrom(w, [Resume(j, a)] + [Resume(j, a)])
    ensures CurrentState(w'.log, sid) == Some(ACTIVE) && CurrentRelay(w'.log, sid) == Some(carol)
    ensures w'.procs == w.procs[j := Finished(FailedOver)]
  {
    var r := Resume(j, a);
    var o := Options(Some(carol), Some(tier), None);
    var w1 := Recorded(w, j, a, sid, TUNNEL_OPEN, o, Reactivating(sid, tier, bob, d, carol));
    w' := Recorded(w1, j, a, sid, ACTIVE, o, Finished(FailedOver));
    assert w1 == RunFrom(w, [r]) by { assert [r][..0] == []; }
    OneMore(w, [r], r);
  }

  /** A failover that has read `bob` runs straight on, on two eligible relays. */
  lemma MoveOver(
    events: seq<Handlers.Event>, j: nat, sid: SessionId, tier: Tier, bob: RelayName, carol: RelayName, a: Answer)
      returns (more: seq<Handlers.Event>)
    requires j < |Run(events).procs| && bob != carol && a.eligible == [bob, carol]
    requires Run(events).procs[j].Dropping? && CurrentState(Run(events).log, sid) == Some(ACTIVE)
    requires Run(events).procs[j] == Dropping(sid, tier, bob, Run(events).procs[j].readAt)
    ensures CurrentState(Run(events + more).log, sid) == Some(ACTIVE)
    ensures CurrentRelay(Run(events + more).log, sid) == Some(carol)
    ensures Run(events + more).procs == Run(events).procs[j := Finished(FailedOver)]
  {
    var w, r := Run(events), Resume(j, a);
    var d := Switch(CurrentRelay(w.log, sid), w.procs[j].readAt, |w.log|);
    var w1 := DropAndChoose(w, j, sid, tier, bob, w.procs[j].readAt, carol, a);
    var w2 := ReopenAndActivate(w1, j, sid, tier, bob, d, carol, a);
    more := ([r] + [r] + [r]) + ([r] + [r]);
    RunsCompose(w, [r] + [r] + [r], [r] + [r]);
    RunsCompose(START, events, more);
  }
}
