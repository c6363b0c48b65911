/** The handlers as the request code runs them: one call straight through. Each is its process of `Handlers`
    resumed without interruption until it finishes, on the same table, the same set of used transactions and the
    same answers from outside. */
module Orchestrator {
  import opened Escrow
  import opened Handlers
  import opened Optional
  import opened SessionLog

  function Rank(p: Process): nat {
    match p
    case Verifying(_, _, _, _) => 6
    case Opening(_, _, _, _, done) => if done < 4 then 5 - done else 1
    case CheckingActive(_) => 8
    case ReadingTier(_) => 7
    case ReadingRelay(_, _) => 6
    case Dropping(_, _, _, _) => 5
    case Selecting(_, _, _, _) => 4
    case Choosing(_, _, _, _) => 3
    case Reopening(_, _, _, _, _) => 2
    case Reactivating(_, _, _, _, _) => 1
    case CheckingEnd(_) => 2
    case Ending(_) => 1
    case Finished(_) => 0
  }

  /** Runs a process alone to its reply, the world answering `a` throughout. */
  function Alone(log: seq<Row>, used: set<TxHash>, p: Process, a: Answer): Effect
    decreases Rank(p)
  {
    if p.Finished? then Effect(log, used, p) else
      var f := Step(log, used, p, a);
      Alone(f.log, f.used, f.proc, a)
  }

  lemma AloneStep(log: seq<Row>, used: set<TxHash>, p: Process, a: Answer)
    requires !p.Finished?
    ensures var f := Step(log, used, p, a);
            Alone(log, used, p, a) == Alone(f.log, f.used, f.proc, a)
  {}

  /** The three reads a failover starts with. */
  lemma AloneReads(log: seq<Row>, used: set<TxHash>, sid: SessionId, a: Answer)
    ensures var tier, failed := CurrentTier(log, sid), CurrentRelay(log, sid);
            Alone(log, used, CheckingActive(sid), a) ==
              if CurrentState(log, sid) != Some(ACTIVE) then Effect(log, used, Finished(BadRequest))
              else if tier.None? || failed.None? then Effect(log, used, Finished(MissingMetadata))
              else Alone(log, used, Dropping(sid, tier.value, failed.value, |log|), a)
  {
    AloneStep(log, used, CheckingActive(sid), a);
    if CurrentState(log, sid) == Some(ACTIVE) {
      AloneStep(log, used, ReadingTier(sid), a);
      AloneStep(log, used, ReadingRelay(sid, CurrentTier(log, sid)), a);
    }
  }

  class Server {
    const store: SessionStore
    var usedTxHashes: set<TxHash>
    /** What has been broadcast, oldest first. */
    var broadcasts: seq<Row>

    /** How many rows the table already held when this process started. */
    ghost const inherited: nat

    /** Everything recorded since the start has been broadcast, in the order of the log. */
    ghost predicate Valid()
      reads this, store
    {
      inherited <= |store.rows| && broadcasts == store.rows[inherited..]
    }

    /** A start or restart on an existing table: nothing is remembered of earlier payments. */
    constructor (store: SessionStore)
      ensures Valid() && this.store == store && usedTxHashes == {} && broadcasts == []
    {
      this.store := store;
      this.inherited := |store.rows|;
      usedTxHashes, broadcasts := {}, [];
    }

    /** Records a transition and broadcasts its row: the step from `p` to `next` of the running process. */
    method Record(sid: SessionId, to: SessionState, o: Options, ghost p: Process, ghost next: Process, ghost a: Answer)
        returns (ok: bool)
      requires Valid() && !p.Finished?
      requires Step(store.rows, usedTxHashes, p, a) == Handlers.Record(store.rows, usedTxHashes, sid, to, o, next)
      modifies this`broadcasts, store
      ensures Valid()
      ensures ok ==> Alone(old(store.rows), usedTxHashes, p, a) == Alone(store.rows, usedTxHashes, next, a)
      ensures !ok ==>
        Alone(old(store.rows), usedTxHashes, p, a) == Effect(store.rows, usedTxHashes, Finished(InvalidTransition))
    {
      AloneStep(store.rows, usedTxHashes, p, a);
      var row := store.RecordTransition(sid, to, o);
      ok := row.Some?;
      if ok { broadcasts := broadcasts + [row.value]; }
    }

    method PurchaseSession(
      tier: Tier, hours: nat, tx: Option<TxHash>, eligible: seq<RelayName>, verified: Option<SessionId>, now: nat)
        returns (reply: Reply)
      requires Valid()
      modifies this`usedTxHashes, this`broadcasts, store
      ensures
        var p := Admit(old(usedTxHashes), tier, hours, tx, eligible);
        Alone(old(store.rows), old(usedTxHashes), p, Answer(verified, now, eligible))
        == Effect(store.rows, usedTxHashes, Finished(reply))
      ensures Valid()
    {
      if hours < 1 || hours > MAX_SESSION_HOURS { return BadRequest; }
      if |eligible| == 0 { return BadRequest; }
      if tx.None? { return PaymentRequired; }
      if tx.value in usedTxHashes { return PaymentReused; }
      ghost var a, log, used := Answer(verified, now, eligible), store.rows, usedTxHashes;
      if verified.None? { return PaymentUnverified; }
      usedTxHashes := usedTxHashes + {tx.value};
      var relay := eligible[0];
      var expiresAt := now + hours * 3600;
      var sid := verified.value;
      for k := 0 to 4
        invariant usedTxHashes == used + {tx.value}
        invariant Valid()
        invariant Alone(log, used, Verifying(tier, hours, tx.value, relay), a)
                  == Alone(store.rows, usedTxHashes, Process.Opening(sid, tier, relay, expiresAt, k), a)
      {
        ghost var p := Process.Opening(sid, tier, relay, expiresAt, k);
        var o := Options(Some(relay), Some(tier), Some(expiresAt));
        var ok := Record(sid, OpeningState(k), o, p, p.(done := k + 1), a);
        if !ok { return InvalidTransition; }
      }
      return TokenIssued(sid);
    }

    method ForceRelayFailure(sid: SessionId, eligible: seq<RelayName>) returns (reply: Reply)
      requires Valid()
      modifies this`broadcasts, store
      ensures Alone(old(store.rows), usedTxHashes, CheckingActive(sid), Answer(None, 0, eligible))
              == Effect(store.rows, usedTxHashes, Finished(reply))
      ensures Valid()
    {
      ghost var a, used, log := Answer(None, 0, eligible), usedTxHashes, store.rows;
      AloneReads(log, used, sid, a);
      if CurrentState(store.rows, sid) != Some(ACTIVE) { return BadRequest; }
      var tier := CurrentTier(store.rows, sid);
      var failed := CurrentRelay(store.rows, sid);
      if tier.None? || failed.None? { return MissingMetadata; }
      var ok := LeaveRelay(sid, tier.value, failed.value, a);
      if !ok { return InvalidTransition; }
      ghost var d := Switch(failed, |log|, |log|);
      ghost var p2 := Choosing(sid, tier.value, failed.value, d);
      var next := Pick(eligible, failed.value);
      AloneStep(store.rows, used, p2, a);
      if next.None? { return NoOtherRelay; }
      ok := MoveTo(sid, tier.value, failed.value, next.value, d, a);
      return if ok then FailedOver else InvalidTransition;
    }

    /** The failover's first two transitions, off the relay it read. */
    method LeaveRelay(sid: SessionId, tier: Tier, failed: RelayName, ghost a: Answer) returns (ok: bool)
      requires Valid() && CurrentRelay(store.rows, sid) == Some(failed)
      modifies this`broadcasts, store
      ensures Valid()
      ensures
        var d := Switch(Some(failed), |old(store.rows)|, |old(store.rows)|);
        Alone(old(store.rows), usedTxHashes, Dropping(sid, tier, failed, d.readAt), a)
        == if ok then Alone(store.rows, usedTxHashes, Choosing(sid, tier, failed, d), a)
           else Effect(store.rows, usedTxHashes, Finished(InvalidTransition))
    {
      ghost var d := Switch(Some(failed), |store.rows|, |store.rows|);
      ghost var p0, p1 := Dropping(sid, tier, failed, d.readAt), Selecting(sid, tier, failed, d);
      ghost var p2 := Choosing(sid, tier, failed, d);
      ok := Record(sid, RELAY_UNREACHABLE, Options(Some(failed), None, None), p0, p1, a);
      if !ok { return; }
      ok := Record(sid, FAILOVER_SELECT, Options(Some(failed), None, None), p1, p2, a);
    }

    /** The failover's last two transitions, onto the relay it chose. */
    method MoveTo(sid: SessionId, tier: Tier, failed: RelayName, next: RelayName, ghost d: Switch, ghost a: Answer)
        returns (ok: bool)
      requires Valid()
      modifies this`broadcasts, store
      ensures Valid()
      ensures Alone(old(store.rows), usedTxHashes, Reopening(sid, tier, failed, d, next), a)
              == Effect(store.rows, usedTxHashes, Finished(if ok then FailedOver else InvalidTransition))
    {
      ghost var p3, p4 := Reopening(sid, tier, failed, d, next), Reactivating(sid, tier, failed, d, next);
      ok := Record(sid, TUNNEL_OPEN, Options(Some(next), Some(tier), None), p3, p4, a);
      if !ok { return; }
      ok := Record(sid, ACTIVE, Options(Some(next), Some(tier), None), p4, Finished(FailedOver), a);
    }

    method EndSession(sid: SessionId) returns (reply: Reply)
      requires Valid()
      modifies this`broadcasts, store
      ensures Alone(old(store.rows), usedTxHashes, CheckingEnd(sid), Answer(None, 0, []))
              == Effect(store.rows, usedTxHashes, Finished(reply))
      ensures Valid()
    {
      AloneStep(store.rows, usedTxHashes, CheckingEnd(sid), Answer(None, 0, []));
      if CurrentState(store.rows, sid) != Some(ACTIVE) { return BadRequest; }
      var o := Options(None, None, None);
      var ok := Record(sid, EXPIRED_NORMAL, o, Ending(sid), Finished(Ended), Answer(None, 0, []));
      if !ok { return InvalidTransition; }
      return Ended;
    }
  }

  /** A lone process resumed once. */
  lemma AloneResumes(w: World, a: Answer)
    requires |w.procs| == 1 && !w.procs[0].Finished?
    ensures var w' := Apply(w, Resume(0, a));
            Alone(w.log, w.used, w.procs[0], a) == Alone(w'.log, w'.used, w'.procs[0], a)
  {}

  lemma AloneChooses(w: World, sid: SessionId, tier: Tier, failed: RelayName, readAt: nat, a: Answer)
      returns (w': World)
    requires w.procs == [Dropping(sid, tier, failed, readAt)] && CurrentState(w.log, sid) == Some(ACTIVE)
    ensures |w'.procs| == 1 && Alone(w.log, w.used, w.procs[0], a) == Alone(w'.log, w'.used, w'.procs[0], a)
    ensures w'.procs[0] == Choosing(sid, tier, failed, Switch(CurrentRelay(w.log, sid), readAt, |w.log|))
    ensures CurrentState(w'.log, sid) == Some(FAILOVER_SELECT)
  {
    var dropped := Switch(CurrentRelay(w.log, sid), readAt, |w.log|);
    var o := Options(Some(failed), None, None);
    var w1 := Recorded(w, 0, a, sid, RELAY_UNREACHABLE, o, Selecting(sid, tier, failed, dropped));
    AloneResumes(w, a);
    w' := Recorded(w1, 0, a, sid, FAILOVER_SELECT, o, Choosing(sid, tier, failed, dropped));
    AloneResumes(w1, a);
  }

  lemma AloneReopens(
    w: World, sid: SessionId, tier: Tier, failed: RelayName, dropped: Switch, next: RelayName, a: Answer)
      returns (w': World)
    requires w.procs == [Reopening(sid, tier, failed, dropped, next)]
    requires CurrentState(w.log, sid) == Some(FAILOVER_SELECT)
    ensures |w'.procs| == 1 && Alone(w.log, w.used, w.procs[0], a) == Effect(w'.log, w'.used, Finished(FailedOver))
    ensures CurrentState(w'.log, sid) == Some(ACTIVE) && CurrentRelay(w'.log, sid) == Some(next)
  {
    var o := Options(Some(next), Some(tier), None);
    var w1 := Recorded(w, 0, a, sid, TUNNEL_OPEN, o, Reactivating(sid, tier, failed, dropped, next));
    AloneResumes(w, a);
    w' := Recorded(w1, 0, a, sid, ACTIVE, o, Finished(FailedOver));
    AloneResumes(w1, a);
  }

  /** The failover handler run straight through on an active session always ends on another relay,
      or stops for want of one. */
  lemma FailoverAloneChangesRelay(log: seq<Row>, used: set<TxHash>, sid: SessionId, a: Answer)
    requires CurrentState(log, sid) == Some(ACTIVE)
    ensures var f := Alone(log, used, CheckingActive(sid), a);
            && f.proc in {Finished(MissingMetadata), Finished(NoOtherRelay), Finished(FailedOver)}
            && (f.proc == Finished(FailedOver) ==>
                  && CurrentState(f.log, sid) == Some(ACTIVE)
                  && CurrentRelay(f.log, sid).Some? && CurrentRelay(f.log, sid) != CurrentRelay(log, sid))
  {
    AloneReads(log, used, sid, a);
    var tier, failed := CurrentTier(log, sid), CurrentRelay(log, sid);
    if tier.Some? && failed.Some? {
      var w := World(log, used, [Dropping(sid, tier.value, failed.value, |log|)]);
      var w1 := AloneChooses(w, sid, tier.value, failed.value, |log|, a);
      PickDiffers(a.eligible, failed.value);
      AloneResumes(w1, a);
      var next := Pick(a.eligible, failed.value);
      if next.Some? {
        var w2 := Apply(w1, Resume(0, a));
        var d := Switch(failed, |log|, |log|);
        assert w2.procs == [Reopening(sid, tier.value, failed.value, d, next.value)];
        var w3 := AloneReopens(w2, sid, tier.value, failed.value, d, next.value, a);
      }
    }
  }
}
