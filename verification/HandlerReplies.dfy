/** What each handler answers and writes, spelled out. */
module HandlerReplies {
  import opened Escrow
  import opened Handlers
  import opened Optional
  import opened Orchestrator
  import opened SessionLog

  // ---------------------------------------------------------------- payments used before

  /** Event `k` resumes a purchase whose check of the transaction has passed. */
  predicate VerifiesAt(events: seq<Handlers.Event>, k: nat, tx: TxHash) {
    && k < |events| && events[k].Resume? && events[k].answer.verified.Some?
    && events[k].pid < |Run(events[..k]).procs|
    && var p := Run(events[..k]).procs[events[k].pid];
    p.Verifying? && p.tx == tx
  }

  predicate NoRestartSince(events: seq<Handlers.Event>, k: nat) {
    forall j :: k <= j < |events| ==> !events[j].Restart?
  }

  /** A purchase with the transaction has passed its check since the last restart. */
  ghost predicate UsedBefore(events: seq<Handlers.Event>, tx: TxHash) {
    exists k: nat :: VerifiesAt(events, k, tx) && NoRestartSince(events, k)
  }

  lemma VerifiedEarlier(events: seq<Handlers.Event>, tx: TxHash, k: nat)
    requires k < |events| - 1
    ensures VerifiesAt(events, k, tx) <==> VerifiesAt(events[..|events| - 1], k, tx)
  {
    assert events[..|events| - 1][..k] == events[..k];
  }

  lemma UsedBeforeStays(events: seq<Handlers.Event>, tx: TxHash)
    requires events != [] && UsedBefore(events[..|events| - 1], tx) && !events[|events| - 1].Restart?
    ensures UsedBefore(events, tx)
  {
    var n := |events| - 1;
    var k: nat :| VerifiesAt(events[..n], k, tx) && NoRestartSince(events[..n], k);
    VerifiedEarlier(events, tx, k);
    assert NoRestartSince(events, k);
  }

  lemma UsedEarlier(events: seq<Handlers.Event>, tx: TxHash)
    requires events != []
    ensures
      var n := |events| - 1;
      UsedBefore(events, tx) <==>
        (UsedBefore(events[..n], tx) && !events[n].Restart?) || VerifiesAt(events, n, tx)
  {
    var n := |events| - 1;
    if UsedBefore(events[..n], tx) && !events[n].Restart? {
      UsedBeforeStays(events, tx);
    } else if VerifiesAt(events, n, tx) {
      assert NoRestartSince(events, n);
    } else if k: nat :| VerifiesAt(events, k, tx) && NoRestartSince(events, k) {
      VerifiedEarlier(events, tx, k);
      assert NoRestartSince(events[..n], k);
    }
  }

  lemma {:induction false} UsedIff(events: seq<Handlers.Event>, tx: TxHash)
    ensures tx in Run(events).used <==> UsedBefore(events, tx)
  {
    if events != [] {
      UsedIff(events[..|events| - 1], tx);
      UsedEarlier(events, tx);
    }
  }

  /** In every run a purchase request is refused as malformed exactly for a bad length or want of a relay, asked
      for payment exactly without a transaction, refused as used exactly if its transaction passed a check since
      the last restart, and otherwise goes to the check with the first eligible relay. */
  lemma PurchaseIsAdmittedIff(
    events: seq<Handlers.Event>, tier: Tier, hours: nat, tx: Option<TxHash>, eligible: seq<RelayName>)
    ensures
      var before, after := Run(events), Run(events + [BeginPurchase(tier, hours, tx, eligible)]);
      var valid := 1 <= hours <= 24 && eligible != [];
      && |after.procs| == |before.procs| + 1 && after.log == before.log && after.used == before.used
      && var p := after.procs[|before.procs|];
      && (p == Finished(BadRequest) <==> !valid)
      && (p == Finished(PaymentRequired) <==> valid && tx.None?)
      && (p == Finished(PaymentReused) <==> valid && tx.Some? && UsedBefore(events, tx.value))
      && (p.Verifying? <==> valid && tx.Some? && !UsedBefore(events, tx.value))
      && (p.Verifying? ==> p == Verifying(tier, hours, tx.value, eligible[0]))
  {
    OneMore(START, events, BeginPurchase(tier, hours, tx, eligible));
    if tx.Some? { UsedIff(events, tx.value); }
  }

  // ---------------------------------------------------------------- restarts

  /** Whoever was running when the orchestrator restarted never writes again, and who had answered has answered. */
  lemma {:induction false} RestartEndsAll(events: seq<Handlers.Event>, later: seq<Handlers.Event>, pid: nat)
    requires pid < |Run(events).procs|
    ensures
      var before, w := Run(events), Run(events + [Restart] + later);
      && pid < |w.procs|
      && w.procs[pid] == if before.procs[pid].Finished? then before.procs[pid] else Finished(Killed)
  {
    var start := events + [Restart];
    if later == [] {
      assert start + later == start;
      OneMore(START, events, Restart);
    } else {
      var n := |later| - 1;
      RestartEndsAll(events, later[..n], pid);
      assert start + later == start + later[..n] + [later[n]];
      OneMore(START, start + later[..n], later[n]);
    }
  }

  // ---------------------------------------------------------------- a purchase

  /** The rows a session is opened with. */
  function OpeningRows(n: nat, sid: SessionId, relay: RelayName, tier: Tier, expiresAt: nat): seq<Row> {
    [Row(n + 1, sid, None, PAID, Some(relay), Some(tier), Some(expiresAt)),
     Row(n + 2, sid, Some(PAID), TOKEN_ISSUED, Some(relay), Some(tier), Some(expiresAt)),
     Row(n + 3, sid, Some(TOKEN_ISSUED), TUNNEL_OPEN, Some(relay), Some(tier), Some(expiresAt)),
     Row(n + 4, sid, Some(TUNNEL_OPEN), ACTIVE, Some(relay), Some(tier), Some(expiresAt))]
  }

  lemma OpensOn(
    log: seq<Row>, used: set<TxHash>, sid: SessionId, relay: RelayName, tier: Tier, expiresAt: nat, done: nat,
    n: nat, a: Answer)
    requires done <= 4 && |log| == n + done && expiresAt > 0
    requires CurrentState(log, sid) == if done == 0 then None else Some(OpeningState(done - 1))
    ensures Alone(log, used, Process.Opening(sid, tier, relay, expiresAt, done), a)
         == Effect(log + OpeningRows(n, sid, relay, tier, expiresAt)[done..], used, Finished(TokenIssued(sid)))
    decreases 4 - done
  {
    var p := Process.Opening(sid, tier, relay, expiresAt, done);
    var rows := OpeningRows(n, sid, relay, tier, expiresAt);
    AloneStep(log, used, p, a);
    if done < 4 {
      var row := NewRow(log, sid, OpeningState(done), Options(Some(relay), Some(tier), Some(expiresAt))).value;
      assert row == rows[done];
      Grow(log, row, sid);
      OpensOn(log + [row], used, sid, relay, tier, expiresAt, done + 1, n, a);
      assert log + rows[done..] == log + [row] + rows[done + 1..];
    } else {
      assert log + rows[done..] == log;
    }
  }

  lemma TurnedAway(
    log: seq<Row>, used: set<TxHash>, sid: SessionId, relay: RelayName, tier: Tier, expiresAt: nat, a: Answer)
    requires WellFormed(log) && CurrentState(log, sid).Some?
    ensures Alone(log, used, Process.Opening(sid, tier, relay, expiresAt, 0), a)
         == Effect(log, used, Finished(InvalidTransition))
  {
    DealIsKept(log, sid);
    AloneStep(log, used, Process.Opening(sid, tier, relay, expiresAt, 0), a);
  }

  lemma CheckPasses(
    log: seq<Row>, used: set<TxHash>, tier: Tier, hours: nat, tx: TxHash, relay: RelayName, a: Answer)
    requires a.verified.Some?
    ensures Alone(log, used, Verifying(tier, hours, tx, relay), a)
         == Alone(log, used + {tx}, Process.Opening(a.verified.value, tier, relay, a.now + 3600 * hours, 0), a)
  {
    AloneStep(log, used, Verifying(tier, hours, tx, relay), a);
  }

  lemma OpensNew(
    log: seq<Row>, used: set<TxHash>, sid: SessionId, relay: RelayName, tier: Tier, expiresAt: nat, a: Answer)
    requires expiresAt > 0 && CurrentState(log, sid).None?
    ensures Alone(log, used, Process.Opening(sid, tier, relay, expiresAt, 0), a)
         == Effect(log + OpeningRows(|log|, sid, relay, tier, expiresAt), used, Finished(TokenIssued(sid)))
  {
    OpensOn(log, used, sid, relay, tier, expiresAt, 0, |log|, a);
    assert OpeningRows(|log|, sid, relay, tier, expiresAt)[0..] == OpeningRows(|log|, sid, relay, tier, expiresAt);
  }

  /** A purchase run straight through once its check has passed opens a new session with exactly four rows, on
      its relay and tier, expiring its hours after the check, and issues the token. A session that has rows it
      leaves alone; a check that fails leaves everything alone. */
  lemma PurchaseAlone(
    log: seq<Row>, used: set<TxHash>, tier: Tier, hours: nat, tx: TxHash, relay: RelayName, a: Answer)
    requires WellFormed(log) && hours > 0
    ensures
      var f, id := Alone(log, used, Verifying(tier, hours, tx, relay), a), a.verified;
      if id.None? then f == Effect(log, used, Finished(PaymentUnverified))
      else if CurrentState(log, id.value).Some? then f == Effect(log, used + {tx}, Finished(InvalidTransition))
      else
        f == Effect(log + OpeningRows(|log|, id.value, relay, tier, a.now + 3600 * hours), used + {tx},
                    Finished(TokenIssued(id.value)))
  {
    if a.verified.None? {
      AloneStep(log, used, Verifying(tier, hours, tx, relay), a);
    } else {
      var sid, expiresAt := a.verified.value, a.now + 3600 * hours;
      CheckPasses(log, used, tier, hours, tx, relay, a);
      if CurrentState(log, sid).Some? {
        TurnedAway(log, used + {tx}, sid, relay, tier, expiresAt, a);
      } else {
        OpensNew(log, used + {tx}, sid, relay, tier, expiresAt, a);
      }
    }
  }

  // ---------------------------------------------------------------- end and failover

  /** Ending an active session adds exactly one row; on any other it is a bad request and adds none. */
  lemma EndAlone(log: seq<Row>, used: set<TxHash>, sid: SessionId, a: Answer)
    requires WellFormed(log)
    ensures
      var f := Alone(log, used, CheckingEnd(sid), a);
      if CurrentState(log, sid) == Some(ACTIVE) then
        && DealOf(log, sid).Some?
        && var row := Row(|log| + 1, sid, Some(ACTIVE), EXPIRED_NORMAL, None, Some(DealOf(log, sid).value.tier), None);
        f == Effect(log + [row], used, Finished(Ended))
      else f == Effect(log, used, Finished(BadRequest))
  {
    DealIsKept(log, sid);
    AloneStep(log, used, CheckingEnd(sid), a);
    if CurrentState(log, sid) == Some(ACTIVE) { AloneStep(log, used, Ending(sid), a); }
  }

  /** The rows of a failover, off the one relay and onto the other. */
  function FailoverRows(n: nat, sid: SessionId, tier: Tier, failed: RelayName, next: RelayName): seq<Row> {
    [Row(n + 1, sid, Some(ACTIVE), RELAY_UNREACHABLE, Some(failed), Some(tier), None),
     Row(n + 2, sid, Some(RELAY_UNREACHABLE), FAILOVER_SELECT, Some(failed), Some(tier), None),
     Row(n + 3, sid, Some(FAILOVER_SELECT), TUNNEL_OPEN, Some(next), Some(tier), None),
     Row(n + 4, sid, Some(TUNNEL_OPEN), ACTIVE, Some(next), Some(tier), None)]
  }

  /** One recorded transition of a lone process. */
  lemma AloneRecords(
    log: seq<Row>, used: set<TxHash>, p: Process, a: Answer, sid: SessionId, to: SessionState, o: Options,
    next: Process, row: Row)
    requires !p.Finished? && Step(log, used, p, a) == Handlers.Record(log, used, sid, to, o, next)
    requires NewRow(log, sid, to, o) == Some(row)
    ensures Alone(log, used, p, a) == Alone(log + [row], used, next, a)
    ensures CurrentState(log + [row], sid) == Some(to)
    ensures row.tier == CurrentTier(log, sid) ==> CurrentTier(log + [row], sid) == CurrentTier(log, sid)
  {
    AloneStep(log, used, p, a);
    assert (log + [row])[..|log|] == log;
  }

  lemma LeavesRelay(
    log: seq<Row>, used: set<TxHash>, sid: SessionId, tier: Tier, failed: RelayName, next: RelayName, a: Answer)
      returns (d: Switch)
    requires CurrentState(log, sid) == Some(ACTIVE) && CurrentTier(log, sid) == Some(tier)
    ensures
      var rows := FailoverRows(|log|, sid, tier, failed, next);
      var after := log + [rows[0]] + [rows[1]];
      && Alone(log, used, Dropping(sid, tier, failed, |log|), a)
         == Alone(after, used, Choosing(sid, tier, failed, d), a)
      && CurrentState(after, sid) == Some(FAILOVER_SELECT) && CurrentTier(after, sid) == Some(tier)
  {
    d := Switch(CurrentRelay(log, sid), |log|, |log|);
    var rows, o := FailoverRows(|log|, sid, tier, failed, next), Options(Some(failed), None, None);
    AloneRecords(log, used, Dropping(sid, tier, failed, |log|), a, sid, RELAY_UNREACHABLE, o,
                 Selecting(sid, tier, failed, d), rows[0]);
    AloneRecords(log + [rows[0]], used, Selecting(sid, tier, failed, d), a, sid, FAILOVER_SELECT, o,
                 Choosing(sid, tier, failed, d), rows[1]);
  }

  lemma MovesTo(
    log: seq<Row>, used: set<TxHash>, sid: SessionId, tier: Tier, failed: RelayName, next: RelayName, d: Switch,
    a: Answer, n: nat)
    requires CurrentState(log, sid) == Some(FAILOVER_SELECT) && CurrentTier(log, sid) == Some(tier) && |log| == n + 2
    ensures
      var rows := FailoverRows(n, sid, tier, failed, next);
      Alone(log, used, Reopening(sid, tier, failed, d, next), a)
      == Effect(log + [rows[2]] + [rows[3]], used, Finished(FailedOver))
  {
    var rows, o := FailoverRows(n, sid, tier, failed, next), Options(Some(next), Some(tier), None);
    AloneRecords(log, used, Reopening(sid, tier, failed, d, next), a, sid, TUNNEL_OPEN, o,
                 Reactivating(sid, tier, failed, d, next), rows[2]);
    AloneRecords(log + [rows[2]], used, Reactivating(sid, tier, failed, d, next), a, sid, ACTIVE, o,
                 Finished(FailedOver), rows[3]);
  }

  lemma FailoverDrops(
    log: seq<Row>, used: set<TxHash>, sid: SessionId, tier: Tier, failed: RelayName, a: Answer)
    requires CurrentState(log, sid) == Some(ACTIVE) && CurrentTier(log, sid) == Some(tier)
    ensures
      var next := Pick(a.eligible, failed);
      Alone(log, used, Dropping(sid, tier, failed, |log|), a)
      == if next.None? then
           Effect(log + FailoverRows(|log|, sid, tier, failed, failed)[..2], used, Finished(NoOtherRelay))
         else Effect(log + FailoverRows(|log|, sid, tier, failed, next.value), used, Finished(FailedOver))
  {
    var next := Pick(a.eligible, failed);
    var to := if next.Some? then next.value else failed;
    var rows := FailoverRows(|log|, sid, tier, failed, to);
    var d := LeavesRelay(log, used, sid, tier, failed, to, a);
    var after := log + [rows[0]] + [rows[1]];
    AloneStep(after, used, Choosing(sid, tier, failed, d), a);
    assert after == log + rows[..2];
    if next.Some? {
      MovesTo(after, used, sid, tier, failed, to, d, a, |log|);
      assert after + [rows[2]] + [rows[3]] == log + rows;
    }
  }

  /** A failover run straight through on an active session drops the relay in use, and either stops there, exactly
      when no other relay is eligible, or puts the session on the first other one: two rows or four. On a session
      that is not active it is a bad request and writes nothing. */
  lemma FailoverAlone(log: seq<Row>, used: set<TxHash>, sid: SessionId, failed: RelayName, a: Answer)
    requires WellFormed(log) && (CurrentState(log, sid) == Some(ACTIVE) ==> CurrentRelay(log, sid) == Some(failed))
    ensures
      var f, next := Alone(log, used, CheckingActive(sid), a), Pick(a.eligible, failed);
      if CurrentState(log, sid) != Some(ACTIVE) then f == Effect(log, used, Finished(BadRequest))
      else
        && DealOf(log, sid).Some?
        && var tier := DealOf(log, sid).value.tier;
        if next.None? then
          f == Effect(log + FailoverRows(|log|, sid, tier, failed, failed)[..2], used, Finished(NoOtherRelay))
        else f == Effect(log + FailoverRows(|log|, sid, tier, failed, next.value), used, Finished(FailedOver))
  {
    DealIsKept(log, sid);
    AloneReads(log, used, sid, a);
    if CurrentState(log, sid) == Some(ACTIVE) {
      FailoverDrops(log, used, sid, DealOf(log, sid).value.tier, failed, a);
    }
  }
}
