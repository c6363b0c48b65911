/** The purchase, failover and end handlers as processes that interleave between their awaits, on one
    log, with orchestrator restarts. Each `Resume` runs one process from one await to the next. */
module Handlers {
  import opened Escrow
  import opened Optional
  import opened SessionLog

  type TxHash = string

  const MAX_SESSION_HOURS := 24

  datatype Reply =
    | BadRequest | PaymentRequired | PaymentReused | PaymentUnverified
    | TokenIssued(sid: SessionId) | MissingMetadata | NoOtherRelay | FailedOver | Ended
    | InvalidTransition | Killed

  /** What a failover left: the relay in use when it recorded RELAY_UNREACHABLE, and how long the log was
      when the failed relay was read and when the drop was recorded. */
  datatype Switch = Switch(relay: Option<RelayName>, readAt: nat, droppedAt: nat)

  datatype Process =
    // POST /sessions/:tier/:hours
    | Verifying(tier: Tier, hours: nat, tx: TxHash, relay: RelayName)
    | Opening(sid: SessionId, tier: Tier, relay: RelayName, expiresAt: nat, done: nat)
    // POST /sessions/:id/force-relay-failure
    | CheckingActive(sid: SessionId)
    | ReadingTier(sid: SessionId)
    | ReadingRelay(sid: SessionId, tierRead: Option<Tier>)
    | Dropping(sid: SessionId, tier: Tier, failed: RelayName, readAt: nat)
    | Selecting(sid: SessionId, tier: Tier, failed: RelayName, dropped: Switch)
    | Choosing(sid: SessionId, tier: Tier, failed: RelayName, dropped: Switch)
    | Reopening(sid: SessionId, tier: Tier, failed: RelayName, dropped: Switch, next: RelayName)
    | Reactivating(sid: SessionId, tier: Tier, failed: RelayName, dropped: Switch, next: RelayName)
    // POST /sessions/:id/end
    | CheckingEnd(sid: SessionId)
    | Ending(sid: SessionId)
    | Finished(reply: Reply)

  /** What the outside world answers to the await a process resumes from. */
  datatype Answer = Answer(verified: Option<SessionId>, now: nat, eligible: seq<RelayName>)

  datatype World = World(log: seq<Row>, used: set<TxHash>, procs: seq<Process>)

  const START := World([], {}, [])

  /** The four states a purchase records. */
  function OpeningState(done: nat): SessionState
    requires done < 4
  {
    OPENING[done]
  }

  /** The first eligible relay other than the failed one. */
  function Pick(eligible: seq<RelayName>, failed: RelayName): Option<RelayName> {
    if eligible == [] then None
    else if eligible[0] != failed then Some(eligible[0])
    else Pick(eligible[1..], failed)
  }

  // ---------------------------------------------------------------- one process, one step

  datatype Effect = Effect(log: seq<Row>, used: set<TxHash>, proc: Process)

  /** Tries a transition; `next` if it was recorded. */
  function Record(log: seq<Row>, used: set<TxHash>, sid: SessionId, to: SessionState, o: Options, next: Process): Effect
  {
    var row := NewRow(log, sid, to, o);
    if row.None? then Effect(log, used, Finished(InvalidTransition))
    else Effect(log + [row.value], used, next)
  }

  function Step(log: seq<Row>, used: set<TxHash>, p: Process, a: Answer): Effect {
    match p
    case Verifying(tier, hours, tx, relay) =>
      if a.verified.None? then Effect(log, used, Finished(PaymentUnverified))
      else Effect(log, used + {tx}, Process.Opening(a.verified.value, tier, relay, a.now + hours * 3600, 0))
    case Opening(sid, tier, relay, expiresAt, done) =>
      if done < 4 then
        var o := Options(Some(relay), Some(tier), Some(expiresAt));
        Record(log, used, sid, OpeningState(done), o, p.(done := done + 1))
      else Effect(log, used, Finished(TokenIssued(sid)))
    case CheckingActive(sid) =>
      Effect(log, used, if CurrentState(log, sid) != Some(ACTIVE) then Finished(BadRequest) else ReadingTier(sid))
    case ReadingTier(sid) =>
      Effect(log, used, ReadingRelay(sid, CurrentTier(log, sid)))
    case ReadingRelay(sid, tier) =>
      var failed := CurrentRelay(log, sid);
      Effect(log, used, if tier.None? || failed.None? then Finished(MissingMetadata)
                        else Dropping(sid, tier.value, failed.value, |log|))
    case Dropping(sid, tier, failed, readAt) =>
      Record(log, used, sid, RELAY_UNREACHABLE, Options(Some(failed), None, None),
             Selecting(sid, tier, failed, Switch(CurrentRelay(log, sid), readAt, |log|)))
    case Selecting(sid, tier, failed, dropped) =>
      Record(log, used, sid, FAILOVER_SELECT, Options(Some(failed), None, None), Choosing(sid, tier, failed, dropped))
    case Choosing(sid, tier, failed, dropped) =>
      var next := Pick(a.eligible, failed);
      Effect(log, used, if next.None? then Finished(NoOtherRelay)
                        else Reopening(sid, tier, failed, dropped, next.value))
    case Reopening(sid, tier, failed, dropped, next) =>
      Record(log, used, sid, TUNNEL_OPEN, Options(Some(next), Some(tier), None),
             Reactivating(sid, tier, failed, dropped, next))
    case Reactivating(sid, tier, _, _, next) =>
      Record(log, used, sid, ACTIVE, Options(Some(next), Some(tier), None), Finished(FailedOver))
    case CheckingEnd(sid) =>
      Effect(log, used, if CurrentState(log, sid) != Some(ACTIVE) then Finished(BadRequest) else Ending(sid))
    case Ending(sid) =>
      Record(log, used, sid, EXPIRED_NORMAL, Options(None, None, None), Finished(Ended))
    case Finished(_) => Effect(log, used, p)
  }

  // ---------------------------------------------------------------- the orchestrator

  datatype Event =
    | BeginPurchase(tier: Tier, hours: nat, tx: Option<TxHash>, eligible: seq<RelayName>)
    | BeginFailover(sid: SessionId)
    | BeginEnd(sid: SessionId)
    | Resume(pid: nat, answer: Answer)
    | Restart

  /** A purchase request up to its first await on the chain. */
  function Admit(used: set<TxHash>, tier: Tier, hours: nat, tx: Option<TxHash>, eligible: seq<RelayName>): Process {
    if hours < 1 || hours > MAX_SESSION_HOURS || eligible == [] then Finished(BadRequest)
    else if tx.None? then Finished(PaymentRequired)
    else if tx.value in used then Finished(PaymentReused)
    else Verifying(tier, hours, tx.value, eligible[0])
  }

  function Kill(p: Process): Process {
    if p.Finished? then p else Finished(Killed)
  }

  function Apply(w: World, e: Event): World {
    match e
    case BeginPurchase(tier, hours, tx, eligible) =>
      w.(procs := w.procs + [Admit(w.used, tier, hours, tx, eligible)])
    case BeginFailover(sid) => w.(procs := w.procs + [CheckingActive(sid)])
    case BeginEnd(sid) => w.(procs := w.procs + [CheckingEnd(sid)])
    case Resume(pid, answer) =>
      if pid >= |w.procs| then w else
        var f := Step(w.log, w.used, w.procs[pid], answer);
        World(f.log, f.used, w.procs[pid := f.proc])
    case Restart =>
      World(w.log, {}, seq(|w.procs|, i requires 0 <= i < |w.procs| => Kill(w.procs[i])))
  }

  function RunFrom(w: World, events: seq<Event>): World {
    if events == [] then w else Apply(RunFrom(w, events[..|events| - 1]), events[|events| - 1])
  }

  function Run(events: seq<Event>): World { RunFrom(START, events) }

  // ---------------------------------------------------------------- ownership

  /** The session a process has taken over, and the state it left it in. */
  function Owns(p: Process): Option<(SessionId, SessionState)> {
    match p
    case Opening(sid, _, _, _, done) => if 1 <= done <= 3 then Some((sid, OpeningState(done - 1))) else None
    case Selecting(sid, _, _, _) => Some((sid, RELAY_UNREACHABLE))
    case Choosing(sid, _, _, _) => Some((sid, FAILOVER_SELECT))
    case Reopening(sid, _, _, _, _) => Some((sid, FAILOVER_SELECT))
    case Reactivating(sid, _, _, _, _) => Some((sid, TUNNEL_OPEN))
    case _ => None
  }

  /** The session a process has paid in the log, token issued or still to come. */
  function Serves(p: Process): Option<SessionId> {
    match p
    case Opening(sid, _, _, _, done) => if done >= 1 then Some(sid) else None
    case Finished(TokenIssued(sid)) => Some(sid)
    case _ => None
  }

  /** What a process believes about its session is what the log says. */
  predicate Informed(log: seq<Row>, p: Process) {
    match p
    case Verifying(_, hours, _, _) => hours >= 1
    case Opening(sid, tier, _, expiresAt, done) =>
      expiresAt > 0 && done <= 4 && (done >= 1 ==> DealOf(log, sid) == Some(Deal(tier, expiresAt)))
    case ReadingTier(sid) => DealOf(log, sid).Some?
    case ReadingRelay(sid, tier) => DealOf(log, sid).Some? && tier == Some(DealOf(log, sid).value.tier)
    case Dropping(sid, tier, _, _) => DealOf(log, sid).Some? && tier == DealOf(log, sid).value.tier
    case Selecting(sid, tier, _, _) => DealOf(log, sid).Some? && tier == DealOf(log, sid).value.tier
    case Choosing(sid, tier, _, _) => DealOf(log, sid).Some? && tier == DealOf(log, sid).value.tier
    case Reopening(sid, tier, failed, _, next) =>
      DealOf(log, sid).Some? && tier == DealOf(log, sid).value.tier && next != failed
    case Reactivating(sid, tier, failed, _, next) =>
      DealOf(log, sid).Some? && tier == DealOf(log, sid).value.tier && next != failed
    case _ => true
  }

  predicate HoldsItsSession(log: seq<Row>, p: Process) {
    Owns(p).Some? ==> CurrentState(log, Owns(p).value.0) == Some(Owns(p).value.1)
  }

  predicate IsPaid(log: seq<Row>, p: Process) {
    Serves(p).Some? ==> CurrentState(log, Serves(p).value).Some?
  }

  predicate Separate(p: Process, q: Process) {
    && (Owns(p).Some? && Owns(q).Some? ==> Owns(p).value.0 != Owns(q).value.0)
    && (Serves(p).Some? && Serves(q).Some? ==> Serves(p).value != Serves(q).value)
  }

  predicate Good(log: seq<Row>, p: Process) {
    Informed(log, p) && HoldsItsSession(log, p) && IsPaid(log, p)
  }

  ghost predicate Inv(w: World) {
    && WellFormed(w.log)
    && (forall i :: 0 <= i < |w.procs| ==> Good(w.log, w.procs[i]))
    && (forall i, j :: 0 <= i < j < |w.procs| ==> Separate(w.procs[i], w.procs[j]))
  }

  // ---------------------------------------------------------------- what one step keeps

  /** The session whose log a process would write next. */
  function Writes(p: Process): Option<SessionId> {
    match p
    case Opening(sid, _, _, _, done) => if done < 4 then Some(sid) else None
    case Dropping(sid, _, _, _) => Some(sid)
    case Selecting(sid, _, _, _) => Some(sid)
    case Reopening(sid, _, _, _, _) => Some(sid)
    case Reactivating(sid, _, _, _, _) => Some(sid)
    case Ending(sid) => Some(sid)
    case _ => None
  }

  lemma RecordContinues(log: seq<Row>, sid: SessionId, to: SessionState, o: Options)
    requires WellFormed(log) && Written(to) && NewRow(log, sid, to, o).Some?
    requires CurrentState(log, sid).None? ==> o.tier.Some? && o.expiresAt.Some? && o.expiresAt.value > 0
    requires DealOf(log, sid).Some? && o.tier.Some? ==> o.tier.value == DealOf(log, sid).value.tier
    requires DealOf(log, sid).Some? && o.expiresAt.Some? ==> o.expiresAt.value == DealOf(log, sid).value.expiresAt
    ensures WellFormed(log + [NewRow(log, sid, to, o).value])
    ensures var row := NewRow(log, sid, to, o).value;
            && row.sessionId == sid && row.toState == to
            && CurrentState(log + [row], sid) == Some(to)
            && DealOf(log + [row], sid) == (if DealOf(log, sid).Some? then DealOf(log, sid)
                                            else Some(Deal(o.tier.value, o.expiresAt.value)))
  {
    var row := NewRow(log, sid, to, o).value;
    DealIsKept(log, sid);
    Grow(log, row, sid);
    assert (log + [row])[..|log|] == log;
  }

  /** An owner's next transition is always valid; an invalid one is only ever attempted by a process
      that owns nothing. */
  lemma OwnerIsNeverRejected(log: seq<Row>, used: set<TxHash>, p: Process, a: Answer)
    requires Good(log, p) && Owns(p).Some?
    ensures Step(log, used, p, a).proc != Finished(InvalidTransition)
  {}

  /** A recorded transition of a session that already has its deal. */
  lemma RecordKeeps(log: seq<Row>, used: set<TxHash>, sid: SessionId, to: SessionState, o: Options, next: Process)
    requires WellFormed(log) && Written(to) && DealOf(log, sid).Some?
    requires o.tier.Some? ==> o.tier.value == DealOf(log, sid).value.tier
    requires o.expiresAt.Some? ==> o.expiresAt.value == DealOf(log, sid).value.expiresAt
    ensures var f := Record(log, used, sid, to, o, next);
            && WellFormed(f.log) && DealOf(f.log, sid) == DealOf(log, sid)
            && (f.proc == Finished(InvalidTransition) || (f.proc == next && CurrentState(f.log, sid) == Some(to)))
  {
    DealIsKept(log, sid);
    if NewRow(log, sid, to, o).Some? { RecordContinues(log, sid, to, o); }
  }

  lemma OpeningKeepsGood(log: seq<Row>, used: set<TxHash>, p: Process, a: Answer)
    requires WellFormed(log) && Good(log, p) && p.Opening?
    ensures WellFormed(Step(log, used, p, a).log) && Good(Step(log, used, p, a).log, Step(log, used, p, a).proc)
  {
    if p.done < 4 {
      var o := Options(Some(p.relay), Some(p.tier), Some(p.expiresAt));
      DealIsKept(log, p.sid);
      if NewRow(log, p.sid, OpeningState(p.done), o).Some? {
        RecordContinues(log, p.sid, OpeningState(p.done), o);
      }
    }
  }

  lemma FailoverKeepsGood(log: seq<Row>, used: set<TxHash>, p: Process, a: Answer)
    requires WellFormed(log) && Good(log, p)
    requires p.Dropping? || p.Selecting? || p.Reopening? || p.Reactivating?
    ensures WellFormed(Step(log, used, p, a).log) && Good(Step(log, used, p, a).log, Step(log, used, p, a).proc)
  {
    if p.Dropping? || p.Selecting? {
      LeavingKeepsGood(log, used, p, a);
    } else if p.Reopening? {
      RecordKeeps(log, used, p.sid, TUNNEL_OPEN, Options(Some(p.next), Some(p.tier), None),
                  Reactivating(p.sid, p.tier, p.failed, p.dropped, p.next));
    } else {
      RecordKeeps(log, used, p.sid, ACTIVE, Options(Some(p.next), Some(p.tier), None), Finished(FailedOver));
    }
  }

  lemma LeavingKeepsGood(log: seq<Row>, used: set<TxHash>, p: Process, a: Answer)
    requires WellFormed(log) && Good(log, p) && (p.Dropping? || p.Selecting?)
    ensures WellFormed(Step(log, used, p, a).log) && Good(Step(log, used, p, a).log, Step(log, used, p, a).proc)
  {
    if p.Dropping? {
      RecordKeeps(log, used, p.sid, RELAY_UNREACHABLE, Options(Some(p.failed), None, None),
                  Selecting(p.sid, p.tier, p.failed, Switch(CurrentRelay(log, p.sid), p.readAt, |log|)));
    } else {
      RecordKeeps(log, used, p.sid, FAILOVER_SELECT, Options(Some(p.failed), None, None),
                  Choosing(p.sid, p.tier, p.failed, p.dropped));
    }
  }

  lemma EndingKeepsGood(log: seq<Row>, used: set<TxHash>, p: Process, a: Answer)
    requires WellFormed(log) && Good(log, p) && p.Ending?
    ensures WellFormed(Step(log, used, p, a).log) && Good(Step(log, used, p, a).log, Step(log, used, p, a).proc)
  {
    DealIsKept(log, p.sid);
    if CurrentState(log, p.sid).Some? {
      RecordKeeps(log, used, p.sid, EXPIRED_NORMAL, Options(None, None, None), Finished(Ended));
    }
  }

  lemma ReadingKeepsGood(log: seq<Row>, used: set<TxHash>, p: Process, a: Answer)
    requires WellFormed(log) && Good(log, p)
    requires p.Verifying? || p.CheckingActive? || p.ReadingTier? || p.ReadingRelay? || p.Choosing? || p.CheckingEnd?
          || p.Finished?
    ensures WellFormed(Step(log, used, p, a).log) && Good(Step(log, used, p, a).log, Step(log, used, p, a).proc)
  {
    if p.CheckingActive? || p.ReadingTier? { DealIsKept(log, p.sid); }
    if p.Choosing? { PickDiffers(a.eligible, p.failed); }
  }

  lemma StepKeepsGood(log: seq<Row>, used: set<TxHash>, p: Process, a: Answer)
    requires WellFormed(log) && Good(log, p)
    ensures WellFormed(Step(log, used, p, a).log) && Good(Step(log, used, p, a).log, Step(log, used, p, a).proc)
  {
    if p.Opening? {
      OpeningKeepsGood(log, used, p, a);
    } else if p.Dropping? || p.Selecting? || p.Reopening? || p.Reactivating? {
      FailoverKeepsGood(log, used, p, a);
    } else if p.Ending? {
      EndingKeepsGood(log, used, p, a);
    } else {
      ReadingKeepsGood(log, used, p, a);
    }
  }

  lemma {:induction false} PickDiffers(eligible: seq<RelayName>, failed: RelayName)
    ensures Pick(eligible, failed).Some? ==>
              Pick(eligible, failed).value in eligible && Pick(eligible, failed).value != failed
  {
    if eligible != [] && eligible[0] == failed { PickDiffers(eligible[1..], failed); }
  }

  /** The search finds nothing exactly when no other relay is eligible, and otherwise the first other one. */
  lemma {:induction false} PickIsFirstOther(eligible: seq<RelayName>, failed: RelayName)
    ensures Pick(eligible, failed).None? <==> forall i :: 0 <= i < |eligible| ==> eligible[i] == failed
    ensures Pick(eligible, failed).Some? ==>
      exists i ::
        && 0 <= i < |eligible| && eligible[i] == Pick(eligible, failed).value != failed
        && forall j :: 0 <= j < i ==> eligible[j] == failed
  {
    if eligible != [] && eligible[0] == failed {
      var rest := eligible[1..];
      PickIsFirstOther(rest, failed);
      assert forall i :: 0 <= i < |rest| ==> rest[i] == eligible[i + 1];
      assert forall i :: 1 <= i < |eligible| ==> eligible[i] == rest[i - 1];
      if Pick(rest, failed).Some? {
        var i :| 0 <= i < |rest| && rest[i] == Pick(rest, failed).value && forall j :: 0 <= j < i ==> rest[j] == failed;
        assert eligible[i + 1] == Pick(eligible, failed).value;
      }
    }
  }

  // ---------------------------------------------------------------- processes do not disturb each other

  /** What a step does to the log and to the process's claims, all handlers alike. */
  ghost predicate Modest(log: seq<Row>, p: Process, f: Effect) {
    if f.log == log then
      && (Owns(f.proc).Some? ==> Owns(f.proc) == Owns(p))
      && (Serves(f.proc).Some? ==> Serves(f.proc) == Serves(p))
    else
      && Writes(p).Some? && |f.log| == |log| + 1 && f.log[..|log|] == log && f.log[|log|].sessionId == Writes(p).value
      && (Owns(p).Some? ==> Owns(p).value.0 == Writes(p).value)
      && (Owns(f.proc).Some? ==> Owns(f.proc).value.0 == Writes(p).value)
      && (Owns(p).None? ==> CurrentState(log, Writes(p).value) in {None, Some(ACTIVE)})
      && (Serves(f.proc).Some? ==> Serves(f.proc).value == Writes(p).value)
      && (Serves(f.proc).Some? && Serves(p).None? ==> CurrentState(log, Writes(p).value) == None)
      && (Serves(f.proc).Some? && Serves(p).Some? ==> Serves(p).value == Writes(p).value)
  }

  lemma StepIsModest(log: seq<Row>, used: set<TxHash>, p: Process, a: Answer)
    requires WellFormed(log) && Good(log, p)
    ensures Modest(log, p, Step(log, used, p, a))
  {
    if p.Opening? { OpeningIsModest(log, used, p, a); }
    else if p.Dropping? || p.Ending? { TakeoverIsModest(log, used, p, a); }
    else if p.Selecting? || p.Reopening? || p.Reactivating? { OwnerIsModest(log, used, p, a); }
  }

  lemma OpeningIsModest(log: seq<Row>, used: set<TxHash>, p: Process, a: Answer)
    requires WellFormed(log) && Good(log, p) && p.Opening?
    ensures Modest(log, p, Step(log, used, p, a))
  {
    DealIsKept(log, p.sid);
    if p.done < 4 {
      var o := Options(Some(p.relay), Some(p.tier), Some(p.expiresAt));
      var row := NewRow(log, p.sid, OpeningState(p.done), o);
      if row.Some? { assert (log + [row.value])[..|log|] == log; }
    }
  }

  lemma TakeoverIsModest(log: seq<Row>, used: set<TxHash>, p: Process, a: Answer)
    requires p.Dropping? || p.Ending?
    ensures Modest(log, p, Step(log, used, p, a))
  {}

  lemma OwnerIsModest(log: seq<Row>, used: set<TxHash>, p: Process, a: Answer)
    requires p.Selecting? || p.Reopening? || p.Reactivating?
    ensures Modest(log, p, Step(log, used, p, a))
  {}

  /** Another process is not disturbed: nobody writes a session that someone else owns. */
  lemma StepKeepsOthers(log: seq<Row>, p: Process, f: Effect, q: Process)
    requires Modest(log, p, f) && Good(log, q) && Separate(p, q)
    ensures Good(f.log, q) && Separate(f.proc, q)
  {
    if f.log != log {
      var row := f.log[|log|];
      assert f.log == log + [row];
      InformedGrows(log, row, q);
      ClaimsGrow(log, row, q);
    }
  }

  /** A process's claims survive a row of a session it does not own. */
  lemma ClaimsGrow(log: seq<Row>, row: Row, q: Process)
    requires HoldsItsSession(log, q) && IsPaid(log, q)
    ensures Owns(q).Some? && Owns(q).value.0 != row.sessionId ==> HoldsItsSession(log + [row], q)
    ensures Owns(q).None? ==> HoldsItsSession(log + [row], q)
    ensures IsPaid(log + [row], q)
  {
    if Owns(q).Some? { Grow(log, row, Owns(q).value.0); }
    if Serves(q).Some? { Grow(log, row, Serves(q).value); }
  }

  lemma InformedGrows(log: seq<Row>, row: Row, q: Process)
    requires Informed(log, q)
    ensures Informed(log + [row], q)
  {
    if !q.Verifying? && !q.Finished? { Grow(log, row, q.sid); }
  }

  // ---------------------------------------------------------------- every interleaving

  lemma ResumeKeepsInv(w: World, pid: nat, a: Answer)
    requires Inv(w) && pid < |w.procs|
    ensures Inv(Apply(w, Resume(pid, a)))
  {
    var p, f, w' := w.procs[pid], Step(w.log, w.used, w.procs[pid], a), Apply(w, Resume(pid, a));
    StepKeepsGood(w.log, w.used, p, a);
    StepIsModest(w.log, w.used, p, a);
    forall i | 0 <= i < |w.procs| && i != pid ensures Good(f.log, w.procs[i]) && Separate(f.proc, w.procs[i]) {
      assert Separate(if i < pid then w.procs[i] else p, if i < pid then p else w.procs[i]);
      StepKeepsOthers(w.log, p, f, w.procs[i]);
    }
  }

  lemma BeginKeepsInv(w: World, p: Process)
    requires Inv(w) && Good(w.log, p) && Owns(p).None? && Serves(p).None?
    ensures Inv(w.(procs := w.procs + [p]))
  {}

  lemma RestartKeepsInv(w: World)
    requires Inv(w)
    ensures Inv(Apply(w, Restart))
  {
    var w' := Apply(w, Restart);
    forall i, j | 0 <= i < j < |w'.procs| ensures Separate(w'.procs[i], w'.procs[j]) {
      assert Separate(w.procs[i], w.procs[j]);
    }
    forall i | 0 <= i < |w'.procs| ensures Good(w'.log, w'.procs[i]) {
      assert Good(w.log, w.procs[i]);
    }
  }

  /** The invariant holds after every sequence of requests, resumptions and restarts. */
  lemma {:induction false} EveryRunKeepsInv(events: seq<Event>)
    ensures Inv(Run(events))
  {
    if events != [] {
      var w, e := Run(events[..|events| - 1]), events[|events| - 1];
      EveryRunKeepsInv(events[..|events| - 1]);
      assert w == RunFrom(START, events[..|events| - 1]);
      match e
      case BeginPurchase(tier, hours, tx, eligible) => BeginKeepsInv(w, Admit(w.used, tier, hours, tx, eligible));
      case BeginFailover(sid) => BeginKeepsInv(w, CheckingActive(sid));
      case BeginEnd(sid) => BeginKeepsInv(w, CheckingEnd(sid));
      case Resume(pid, a) => if pid < |w.procs| { ResumeKeepsInv(w, pid, a); }
      case Restart => RestartKeepsInv(w);
    }
  }

  /** In every run each session's history is legal, it is paid at most once, and its tier and expiry
      stay those of its payment. */
  lemma EveryHistoryIsLegal(events: seq<Event>, sid: SessionId)
    ensures var log := Run(events).log;
            && Legal(Trail(log, sid))
            && Occurrences(Trail(log, sid), PAID) <= 1
            && (CurrentState(log, sid).Some? ==>
                  && DealOf(log, sid).Some?
                  && CurrentTier(log, sid) == Some(DealOf(log, sid).value.tier)
                  && ExpiresAt(log, sid) == Some(DealOf(log, sid).value.expiresAt))
  {
    EveryRunKeepsInv(events);
    TrailIsLegal(Run(events).log, sid);
    PaidAtMostOnce(Run(events).log, sid);
    DealIsKept(Run(events).log, sid);
  }

  lemma ApplyKeepsDeal(w: World, e: Event, sid: SessionId)
    requires Inv(w) && DealOf(w.log, sid).Some?
    ensures DealOf(Apply(w, e).log, sid) == DealOf(w.log, sid)
  {
    if e.Resume? && e.pid < |w.procs| {
      var f := Step(w.log, w.used, w.procs[e.pid], e.answer);
      StepIsModest(w.log, w.used, w.procs[e.pid], e.answer);
      if f.log != w.log {
        assert f.log == w.log + [f.log[|w.log|]];
        Grow(w.log, f.log[|w.log|], sid);
      }
    }
  }

  /** What was paid for once is what is read ever after, however the run goes on. */
  lemma {:induction false} DealOutlivesEverything(events: seq<Event>, later: seq<Event>, sid: SessionId)
    requires DealOf(Run(events).log, sid).Some?
    ensures DealOf(Run(events + later).log, sid) == DealOf(Run(events).log, sid)
  {
    if later == [] {
      assert events + later == events;
    } else {
      var n := |later| - 1;
      DealOutlivesEverything(events, later[..n], sid);
      assert (events + later)[..|events + later| - 1] == events + later[..n];
      EveryRunKeepsInv(events + later[..n]);
      ApplyKeepsDeal(Run(events + later[..n]), later[n], sid);
    }
  }

  /** At most one token is ever issued for a session. */
  lemma OneTokenPerSession(events: seq<Event>, i: nat, j: nat, sid: SessionId)
    requires i < |Run(events).procs| && j < |Run(events).procs|
    requires Run(events).procs[i] == Finished(TokenIssued(sid)) && Run(events).procs[j] == Finished(TokenIssued(sid))
    ensures i == j && Occurrences(Trail(Run(events).log, sid), PAID) == 1
  {
    EveryRunKeepsInv(events);
    var w := Run(events);
    assert Good(w.log, w.procs[i]);
    TrailEnds(w.log, sid);
    TrailIsLegal(w.log, sid);
    PaidAtMostOnce(w.log, sid);
    StartsPaid(Trail(w.log, sid));
  }

  lemma StartsPaid(trail: seq<SessionState>)
    requires Legal(trail) && trail != []
    ensures trail[0] == PAID && Occurrences(trail, PAID) >= 1
  {
    if n: nat :| trail <= Story(n) {
      StoryAt(n, 0);
    } else {
      var n: nat :| trail == Story(n) + [EXPIRED_NORMAL];
      StoryAt(n, 0);
    }
    FirstCounts(trail, PAID);
  }

  lemma {:induction false} FirstCounts(trail: seq<SessionState>, s: SessionState)
    requires trail != [] && trail[0] == s
    ensures Occurrences(trail, s) >= 1
  {
    if |trail| > 1 { FirstCounts(trail[..|trail| - 1], s); }
  }

  /** A purchase that has recorded PAID, or a failover that has recorded RELAY_UNREACHABLE, is never
      turned away from its remaining transitions. */
  lemma OwnerCompletes(events: seq<Event>, pid: nat, a: Answer)
    requires pid < |Run(events).procs| && Owns(Run(events).procs[pid]).Some?
    ensures Run(events + [Resume(pid, a)]).procs[pid] != Finished(InvalidTransition)
  {
    EveryRunKeepsInv(events);
    assert (events + [Resume(pid, a)])[..|events|] == events;
    OwnerIsNeverRejected(Run(events).log, Run(events).used, Run(events).procs[pid], a);
  }

  // ---------------------------------------------------------------- runs put together

  function Only(relay: RelayName): seq<RelayName> { [relay] }

  lemma OneMore(w: World, events: seq<Event>, e: Event)
    ensures RunFrom(w, events + [e]) == Apply(RunFrom(w, events), e)
  {
    assert (events + [e])[..|events|] == events;
  }

  /** One resumption that records a transition. */
  lemma Recorded(w: World, j: nat, a: Answer, sid: SessionId, to: SessionState, o: Options, next: Process)
      returns (w': World)
    requires j < |w.procs| && CurrentState(w.log, sid).Some? && IsValidTransition(CurrentState(w.log, sid).value, to)
    requires Step(w.log, w.used, w.procs[j], a) == Record(w.log, w.used, sid, to, o, next)
    ensures w' == Apply(w, Resume(j, a)) && w'.procs == w.procs[j := next]
    ensures CurrentState(w'.log, sid) == Some(to)
    ensures CurrentRelay(w'.log, sid) == if o.relay.Some? then o.relay else CurrentRelay(w.log, sid)
  {
    w' := Apply(w, Resume(j, a));
    var row := NewRow(w.log, sid, to, o).value;
    assert (w.log + [row])[..|w.log|] == w.log;
  }

  lemma {:induction false} RunsCompose(w: World, a: seq<Event>, b: seq<Event>)
    ensures RunFrom(w, a + b) == RunFrom(RunFrom(w, a), b)
  {
    if b == [] {
      assert a + b == a;
    } else {
      RunsCompose(w, a, b[..|b| - 1]);
      assert (a + b)[..|a + b| - 1] == a + b[..|b| - 1];
    }
  }
}
