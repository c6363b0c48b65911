/** The two ledgers together: the escrow moves, transactions leave receipts, the orchestrator's handlers read
    them, in any order. What a row of the orchestrator's log says about the escrow. */
module PaidSessions {
  import opened Decimal
  import opened Escrow
  import opened Handlers
  import opened Optional
  import opened Receipts
  import opened SessionLog
  import Pricing

  /** A passed check: the log it passed by, and the orchestrator's clock when it did. */
  datatype Check = Check(log: Log, at: nat)

  /** `checked` and `behind` are bookkeeping: the check a purchase's process passed, and for each row of the
      handlers' log the one behind the process that wrote it. */
  datatype Ledger = Ledger(
    escrow: State, receipts: map<TxHash, Receipt>, handlers: World, checked: map<nat, Check>,
    behind: seq<Option<Check>>)

  const GENESIS := Ledger(EMPTY, map[], START, map[], [])

  /** A transaction to the escrow, a transaction to anything else, which may call the escrow, or an event of the
      handlers. A transaction comes with all the logs of its receipt, whichever contracts emitted them. */
  datatype Action =
    | ToEscrow(hash: TxHash, call: Call, logs: seq<Log>)
    | Elsewhere(hash: TxHash, success: bool, calls: seq<Call>, logs: seq<Log>)
    | Handle(event: Handlers.Event)

  /** The events among the logs that the contract at `a` emitted. */
  function EmittedBy(logs: seq<Log>, a: Address): seq<Escrow.Event> {
    if logs == [] then []
    else (if logs[0].Decoded? && logs[0].emitter == a then [logs[0].event] else []) + EmittedBy(logs[1..], a)
  }

  /** From `s` to `t` the escrow emitted exactly what the logs hold of it. */
  predicate Fits(d: Deployment, s: State, t: State, logs: seq<Log>) {
    s.events + EmittedBy(logs, d.self) == t.events
  }

  predicate AllBy(logs: seq<Log>, a: Address) {
    forall i :: 0 <= i < |logs| && logs[i].Decoded? ==> logs[i].emitter == a
  }

  /** The logs a call to the escrow may leave: none if it reverts, the escrow's own if it is a purchase, which
      calls nobody, and otherwise those of the contracts it pays, in any order with its own. */
  predicate MayLeave(d: Deployment, s: State, call: Call, logs: seq<Log>) {
    var o := Exec(d, s, call);
    if o.error.Some? then logs == []
    else Fits(d, s, o.state, logs) && (call.PurchaseSession? ==> AllBy(logs, d.self))
  }

  /** The log by which the orchestrator's own check, at its own price, accepts a transaction. */
  function Matched(receipts: map<TxHash, Receipt>, tx: TxHash, tier: Tier, hours: nat): (log: Option<Log>)
    ensures log.Some? ==> Matches(log.value, tier, hours, Pricing.PriceWei(tier, hours))
  {
    var price := Pricing.PriceWei(tier, hours);
    if tx in receipts && Judged(Some(receipts[tx]), tier, hours, price).Verified? then
      Some(receipts[tx].logs[MatchIndex(receipts[tx].logs, tier, hours, price)])
    else None
  }

  /** The check's answer, with the id as text. */
  function VerifiedId(receipts: map<TxHash, Receipt>, tx: TxHash, tier: Tier, hours: nat): Option<SessionId> {
    var receipt := if tx in receipts then Some(receipts[tx]) else None;
    match Judged(receipt, tier, hours, Pricing.PriceWei(tier, hours))
    case Verified(id, _) => Some(Render(id))
    case _ => None
  }

  /** The event resumes a purchase that waits for its check. */
  predicate Asks(w: World, e: Handlers.Event) {
    e.Resume? && e.pid < |w.procs| && w.procs[e.pid].Verifying?
  }

  /** A purchase that waits for its check is answered from the receipts as they are. */
  function Answered(l: Ledger, e: Handlers.Event): Handlers.Event {
    if Asks(l.handlers, e) then
      var p := l.handlers.procs[e.pid];
      e.(answer := e.answer.(verified := VerifiedId(l.receipts, p.tx, p.tier, p.hours)))
    else e
  }

  function Checked(l: Ledger, e: Handlers.Event): map<nat, Check> {
    if Asks(l.handlers, e) then
      var p := l.handlers.procs[e.pid];
      var log := Matched(l.receipts, p.tx, p.tier, p.hours);
      if log.Some? then l.checked[e.pid := Check(log.value, e.answer.now)] else l.checked
    else l.checked
  }

  function Behind(checked: map<nat, Check>, pid: nat): Option<Check> {
    if pid in checked then Some(checked[pid]) else None
  }

  function Handled(l: Ledger, e: Handlers.Event): Ledger {
    var w := Handlers.Apply(l.handlers, Answered(l, e));
    var behind := if e.Resume? && |w.log| > |l.handlers.log| then l.behind + [Behind(l.checked, e.pid)] else l.behind;
    l.(handlers := w, checked := Checked(l, e), behind := behind)
  }

  function Act(d: Deployment, l: Ledger, x: Action): Ledger {
    match x
    case ToEscrow(hash, call, logs) =>
      if hash in l.receipts || !MayLeave(d, l.escrow, call, logs) then l else
        var o := Exec(d, l.escrow, call);
        l.(escrow := o.state, receipts := l.receipts[hash := Receipt(o.error.None?, true, logs)])
    case Elsewhere(hash, success, calls, logs) =>
      var escrow := if success then RunCalls(d, l.escrow, calls).0 else l.escrow;
      if hash in l.receipts || !Fits(d, l.escrow, escrow, logs) then l else
        l.(escrow := escrow, receipts := l.receipts[hash := Receipt(success, false, logs)])
    case Handle(e) => Handled(l, e)
  }

  function Course(d: Deployment, actions: seq<Action>): Ledger {
    if actions == [] then GENESIS else Act(d, Course(d, actions[..|actions| - 1]), actions[|actions| - 1])
  }

  // ---------------------------------------------------------------- what a check is worth

  /** Escrow session `id` carries the log's session id and was bought on these terms at the full price. */
  ghost predicate Paid(s: State, id: nat, sid: SessionId, tier: Tier, hours: nat) {
    id in s.sessions && sid == Render(id) && s.sessions[id].tier == tier && s.sessions[id].hours == hours
    && s.sessions[id].paidAmount == Price(tier, hours)
  }

  ghost predicate Backed(s: State, sid: SessionId, tier: Tier, hours: nat) {
    exists id: nat :: Paid(s, id, sid, tier, hours)
  }

  /** On any receipts, a passed check names a session bought on the terms asked for exactly when the escrow has
      itself emitted the event of the first matching log, up to the payer. */
  lemma CheckNamesPaidIff(s: State, receipts: map<TxHash, Receipt>, tx: TxHash, tier: Tier, hours: nat)
    requires Books(s) && VerifiedId(receipts, tx, tier, hours).Some?
    ensures Matched(receipts, tx, tier, hours).Some?
    ensures Backed(s, VerifiedId(receipts, tx, tier, hours).value, tier, hours)
       <==> Emitted(s, Matched(receipts, tx, tier, hours).value.event)
  {
    BackedIffEmitted(s, Matched(receipts, tx, tier, hours).value, tier, hours);
  }

  lemma BackedIffEmitted(s: State, log: Log, tier: Tier, hours: nat)
    requires Books(s) && Matches(log, tier, hours, Pricing.PriceWei(tier, hours))
    ensures Backed(s, Render(log.event.sessionId), tier, hours) <==> Emitted(s, log.event)
  {
    var e := log.event;
    Pricing.PricesAgree(tier, hours);
    SoldIffEmitted(s, e);
    ValueOfRender(e.sessionId);
    if Sold(s, e) { assert Paid(s, e.sessionId, Render(e.sessionId), tier, hours); }
    if id: nat :| Paid(s, id, Render(e.sessionId), tier, hours) { ValueOfRender(id); }
  }

  // ---------------------------------------------------------------- the log behind every row

  /** Some transaction's check for these terms passes by the log. */
  ghost predicate Passed(receipts: map<TxHash, Receipt>, log: Log, tier: Tier, hours: nat) {
    exists tx :: tx in receipts && Matched(receipts, tx, tier, hours) == Some(log)
  }

  /** Such a check, for 1 to 24 hours that run from its moment to the expiry, stands behind the session. */
  ghost predicate Stands(receipts: map<TxHash, Receipt>, check: Check, sid: SessionId, tier: Tier, expiresAt: nat) {
    var log := check.log;
    && log.Decoded? && log.event.SessionPurchased? && sid == Render(log.event.sessionId)
    && Passed(receipts, log, tier, log.event.hours)
    && 1 <= log.event.hours <= MAX_SESSION_HOURS && expiresAt == check.at + 3600 * log.event.hours
  }

  ghost predicate Traced(receipts: map<TxHash, Receipt>, behind: Option<Check>, p: Process) {
    && (p.Opening? ==> behind.Some? && Stands(receipts, behind.value, p.sid, p.tier, p.expiresAt))
    && (p.Verifying? ==> 1 <= p.hours <= MAX_SESSION_HOURS)
  }

  ghost predicate TracedRow(receipts: map<TxHash, Receipt>, behind: Option<Check>, row: Row) {
    row.toState == PAID ==>
      && row.tier.Some? && row.expiresAt.Some? && behind.Some?
      && Stands(receipts, behind.value, row.sessionId, row.tier.value, row.expiresAt.value)
  }

  ghost predicate AllTraced(l: Ledger) {
    && |l.behind| == |l.handlers.log|
    && (forall i :: 0 <= i < |l.behind| ==> TracedRow(l.receipts, l.behind[i], l.handlers.log[i]))
    && forall i :: 0 <= i < |l.handlers.procs| ==> Traced(l.receipts, Behind(l.checked, i), l.handlers.procs[i])
  }

  /** The escrow's own logs are events it has emitted. */
  predicate Genuine(d: Deployment, s: State, log: Log) {
    log.Decoded? && log.emitter == d.self ==> log.event in s.events
  }

  ghost predicate AllGenuine(d: Deployment, s: State, l: Ledger) {
    && (forall h, i :: h in l.receipts && 0 <= i < |l.receipts[h].logs| ==> Genuine(d, s, l.receipts[h].logs[i]))
    && (forall pid :: pid in l.checked ==> Genuine(d, s, l.checked[pid].log))
    && forall i :: 0 <= i < |l.behind| && l.behind[i].Some? ==> Genuine(d, s, l.behind[i].value.log)
  }

  ghost predicate Sound(d: Deployment, l: Ledger) {
    Books(l.escrow) && AllTraced(l) && AllGenuine(d, l.escrow, l)
  }

  // ---------------------------------------------------------------- the escrow moves

  lemma {:induction false} Collected(logs: seq<Log>, a: Address, i: nat)
    requires i < |logs| && logs[i].Decoded? && logs[i].emitter == a
    ensures logs[i].event in EmittedBy(logs, a)
  {
    if i > 0 { Collected(logs[1..], a, i - 1); }
  }

  /** Receipts are only added. */
  lemma PassedStays(receipts: map<TxHash, Receipt>, hash: TxHash, r: Receipt, log: Log, tier: Tier, hours: nat)
    requires hash !in receipts && Passed(receipts, log, tier, hours)
    ensures Passed(receipts[hash := r], log, tier, hours)
  {
    var tx :| tx in receipts && Matched(receipts, tx, tier, hours) == Some(log);
    assert Matched(receipts[hash := r], tx, tier, hours) == Some(log);
  }

  lemma TracesStay(l: Ledger, hash: TxHash, r: Receipt)
    requires AllTraced(l) && hash !in l.receipts
    ensures AllTraced(l.(receipts := l.receipts[hash := r]))
  {
    var receipts := l.receipts[hash := r];
    forall i | 0 <= i < |l.behind| ensures TracedRow(receipts, l.behind[i], l.handlers.log[i]) {
      assert TracedRow(l.receipts, l.behind[i], l.handlers.log[i]);
      if l.handlers.log[i].toState == PAID {
        var log := l.behind[i].value.log;
        PassedStays(l.receipts, hash, r, log, l.handlers.log[i].tier.value, log.event.hours);
      }
    }
    forall i | 0 <= i < |l.handlers.procs| ensures Traced(receipts, Behind(l.checked, i), l.handlers.procs[i]) {
      assert Traced(l.receipts, Behind(l.checked, i), l.handlers.procs[i]);
      if l.handlers.procs[i].Opening? {
        var log := l.checked[i].log;
        PassedStays(l.receipts, hash, r, log, l.handlers.procs[i].tier, log.event.hours);
      }
    }
  }

  lemma EscrowMoves(d: Deployment, l: Ledger, t: State, hash: TxHash, r: Receipt)
    requires Sound(d, l) && Books(t) && Follows(l.escrow, t) && Fits(d, l.escrow, t, r.logs) && hash !in l.receipts
    ensures Sound(d, l.(escrow := t, receipts := l.receipts[hash := r]))
  {
    TracesStay(l, hash, r);
    forall e | e in l.escrow.events ensures e in t.events {
      var i :| 0 <= i < |l.escrow.events| && l.escrow.events[i] == e;
      assert t.events[i] == e;
    }
    forall i | 0 <= i < |r.logs| ensures Genuine(d, t, r.logs[i]) {
      if r.logs[i].Decoded? && r.logs[i].emitter == d.self { Collected(r.logs, d.self, i); }
    }
  }

  // ---------------------------------------------------------------- the handlers move

  lemma StepIsTraced(
    receipts: map<TxHash, Receipt>, behind: Option<Check>, log: seq<Row>, used: set<TxHash>, p: Process, a: Answer)
    requires !p.Verifying? && Traced(receipts, behind, p)
    ensures
      var f := Handlers.Step(log, used, p, a);
      Traced(receipts, behind, f.proc)
      && (f.log == log || (|f.log| == |log| + 1 && f.log[..|log|] == log && TracedRow(receipts, behind, f.log[|log|])))
  {}

  lemma HandlersMove(d: Deployment, l: Ledger, e: Handlers.Event)
    requires Sound(d, l)
    ensures Sound(d, Handled(l, e))
  {
    var w, t := l.handlers, Handled(l, e);
    if e.Resume? && e.pid < |w.procs| {
      var p := w.procs[e.pid];
      assert Traced(l.receipts, Behind(l.checked, e.pid), p);
      if p.Verifying? {
        Answers(d, l, e);
      } else {
        StepIsTraced(l.receipts, Behind(l.checked, e.pid), w.log, w.used, p, e.answer);
        assert forall i :: 0 <= i < |w.log| ==> t.handlers.log[i] == t.handlers.log[..|w.log|][i] == w.log[i];
      }
    }
  }

  lemma Opens(l: Ledger, e: Handlers.Event)
    requires AllTraced(l) && Asks(l.handlers, e)
    ensures Traced(l.receipts, Behind(Checked(l, e), e.pid), Handled(l, e).handlers.procs[e.pid])
    ensures Handled(l, e).handlers.log == l.handlers.log
  {
    var p := l.handlers.procs[e.pid];
    assert Traced(l.receipts, Behind(l.checked, e.pid), p);
    var log := Matched(l.receipts, p.tx, p.tier, p.hours);
    if log.Some? { assert Passed(l.receipts, log.value, p.tier, p.hours); }
  }

  lemma Answers(d: Deployment, l: Ledger, e: Handlers.Event)
    requires Sound(d, l) && Asks(l.handlers, e)
    ensures Sound(d, Handled(l, e))
  {
    Opens(l, e);
    var p := l.handlers.procs[e.pid];
    var log := Matched(l.receipts, p.tx, p.tier, p.hours);
    if log.Some? { assert Genuine(d, l.escrow, log.value); }
    assert forall i :: i != e.pid ==> Behind(Checked(l, e), i) == Behind(l.checked, i);
  }

  // ---------------------------------------------------------------- every course of both ledgers

  lemma ActIsSound(d: Deployment, l: Ledger, x: Action)
    requires Sound(d, l)
    ensures Sound(d, Act(d, l, x)) && Follows(l.escrow, Act(d, l, x).escrow)
  {
    FollowsItself(l.escrow);
    match x
    case ToEscrow(hash, call, logs) =>
      var o := Exec(d, l.escrow, call);
      ExecIsSound(d, l.escrow, call);
      if hash !in l.receipts && MayLeave(d, l.escrow, call, logs) {
        EscrowMoves(d, l, o.state, hash, Receipt(o.error.None?, true, logs));
      }
    case Elsewhere(hash, success, calls, logs) =>
      var escrow := if success then RunCalls(d, l.escrow, calls).0 else l.escrow;
      RunCallsIsSound(d, l.escrow, calls);
      if hash !in l.receipts && Fits(d, l.escrow, escrow, logs) {
        EscrowMoves(d, l, escrow, hash, Receipt(success, false, logs));
      }
    case Handle(e) => HandlersMove(d, l, e);
  }

  lemma {:induction false} EveryCourseIsSound(d: Deployment, actions: seq<Action>)
    ensures Sound(d, Course(d, actions))
  {
    if actions != [] {
      var n := |actions| - 1;
      EveryCourseIsSound(d, actions[..n]);
      ActIsSound(d, Course(d, actions[..n]), actions[n]);
    }
  }

  /** In every course of transactions, requests, interleavings and restarts, behind every PAID row is a log by
      which a check passed, for the row's session and tier, at the price and for hours that run from the moment
      of the check exactly to the row's expiry. The session was bought on those terms exactly when the escrow
      has emitted that log's event, up to the payer; it has if the log is its own. */
  lemma EveryPaidRowIsBackedIff(d: Deployment, actions: seq<Action>, i: nat)
    requires i < |Course(d, actions).handlers.log| && Course(d, actions).handlers.log[i].toState == PAID
    ensures |Course(d, actions).behind| == |Course(d, actions).handlers.log|
    ensures
      var l := Course(d, actions);
      var row, check := l.handlers.log[i], l.behind[i];
      && row.tier.Some? && row.expiresAt.Some? && check.Some?
      && Stands(l.receipts, check.value, row.sessionId, row.tier.value, row.expiresAt.value)
      && var log := check.value.log;
      var backed := Backed(l.escrow, row.sessionId, row.tier.value, log.event.hours);
      (backed <==> Emitted(l.escrow, log.event)) && (log.emitter == d.self ==> backed)
  {
    EveryCourseIsSound(d, actions);
    var l := Course(d, actions);
    assert TracedRow(l.receipts, l.behind[i], l.handlers.log[i]);
    var log := l.behind[i].value.log;
    assert Passed(l.receipts, log, log.event.tier, log.event.hours);
    BackedIffEmitted(l.escrow, log, log.event.tier, log.event.hours);
    if log.emitter == d.self {
      assert Genuine(d, l.escrow, log);
      assert WithPayer(log.event, log.event.payer) in l.escrow.events;
    }
  }

  lemma OneActFollows(d: Deployment, actions: seq<Action>)
    requires actions != []
    ensures Follows(Course(d, actions[..|actions| - 1]).escrow, Course(d, actions).escrow)
  {
    var n := |actions| - 1;
    EveryCourseIsSound(d, actions[..n]);
    ActIsSound(d, Course(d, actions[..n]), actions[n]);
  }

  lemma {:induction false} EscrowFollows(d: Deployment, actions: seq<Action>, k: nat)
    requires k <= |actions|
    ensures Follows(Course(d, actions[..k]).escrow, Course(d, actions).escrow)
    decreases |actions|
  {
    var n := |actions| - 1;
    if k <= n {
      assert actions[..n][..k] == actions[..k];
      EscrowFollows(d, actions[..n], k);
      OneActFollows(d, actions);
      FollowsTransitive(Course(d, actions[..k]).escrow, Course(d, actions[..n]).escrow, Course(d, actions).escrow);
    } else {
      assert actions[..k] == actions;
      FollowsItself(Course(d, actions).escrow);
    }
  }

  /** What is backed at one moment is backed at every later one. */
  lemma BackedRowsStay(d: Deployment, actions: seq<Action>, k: nat, sid: SessionId, tier: Tier, hours: nat)
    requires k <= |actions| && Backed(Course(d, actions[..k]).escrow, sid, tier, hours)
    ensures Backed(Course(d, actions).escrow, sid, tier, hours)
  {
    EscrowFollows(d, actions, k);
    var s, t := Course(d, actions[..k]).escrow, Course(d, actions).escrow;
    var id: nat :| Paid(s, id, sid, tier, hours);
    assert SameDeal(s.sessions[id], t.sessions[id]);
    assert Paid(t, id, sid, tier, hours);
  }

  // ---------------------------------------------------------------- a row nobody paid for

  function Own(d: Deployment, events: seq<Escrow.Event>): seq<Log> {
    if events == [] then [] else [Decoded(d.self, events[0])] + Own(d, events[1..])
  }

  lemma {:induction false} OwnIsCollected(d: Deployment, events: seq<Escrow.Event>)
    ensures EmittedBy(Own(d, events), d.self) == events
  {
    if events != [] {
      OwnIsCollected(d, events[1..]);
      assert Own(d, events)[1..] == Own(d, events[1..]);
    }
  }

  lemma FirstLogMatches(receipts: map<TxHash, Receipt>, hash: TxHash, logs: seq<Log>, tier: Tier, hours: nat)
    requires logs != [] && Matches(logs[0], tier, hours, Pricing.PriceWei(tier, hours))
    ensures Matched(receipts[hash := Receipt(true, true, logs)], hash, tier, hours) == Some(logs[0])
  {}

  lemma ForeignIsSkipped(d: Deployment, fake: Log, own: seq<Log>)
    requires fake.Decoded? && fake.emitter != d.self
    ensures EmittedBy([fake] + own, d.self) == EmittedBy(own, d.self)
  {
    assert ([fake] + own)[1..] == own;
  }

  lemma Rest<T>(a: seq<T>, b: seq<T>)
    requires a <= b
    ensures a + b[|a|..] == b
  {}

  /** One foreign log in front of the escrow's own. */
  lemma ForeignFits(d: Deployment, s: State, t: State, fake: Log)
    requires s.events <= t.events && fake.Decoded? && fake.emitter != d.self
    ensures Fits(d, s, t, [fake] + Own(d, t.events[|s.events|..]))
  {
    var added := t.events[|s.events|..];
    OwnIsCollected(d, added);
    ForeignIsSkipped(d, fake, Own(d, added));
    Rest(s.events, t.events);
  }

  /** The transaction of a payout or refund that goes through, paying a contract that logs a purchase of its
      own, passes the check by that log. */
  lemma ForeignLogPasses(d: Deployment, l: Ledger, hash: TxHash, call: Call, fake: Log, tier: Tier, hours: nat)
      returns (logs: seq<Log>)
    requires Books(l.escrow) && hash !in l.receipts && !call.PurchaseSession? && Exec(d, l.escrow, call).error.None?
    requires fake.Decoded? && fake.emitter != d.self && Matches(fake, tier, hours, Pricing.PriceWei(tier, hours))
    ensures Act(d, l, ToEscrow(hash, call, logs))
         == l.(escrow := Exec(d, l.escrow, call).state, receipts := l.receipts[hash := Receipt(true, true, logs)])
    ensures Matched(l.receipts[hash := Receipt(true, true, logs)], hash, tier, hours) == Some(fake)
  {
    ExecIsSound(d, l.escrow, call);
    var t := Exec(d, l.escrow, call).state;
    ForeignFits(d, l.escrow, t, fake);
    logs := [fake] + Own(d, t.events[|l.escrow.events|..]);
    FirstLogMatches(l.receipts, hash, logs, tier, hours);
  }

  lemma OneMoreAct(d: Deployment, actions: seq<Action>, x: Action)
    ensures Course(d, actions + [x]) == Act(d, Course(d, actions), x)
  {
    assert (actions + [x])[..|actions|] == actions;
  }

  /** A course from the start in which a session is bought and refunded to a contract, and the refund then
      opens, for whatever tier and time, a session the escrow has never sold. */
  lemma UnbackedRow(d: Deployment, id: nat, tier: Tier, hours: nat, relay: RelayName) returns (actions: seq<Action>)
    requires d.admin != 0 && id > 0 && 1 <= hours <= MAX_SESSION_HOURS
    ensures
      var l := Course(d, actions);
      && |l.handlers.log| == 1 && l.handlers.log[0].toState == PAID && l.handlers.log[0].sessionId == Render(id)
      && l.handlers.log[0].tier == Some(tier) && id !in l.escrow.sessions
      && forall h: nat :: !Backed(l.escrow, Render(id), tier, h)
  {
    actions := Refunded(d, id, tier, hours);
    var begin, a := BeginPurchase(tier, hours, Some("refund"), Only(relay)), Answer(None, 0, []);
    OneMoreAct(d, actions, Handle(begin));
    OneMoreAct(d, actions + [Handle(begin)], Handle(Resume(0, a)));
    OneMoreAct(d, actions + [Handle(begin)] + [Handle(Resume(0, a))], Handle(Resume(0, a)));
    actions := actions + [Handle(begin)] + [Handle(Resume(0, a))] + [Handle(Resume(0, a))];
    forall h: nat ensures !Backed(Course(d, actions).escrow, Render(id), tier, h) {
      ValueOfRender(id);
      if k: nat :| Paid(Course(d, actions).escrow, k, Render(id), tier, h) { ValueOfRender(k); }
    }
  }

  /** The first session is sold. */
  lemma Sells(d: Deployment, payer: Account) returns (actions: seq<Action>)
    ensures
      var l := Course(d, actions);
      && l.handlers == START && l.escrow.sessions == map[0 := Session(payer, Lite, 1, Price(Lite, 1), 0, false)]
      && l.escrow.balance == Price(Lite, 1) && "refund" !in l.receipts
  {
    var e := SessionPurchased(0, payer, Lite, 1, Price(Lite, 1));
    var pay := ToEscrow("pay", PurchaseSession(payer, Lite, 1, Price(Lite, 1), 0), Own(d, [e]));
    OwnIsCollected(d, [e]);
    OneMoreAct(d, [], pay);
    actions := [] + [pay];
  }

  /** A refund to a payer that takes the money and calls nobody. */
  lemma Refunds(d: Deployment, s: State, sender: Account)
    requires sender == d.admin && 0 in s.sessions && !s.sessions[0].refunded
    requires s.sessions[0].payer != 0 && s.sessions[0].payer != d.self && s.sessions[0].paidAmount <= s.balance
    ensures Exec(d, s, RefundSession(sender, 0, Callee([], true))).error.None?
    ensures Exec(d, s, RefundSession(sender, 0, Callee([], true))).state.sessions.Keys == s.sessions.Keys
  {}

  lemma Refunded(d: Deployment, id: nat, tier: Tier, hours: nat) returns (actions: seq<Action>)
    requires d.admin != 0 && id > 0
    ensures
      var l := Course(d, actions);
      && l.handlers == START && l.escrow.sessions.Keys == {0}
      && VerifiedId(l.receipts, "refund", tier, hours) == Some(Render(id))
  {
    var payer: Account, back := d.self + 1, RefundSession(d.admin, 0, Callee([], true));
    actions := Sells(d, payer);
    EveryCourseIsSound(d, actions);
    Refunds(d, Course(d, actions).escrow, d.admin);
    var fake := Decoded(payer, SessionPurchased(id, payer, tier, hours, Pricing.PriceWei(tier, hours)));
    var logs := ForeignLogPasses(d, Course(d, actions), "refund", back, fake, tier, hours);
    OneMoreAct(d, actions, ToEscrow("refund", back, logs));
    actions := actions + [ToEscrow("refund", back, logs)];
  }
}
