/** The session escrow as a contract whose payouts and refunds call out, and whose callees may call
    back in to any finite depth. */
module Escrow {
  import opened Optional

  datatype Tier = Lite | Standard | Turbo

  const ETHER := 1_000_000_000_000_000_000
  const MAX_HOURS := 24
  const UINT256_MAX := 0xffff_ffff_ffff_ffff_ffff_ffff_ffff_ffff_ffff_ffff_ffff_ffff_ffff_ffff_ffff_ffff
  const UINT64_RANGE := 0x1_0000_0000_0000_0000

  /** Wei per hour: $0.10, $0.35 and $1.00 with 18 decimals. */
  function RatePerHour(tier: Tier): nat {
    match tier
    case Lite => ETHER / 10
    case Standard => 35 * ETHER / 100
    case Turbo => ETHER
  }

  function Price(tier: Tier, hours: nat): nat {
    RatePerHour(tier) * hours
  }

  /** Any address; a transaction's sender is never the zero address. */
  type Address = nat
  type Account = a: nat | a != 0 witness 1

  datatype Session = Session(payer: Address, tier: Tier, hours: nat, paidAmount: nat, purchasedAt: nat, refunded: bool)

  datatype Event =
    | SessionPurchased(sessionId: nat, payer: Address, tier: Tier, hours: nat, paidAmount: nat)
    | OperatorPaidOut(to: Address, amount: nat)
    | SessionRefunded(sessionId: nat, payer: Address, amount: nat)

  /** Value that left the contract, in order. */
  datatype Transfer = Payout(to: Address, amount: nat) | Refund(sessionId: nat, to: Address, amount: nat)

  datatype State = State(
    balance: nat,
    nextSessionId: nat,
    sessions: map<nat, Session>,
    sent: seq<Transfer>,
    events: seq<Event>)

  const EMPTY := State(0, 0, map[], [], [])

  datatype Error =
    | InvalidHours | IncorrectPayment | SessionNotFound | SessionAlreadyRefunded
    | InsufficientEscrowBalance | NotAdmin | TransferFailed | Overflow

  /** A call into the contract. A payout or refund carries what its recipient does when paid. */
  datatype Call =
    | PurchaseSession(sender: Account, tier: Tier, hours: nat, value: nat, now: nat)
    | PayoutOperator(sender: Account, to: Address, amount: nat, callee: Callee)
    | RefundSession(sender: Account, sessionId: nat, callee: Callee)

  /** A recipient: the calls it makes back, from any senders, and whether it takes the money. */
  datatype Callee = Callee(calls: seq<Call>, accepts: bool)

  /** The outcome of a call: the state after, the error if it reverted, and the contract's state at
      every call-out point on the way, reverted branches included. */
  datatype Outcome = Outcome(state: State, error: Option<Error>, seen: seq<State>)
  /** The deployment: the admin, and the contract's own address, which takes no plain transfers. */
  datatype Deployment = Deployment(admin: Address, self: Address)

  function Purchase(s: State, c: Call): Outcome
    requires c.PurchaseSession?
  {
    if c.hours == 0 || c.hours > MAX_HOURS then Outcome(s, Some(InvalidHours), [])
    else if c.value != Price(c.tier, c.hours) then Outcome(s, Some(IncorrectPayment), [])
    else if s.nextSessionId == UINT256_MAX then Outcome(s, Some(Overflow), [])
    else
      var id := s.nextSessionId;
      var session := Session(c.sender, c.tier, c.hours, c.value, c.now % UINT64_RANGE, false);
      Outcome(
        s.(balance := s.balance + c.value,
           nextSessionId := id + 1,
           sessions := s.sessions[id := session],
           events := s.events + [SessionPurchased(id, c.sender, c.tier, c.hours, c.value)]),
        None, [])
  }

  /** A value call: `before` is the state with the money gone; a failed call rolls back to `s`. */
  function CallOut(d: Deployment, s: State, before: State, to: Address, callee: Callee, emit: Event): Outcome
    decreases callee, 2
  {
    if to == d.self then Outcome(s, Some(TransferFailed), [])
    else
      var (after, seen) := RunCalls(d, before, callee.calls);
      if !callee.accepts then Outcome(s, Some(TransferFailed), [before] + seen)
      else Outcome(after.(events := after.events + [emit]), None, [before] + seen)
  }

  function Exec(d: Deployment, s: State, c: Call): Outcome
    decreases c, 0
  {
    match c
    case PurchaseSession(_, _, _, _, _) => Purchase(s, c)
    case PayoutOperator(sender, to, amount, callee) =>
      if sender != d.admin then Outcome(s, Some(NotAdmin), [])
      else if amount > s.balance then Outcome(s, Some(InsufficientEscrowBalance), [])
      else
        var before := s.(balance := s.balance - amount, sent := s.sent + [Payout(to, amount)]);
        CallOut(d, s, before, to, callee, OperatorPaidOut(to, amount))
    case RefundSession(sender, id, callee) =>
      if sender != d.admin then Outcome(s, Some(NotAdmin), [])
      else if id !in s.sessions then Outcome(s, Some(SessionNotFound), [])
      else
        var session := s.sessions[id];
        if session.payer == 0 then Outcome(s, Some(SessionNotFound), [])
        else if session.refunded then Outcome(s, Some(SessionAlreadyRefunded), [])
        else if session.paidAmount > s.balance then Outcome(s, Some(TransferFailed), [])
        else
          var before := s.(balance := s.balance - session.paidAmount,
                           sessions := s.sessions[id := session.(refunded := true)],
                           sent := s.sent + [Refund(id, session.payer, session.paidAmount)]);
          CallOut(d, s, before, session.payer, callee, SessionRefunded(id, session.payer, session.paidAmount))
  }

  /** A callee's calls in order; each one that reverts leaves no trace in the state. */
  function RunCalls(d: Deployment, s: State, calls: seq<Call>): (State, seq<State>)
    decreases calls, 1
  {
    if calls == [] then (s, []) else
      var first := Exec(d, s, calls[0]);
      var (after, seen) := RunCalls(d, first.state, calls[1..]);
      (after, first.seen + seen)
  }

  // ---------------------------------------------------------------- the books

  function TotalSent(sent: seq<Transfer>): nat {
    if sent == [] then 0 else TotalSent(sent[..|sent| - 1]) + sent[|sent| - 1].amount
  }

  function TotalRefunded(sent: seq<Transfer>): nat {
    if sent == [] then 0 else
      TotalRefunded(sent[..|sent| - 1]) + (if sent[|sent| - 1].Refund? then sent[|sent| - 1].amount else 0)
  }

  /** How often session `id` was refunded. */
  function TimesRefunded(sent: seq<Transfer>, id: nat): nat {
    if sent == [] then 0 else
      TimesRefunded(sent[..|sent| - 1], id)
      + (if sent[|sent| - 1].Refund? && sent[|sent| - 1].sessionId == id then 1 else 0)
  }

  ghost predicate Ids(sessions: map<nat, Session>, n: nat) {
    forall id: nat :: id in sessions <==> id < n
  }

  function TotalPaid(sessions: map<nat, Session>, n: nat): nat
    requires forall id :: 0 <= id < n ==> id in sessions
  {
    if n == 0 then 0 else TotalPaid(sessions, n - 1) + sessions[n - 1].paidAmount
  }

  function TotalFlagged(sessions: map<nat, Session>, n: nat): nat
    requires forall id :: 0 <= id < n ==> id in sessions
  {
    if n == 0 then 0 else
      TotalFlagged(sessions, n - 1) + (if sessions[n - 1].refunded then sessions[n - 1].paidAmount else 0)
  }

  /** The purchase events, one per session, in order of id. */
  function Announced(sessions: map<nat, Session>, n: nat): seq<Event>
    requires forall id :: 0 <= id < n ==> id in sessions
  {
    if n == 0 then [] else
      var s := sessions[n - 1];
      Announced(sessions, n - 1) + [SessionPurchased(n - 1, s.payer, s.tier, s.hours, s.paidAmount)]
  }

  function Purchases(events: seq<Event>): seq<Event> {
    if events == [] then [] else
      Purchases(events[..|events| - 1])
      + (if events[|events| - 1].SessionPurchased? then [events[|events| - 1]] else [])
  }

  predicate FairlyPriced(s: Session) {
    s.payer != 0 && 1 <= s.hours <= MAX_HOURS && s.paidAmount == Price(s.tier, s.hours)
  }

  ghost predicate AllFair(sessions: map<nat, Session>) {
    forall id :: id in sessions ==> FairlyPriced(sessions[id])
  }

  ghost predicate RefundsMatch(sessions: map<nat, Session>, sent: seq<Transfer>) {
    forall i :: 0 <= i < |sent| && sent[i].Refund? ==>
      && sent[i].sessionId in sessions
      && sent[i].to == sessions[sent[i].sessionId].payer
      && sent[i].amount == sessions[sent[i].sessionId].paidAmount
  }

  ghost predicate RefundedOnce(sessions: map<nat, Session>, sent: seq<Transfer>) {
    forall id: nat ::
      TimesRefunded(sent, id) == if id in sessions && sessions[id].refunded then 1 else 0
  }

  /** The escrow's books balance. */
  ghost predicate Books(s: State) {
    && Ids(s.sessions, s.nextSessionId)
    && AllFair(s.sessions)
    && s.balance + TotalSent(s.sent) == TotalPaid(s.sessions, s.nextSessionId)
    && TotalRefunded(s.sent) == TotalFlagged(s.sessions, s.nextSessionId)
    && RefundedOnce(s.sessions, s.sent)
    && RefundsMatch(s.sessions, s.sent)
    && Purchases(s.events) == Announced(s.sessions, s.nextSessionId)
  }

  /** Two records of one purchase; only the refund flag may differ, and only by being set. */
  predicate SameDeal(a: Session, b: Session) {
    b == a.(refunded := b.refunded) && (a.refunded ==> b.refunded)
  }

  /** `t` comes after `s`: sessions, transfers and events are never lost or rewritten, no refund flag is cleared. */
  ghost predicate Follows(s: State, t: State) {
    && s.nextSessionId <= t.nextSessionId
    && s.sent <= t.sent && s.events <= t.events
    && (forall id :: id in s.sessions ==> id in t.sessions && SameDeal(s.sessions[id], t.sessions[id]))
  }

  // ---------------------------------------------------------------- sums under change

  lemma {:induction false} SumsFrame(a: map<nat, Session>, b: map<nat, Session>, n: nat)
    requires forall id :: 0 <= id < n ==> id in a && id in b && b[id] == a[id]
    ensures TotalPaid(a, n) == TotalPaid(b, n)
    ensures TotalFlagged(a, n) == TotalFlagged(b, n)
    ensures Announced(a, n) == Announced(b, n)
  {
    if n > 0 { SumsFrame(a, b, n - 1); }
  }

  lemma {:induction false} FlaggingSums(a: map<nat, Session>, id: nat, n: nat)
    requires (forall i :: 0 <= i < n ==> i in a) && id < n && !a[id].refunded
    ensures var b := a[id := a[id].(refunded := true)];
            && TotalPaid(b, n) == TotalPaid(a, n)
            && TotalFlagged(b, n) == TotalFlagged(a, n) + a[id].paidAmount
            && Announced(b, n) == Announced(a, n)
  {
    var b := a[id := a[id].(refunded := true)];
    if id == n - 1 { SumsFrame(a, b, n - 1); } else { FlaggingSums(a, id, n - 1); }
  }

  lemma SentGrows(sent: seq<Transfer>, t: Transfer)
    ensures TotalSent(sent + [t]) == TotalSent(sent) + t.amount
    ensures TotalRefunded(sent + [t]) == TotalRefunded(sent) + (if t.Refund? then t.amount else 0)
    ensures forall id :: TimesRefunded(sent + [t], id) ==
                         TimesRefunded(sent, id) + (if t.Refund? && t.sessionId == id then 1 else 0)
  {
    assert (sent + [t])[..|sent|] == sent;
  }

  lemma EventsGrow(events: seq<Event>, e: Event)
    ensures Purchases(events + [e]) == Purchases(events) + (if e.SessionPurchased? then [e] else [])
  {
    assert (events + [e])[..|events|] == events;
  }

  // ---------------------------------------------------------------- what each step keeps

  function Announcement(id: nat, s: Session): Event {
    SessionPurchased(id, s.payer, s.tier, s.hours, s.paidAmount)
  }

  lemma NewSessionKeepsBooks(s: State, session: Session, t: State)
    requires Books(s) && FairlyPriced(session) && !session.refunded
    requires var id := s.nextSessionId;
             t == s.(balance := s.balance + session.paidAmount,
                     nextSessionId := id + 1,
                     sessions := s.sessions[id := session],
                     events := s.events + [Announcement(id, session)])
    ensures Books(t) && Follows(s, t)
  {
    var id := s.nextSessionId;
    NewSessionSums(s.sessions, id, session);
    EventsGrow(s.events, Announcement(id, session));
    RefundsUntouched(s.sessions, id, session, s.sent);
    FairSessionAdded(s.sessions, id, session);
  }

  lemma FairSessionAdded(sessions: map<nat, Session>, id: nat, session: Session)
    requires AllFair(sessions) && FairlyPriced(session)
    ensures AllFair(sessions[id := session])
  {}

  lemma NewSessionSums(sessions: map<nat, Session>, n: nat, session: Session)
    requires Ids(sessions, n) && !session.refunded
    ensures var t := sessions[n := session];
            && Ids(t, n + 1) && n !in sessions
            && TotalPaid(t, n + 1) == TotalPaid(sessions, n) + session.paidAmount
            && TotalFlagged(t, n + 1) == TotalFlagged(sessions, n)
            && Announced(t, n + 1) == Announced(sessions, n)
                 + [SessionPurchased(n, session.payer, session.tier, session.hours, session.paidAmount)]
  {
    SumsFrame(sessions, sessions[n := session], n);
  }

  lemma RefundsUntouched(sessions: map<nat, Session>, id: nat, session: Session, sent: seq<Transfer>)
    requires id !in sessions && !session.refunded && RefundsMatch(sessions, sent) && RefundedOnce(sessions, sent)
    ensures RefundsMatch(sessions[id := session], sent) && RefundedOnce(sessions[id := session], sent)
  {}

  lemma PurchaseKeepsBooks(s: State, c: Call)
    requires Books(s) && c.PurchaseSession?
    ensures Books(Purchase(s, c).state) && Follows(s, Purchase(s, c).state)
    ensures Purchase(s, c).error.None?
       <==> 1 <= c.hours <= 24 && c.value == Price(c.tier, c.hours) && s.nextSessionId != UINT256_MAX
    ensures Purchase(s, c).error.Some? ==> Purchase(s, c).state == s
    ensures
      var id, t := s.nextSessionId, Purchase(s, c).state;
      Purchase(s, c).error.None? ==>
        && id !in s.sessions && t.nextSessionId == id + 1 && t.sessions.Keys == s.sessions.Keys + {id}
        && (forall k :: k in s.sessions ==> t.sessions[k] == s.sessions[k])
        && t.sessions[id].payer == c.sender && t.sessions[id].tier == c.tier && t.sessions[id].hours == c.hours
        && t.sessions[id].paidAmount == c.value && !t.sessions[id].refunded && t.balance == s.balance + c.value
        && (c.now < UINT64_RANGE ==> t.sessions[id].purchasedAt == c.now)
  {
    var r := Purchase(s, c);
    if r.error.None? {
      NewSessionKeepsBooks(s, r.state.sessions[s.nextSessionId], r.state);
    }
  }

  lemma PayoutKeepsBooks(s: State, to: Address, amount: nat)
    requires Books(s) && amount <= s.balance
    ensures var t := s.(balance := s.balance - amount, sent := s.sent + [Payout(to, amount)]);
            Books(t) && Follows(s, t)
  {
    SentGrows(s.sent, Payout(to, amount));
  }

  lemma RefundKeepsBooks(s: State, id: nat)
    requires Books(s) && id in s.sessions && !s.sessions[id].refunded && s.sessions[id].paidAmount <= s.balance
    ensures var session := s.sessions[id];
            var t := s.(balance := s.balance - session.paidAmount,
                        sessions := s.sessions[id := session.(refunded := true)],
                        sent := s.sent + [Refund(id, session.payer, session.paidAmount)]);
            Books(t) && Follows(s, t)
  {
    var session := s.sessions[id];
    var refund := Refund(id, session.payer, session.paidAmount);
    var sessions := s.sessions[id := session.(refunded := true)];
    SentGrows(s.sent, refund);
    FlaggingSums(s.sessions, id, s.nextSessionId);
    assert RefundsMatch(sessions, s.sent + [refund]);
    assert RefundedOnce(sessions, s.sent + [refund]);
  }

  lemma EmitKeepsBooks(s: State, e: Event)
    requires Books(s) && !e.SessionPurchased?
    ensures Books(s.(events := s.events + [e]))
  {
    EventsGrow(s.events, e);
  }

  lemma FollowsTransitive(a: State, b: State, c: State)
    requires Follows(a, b) && Follows(b, c)
    ensures Follows(a, c)
  {
    forall id | id in a.sessions ensures id in c.sessions && SameDeal(a.sessions[id], c.sessions[id]) {
      assert id in b.sessions;
    }
  }

  // ---------------------------------------------------------------- every run

  /** At each of these points the books balanced and nothing of `s` was lost. */
  ghost predicate AllSound(s: State, seen: seq<State>) {
    forall i :: 0 <= i < |seen| ==> Books(seen[i]) && Follows(s, seen[i])
  }

  ghost predicate Sound(s: State, r: Outcome) {
    && Books(r.state) && Follows(s, r.state)
    && (r.error.Some? ==> r.state == s)
    && AllSound(s, r.seen)
  }

  lemma AllSoundFrom(s: State, t: State, seen: seq<State>)
    requires Follows(s, t) && AllSound(t, seen)
    ensures AllSound(s, seen)
  {
    forall i | 0 <= i < |seen| ensures Books(seen[i]) && Follows(s, seen[i]) { FollowsTransitive(s, t, seen[i]); }
  }

  lemma FollowsItself(s: State)
    ensures Follows(s, s)
  {}

  lemma {:induction false} CallOutIsSound(
    d: Deployment, s: State, before: State, to: Address, callee: Callee, emit: Event)
    requires Books(s) && Books(before) && Follows(s, before) && !emit.SessionPurchased?
    ensures Sound(s, CallOut(d, s, before, to, callee, emit))
    decreases callee, 2
  {
    FollowsItself(s);
    if to != d.self {
      RunCallsIsSound(d, before, callee.calls);
      var (after, seen) := RunCalls(d, before, callee.calls);
      AllSoundFrom(s, before, seen);
      assert AllSound(s, [before] + seen);
      if callee.accepts {
        EmitKeepsBooks(after, emit);
        FollowsTransitive(s, before, after);
      }
    }
  }

  lemma {:induction false} RefundIsSound(d: Deployment, s: State, c: Call)
    requires Books(s) && c.RefundSession?
    ensures Sound(s, Exec(d, s, c))
    decreases c, 0
  {
    var id := c.sessionId;
    FollowsItself(s);
    if c.sender == d.admin && id in s.sessions && !s.sessions[id].refunded && s.sessions[id].paidAmount <= s.balance {
      var session := s.sessions[id];
      RefundKeepsBooks(s, id);
      var before := s.(balance := s.balance - session.paidAmount,
                       sessions := s.sessions[id := session.(refunded := true)],
                       sent := s.sent + [Refund(id, session.payer, session.paidAmount)]);
      CallOutIsSound(d, s, before, session.payer, c.callee, SessionRefunded(id, session.payer, session.paidAmount));
    }
  }

  lemma {:induction false} PayoutIsSound(d: Deployment, s: State, c: Call)
    requires Books(s) && c.PayoutOperator?
    ensures Sound(s, Exec(d, s, c))
    decreases c, 0
  {
    FollowsItself(s);
    if c.sender == d.admin && c.amount <= s.balance {
      PayoutKeepsBooks(s, c.to, c.amount);
      var before := s.(balance := s.balance - c.amount, sent := s.sent + [Payout(c.to, c.amount)]);
      CallOutIsSound(d, s, before, c.to, c.callee, OperatorPaidOut(c.to, c.amount));
    }
  }

  /** Whatever the call and however deep its re-entrancy, the books balance after it and at every
      call-out point inside it, and nothing recorded is lost. */
  lemma {:induction false} ExecIsSound(d: Deployment, s: State, c: Call)
    requires Books(s)
    ensures Sound(s, Exec(d, s, c))
    decreases c, 1
  {
    match c
    case PurchaseSession(_, _, _, _, _) => PurchaseKeepsBooks(s, c);
    case PayoutOperator(_, _, _, _) => PayoutIsSound(d, s, c);
    case RefundSession(_, _, _) => RefundIsSound(d, s, c);
  }

  lemma {:induction false} RunCallsIsSound(d: Deployment, s: State, calls: seq<Call>)
    requires Books(s)
    ensures var (after, seen) := RunCalls(d, s, calls);
            Books(after) && Follows(s, after) && AllSound(s, seen)
    decreases calls, 2
  {
    if calls != [] {
      var first := Exec(d, s, calls[0]);
      ExecIsSound(d, s, calls[0]);
      RunCallsIsSound(d, first.state, calls[1..]);
      var (after, seen) := RunCalls(d, first.state, calls[1..]);
      FollowsTransitive(s, first.state, after);
      AllSoundFrom(s, first.state, seen);
    }
  }

  /** Any sequence of transactions from deployment on. */
  lemma EveryRunBalances(d: Deployment, txs: seq<Call>)
    ensures var (after, seen) := RunCalls(d, EMPTY, txs);
            Books(after) && AllSound(EMPTY, seen)
  {
    assert Books(EMPTY);
    RunCallsIsSound(d, EMPTY, txs);
  }

  /** Once refunded, a session is refunded exactly once for ever, however the run goes on. */
  lemma NoSecondRefund(d: Deployment, s: State, id: nat, txs: seq<Call>)
    requires Books(s) && id in s.sessions && s.sessions[id].refunded
    ensures var after := RunCalls(d, s, txs).0;
            TimesRefunded(after.sent, id) == 1 && id in after.sessions && after.sessions[id] == s.sessions[id]
  {
    RunCallsIsSound(d, s, txs);
  }
}
