/** The orchestrator's check that a transaction really paid for a session, and what a passed check
    means on the chain. */
module Receipts {
  import opened Escrow
  import opened Optional

  /** A log entry: one the decoder of the escrow's events accepts, whichever contract emitted it, or anything
      else. */
  datatype Log = Decoded(emitter: Address, event: Event) | Undecodable

  datatype Receipt = Receipt(success: bool, toEscrow: bool, logs: seq<Log>)

  datatype Verdict =
    | Verified(sessionId: nat, payer: Address)
    | NoSuchTransaction | DidNotSucceed | NotSentToEscrow | NoMatchingLog

  predicate Matches(log: Log, tier: Tier, hours: nat, price: nat) {
    && log.Decoded? && log.event.SessionPurchased?
    && log.event.tier == tier && log.event.hours == hours && log.event.paidAmount == price
  }

  predicate FirstMatch(logs: seq<Log>, tier: Tier, hours: nat, price: nat, i: nat) {
    && i < |logs| && Matches(logs[i], tier, hours, price)
    && forall j :: 0 <= j < i ==> !Matches(logs[j], tier, hours, price)
  }

  /** A mined, successful transaction sent to the escrow. */
  predicate Payment(receipt: Option<Receipt>) {
    receipt.Some? && receipt.value.success && receipt.value.toEscrow
  }

  /** The position of the first matching log, or the number of logs. */
  function MatchIndex(logs: seq<Log>, tier: Tier, hours: nat, price: nat): (i: nat)
    ensures i <= |logs| && (i < |logs| ==> Matches(logs[i], tier, hours, price))
    ensures forall j :: 0 <= j < i ==> !Matches(logs[j], tier, hours, price)
  {
    if logs == [] || Matches(logs[0], tier, hours, price) then 0 else MatchIndex(logs[1..], tier, hours, price) + 1
  }

  function Judged(receipt: Option<Receipt>, tier: Tier, hours: nat, price: nat): Verdict {
    if receipt.None? then NoSuchTransaction
    else if !receipt.value.success then DidNotSucceed
    else if !receipt.value.toEscrow then NotSentToEscrow
    else
      var logs, i := receipt.value.logs, MatchIndex(receipt.value.logs, tier, hours, price);
      if i == |logs| then NoMatchingLog else Verified(logs[i].event.sessionId, logs[i].event.payer)
  }

  /** Success is exactly: mined, successful, sent to the escrow, and some log matches; the answer is
      the first such log's. */
  method VerifySessionPurchase(receipt: Option<Receipt>, tier: Tier, hours: nat, price: nat) returns (v: Verdict)
    ensures v.Verified?
       <==> Payment(receipt) && exists log :: log in receipt.value.logs && Matches(log, tier, hours, price)
    ensures v.Verified? ==> exists i: nat :: FirstMatch(receipt.value.logs, tier, hours, price, i)
                              && v == Verified(receipt.value.logs[i].event.sessionId, receipt.value.logs[i].event.payer)
    ensures v == Judged(receipt, tier, hours, price)
    ensures v.NoSuchTransaction? <==> receipt.None?
    ensures v.DidNotSucceed? <==> receipt.Some? && !receipt.value.success
    ensures v.NotSentToEscrow? <==> receipt.Some? && receipt.value.success && !receipt.value.toEscrow
    ensures v.NoMatchingLog?
       <==> Payment(receipt) && forall log :: log in receipt.value.logs ==> !Matches(log, tier, hours, price)
  {
    if receipt.None? { return NoSuchTransaction; }
    if !receipt.value.success { return DidNotSucceed; }
    if !receipt.value.toEscrow { return NotSentToEscrow; }
    var logs := receipt.value.logs;
    for i := 0 to |logs|
      invariant forall j :: 0 <= j < i ==> !Matches(logs[j], tier, hours, price)
    {
      var log := logs[i];
      if !log.Decoded? || !log.event.SessionPurchased? { continue; }
      if log.event.tier != tier { continue; }
      if log.event.hours != hours { continue; }
      if log.event.paidAmount != price { continue; }
      assert FirstMatch(logs, tier, hours, price, i) && MatchIndex(logs, tier, hours, price) == i;
      return Verified(log.event.sessionId, log.event.payer);
    }
    return NoMatchingLog;
  }

  // ---------------------------------------------------------------- what the log proves

  lemma {:induction false} PurchaseListed(events: seq<Event>, e: Event)
    requires e.SessionPurchased?
    ensures e in Purchases(events) <==> e in events
  {
    if events != [] {
      var n := |events| - 1;
      PurchaseListed(events[..n], e);
      assert events == events[..n] + [events[n]];
    }
  }

  lemma {:induction false} ListedIff(sessions: map<nat, Session>, n: nat, e: Event)
    requires (forall id :: 0 <= id < n ==> id in sessions) && e.SessionPurchased?
    ensures e in Announced(sessions, n) <==> e.sessionId < n && e == Announcement(e.sessionId, sessions[e.sessionId])
  {
    if n > 0 { ListedIff(sessions, n - 1, e); }
  }

  /** In every reachable escrow the purchase events are exactly the records of the existing sessions. */
  lemma PurchaseEventIffSession(s: State, e: Event)
    requires Books(s) && e.SessionPurchased?
    ensures e in s.events <==> e.sessionId in s.sessions && e == Announcement(e.sessionId, s.sessions[e.sessionId])
  {
    PurchaseListed(s.events, e);
    ListedIff(s.sessions, s.nextSessionId, e);
  }

  /** The session an event speaks of exists, on the event's terms. */
  predicate Sold(s: State, e: Event)
    requires e.SessionPurchased?
  {
    && e.sessionId in s.sessions && s.sessions[e.sessionId].tier == e.tier
    && s.sessions[e.sessionId].hours == e.hours && s.sessions[e.sessionId].paidAmount == e.paidAmount
  }

  function WithPayer(e: Event, p: Address): Event
    requires e.SessionPurchased?
  {
    SessionPurchased(e.sessionId, p, e.tier, e.hours, e.paidAmount)
  }

  /** The escrow has emitted the event, up to the payer. */
  ghost predicate Emitted(s: State, e: Event)
    requires e.SessionPurchased?
  {
    exists p: Address :: WithPayer(e, p) in s.events
  }

  /** Whatever contract emitted the log behind a passed check, the session it names was sold on the terms
      asked for exactly when the escrow has itself emitted such an event; and then the price was the
      contract's, and all this stays so. */
  lemma VerifiedPurchaseIsPaidIff(
    d: Deployment, s: State, logs: seq<Log>, tier: Tier, hours: nat, price: nat, i: nat, later: seq<Call>)
    requires Books(s) && FirstMatch(logs, tier, hours, price, i)
    ensures Sold(s, logs[i].event) <==> Emitted(s, logs[i].event)
    ensures Sold(s, logs[i].event) ==> price == Price(tier, hours) && Sold(RunCalls(d, s, later).0, logs[i].event)
  {
    SoldIffEmitted(s, logs[i].event);
    RunCallsIsSound(d, s, later);
  }

  lemma SoldIffEmitted(s: State, e: Event)
    requires Books(s) && e.SessionPurchased?
    ensures Sold(s, e) <==> Emitted(s, e)
  {
    if Sold(s, e) {
      var p := s.sessions[e.sessionId].payer;
      PurchaseEventIffSession(s, WithPayer(e, p));
    } else if Emitted(s, e) {
      var p: Address :| WithPayer(e, p) in s.events;
      PurchaseEventIffSession(s, WithPayer(e, p));
    }
  }
}
