/** Who may take money out of the escrow, when, and exactly how much. */
module EscrowPayments {
  import opened Escrow
  import opened Optional

  /** A call that is not the admin's own payout or refund. */
  predicate FromOutside(d: Deployment, c: Call) { c.PurchaseSession? || c.sender != d.admin }

  predicate AllFromOutside(d: Deployment, calls: seq<Call>) {
    forall i :: 0 <= i < |calls| ==> FromOutside(d, calls[i])
  }

  /** Nothing is sent, no balance falls, and no session is touched. */
  predicate TakesNothing(s: State, t: State) {
    && t.sent == s.sent && t.balance >= s.balance
    && forall id :: id in s.sessions ==> id in t.sessions && t.sessions[id] == s.sessions[id]
  }

  lemma OutsiderTakesNothing(d: Deployment, s: State, c: Call)
    requires Books(s) && FromOutside(d, c)
    ensures Exec(d, s, c).seen == [] && TakesNothing(s, Exec(d, s, c).state)
    ensures !c.PurchaseSession? ==> Exec(d, s, c).error == Some(NotAdmin) && Exec(d, s, c).state == s
  {}

  /** Whatever anyone but the admin calls, in whatever order, and whatever the callees would do if they were ever
      paid: no money leaves the escrow, nobody is even called, and no session is touched. */
  lemma {:induction false} OutsidersTakeNothing(d: Deployment, s: State, calls: seq<Call>)
    requires Books(s) && AllFromOutside(d, calls)
    ensures RunCalls(d, s, calls).1 == [] && TakesNothing(s, RunCalls(d, s, calls).0)
    decreases |calls|
  {
    if calls != [] {
      var first := Exec(d, s, calls[0]);
      OutsiderTakesNothing(d, s, calls[0]);
      ExecIsSound(d, s, calls[0]);
      OutsidersTakeNothing(d, first.state, calls[1..]);
    }
  }

  /** From `s` to `t`: one transfer, followed by whatever the paid party's own calls did, and the event. */
  ghost predicate PaysOut(d: Deployment, s: State, t: State, x: Transfer, callee: Callee, e: Event) {
    && s.sent + [x] <= t.sent
    && |t.events| > |s.events| && t.events[|t.events| - 1] == e && s.events <= t.events
    && (AllFromOutside(d, callee.calls) ==> t.sent == s.sent + [x] && t.balance + x.amount >= s.balance)
    && (callee.calls == [] ==> t.balance + x.amount == s.balance && t.events == s.events + [e]
                               && t.nextSessionId == s.nextSessionId)
  }

  lemma CallOutPays(d: Deployment, s: State, before: State, to: Address, callee: Callee, x: Transfer, e: Event)
    requires Books(before) && s.events == before.events && before.sent == s.sent + [x]
    requires before.balance + x.amount == s.balance && before.nextSessionId == s.nextSessionId
    ensures CallOut(d, s, before, to, callee, e).error.None? <==> to != d.self && callee.accepts
    ensures CallOut(d, s, before, to, callee, e).error in {None, Some(TransferFailed)}
    ensures CallOut(d, s, before, to, callee, e).error.Some? ==> CallOut(d, s, before, to, callee, e).state == s
    ensures CallOut(d, s, before, to, callee, e).error.None? ==>
      PaysOut(d, s, CallOut(d, s, before, to, callee, e).state, x, callee, e)
  {
    RunCallsIsSound(d, before, callee.calls);
    if AllFromOutside(d, callee.calls) { OutsidersTakeNothing(d, before, callee.calls); }
  }

  /** A payout goes through exactly for the admin, up to the balance, to a recipient other than the escrow that
      takes it; it then adds exactly that transfer and its event to what the recipient's own calls do, and
      otherwise changes nothing and says why. */
  lemma PayoutGoesThroughIff(d: Deployment, s: State, sender: Account, to: Address, amount: nat, callee: Callee)
    requires Books(s)
    ensures
      var o := Exec(d, s, PayoutOperator(sender, to, amount, callee));
      && (o.error.None? <==> sender == d.admin && amount <= s.balance && to != d.self && callee.accepts)
      && (o.error.None? ==> PaysOut(d, s, o.state, Payout(to, amount), callee, OperatorPaidOut(to, amount)))
      && (o.error.Some? ==> o.state == s)
      && (o.error == Some(NotAdmin) <==> sender != d.admin)
      && (o.error == Some(InsufficientEscrowBalance) <==> sender == d.admin && amount > s.balance)
  {
    if sender == d.admin && amount <= s.balance {
      PayoutKeepsBooks(s, to, amount);
      var before := s.(balance := s.balance - amount, sent := s.sent + [Payout(to, amount)]);
      CallOutPays(d, s, before, to, callee, Payout(to, amount), OperatorPaidOut(to, amount));
    }
  }

  /** The state a refund calls out from. */
  function Refunding(s: State, id: nat): State
    requires id in s.sessions && s.sessions[id].paidAmount <= s.balance
  {
    var session := s.sessions[id];
    s.(balance := s.balance - session.paidAmount, sessions := s.sessions[id := session.(refunded := true)],
       sent := s.sent + [Refund(id, session.payer, session.paidAmount)])
  }

  lemma RefundPays(d: Deployment, s: State, id: nat, callee: Callee)
    requires Books(s) && id in s.sessions && !s.sessions[id].refunded && s.sessions[id].paidAmount <= s.balance
    ensures
      var x := Refund(id, s.sessions[id].payer, s.sessions[id].paidAmount);
      var e := SessionRefunded(id, x.to, x.amount);
      var o := CallOut(d, s, Refunding(s, id), x.to, callee, e);
      && o.error in {None, Some(TransferFailed)} && (o.error.Some? ==> o.state == s)
      && (o.error.None? <==> x.to != d.self && callee.accepts)
      && (o.error.None? ==> PaysOut(d, s, o.state, x, callee, e) && id in o.state.sessions
                            && o.state.sessions[id].refunded)
  {
    var x := Refund(id, s.sessions[id].payer, s.sessions[id].paidAmount);
    RefundKeepsBooks(s, id);
    RunCallsIsSound(d, Refunding(s, id), callee.calls);
    CallOutPays(d, s, Refunding(s, id), x.to, callee, x, SessionRefunded(id, x.to, x.amount));
  }

  /** A refund goes through exactly for the admin, on a session not refunded before, if the balance suffices and
      the payer takes it; it then sends the payer exactly what was paid, and otherwise changes nothing. */
  lemma RefundGoesThroughIff(d: Deployment, s: State, sender: Account, id: nat, callee: Callee)
    requires Books(s)
    ensures
      var o := Exec(d, s, RefundSession(sender, id, callee));
      && (o.error.None? <==>
            sender == d.admin && id in s.sessions && !s.sessions[id].refunded
            && s.sessions[id].paidAmount <= s.balance && s.sessions[id].payer != d.self && callee.accepts)
      && (o.error.None? ==>
            var x := Refund(id, s.sessions[id].payer, s.sessions[id].paidAmount);
            PaysOut(d, s, o.state, x, callee, SessionRefunded(id, x.to, x.amount))
            && id in o.state.sessions && o.state.sessions[id].refunded)
      && (o.error.Some? ==> o.state == s)
      && (o.error == Some(NotAdmin) <==> sender != d.admin)
      && (o.error == Some(SessionNotFound) <==> sender == d.admin && id !in s.sessions)
      && (o.error == Some(SessionAlreadyRefunded) <==> sender == d.admin && id in s.sessions && s.sessions[id].refunded)
  {
    if sender == d.admin && id in s.sessions && !s.sessions[id].refunded && s.sessions[id].paidAmount <= s.balance {
      RefundPays(d, s, id, callee);
    }
  }
}
