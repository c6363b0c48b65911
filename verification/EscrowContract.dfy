/** The contract as an object whose storage its entry points update in place, against `Escrow.Exec`. */
module EscrowContract {
  import opened Escrow
  import opened Optional

  class SessionEscrow {
    const admin: Address
    const self: Address
    var balance: nat
    var nextSessionId: nat
    var sessions: map<nat, Session>
    var events: seq<Event>
    ghost var sent: seq<Transfer>

    ghost function View(): State
      reads this
    {
      State(balance, nextSessionId, sessions, sent, events)
    }

    constructor (admin: Address, self: Address)
      ensures this.admin == admin && this.self == self && View() == EMPTY
    {
      this.admin, this.self := admin, self;
      balance, nextSessionId, sessions, events, sent := 0, 0, map[], [], [];
    }

    method PurchaseSession(sender: Account, tier: Tier, hours: nat, value: nat, now: nat)
        returns (r: Option<Error>)
      modifies this
      ensures var c := Call.PurchaseSession(sender, tier, hours, value, now);
              var o := Exec(Deployment(admin, self), old(View()), c);
              View() == o.state && r == o.error
    {
      if hours == 0 || hours > MAX_HOURS { return Some(InvalidHours); }
      var required := Price(tier, hours);
      if value != required { return Some(IncorrectPayment); }
      if nextSessionId == UINT256_MAX { return Some(Overflow); }
      balance := balance + value;
      var sessionId := nextSessionId;
      nextSessionId := nextSessionId + 1;
      sessions := sessions[sessionId := Session(sender, tier, hours, value, now % UINT64_RANGE, false)];
      events := events + [SessionPurchased(sessionId, sender, tier, hours, value)];
      return None;
    }

    method PayoutOperator(sender: Account, to: Address, amount: nat, callee: Callee)
        returns (r: Option<Error>, ghost seen: seq<State>)
      modifies this
      ensures var o := Exec(Deployment(admin, self), old(View()), Call.PayoutOperator(sender, to, amount, callee));
              View() == o.state && r == o.error && seen == o.seen
      decreases callee, 3
    {
      if sender != admin { return Some(NotAdmin), []; }
      if amount > balance { return Some(InsufficientEscrowBalance), []; }
      var balance0, next0, sessions0, events0 := balance, nextSessionId, sessions, events;
      ghost var sent0 := sent;
      balance := balance - amount;
      sent := sent + [Payout(to, amount)];
      var ok;
      ok, seen := Transfer(to, callee);
      if !ok {
        balance, nextSessionId, sessions, events, sent := balance0, next0, sessions0, events0, sent0;
        return Some(TransferFailed), seen;
      }
      events := events + [OperatorPaidOut(to, amount)];
      return None, seen;
    }
  
    method RefundSession(sender: Account, sessionId: nat, callee: Callee)
        returns (r: Option<Error>, ghost seen: seq<State>)
      modifies this
      ensures var o := Exec(Deployment(admin, self), old(View()), Call.RefundSession(sender, sessionId, callee));
              View() == o.state && r == o.error && seen == o.seen
      decreases callee, 3
    {
      if sender != admin { return Some(NotAdmin), []; }
      if sessionId !in sessions || sessions[sessionId].payer == 0 { return Some(SessionNotFound), []; }
      var session := sessions[sessionId];
      if session.refunded { return Some(SessionAlreadyRefunded), []; }
      var balance0, next0, sessions0, events0 := balance, nextSessionId, sessions, events;
      ghost var sent0 := sent;
      sessions := sessions[sessionId := session.(refunded := true)];
      if session.paidAmount > balance {
        sessions := sessions0;
        return Some(TransferFailed), [];
      }
      balance := balance - session.paidAmount;
      sent := sent + [Refund(sessionId, session.payer, session.paidAmount)];
      var ok;
      ok, seen := Transfer(session.payer, callee);
      if !ok {
        balance, nextSessionId, sessions, events, sent := balance0, next0, sessions0, events0, sent0;
        return Some(TransferFailed), seen;
      }
      events := events + [SessionRefunded(sessionId, session.payer, session.paidAmount)];
      return None, seen;
    }

    /** The low-level value call: the recipient runs, and may call any entry point again. */
    method Transfer(to: Address, callee: Callee) returns (ok: bool, ghost seen: seq<State>)
      modifies this
      ensures var d := Deployment(admin, self);
              if to == self then !ok && View() == old(View()) && seen == []
              else
                var (after, points) := RunCalls(d, old(View()), callee.calls);
                ok == callee.accepts && View() == after && seen == [old(View())] + points
      decreases callee, 2
    {
      if to == self { return false, []; }
      ghost var d, s, calls := Deployment(admin, self), View(), callee.calls;
      seen := [View()];
      for i := 0 to |callee.calls|
        invariant RunCalls(d, View(), calls[i..]).0 == RunCalls(d, s, calls).0
        invariant seen + RunCalls(d, View(), calls[i..]).1 == [s] + RunCalls(d, s, calls).1
      {
        ghost var points := Dispatch(callee.calls[i]);
        seen := seen + points;
      }
      ok := callee.accepts;
    }

    method Dispatch(c: Call) returns (ghost seen: seq<State>)
      modifies this
      ensures var o := Exec(Deployment(admin, self), old(View()), c);
              View() == o.state && seen == o.seen
      decreases c, 0
    {
      match c
      case PurchaseSession(sender, tier, hours, value, now) =>
        var r := PurchaseSession(sender, tier, hours, value, now);
        seen := [];
      case PayoutOperator(sender, to, amount, callee) =>
        var r;
        r, seen := PayoutOperator(sender, to, amount, callee);
      case RefundSession(sender, sessionId, callee) =>
        var r;
        r, seen := RefundSession(sender, sessionId, callee);
    }
  }
}
