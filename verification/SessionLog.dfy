/** The append-only session event log and the projections the orchestrator reads from it. */
module SessionLog {
  import opened Escrow
  import opened Optional

  datatype SessionState =
    | BROWSING | QUOTED | PAID | TOKEN_ISSUED | TUNNEL_OPEN | ACTIVE | EXPIRED_NORMAL
    | RELAY_REVOKED | RELAY_UNREACHABLE | FAILOVER_SELECT | SESSION_COMPLETE

  /** The transition table. */
  function Transitions(from: SessionState): seq<SessionState> {
    match from
    case BROWSING => [QUOTED]
    case QUOTED => [PAID]
    case PAID => [TOKEN_ISSUED]
    case TOKEN_ISSUED => [TUNNEL_OPEN]
    case TUNNEL_OPEN => [ACTIVE]
    case ACTIVE => [EXPIRED_NORMAL, RELAY_REVOKED, RELAY_UNREACHABLE]
    case RELAY_REVOKED => [FAILOVER_SELECT]
    case RELAY_UNREACHABLE => [FAILOVER_SELECT]
    case FAILOVER_SELECT => [TUNNEL_OPEN]
    case EXPIRED_NORMAL => [SESSION_COMPLETE]
    case SESSION_COMPLETE => []
  }

  predicate IsValidTransition(from: SessionState, to: SessionState) {
    to in Transitions(from)
  }

  const WALK := [
    BROWSING, QUOTED, PAID, TOKEN_ISSUED, TUNNEL_OPEN, ACTIVE, RELAY_UNREACHABLE, FAILOVER_SELECT, TUNNEL_OPEN, ACTIVE,
    RELAY_REVOKED, FAILOVER_SELECT, TUNNEL_OPEN, ACTIVE, EXPIRED_NORMAL, SESSION_COMPLETE]

  /** Step `i` of the walk. */
  predicate Steps(i: nat, from: SessionState, to: SessionState) {
    i + 1 < |WALK| && WALK[i] == from && WALK[i + 1] == to
  }

  /** A transition is valid exactly if it is a step of the one walk from browsing to the end, by way of a payment,
      a relay that fails and one that is revoked. */
  lemma OneWalkCoversTheTable(from: SessionState, to: SessionState)
    ensures IsValidTransition(from, to) <==> exists i: nat :: Steps(i, from, to)
  {
    if IsValidTransition(from, to) {
      match from
      case BROWSING => assert Steps(0, from, to);
      case QUOTED => assert Steps(1, from, to);
      case PAID => assert Steps(2, from, to);
      case TOKEN_ISSUED => assert Steps(3, from, to);
      case TUNNEL_OPEN => assert Steps(4, from, to);
      case ACTIVE => assert Steps(5, from, to) || Steps(9, from, to) || Steps(13, from, to);
      case RELAY_UNREACHABLE => assert Steps(6, from, to);
      case RELAY_REVOKED => assert Steps(10, from, to);
      case FAILOVER_SELECT => assert Steps(7, from, to);
      case EXPIRED_NORMAL => assert Steps(14, from, to);
      case SESSION_COMPLETE => assert false;
    }
  }

  type SessionId = string
  /** A relay's operator name; the record schema refuses the empty name. */
  type RelayName = s: string | s != "" witness "r"

  datatype Row = Row(
    id: nat,
    sessionId: SessionId,
    fromState: Option<SessionState>,
    toState: SessionState,
    relay: Option<RelayName>,
    tier: Option<Tier>,
    expiresAt: Option<nat>)

  /** What a handler may add to a transition. */
  datatype Options = Options(relay: Option<RelayName>, tier: Option<Tier>, expiresAt: Option<nat>)

  // ---------------------------------------------------------------- projections

  function CurrentState(log: seq<Row>, sid: SessionId): Option<SessionState> {
    if log == [] then None
    else if log[|log| - 1].sessionId == sid then Some(log[|log| - 1].toState)
    else CurrentState(log[..|log| - 1], sid)
  }

  function CurrentRelay(log: seq<Row>, sid: SessionId): Option<RelayName> {
    if log == [] then None
    else if log[|log| - 1].sessionId == sid && log[|log| - 1].relay.Some? then log[|log| - 1].relay
    else CurrentRelay(log[..|log| - 1], sid)
  }

  function CurrentTier(log: seq<Row>, sid: SessionId): Option<Tier> {
    if log == [] then None
    else if log[|log| - 1].sessionId == sid && log[|log| - 1].tier.Some? then log[|log| - 1].tier
    else CurrentTier(log[..|log| - 1], sid)
  }

  function ExpiresAt(log: seq<Row>, sid: SessionId): Option<nat> {
    if log == [] then None
    else if log[|log| - 1].sessionId == sid && log[|log| - 1].expiresAt.Some? then log[|log| - 1].expiresAt
    else ExpiresAt(log[..|log| - 1], sid)
  }

  /** The session's rows, oldest first. */
  function SessionEvents(log: seq<Row>, sid: SessionId): seq<Row> {
    if log == [] then []
    else
      SessionEvents(log[..|log| - 1], sid) + (if log[|log| - 1].sessionId == sid then [log[|log| - 1]] else [])
  }

  /** The row a transition would append, or `None` for an invalid transition. */
  function NewRow(log: seq<Row>, sid: SessionId, to: SessionState, o: Options): Option<Row> {
    var current := CurrentState(log, sid);
    if (current.None? && to != PAID) || (current.Some? && !IsValidTransition(current.value, to)) then None
    else
      Some(Row(|log| + 1, sid, current, to, o.relay,
               if o.tier.Some? then o.tier else CurrentTier(log, sid),
               if o.expiresAt == Some(0) then None else o.expiresAt))
  }

  /** The table as the orchestrator holds it. */
  class SessionStore {
    var rows: seq<Row>

    constructor ()
      ensures rows == []
    {
      rows := [];
    }

    /** Reads, checks and appends as one atomic step. */
    method RecordTransition(sid: SessionId, to: SessionState, o: Options) returns (r: Option<Row>)
      modifies this
      ensures r == NewRow(old(rows), sid, to, o)
      ensures rows == if r.Some? then old(rows) + [r.value] else old(rows)
    {
      var current := CurrentState(rows, sid);
      if current.None? {
        if to != PAID { return None; }
      } else if !IsValidTransition(current.value, to) {
        return None;
      }
      var tier := o.tier;
      if tier.None? {
        tier := CurrentTier(rows, sid);
      }
      var expiresAt := if o.expiresAt == Some(0) then None else o.expiresAt;
      var row := Row(|rows| + 1, sid, current, to, o.relay, tier, expiresAt);
      rows := rows + [row];
      return Some(row);
    }
  }

  // ---------------------------------------------------------------- well-formed logs

  /** The states the request handlers write. */
  predicate Written(s: SessionState) {
    s in {PAID, TOKEN_ISSUED, TUNNEL_OPEN, ACTIVE, RELAY_UNREACHABLE, FAILOVER_SELECT, EXPIRED_NORMAL}
  }

  datatype Deal = Deal(tier: Tier, expiresAt: nat)

  /** What was bought: tier and expiry of the session's first row. */
  function DealOf(log: seq<Row>, sid: SessionId): Option<Deal> {
    if log == [] then None else
      var earlier := DealOf(log[..|log| - 1], sid);
      var row := log[|log| - 1];
      if earlier.Some? || row.sessionId != sid || row.tier.None? || row.expiresAt.None? then earlier
      else Some(Deal(row.tier.value, row.expiresAt.value))
  }

  /** `row` continues `log`: it links to the session's last state, moves along the table, and keeps
      the deal. */
  predicate Continues(log: seq<Row>, row: Row) {
    var current := CurrentState(log, row.sessionId);
    var deal := DealOf(log, row.sessionId);
    && row.id == |log| + 1
    && row.fromState == current
    && Written(row.toState)
    && (if current.None? then
          row.toState == PAID && row.tier.Some? && row.expiresAt.Some?
        else
          && IsValidTransition(current.value, row.toState)
          && deal.Some?
          && row.tier == Some(deal.value.tier)
          && (row.expiresAt.Some? ==> row.expiresAt.value == deal.value.expiresAt))
  }

  predicate WellFormed(log: seq<Row>) {
    log == [] || (WellFormed(log[..|log| - 1]) && Continues(log[..|log| - 1], log[|log| - 1]))
  }

  /** The relay in use is the last one named from position `at` on, if any is, and otherwise the one in use
      there. */
  lemma {:induction false} RelayAfter(log: seq<Row>, at: nat, n: nat, sid: SessionId)
    requires at <= n <= |log|
    ensures CurrentRelay(log[..n], sid)
         == if CurrentRelay(log[at..n], sid).Some? then CurrentRelay(log[at..n], sid) else CurrentRelay(log[..at], sid)
  {
    if at < n {
      RelayAfter(log, at, n - 1, sid);
      assert log[..n][..n - 1] == log[..n - 1];
      assert log[at..n][..n - 1 - at] == log[at..n - 1];
    }
  }

  /** Rows of other sessions leave the state as it is. */
  lemma {:induction false} StateUntouched(log: seq<Row>, sid: SessionId, n: nat)
    requires n <= |log| && forall i :: n <= i < |log| ==> log[i].sessionId != sid
    ensures CurrentState(log, sid) == CurrentState(log[..n], sid)
  {
    if n < |log| {
      var before := log[..|log| - 1];
      assert before[..n] == log[..n];
      StateUntouched(before, sid, n);
    } else {
      assert log[..n] == log;
    }
  }

  lemma Grow(log: seq<Row>, row: Row, sid: SessionId)
    ensures CurrentState(log + [row], sid) == if row.sessionId == sid then Some(row.toState) else CurrentState(log, sid)
    ensures row.sessionId != sid ==> CurrentTier(log + [row], sid) == CurrentTier(log, sid)
    ensures row.sessionId != sid ==> DealOf(log + [row], sid) == DealOf(log, sid)
    ensures DealOf(log, sid).Some? ==> DealOf(log + [row], sid) == DealOf(log, sid)
    ensures WellFormed(log) && Continues(log, row) ==> WellFormed(log + [row])
  {
    assert (log + [row])[..|log|] == log;
  }

  /** A session with rows has its deal, and both projections still return it: failovers change neither. */
  lemma {:induction false} DealIsKept(log: seq<Row>, sid: SessionId)
    requires WellFormed(log)
    ensures CurrentState(log, sid).None? <==> DealOf(log, sid).None?
    ensures CurrentState(log, sid).Some? ==>
              && CurrentTier(log, sid) == Some(DealOf(log, sid).value.tier)
              && ExpiresAt(log, sid) == Some(DealOf(log, sid).value.expiresAt)
    ensures CurrentState(log, sid).Some? ==> Written(CurrentState(log, sid).value)
    ensures CurrentState(log, sid).None? ==> CurrentTier(log, sid).None? && ExpiresAt(log, sid).None?
  {
    if log != [] { DealIsKept(log[..|log| - 1], sid); }
  }

  // ---------------------------------------------------------------- legal histories

  /** The states a session has been through. */
  function Trail(log: seq<Row>, sid: SessionId): seq<SessionState> {
    if log == [] then []
    else Trail(log[..|log| - 1], sid) + (if log[|log| - 1].sessionId == sid then [log[|log| - 1].toState] else [])
  }

  const OPENING := [PAID, TOKEN_ISSUED, TUNNEL_OPEN, ACTIVE]
  const FAILOVER := [RELAY_UNREACHABLE, FAILOVER_SELECT, TUNNEL_OPEN, ACTIVE]

  /** A purchase followed by `n` failovers. */
  function Story(n: nat): (s: seq<SessionState>)
    ensures |s| == 4 + 4 * n
  {
    if n == 0 then OPENING else Story(n - 1) + FAILOVER
  }

  /** A beginning of some story, or a whole one ended by the user. */
  ghost predicate Legal(trail: seq<SessionState>) {
    (exists n: nat :: trail <= Story(n)) || (exists n: nat :: trail == Story(n) + [EXPIRED_NORMAL])
  }

  lemma {:induction false} StoryAt(n: nat, k: nat)
    requires k < 4 + 4 * n
    ensures Story(n)[k] == if k < 4 then OPENING[k] else FAILOVER[k % 4]
  {
    if n > 0 {
      if k < 4 * n {
        StoryAt(n - 1, k);
      } else {
        assert k % 4 == k - 4 * n;
      }
    }
  }

  lemma StoryGrows(trail: seq<SessionState>, n: nat, to: SessionState)
    requires trail <= Story(n) && Written(to)
    requires if trail == [] then to == PAID else IsValidTransition(trail[|trail| - 1], to)
    ensures trail + [to] <= Story(n + 1) || (to == EXPIRED_NORMAL && |trail| >= 4 && trail == Story(|trail| / 4 - 1))
  {
    if to == EXPIRED_NORMAL {
      assert trail[|trail| - 1] == ACTIVE;
      StoryEnds(trail, n);
    } else {
      StoryContinues(trail, n, to);
    }
  }

  lemma StoryContinues(trail: seq<SessionState>, n: nat, to: SessionState)
    requires trail <= Story(n) && Written(to) && to != EXPIRED_NORMAL
    requires if trail == [] then to == PAID else IsValidTransition(trail[|trail| - 1], to)
    ensures trail + [to] <= Story(n + 1)
  {
    var k := |trail|;
    if k > 0 { StoryAt(n, k - 1); }
    StoryAt(n + 1, k);
    StoryPrefix(n + 1, n);
    assert Story(n + 1)[k] == to;
  }

  lemma StoryEnds(trail: seq<SessionState>, n: nat)
    requires trail <= Story(n) && trail != [] && trail[|trail| - 1] == ACTIVE
    ensures |trail| >= 4 && trail == Story(|trail| / 4 - 1)
  {
    var k := |trail|;
    StoryAt(n, k - 1);
    assert k % 4 == 0;
    StoryPrefix(n, k / 4 - 1);
  }

  lemma LegalGrows(trail: seq<SessionState>, to: SessionState)
    requires Legal(trail) && Written(to)
    requires if trail == [] then to == PAID else IsValidTransition(trail[|trail| - 1], to)
    ensures Legal(trail + [to])
  {
    if n: nat :| trail <= Story(n) {
      StoryGrows(trail, n, to);
    } else {
      assert false;
    }
  }

  lemma {:induction false} StoryPrefix(n: nat, m: nat)
    requires m <= n
    ensures Story(m) <= Story(n)
  {
    if m < n { StoryPrefix(n - 1, m); }
  }

  lemma {:induction false} TrailEnds(log: seq<Row>, sid: SessionId)
    ensures Trail(log, sid) == [] <==> CurrentState(log, sid).None?
    ensures Trail(log, sid) != [] ==> CurrentState(log, sid) == Some(Trail(log, sid)[|Trail(log, sid)| - 1])
  {
    if log != [] { TrailEnds(log[..|log| - 1], sid); }
  }

  /** Every session of a well-formed log tells a legal story. */
  lemma {:induction false} TrailIsLegal(log: seq<Row>, sid: SessionId)
    requires WellFormed(log)
    ensures Legal(Trail(log, sid))
  {
    if log == [] {
      assert [] <= Story(0);
    } else {
      var before, row := log[..|log| - 1], log[|log| - 1];
      TrailIsLegal(before, sid);
      TrailEnds(before, sid);
      if row.sessionId == sid { LegalGrows(Trail(before, sid), row.toState); }
    }
  }

  function Occurrences(trail: seq<SessionState>, s: SessionState): nat {
    if trail == [] then 0
    else Occurrences(trail[..|trail| - 1], s) + (if trail[|trail| - 1] == s then 1 else 0)
  }

  lemma {:induction false} NoOccurrence(trail: seq<SessionState>, s: SessionState)
    requires forall i :: 0 <= i < |trail| ==> trail[i] != s
    ensures Occurrences(trail, s) == 0
  {
    if trail != [] { NoOccurrence(trail[..|trail| - 1], s); }
  }

  lemma {:induction false} OnlyFirst(trail: seq<SessionState>, s: SessionState)
    requires forall i :: 1 <= i < |trail| ==> trail[i] != s
    ensures Occurrences(trail, s) <= 1
  {
    if |trail| > 1 { OnlyFirst(trail[..|trail| - 1], s); }
  }

  /** No session is ever paid twice in the log. */
  lemma PaidAtMostOnce(log: seq<Row>, sid: SessionId)
    requires WellFormed(log)
    ensures Occurrences(Trail(log, sid), PAID) <= 1
  {
    TrailIsLegal(log, sid);
    var trail := Trail(log, sid);
    forall i | 1 <= i < |trail| ensures trail[i] != PAID {
      if n: nat :| trail <= Story(n) {
        StoryAt(n, i);
      } else {
        var n: nat :| trail == Story(n) + [EXPIRED_NORMAL];
        if i < |Story(n)| { StoryAt(n, i); }
      }
    }
    OnlyFirst(trail, PAID);
  }
}
