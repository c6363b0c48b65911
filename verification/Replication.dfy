/** How a session page in the browser rebuilds the server's log: a snapshot of the session's rows plus
    the live broadcasts its socket receives, merged by row id. */
module Replication {
  import opened Escrow
  import opened Optional
  import opened SessionLog

  // ---------------------------------------------------------------- the page's merge

  function Ids(rows: seq<Row>): set<nat> { set i | 0 <= i < |rows| :: rows[i].id }

  /** The live rows the snapshot did not already hold. */
  function Unseen(live: seq<Row>, seen: set<nat>): seq<Row> {
    if live == [] then []
    else Unseen(live[..|live| - 1], seen) + (if live[|live| - 1].id in seen then [] else [live[|live| - 1]])
  }

  function Merge(snapshot: seq<Row>, live: seq<Row>): seq<Row> {
    snapshot + Unseen(live, Ids(snapshot))
  }

  /** The state the newest row shown moved to. */
  function PageState(rows: seq<Row>): Option<SessionState> {
    if rows == [] then None else Some(rows[|rows| - 1].toState)
  }

  /** The relay of the newest row shown that names one. */
  function PageRelay(rows: seq<Row>): Option<RelayName> {
    if rows == [] then None
    else if rows[|rows| - 1].relay.Some? then rows[|rows| - 1].relay
    else PageRelay(rows[..|rows| - 1])
  }

  function PageTier(rows: seq<Row>): Option<Tier> {
    if rows == [] then None
    else if rows[|rows| - 1].tier.Some? then rows[|rows| - 1].tier
    else PageTier(rows[..|rows| - 1])
  }

  /** Read from the whole session log, the page's values are the server's projections. */
  lemma {:induction false} PageAgreesWithServer(log: seq<Row>, sid: SessionId)
    ensures PageState(SessionEvents(log, sid)) == CurrentState(log, sid)
    ensures PageRelay(SessionEvents(log, sid)) == CurrentRelay(log, sid)
    ensures PageTier(SessionEvents(log, sid)) == CurrentTier(log, sid)
  {
    if log != [] {
      var before := log[..|log| - 1];
      PageAgreesWithServer(before, sid);
      if log[|log| - 1].sessionId == sid {
        assert SessionEvents(log, sid)[..|SessionEvents(log, sid)| - 1] == SessionEvents(before, sid);
      } else {
        assert SessionEvents(log, sid) == SessionEvents(before, sid);
      }
    }
  }

  // ---------------------------------------------------------------- server, socket and page together

  datatype World = World(
    log: seq<Row>,
    // rows before this position have been broadcast
    broadcast: nat,
    registered: bool,
    // sent on the socket, not yet delivered
    queue: seq<Row>,
    // what the stream hook holds for this session
    live: seq<Row>,
    // the snapshot, read on the server and then arrived at the page
    response: Option<seq<Row>>,
    detail: Option<seq<Row>>,
    // bookkeeping: broadcasts before registration, broadcasts delivered, rows when the snapshot was read
    registeredAt: nat,
    delivered: nat,
    readAt: nat)

  const START := World([], 0, false, [], [], None, None, 0, 0, 0)

  datatype Event =
    | Insert(row: Row)
    | Broadcast
    | Register
    | Deliver
    | ReadSnapshot
    | SnapshotArrives

  /** The stream hook's message handler. */
  function Received(live: seq<Row>, row: Row, sid: SessionId): seq<Row> {
    if row.sessionId != sid then live else live + [row]
  }

  function Apply(sid: SessionId, w: World, e: Event): World {
    match e
    case Insert(row) => w.(log := w.log + [row.(id := |w.log| + 1)])
    case Broadcast =>
      if w.broadcast >= |w.log| then w
      else w.(broadcast := w.broadcast + 1, queue := if w.registered then w.queue + [w.log[w.broadcast]] else w.queue)
    case Register =>
      if w.registered then w else w.(registered := true, registeredAt := w.broadcast, delivered := w.broadcast)
    case Deliver =>
      if w.queue == [] then w
      else w.(queue := w.queue[1..], live := Received(w.live, w.queue[0], sid), delivered := w.delivered + 1)
    case ReadSnapshot =>
      if w.response.Some? || w.detail.Some? || SessionEvents(w.log, sid) == [] then w
      else w.(response := Some(SessionEvents(w.log, sid)), readAt := |w.log|)
    case SnapshotArrives =>
      if w.response.None? then w else w.(response := None, detail := w.response)
  }

  function Run(sid: SessionId, events: seq<Event>): World {
    if events == [] then START else Apply(sid, Run(sid, events[..|events| - 1]), events[|events| - 1])
  }

  predicate Numbered(log: seq<Row>) { forall i :: 0 <= i < |log| ==> log[i].id == i + 1 }

  predicate SocketInStep(sid: SessionId, w: World) {
    if w.registered then
      && w.registeredAt <= w.delivered <= w.broadcast <= |w.log|
      && w.queue == w.log[w.delivered..w.broadcast]
      && w.live == SessionEvents(w.log[w.registeredAt..w.delivered], sid)
    else w.broadcast <= |w.log| && w.queue == [] && w.live == []
  }

  predicate SnapshotIs(sid: SessionId, w: World, s: Option<seq<Row>>) {
    w.readAt <= |w.log| && (s.Some? ==> s.value == SessionEvents(w.log[..w.readAt], sid))
  }

  predicate Inv(sid: SessionId, w: World) {
    && Numbered(w.log)
    && SocketInStep(sid, w)
    && SnapshotIs(sid, w, w.response) && SnapshotIs(sid, w, w.detail)
  }

  lemma EventsOfOneMore(rows: seq<Row>, row: Row, sid: SessionId)
    ensures SessionEvents(rows + [row], sid) == SessionEvents(rows, sid) + (if row.sessionId == sid then [row] else [])
  {
    assert (rows + [row])[..|rows|] == rows;
  }

  lemma InsertKeepsInv(sid: SessionId, w: World, row: Row)
    requires Inv(sid, w)
    ensures Inv(sid, w.(log := w.log + [row.(id := |w.log| + 1)]))
  {
    var log := w.log + [row.(id := |w.log| + 1)];
    assert log[..w.readAt] == w.log[..w.readAt];
    if w.registered {
      assert log[w.delivered..w.broadcast] == w.log[w.delivered..w.broadcast];
      assert log[w.registeredAt..w.delivered] == w.log[w.registeredAt..w.delivered];
    }
  }

  lemma DeliverKeepsInv(sid: SessionId, w: World)
    requires Inv(sid, w) && w.queue != []
    ensures Inv(sid, Apply(sid, w, Deliver))
  {
    assert w.log[w.registeredAt..w.delivered + 1] == w.log[w.registeredAt..w.delivered] + [w.queue[0]];
    EventsOfOneMore(w.log[w.registeredAt..w.delivered], w.queue[0], sid);
  }

  lemma RegisterKeepsInv(sid: SessionId, w: World)
    requires Inv(sid, w) && !w.registered
    ensures Inv(sid, Apply(sid, w, Register))
  {
    assert w.log[w.broadcast..w.broadcast] == [];
  }

  lemma ApplyKeepsInv(sid: SessionId, w: World, e: Event)
    requires Inv(sid, w)
    ensures Inv(sid, Apply(sid, w, e))
  {
    match e
    case Insert(row) => InsertKeepsInv(sid, w, row);
    case Broadcast =>
    case Register => if !w.registered { RegisterKeepsInv(sid, w); }
    case Deliver => if w.queue != [] { DeliverKeepsInv(sid, w); }
    case ReadSnapshot => assert w.log[..|w.log|] == w.log;
    case SnapshotArrives =>
  }

  lemma {:induction false} RunKeepsInv(sid: SessionId, events: seq<Event>)
    ensures Inv(sid, Run(sid, events))
  {
    if events != [] {
      RunKeepsInv(sid, events[..|events| - 1]);
      ApplyKeepsInv(sid, Run(sid, events[..|events| - 1]), events[|events| - 1]);
    }
  }

  // ---------------------------------------------------------------- what the merge shows

  lemma {:induction false} EventsOfConcat(a: seq<Row>, b: seq<Row>, sid: SessionId)
    ensures SessionEvents(a + b, sid) == SessionEvents(a, sid) + SessionEvents(b, sid)
  {
    if b == [] {
      assert a + b == a;
    } else {
      var n := |b| - 1;
      EventsOfConcat(a, b[..n], sid);
      assert (a + b)[..|a + b| - 1] == a + b[..n];
    }
  }

  lemma {:induction false} EventIds(log: seq<Row>, n: nat, sid: SessionId, id: nat)
    requires Numbered(log) && n <= |log|
    ensures id in Ids(SessionEvents(log[..n], sid)) <==> 1 <= id <= n && log[id - 1].sessionId == sid
  {
    if n > 0 {
      EventIds(log, n - 1, sid, id);
      assert log[..n] == log[..n - 1] + [log[n - 1]];
      EventsOfOneMore(log[..n - 1], log[n - 1], sid);
      IdsOfConcat(SessionEvents(log[..n - 1], sid), if log[n - 1].sessionId == sid then [log[n - 1]] else []);
    }
  }

  lemma IdsOfConcat(a: seq<Row>, b: seq<Row>)
    ensures Ids(a + b) == Ids(a) + Ids(b)
  {
    forall x | x in Ids(b) ensures x in Ids(a + b) {
      var i :| 0 <= i < |b| && b[i].id == x;
      assert (a + b)[|a| + i].id == x;
    }
    forall x | x in Ids(a) ensures x in Ids(a + b) {
      var i :| 0 <= i < |a| && a[i].id == x;
      assert (a + b)[i].id == x;
    }
  }

  lemma UnseenOneMore(rows: seq<Row>, row: Row, seen: set<nat>)
    ensures Unseen(rows + [row], seen) == Unseen(rows, seen) + (if row.id in seen then [] else [row])
  {
    assert (rows + [row])[..|rows|] == rows;
  }

  /** Of the live rows `i..j`, exactly those from the snapshot's end on are new. */
  lemma {:induction false} UnseenIsTail(log: seq<Row>, sid: SessionId, r: nat, i: nat, j: nat)
    requires Numbered(log) && r <= |log| && i <= j <= |log|
    ensures Unseen(SessionEvents(log[i..j], sid), Ids(SessionEvents(log[..r], sid)))
         == SessionEvents(log[Max(i, r)..Max(Max(i, r), j)], sid)
  {
    if i == j {
      assert log[i..j] == [] && log[Max(i, r)..Max(i, r)] == [];
    } else {
      UnseenIsTail(log, sid, r, i, j - 1);
      UnseenStep(log, sid, r, i, j);
      if r < j {
        EventsStep(log, sid, Max(i, r), j);
      }
    }
  }

  lemma UnseenStep(log: seq<Row>, sid: SessionId, r: nat, i: nat, j: nat)
    requires Numbered(log) && r <= |log| && i < j <= |log|
    ensures Unseen(SessionEvents(log[i..j], sid), Ids(SessionEvents(log[..r], sid)))
         == Unseen(SessionEvents(log[i..j - 1], sid), Ids(SessionEvents(log[..r], sid)))
            + (if r < j && log[j - 1].sessionId == sid then [log[j - 1]] else [])
  {
    EventsStep(log, sid, i, j);
    if log[j - 1].sessionId == sid {
      UnseenOneMore(SessionEvents(log[i..j - 1], sid), log[j - 1], Ids(SessionEvents(log[..r], sid)));
      EventIds(log, r, sid, j);
    } else {
      assert SessionEvents(log[i..j], sid) == SessionEvents(log[i..j - 1], sid);
    }
  }

  lemma EventsStep(log: seq<Row>, sid: SessionId, i: nat, j: nat)
    requires i < j <= |log|
    ensures SessionEvents(log[i..j], sid)
         == SessionEvents(log[i..j - 1], sid) + (if log[j - 1].sessionId == sid then [log[j - 1]] else [])
  {
    assert log[i..j] == log[i..j - 1] + [log[j - 1]];
    EventsOfOneMore(log[i..j - 1], log[j - 1], sid);
  }

  function Max(a: nat, b: nat): nat { if a < b then b else a }

  /** What the page shows: the rows before the snapshot, then those broadcast after registration. The
      rows between the two, if registration came late, are missing. */
  lemma MergedView(sid: SessionId, w: World)
    requires Inv(sid, w) && w.detail.Some? && w.registered
    ensures var m := Max(w.registeredAt, w.readAt);
            Merge(w.detail.value, w.live)
              == SessionEvents(w.log[..w.readAt], sid) + SessionEvents(w.log[m..Max(m, w.delivered)], sid)
  {
    UnseenIsTail(w.log, sid, w.readAt, w.registeredAt, w.delivered);
  }

  predicate NoRepeats(rows: seq<Row>) {
    forall i, j :: 0 <= i < j < |rows| ==> rows[i].id != rows[j].id
  }

  lemma {:induction false} EventsDoNotRepeat(log: seq<Row>, n: nat, sid: SessionId)
    requires Numbered(log) && n <= |log|
    ensures NoRepeats(SessionEvents(log[..n], sid))
    ensures forall i :: 0 <= i < |SessionEvents(log[..n], sid)| ==> SessionEvents(log[..n], sid)[i].id <= n
  {
    if n > 0 {
      EventsDoNotRepeat(log, n - 1, sid);
      assert log[..n] == log[..n - 1] + [log[n - 1]];
      EventsOfOneMore(log[..n - 1], log[n - 1], sid);
    }
  }

  /** Registered before the snapshot was read, the page always shows a duplicate-free beginning of the
      server's log for its session, reaching at least as far as the snapshot and every delivery. */
  lemma EarlySocketShowsPrefix(sid: SessionId, events: seq<Event>)
    requires var w := Run(sid, events); w.detail.Some? && w.registered && w.registeredAt <= w.readAt
    ensures var w := Run(sid, events);
            var n, shown := Max(w.readAt, w.delivered), Merge(w.detail.value, w.live);
            && n <= |w.log|
            && shown == SessionEvents(w.log[..n], sid)
            && shown <= SessionEvents(w.log, sid)
            && NoRepeats(shown)
  {
    RunKeepsInv(sid, events);
    EarlyView(sid, Run(sid, events));
  }

  lemma EarlyView(sid: SessionId, w: World)
    requires Inv(sid, w) && w.detail.Some? && w.registered && w.registeredAt <= w.readAt
    ensures var n, shown := Max(w.readAt, w.delivered), Merge(w.detail.value, w.live);
            && n <= |w.log| && shown == SessionEvents(w.log[..n], sid)
            && shown <= SessionEvents(w.log, sid) && NoRepeats(shown)
  {
    MergedView(sid, w);
    EventsUpTo(w.log, sid, w.readAt, Max(w.readAt, w.delivered));
    EventsDoNotRepeat(w.log, Max(w.readAt, w.delivered), sid);
  }

  lemma EventsUpTo(log: seq<Row>, sid: SessionId, r: nat, n: nat)
    requires r <= n <= |log|
    ensures SessionEvents(log[..r], sid) + SessionEvents(log[r..n], sid) == SessionEvents(log[..n], sid)
    ensures SessionEvents(log[..n], sid) <= SessionEvents(log, sid)
  {
    assert log[..r] + log[r..n] == log[..n];
    EventsOfConcat(log[..r], log[r..n], sid);
    assert log[..n] + log[n..] == log;
    EventsOfConcat(log[..n], log[n..], sid);
  }

  /** None of the rows at positions `r..m` belongs to the session. */
  predicate NoneBetween(log: seq<Row>, sid: SessionId, r: nat, m: nat) {
    forall i :: r <= i < m && i < |log| ==> log[i].sessionId != sid
  }

  predicate CaughtUp(w: World) {
    w.broadcast == |w.log| && w.queue == []
  }

  /** Once everything is delivered, the page shows the whole log exactly when no row of its session
      was broadcast, unseen by the snapshot, before the socket was registered; and then its state,
      relay and tier are the server's. */
  lemma CaughtUpIff(sid: SessionId, events: seq<Event>)
    requires var w := Run(sid, events); w.detail.Some? && w.registered && CaughtUp(w)
    ensures var w := Run(sid, events);
            var shown := Merge(w.detail.value, w.live);
            && (shown == SessionEvents(w.log, sid) <==> NoneBetween(w.log, sid, w.readAt, w.registeredAt))
            && (shown == SessionEvents(w.log, sid) ==>
                  && PageState(shown) == CurrentState(w.log, sid)
                  && PageRelay(shown) == CurrentRelay(w.log, sid)
                  && PageTier(shown) == CurrentTier(w.log, sid))
  {
    RunKeepsInv(sid, events);
    var w := Run(sid, events);
    var m := Max(w.registeredAt, w.readAt);
    CaughtUpView(sid, w);
    GapIff(w.log, sid, w.readAt, m);
    PageAgreesWithServer(w.log, sid);
  }

  lemma CaughtUpView(sid: SessionId, w: World)
    requires Inv(sid, w) && w.detail.Some? && w.registered && CaughtUp(w)
    ensures var m := Max(w.registeredAt, w.readAt);
            m <= |w.log| && w.readAt <= |w.log|
            && Merge(w.detail.value, w.live) == SessionEvents(w.log[..w.readAt], sid) + SessionEvents(w.log[m..], sid)
  {
    AllDelivered(sid, w);
    MergedView(sid, w);
    var m := Max(w.registeredAt, w.readAt);
    assert Max(m, w.delivered) == |w.log|;
    ToTheEnd(w.log, m);
  }

  lemma ToTheEnd(log: seq<Row>, m: nat)
    requires m <= |log|
    ensures log[m..|log|] == log[m..]
  {}

  lemma AllDelivered(sid: SessionId, w: World)
    requires Inv(sid, w) && w.registered && CaughtUp(w)
    ensures w.delivered == |w.log| && w.registeredAt <= |w.log| && w.readAt <= |w.log|
  {
    assert |w.queue| == w.broadcast - w.delivered;
  }

  /** Leaving out positions `r..m` leaves the session's rows whole exactly when none of them is its own. */
  lemma GapIff(log: seq<Row>, sid: SessionId, r: nat, m: nat)
    requires r <= m <= |log|
    ensures SessionEvents(log[..r], sid) + SessionEvents(log[m..], sid) == SessionEvents(log, sid)
       <==> NoneBetween(log, sid, r, m)
  {
    var head, gap, tail := log[..r], log[r..m], log[m..];
    assert log == (head + gap) + tail;
    EventsOfConcat(head + gap, tail, sid);
    EventsOfConcat(head, gap, sid);
    NoEventsIff(gap, sid);
    var a, b, c := SessionEvents(head, sid), SessionEvents(gap, sid), SessionEvents(tail, sid);
    assert |a + b + c| == |a + c| + |b|;
    assert b == [] ==> a + b + c == a + c;
    assert forall i | r <= i < m :: log[i] == gap[i - r];
    assert forall i | 0 <= i < |gap| :: gap[i] == log[r + i];
  }

  lemma {:induction false} NoEventsIff(rows: seq<Row>, sid: SessionId)
    ensures SessionEvents(rows, sid) == [] <==> forall i :: 0 <= i < |rows| ==> rows[i].sessionId != sid
  {
    if rows != [] { NoEventsIff(rows[..|rows| - 1], sid); }
  }

  /** Such a run exists: a row inserted and broadcast between the snapshot and the registration is lost. */
  lemma LateSocketLosesRow(sid: SessionId, first: Row, second: Row) returns (events: seq<Event>)
    requires first.sessionId == sid && second.sessionId == sid
    ensures var w := Run(sid, events);
            w.detail.Some? && w.registered && CaughtUp(w) && Merge(w.detail.value, w.live) != SessionEvents(w.log, sid)
  {
    var opening := [Insert(first)] + [Broadcast] + [ReadSnapshot] + [SnapshotArrives];
    var w := RunOpening(sid, first);
    assert Run(sid, opening) == w;
    OneMore(sid, opening, Insert(second));
    OneMore(sid, opening + [Insert(second)], Broadcast);
    OneMore(sid, opening + [Insert(second)] + [Broadcast], Register);
    events := opening + [Insert(second)] + [Broadcast] + [Register];
    CaughtUpIff(sid, events);
    assert Run(sid, events).log[1].sessionId == sid;
  }

  lemma RunOpening(sid: SessionId, first: Row) returns (w: World)
    requires first.sessionId == sid
    ensures w == Run(sid, [Insert(first)] + [Broadcast] + [ReadSnapshot] + [SnapshotArrives])
    ensures |w.log| == w.broadcast == w.readAt == 1 && !w.registered && w.queue == [] && w.detail.Some?
  {
    assert Run(sid, []) == START && [] + [Insert(first)] == [Insert(first)];
    OneMore(sid, [], Insert(first));
    OneMore(sid, [Insert(first)], Broadcast);
    OneMore(sid, [Insert(first)] + [Broadcast], ReadSnapshot);
    OneMore(sid, [Insert(first)] + [Broadcast] + [ReadSnapshot], SnapshotArrives);
    w := Run(sid, [Insert(first)] + [Broadcast] + [ReadSnapshot] + [SnapshotArrives]);
    EventsOfOneMore([], first.(id := 1), sid);
    assert [] + [first.(id := 1)] == [first.(id := 1)];
  }

  lemma OneMore(sid: SessionId, events: seq<Event>, e: Event)
    ensures Run(sid, events + [e]) == Apply(sid, Run(sid, events), e)
  {
    assert (events + [e])[..|events|] == events;
  }

  // ---------------------------------------------------------------- catching up

  /** Nothing but broadcasts and deliveries. */
  predicate OnlyFeeds(events: seq<Event>) {
    forall i :: 0 <= i < |events| ==> events[i].Broadcast? || events[i].Deliver?
  }

  lemma {:induction false} FeedsOn(sid: SessionId, events: seq<Event>) returns (later: seq<Event>)
    requires Inv(sid, Run(sid, events))
    ensures OnlyFeeds(later)
    ensures
      var w, end := Run(sid, events), Run(sid, events + later);
      CaughtUp(end) && end.log == w.log && end.detail == w.detail && end.readAt == w.readAt
      && end.registered == w.registered && end.registeredAt == w.registeredAt
    decreases |Run(sid, events).log| - Run(sid, events).broadcast, |Run(sid, events).queue|
  {
    var w := Run(sid, events);
    if CaughtUp(w) {
      later := [];
      assert events + later == events;
    } else {
      var e := if w.queue != [] then Deliver else Broadcast;
      ApplyKeepsInv(sid, w, e);
      OneMore(sid, events, e);
      var rest := FeedsOnFrom(sid, events, e);
      later := [e] + rest;
      assert events + [e] + rest == events + later;
    }
  }

  lemma {:induction false} FeedsOnFrom(sid: SessionId, events: seq<Event>, e: Event) returns (later: seq<Event>)
    requires Inv(sid, Run(sid, events)) && !CaughtUp(Run(sid, events))
    requires e == if Run(sid, events).queue != [] then Deliver else Broadcast
    ensures OnlyFeeds(later)
    ensures
      var w, end := Run(sid, events), Run(sid, events + [e] + later);
      CaughtUp(end) && end.log == w.log && end.detail == w.detail && end.readAt == w.readAt
      && end.registered == w.registered && end.registeredAt == w.registeredAt
    decreases |Run(sid, events).log| - Run(sid, events).broadcast, |Run(sid, events).queue|, 0
  {
    ApplyKeepsInv(sid, Run(sid, events), e);
    OneMore(sid, events, e);
    later := FeedsOn(sid, events + [e]);
  }

  /** From every moment of every run, broadcasting and delivering alone bring the page to where everything is
      delivered, and if its socket was registered before its snapshot it then shows the whole log. */
  lemma PageCatchesUp(sid: SessionId, events: seq<Event>) returns (later: seq<Event>)
    requires Run(sid, events).detail.Some? && Run(sid, events).registered
    ensures OnlyFeeds(later) && CaughtUp(Run(sid, events + later))
    ensures Run(sid, events + later).log == Run(sid, events).log && Run(sid, events + later).detail.Some?
    ensures Run(sid, events).registeredAt <= Run(sid, events).readAt ==>
      Merge(Run(sid, events + later).detail.value, Run(sid, events + later).live)
      == SessionEvents(Run(sid, events).log, sid)
  {
    RunKeepsInv(sid, events);
    later := FeedsOn(sid, events);
    CaughtUpIff(sid, events + later);
  }
}
