/** The menu-bar app's connect and disconnect with both failure exits, and the connection history: states,
    runs, and the two objects that carry them out in place. */
module AppLifecycle {
  import opened Optional

  type EntryId = nat
  type ServerId = nat

  datatype Entry = Entry(id: EntryId, relay: string, tier: string, connectedAt: nat, disconnectedAt: Option<nat>)

  datatype ConnectStep = Verifying | Relay | Proxy | Connected

  /** What a token shows of itself. */
  datatype Shown = Shown(relay: string, tier: string)

  /** The two outer sets are what the operating system sees: local proxies accepting connections, and the
      network services whose proxy setting this app switched on. */
  datatype App = App(
    running: set<ServerId>, enabled: set<string>, entries: seq<Entry>,
    proxyServer: Option<ServerId>, activeService: Option<string>, historyEntryId: Option<EntryId>,
    connected: bool, payload: Option<Shown>, connectStep: Option<ConnectStep>, connectedSince: Option<nat>,
    ticking: bool)

  /** Freshly launched on the history of earlier runs. */
  function Launched(history: seq<Entry>): App {
    App({}, {}, history, None, None, None, false, None, None, None, false)
  }

  // ---------------------------------------------------------------- history

  function Opened(entries: seq<Entry>, id: EntryId, relay: string, tier: string, now: nat): seq<Entry> {
    [Entry(id, relay, tier, now, None)] + entries
  }

  /** `firstIndex(where:)`, or the length when there is none. */
  function FirstIndex(entries: seq<Entry>, id: EntryId): (i: nat)
    ensures i <= |entries| && (i < |entries| ==> entries[i].id == id)
    ensures forall k :: 0 <= k < i ==> entries[k].id != id
  {
    if entries == [] || entries[0].id == id then 0 else FirstIndex(entries[1..], id) + 1
  }

  function Closed(entries: seq<Entry>, id: EntryId, now: nat): seq<Entry> {
    var i := FirstIndex(entries, id);
    if i == |entries| then entries else entries[i := entries[i].(disconnectedAt := Some(now))]
  }

  // ---------------------------------------------------------------- the two actions

  function Without<T>(s: set<T>, x: Option<T>): set<T> { if x.Some? then s - {x.value} else s }

  function AfterDisconnect(a: App, now: nat): App {
    App(Without(a.running, a.proxyServer), Without(a.enabled, a.activeService),
        if a.historyEntryId.Some? then Closed(a.entries, a.historyEntryId.value, now) else a.entries,
        None, None, None, false, None, None, None, false)
  }

  /** A request and what the system answers while it is carried out: the new server or a failure, the
      network service to use or none, a fresh entry id, the clock. */
  datatype Attempt = Attempt(
    host: string, shown: Option<Shown>, server: Option<ServerId>, service: Option<string>, id: EntryId, now: nat)
  {
    /** What the history shows for it. */
    function Relay(): string { if shown.Some? then shown.value.relay else host }

    function Tier(): string { if shown.Some? then shown.value.tier else "unknown" }
  }

  function AfterConnect(a: App, t: Attempt): App {
    var clean := AfterDisconnect(a, t.now);
    if t.server.None? then clean
    else
      var proxied := clean.(running := clean.running + {t.server.value}, proxyServer := t.server);
      if t.service.None? then proxied
      else
        proxied.(
          enabled := proxied.enabled + {t.service.value}, activeService := t.service,
          entries := Opened(proxied.entries, t.id, t.Relay(), t.Tier(), t.now), historyEntryId := Some(t.id),
          connected := true, payload := t.shown, connectStep := Some(Connected), connectedSince := Some(t.now),
          ticking := true)
  }

  datatype Action = DoConnect(attempt: Attempt) | DoDisconnect(now: nat)

  function Moment(x: Action): nat { if x.DoConnect? then x.attempt.now else x.now }

  function Act(a: App, x: Action): App {
    match x
    case DoConnect(attempt) => AfterConnect(a, attempt)
    case DoDisconnect(now) => AfterDisconnect(a, now)
  }

  function After(a: App, actions: seq<Action>): App {
    if actions == [] then a else Act(After(a, actions[..|actions| - 1]), actions[|actions| - 1])
  }

  // ---------------------------------------------------------------- what every run keeps

  function Only<T>(x: Option<T>): set<T> { if x.Some? then {x.value} else {} }

  /** How many entries this run has added in front of the history. */
  function Added(a: App, history: seq<Entry>): int { |a.entries| - |history| }

  predicate Inv(a: App, history: seq<Entry>) {
    && a.running == Only(a.proxyServer) && a.enabled == Only(a.activeService)
    && (a.connected <==> a.activeService.Some?) && (a.connected <==> a.historyEntryId.Some?)
    && (a.connected <==> a.ticking) && (a.connected <==> a.connectedSince.Some?)
    && (a.connected ==> a.proxyServer.Some?)
    && Added(a, history) >= 0 && a.entries[Added(a, history)..] == history
    && (a.connected ==> Added(a, history) > 0 && a.historyEntryId == Some(a.entries[0].id)
                        && a.connectedSince == Some(a.entries[0].connectedAt))
    && forall i :: 0 <= i < Added(a, history) ==> (a.entries[i].disconnectedAt.None? <==> a.connected && i == 0)
  }

  /** From any reachable state: no proxy, no service, no timer, and no open entry of this run. */
  lemma DisconnectCleans(a: App, history: seq<Entry>, now: nat)
    requires Inv(a, history)
    ensures
      var end := AfterDisconnect(a, now);
      end.running == {} && end.enabled == {} && !end.connected && !end.ticking && end.connectStep == None
      && end.payload == None && Added(end, history) == Added(a, history) && Inv(end, history)
      && end.entries == if a.connected then a.entries[0 := a.entries[0].(disconnectedAt := Some(now))] else a.entries
  {
    if a.connected {
      assert FirstIndex(a.entries, a.historyEntryId.value) == 0;
      assert AfterDisconnect(a, now).entries[1..] == a.entries[1..];
      assert AfterDisconnect(a, now).entries[Added(a, history)..] == a.entries[Added(a, history)..];
    }
  }

  lemma ConnectKeeps(a: App, history: seq<Entry>, t: Attempt)
    requires Inv(a, history)
    ensures Inv(AfterConnect(a, t), history)
    ensures AfterConnect(a, t).connected <==> t.server.Some? && t.service.Some?
    ensures AfterConnect(a, t).running == Only(t.server)
    ensures AfterConnect(a, t).connected ==>
      AfterConnect(a, t).enabled == {t.service.value}
      && AfterConnect(a, t).entries[0] == Entry(t.id, t.Relay(), t.Tier(), t.now, None)
      && t.Relay() == (if t.shown.Some? then t.shown.value.relay else t.host)
      && t.Tier() == (if t.shown.Some? then t.shown.value.tier else "unknown")
    ensures AfterConnect(a, t).payload == (if AfterConnect(a, t).connected then t.shown else None)
    ensures AfterConnect(a, t).connectStep == (if AfterConnect(a, t).connected then Some(Connected) else None)
    ensures !AfterConnect(a, t).connected ==> AfterConnect(a, t) == AfterDisconnect(a, t.now).(
              running := Only(t.server), proxyServer := t.server)
  {
    DisconnectCleans(a, history, t.now);
    var clean, end := AfterDisconnect(a, t.now), AfterConnect(a, t);
    if end.connected {
      assert end.entries[1..] == clean.entries;
      assert end.entries[Added(end, history)..] == clean.entries[Added(clean, history)..];
    }
  }

  /** In every run: at most one proxy runs, the services left on are the active one, an entry of this run
      is open exactly when connected and is then the newest, and the older history is untouched. */
  lemma {:induction false} EveryRunKeepsInv(history: seq<Entry>, actions: seq<Action>)
    ensures Inv(After(Launched(history), actions), history)
  {
    if actions != [] {
      var n := |actions| - 1;
      var before := After(Launched(history), actions[..n]);
      EveryRunKeepsInv(history, actions[..n]);
      match actions[n]
      case DoConnect(attempt) => ConnectKeeps(before, history, attempt);
      case DoDisconnect(now) => DisconnectCleans(before, history, now);
    }
  }

  // ---------------------------------------------------------------- the recorded intervals

  /** This run's connections, newest first, as intervals one after the other. */
  predicate Orderly(entries: seq<Entry>, count: nat, now: nat)
    requires count <= |entries|
  {
    && (count > 0 ==>
          entries[0].connectedAt <= now
          && (entries[0].disconnectedAt.Some? ==> entries[0].disconnectedAt.value <= now))
    && (forall i :: 0 <= i < count && entries[i].disconnectedAt.Some? ==>
          entries[i].connectedAt <= entries[i].disconnectedAt.value)
    && forall i :: 1 <= i < count ==>
         entries[i].disconnectedAt.Some? && entries[i].disconnectedAt.value <= entries[i - 1].connectedAt
  }

  predicate ClockRuns(actions: seq<Action>) {
    forall i, j :: 0 <= i < j < |actions| ==> Moment(actions[i]) <= Moment(actions[j])
  }

  lemma DisconnectIsOrderly(a: App, history: seq<Entry>, before: nat, now: nat)
    requires Inv(a, history) && before <= now && Orderly(a.entries, Added(a, history), before)
    ensures Inv(AfterDisconnect(a, now), history) && Added(AfterDisconnect(a, now), history) == Added(a, history)
    ensures Orderly(AfterDisconnect(a, now).entries, Added(a, history), now)
  {
    DisconnectCleans(a, history, now);
    if a.connected { assert FirstIndex(a.entries, a.historyEntryId.value) == 0; }
  }

  lemma ConnectIsOrderly(a: App, history: seq<Entry>, before: nat, t: Attempt)
    requires Inv(a, history) && before <= t.now && Orderly(a.entries, Added(a, history), before)
    ensures Inv(AfterConnect(a, t), history)
    ensures Orderly(AfterConnect(a, t).entries, Added(AfterConnect(a, t), history), t.now)
  {
    ConnectKeeps(a, history, t);
    DisconnectIsOrderly(a, history, before, t.now);
    var clean, end := AfterDisconnect(a, t.now), AfterConnect(a, t);
    if end.connected { NewestIsOrderly(clean.entries, Added(clean, history), end.entries[0], t.now); }
  }

  lemma NewestIsOrderly(entries: seq<Entry>, count: nat, e: Entry, now: nat)
    requires count <= |entries| && Orderly(entries, count, now) && e.connectedAt == now && e.disconnectedAt.None?
    requires forall i :: 0 <= i < count ==> entries[i].disconnectedAt.Some?
    ensures Orderly([e] + entries, count + 1, now)
  {
    assert forall i :: 1 <= i < count + 1 ==> ([e] + entries)[i] == entries[i - 1];
  }

  /** On a clock that never runs backwards the connections of a run never overlap. */
  lemma {:induction false} ConnectionsNeverOverlap(history: seq<Entry>, actions: seq<Action>)
    requires ClockRuns(actions) && actions != []
    ensures
      var end := After(Launched(history), actions);
      Inv(end, history) && Orderly(end.entries, Added(end, history), Moment(actions[|actions| - 1]))
  {
    var n := |actions| - 1;
    var before := After(Launched(history), actions[..n]);
    var earlier := if n == 0 then 0 else Moment(actions[n - 1]);
    EveryRunKeepsInv(history, actions[..n]);
    if n > 0 { ConnectionsNeverOverlap(history, actions[..n]); }
    match actions[n]
    case DoConnect(attempt) => ConnectIsOrderly(before, history, earlier, attempt);
    case DoDisconnect(now) => DisconnectIsOrderly(before, history, earlier, now);
  }

  // ---------------------------------------------------------------- in place

  class ConnectionHistoryStore {
    var entries: seq<Entry>

    constructor (history: seq<Entry>)
      ensures entries == history
    {
      entries := history;
    }

    method RecordConnect(id: EntryId, relay: string, tier: string, now: nat) returns (entryId: EntryId)
      modifies this
      ensures entryId == id && entries == Opened(old(entries), id, relay, tier, now)
    {
      entries := [Entry(id, relay, tier, now, None)] + entries;
      return id;
    }

    method RecordDisconnect(id: EntryId, now: nat)
      modifies this
      ensures entries == Closed(old(entries), id, now)
    {
      var index := FirstIndex(entries, id);
      if index == |entries| { return; }
      entries := entries[index := entries[index].(disconnectedAt := Some(now))];
    }
  }

  class AppDelegate {
    const historyStore: ConnectionHistoryStore
    var running: set<ServerId>
    var enabled: set<string>
    var proxyServer: Option<ServerId>
    var activeNetworkService: Option<string>
    var historyEntryId: Option<EntryId>
    var connected: bool
    var payload: Option<Shown>
    var connectStep: Option<ConnectStep>
    var connectedSince: Option<nat>
    var ticking: bool

    ghost function State(): App
      reads this, historyStore
    {
      App(running, enabled, historyStore.entries, proxyServer, activeNetworkService, historyEntryId, connected, payload,
          connectStep, connectedSince, ticking)
    }

    constructor (historyStore: ConnectionHistoryStore)
      ensures State() == Launched(historyStore.entries) && this.historyStore == historyStore
    {
      this.historyStore, running, enabled := historyStore, {}, {};
      proxyServer, activeNetworkService, historyEntryId := None, None, None;
      connected, payload, connectStep, connectedSince, ticking := false, None, None, None, false;
    }

    method Connect(t: Attempt)
      modifies this, historyStore
      ensures State() == AfterConnect(old(State()), t)
    {
      Disconnect(t.now);
      connectStep := Some(Verifying);
      connectStep := Some(Relay);
      if t.server.None? {
        connectStep := None;
        return;
      }
      running := running + {t.server.value};
      proxyServer := t.server;
      connectStep := Some(Proxy);
      if t.service.None? {
        connectStep := None;
        return;
      }
      activeNetworkService := t.service;
      enabled := enabled + {t.service.value};
      connectStep := Some(Connected);
      payload := t.shown;
      connected := true;
      connectedSince := Some(t.now);
      var relay := if t.shown.Some? then t.shown.value.relay else t.host;
      var tier := if t.shown.Some? then t.shown.value.tier else "unknown";
      var id := historyStore.RecordConnect(t.id, relay, tier, t.now);
      historyEntryId := Some(id);
      ticking := true;
    }

    method Disconnect(now: nat)
      modifies this, historyStore
      ensures State() == AfterDisconnect(old(State()), now)
    {
      ticking := false;
      if proxyServer.Some? { running := running - {proxyServer.value}; }
      proxyServer := None;
      if activeNetworkService.Some? { enabled := enabled - {activeNetworkService.value}; }
      activeNetworkService := None;
      connected := false;
      payload := None;
      connectedSince := None;
      connectStep := None;
      if historyEntryId.Some? {
        historyStore.RecordDisconnect(historyEntryId.value, now);
        historyEntryId := None;
      }
    }
  }
}
