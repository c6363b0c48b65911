/** What other accounts can do to the registry once the root admin has registered a fleet: the two
    contracts' entry points and direct writes, in any order and any number. */
module RegistryRuns {
  import opened Bytes
  import opened Optional
  import opened Registry
  import DnsName
  import Keystone
  import Utf8

  datatype Event =
    | RevokedEvent(node: Node, submittedBy: Address20, reason: string)
    | AdminRevokedEvent(node: Node, admin: Address20)
    | RefreshedEvent(node: Node, newHash: Word)

  datatype Chain = Chain(resolver: Resolver, events: seq<Event>) {
    function Status(node: Node): seq<Byte> { resolver.DataAt(node, Registry.Status) }
  }

  // ---------------------------------------------------------------- the watchdog

  datatype Verdict = Verdict(revoked: bool, chain: Chain)

  /** Nothing stands for a revert. */
  function Revoke(d: Network, c: Chain, node: Node, caller: Address20, reason: string): Option<Verdict> {
    if c.Status(node) == REVOKED then Some(Verdict(false, c))
    else
      match SetData(d, c.resolver, d.watchdog, node, Status, REVOKED)
      case None => None
      case Some(r) => Some(Verdict(true, Chain(r, c.events + [RevokedEvent(node, caller, reason)])))
  }

  function SubmitAttestationCheck(d: Network, c: Chain, caller: Address20, node: Node, report: seq<Byte>)
    : Option<Verdict>
  {
    var published := c.resolver.DataAt(node, BuildHash);
    if |published| < 32 then None
    else if d.keccak(report) == published[..32] then Some(Verdict(false, c))
    else Revoke(d, c, node, caller, "attestation_mismatch")
  }

  function AdminRevoke(d: Network, c: Chain, caller: Address20, node: Node): Option<Chain> {
    if caller != d.admin then None
    else
      match Revoke(d, c, node, caller, "admin_manual_revoke")
      case None => None
      case Some(o) =>
        Some(if o.revoked then o.chain.(events := o.chain.events + [AdminRevokedEvent(node, caller)]) else o.chain)
  }

  // ---------------------------------------------------------------- the refresher

  /** A report on its way through the gate; `after` is the memory behind its metadata. */
  datatype Report = Report(metadata: seq<Byte>, after: seq<Byte>, node: Node, newHash: Word)

  function OnReport(d: Network, c: Chain, caller: Address20, report: Report): Option<Chain>
    requires |report.after| >= 74
  {
    if Keystone.Judge(d.gate, caller, report.metadata, report.after) != Keystone.Accepted then None
    else
      match SetData(d, c.resolver, d.refresher, report.node, BuildHash, report.newHash)
      case None => None
      case Some(r) => Some(Chain(r, c.events + [RefreshedEvent(report.node, report.newHash)]))
  }

  // ---------------------------------------------------------------- steps

  datatype Step =
    | WriteText(caller: Address20, node: Node, key: Key, value: string)
    | WriteData(caller: Address20, node: Node, key: Key, data: seq<Byte>)
    | GiveRole(caller: Address20, toName: seq<Byte>, isText: bool, key: Key, account: Address20)
    | Check(caller: Address20, node: Node, report: seq<Byte>)
    | RevokeByAdmin(caller: Address20, node: Node)
    | Refresh(caller: Address20, update: Report)

  /** Direct calls to the resolver come from neither the root admin nor one of the two contracts; anyone
      may call the contracts. */
  predicate External(d: Network, s: Step) {
    match s
    case WriteText(caller, _, _, _) => caller !in {d.root, d.watchdog, d.refresher}
    case WriteData(caller, _, _, _) => caller !in {d.root, d.watchdog, d.refresher}
    case GiveRole(caller, _, _, _, _) => caller !in {d.root, d.watchdog, d.refresher}
    case Check(_, _, _) => true
    case RevokeByAdmin(_, _) => true
    case Refresh(_, update) => |update.after| >= 74
  }

  /** The chain after a transaction; one that reverts changes nothing. */
  function Exec(d: Network, c: Chain, s: Step): Chain
    requires External(d, s)
  {
    match s
    case WriteText(caller, node, key, value) => Wrote(c, SetText(d, c.resolver, caller, node, key, value))
    case WriteData(caller, node, key, data) => Wrote(c, SetData(d, c.resolver, caller, node, key, data))
    case GiveRole(caller, toName, isText, key, account) =>
      Wrote(c, Authorize(d, c.resolver, caller, toName, isText, key, account))
    case Check(caller, node, report) =>
      var o := SubmitAttestationCheck(d, c, caller, node, report);
      if o.Some? then o.value.chain else c
    case RevokeByAdmin(caller, node) =>
      var o := AdminRevoke(d, c, caller, node);
      if o.Some? then o.value else c
    case Refresh(caller, update) =>
      var o := OnReport(d, c, caller, update);
      if o.Some? then o.value else c
  }

  function Wrote(c: Chain, r: Option<Resolver>): Chain { if r.Some? then c.(resolver := r.value) else c }

  predicate AllExternal(d: Network, steps: seq<Step>) { forall i :: 0 <= i < |steps| ==> External(d, steps[i]) }

  function Run(d: Network, c: Chain, steps: seq<Step>): Chain
    requires AllExternal(d, steps)
  {
    if steps == [] then c else Exec(d, Run(d, c, steps[..|steps| - 1]), steps[|steps| - 1])
  }

  function Revocations(events: seq<Event>, node: Node): nat {
    if events == [] then 0
    else
      var last := events[|events| - 1];
      Revocations(events[..|events| - 1], node) + if last.RevokedEvent? && last.node == node then 1 else 0
  }

  // ---------------------------------------------------------------- payout and status

  /** Nobody but the watchdog may write a status, and nobody at all a payout address. */
  predicate Guarded(d: Network, grants: set<Grant>) {
    forall g :: g in grants && g.slot.Data? ==>
      g.slot.key != PayoutAddress && (g.slot.key == Status ==> g.account == d.watchdog)
  }

  predicate Apart(d: Network) { d.watchdog != d.root && d.refresher != d.root && d.watchdog != d.refresher }

  /** From `c` to `e`, the node kept its payout address and was revoked at most once, with one event if so. */
  predicate Keeps(c: Chain, e: Chain, node: Node) {
    e.resolver.DataAt(node, PayoutAddress) == c.resolver.DataAt(node, PayoutAddress)
    && e.Status(node) in {c.Status(node), REVOKED}
    && Revocations(e.events, node) == Revocations(c.events, node) + if c.Status(node) != e.Status(node) then 1 else 0
  }

  lemma OneMoreEvent(events: seq<Event>, e: Event, node: Node)
    ensures Revocations(events + [e], node)
         == Revocations(events, node) + if e.RevokedEvent? && e.node == node then 1 else 0
  {
    assert (events + [e])[..|events|] == events;
  }

  lemma RevokeKeeps(d: Network, c: Chain, at: Node, caller: Address20, reason: string, node: Node)
    requires Revoke(d, c, at, caller, reason).Some?
    ensures Keeps(c, Revoke(d, c, at, caller, reason).value.chain, node)
    ensures Revoke(d, c, at, caller, reason).value.chain.resolver.grants == c.resolver.grants
  {
    OneMoreEvent(c.events, RevokedEvent(at, caller, reason), node);
  }

  /** No step by another account moves a payout address, a role, or a status other than to revoked. */
  lemma StepKeeps(d: Network, c: Chain, s: Step, node: Node)
    requires Apart(d) && Guarded(d, c.resolver.grants) && External(d, s)
    ensures Exec(d, c, s).resolver.grants == c.resolver.grants && Keeps(c, Exec(d, c, s), node)
  {
    match s
    case WriteText(_, _, _, _) =>
    case WriteData(_, _, _, _) =>
    case GiveRole(_, _, _, _, _) =>
    case Check(caller, at, report) =>
      var o := SubmitAttestationCheck(d, c, caller, at, report);
      if o.Some? && o.value.chain != c { RevokeKeeps(d, c, at, caller, "attestation_mismatch", node); }
    case RevokeByAdmin(caller, at) =>
      if caller == d.admin && Revoke(d, c, at, caller, "admin_manual_revoke").Some? {
        RevokeKeeps(d, c, at, caller, "admin_manual_revoke", node);
        var o := Revoke(d, c, at, caller, "admin_manual_revoke").value;
        OneMoreEvent(o.chain.events, AdminRevokedEvent(at, caller), node);
      }
    case Refresh(caller, u) => OneMoreEvent(c.events, RefreshedEvent(u.node, u.newHash), node);
  }

  lemma {:induction false} RunKeeps(d: Network, c: Chain, steps: seq<Step>, node: Node)
    requires Apart(d) && Guarded(d, c.resolver.grants) && AllExternal(d, steps)
    ensures Run(d, c, steps).resolver.grants == c.resolver.grants && Keeps(c, Run(d, c, steps), node)
  {
    if steps != [] {
      var n := |steps| - 1;
      RunKeeps(d, c, steps[..n], node);
      StepKeeps(d, Run(d, c, steps[..n]), steps[n], node);
    }
  }

  // ---------------------------------------------------------------- who may change what

  /** A grant that registering the fleet, or enrolling a node with the refresher, hands out. */
  ghost predicate Allowed(d: Network, ps: seq<Params>, refreshed: set<Node>, g: Grant) {
    (exists i :: 0 <= i < |ps| && g in GrantsOf(ps[i]))
    || (g.account == d.refresher && g.slot.Data? && g.slot.key == BuildHash && g.slot.node in refreshed)
  }

  ghost predicate OnlyAllowed(d: Network, ps: seq<Params>, refreshed: set<Node>, grants: set<Grant>) {
    forall g :: g in grants ==> Allowed(d, ps, refreshed, g)
  }

  /** Operators that may be registered together: buildable names, distinct nodes, the one watchdog. */
  predicate Fleet(d: Network, ps: seq<Params>) {
    (forall i :: 0 <= i < |ps| ==> Buildable(ps[i]) && ps[i].watchdog == d.watchdog)
    && forall i, j :: 0 <= i < j < |ps| ==> NodeOf(ps[i].name) != NodeOf(ps[j].name)
  }

  /** The operational keys are nobody's contract. */
  predicate OwnKeys(d: Network, ps: seq<Params>) {
    forall i :: 0 <= i < |ps| ==> ps[i].operationalKey !in {d.watchdog, d.refresher}
  }

  /** No name has an empty label. */
  predicate PlainNames(ps: seq<Params>) {
    forall i :: 0 <= i < |ps| ==> "" !in DnsName.Split(ps[i].name)
  }

  lemma AllowedIsGuarded(d: Network, ps: seq<Params>, refreshed: set<Node>, grants: set<Grant>)
    requires Fleet(d, ps) && OnlyAllowed(d, ps, refreshed, grants)
    ensures Guarded(d, grants)
  {
    forall g | g in grants && g.slot.Data?
      ensures g.slot.key != PayoutAddress && (g.slot.key == Status ==> g.account == d.watchdog)
    {
      assert Allowed(d, ps, refreshed, g);
    }
  }

  /** Registration gave this operational key its roles on the node. */
  ghost predicate Keyed(ps: seq<Params>, node: Node, account: Address20) {
    exists i :: 0 <= i < |ps| && GrantNode(ps[i]) == node && ps[i].operationalKey == account
  }

  /** The operator whose records the node holds has this operational key. */
  ghost predicate Owns(ps: seq<Params>, node: Node, account: Address20) {
    exists i :: 0 <= i < |ps| && NodeOf(ps[i].name) == node && ps[i].operationalKey == account
  }

  /** With plain names a key's roles are on its own operator's records and nowhere else. */
  lemma KeyedIsOwner(d: Network, ps: seq<Params>, node: Node, account: Address20)
    requires Fleet(d, ps) && PlainNames(ps)
    ensures Keyed(ps, node, account) <==> Owns(ps, node, account)
  {
    forall i | 0 <= i < |ps| ensures GrantNode(ps[i]) == NodeOf(ps[i].name) { DnsName.WireNamesNode(ps[i].name); }
  }

  lemma {:induction false} EmptyLabelHasNoOctets(labels: seq<DnsName.Label>)
    ensures "" in labels ==> [] in DnsName.Octets(labels)
    ensures [] !in DnsName.Octets(DnsName.NonEmpty(labels))
  {
    if labels != [] {
      EmptyLabelHasNoOctets(labels[1..]);
      if labels[0] == "" {
        assert DnsName.Octets(labels)[0] == [];
      } else {
        DnsName.EncodeIsNonEmpty(labels[0]);
        if "" in labels {
          assert "" in labels[1..];
          assert DnsName.Octets(labels)[1..] == DnsName.Octets(labels[1..]);
        }
        NonEmptyFirst(labels);
      }
    }
  }

  lemma NonEmptyFirst(labels: seq<DnsName.Label>)
    requires labels != [] && labels[0] != ""
    ensures DnsName.Octets(DnsName.NonEmpty(labels))
         == [Utf8.Encode(labels[0])] + DnsName.Octets(DnsName.NonEmpty(labels[1..]))
  {
    assert DnsName.NonEmpty(labels)[1..] == DnsName.NonEmpty(labels[1..]);
  }

  /** An operator with an empty label in its name has records its own key has no role on. */
  lemma EmptyLabelLosesOwner(d: Network, ps: seq<Params>, i: nat)
    requires Fleet(d, ps) && i < |ps| && "" in DnsName.Split(ps[i].name)
    ensures Owns(ps, NodeOf(ps[i].name), ps[i].operationalKey)
    ensures forall account :: !Keyed(ps, NodeOf(ps[i].name), account)
  {
    EmptyLabelHasNoOctets(DnsName.Split(ps[i].name));
    forall j | 0 <= j < |ps| ensures GrantNode(ps[j]) != NodeOf(ps[i].name) {
      EmptyLabelHasNoOctets(DnsName.Split(ps[j].name));
    }
  }

  /** In every fleet the keys' roles are on their own operators' records, all of them and no other node,
      exactly when no name has an empty label. */
  lemma KeyedIsOwnerIff(d: Network, ps: seq<Params>)
    requires Fleet(d, ps)
    ensures (forall node: Node, account: Address20 :: Keyed(ps, node, account) <==> Owns(ps, node, account))
       <==> PlainNames(ps)
  {
    if PlainNames(ps) {
      forall node: Node, account: Address20 ensures Keyed(ps, node, account) <==> Owns(ps, node, account) {
        KeyedIsOwner(d, ps, node, account);
      }
    } else {
      var i :| 0 <= i < |ps| && "" in DnsName.Split(ps[i].name);
      EmptyLabelLosesOwner(d, ps, i);
    }
  }

  /** Two names with different nodes, the first with an empty label: its roles are on the second's node. */
  lemma TwinNames(first: Params, second: Params)
    requires first.name == "a..b" && second.name == "a.b"
    ensures Buildable(first) && Buildable(second) && NodeOf(first.name) != NodeOf(second.name)
    ensures GrantNode(first) == NodeOf(second.name)
  {
    DnsName.SplitWithoutDot("b");
    DnsName.SplitAtDot("", "b");
    DnsName.SplitAtDot("a", "b");
    DnsName.SplitAtDot("a", ".b");
    assert "a" + "." + "b" == "a.b" && "" + "." + "b" == ".b" && "a" + "." + ".b" == "a..b";
    assert DnsName.Split(second.name) == ["a", "b"] && DnsName.Split(first.name) == ["a", "", "b"];
    SameNonEmpty("a", "b");
    assert |NodeOf(first.name)| == 3 && |NodeOf(second.name)| == 2;
  }

  lemma SameNonEmpty(a: string, b: string)
    requires a != "" && b != ""
    ensures DnsName.NonEmpty([a, "", b]) == [a, b] && DnsName.NonEmpty([a, b]) == [a, b]
  {
    assert [a, "", b][1..] == ["", b] && ["", b][1..] == [b] && [a, b][1..] == [b];
    assert DnsName.NonEmpty([b]) == [b] && DnsName.NonEmpty(["", b]) == [b];
  }

  lemma GrantOfOperator(p: Params, g: Grant)
    requires g in GrantsOf(p)
    ensures g.slot.node == GrantNode(p)
    ensures g.slot.Text? ==> g.slot.key in {Endpoint, TiersSupported} && g.account == p.operationalKey
    ensures g.slot.Data? ==>
      (g.slot.key == BuildHash && g.account == p.operationalKey) || (g.slot.key == Status && g.account == p.watchdog)
  {}

  lemma GrantSaysWho(d: Network, ps: seq<Params>, refreshed: set<Node>, g: Grant)
    requires Fleet(d, ps) && Allowed(d, ps, refreshed, g)
    ensures g.slot.Text? ==> g.slot.key in {Endpoint, TiersSupported} && Keyed(ps, g.slot.node, g.account)
    ensures g.slot.Data? ==>
      || (g.slot.key == BuildHash && Keyed(ps, g.slot.node, g.account))
      || (g.slot.key == BuildHash && g.account == d.refresher && g.slot.node in refreshed)
      || (g.slot.key == Status && g.account == d.watchdog)
  {
    if i :| 0 <= i < |ps| && g in GrantsOf(ps[i]) { GrantOfOperator(ps[i], g); }
  }

  lemma KeysAreNoContracts(d: Network, ps: seq<Params>, node: Node, account: Address20)
    requires OwnKeys(d, ps) && Keyed(ps, node, account)
    ensures account !in {d.watchdog, d.refresher}
  {}

  /** A text changes only by an operational key with roles on its node, and only the endpoint and the tier
      list do. */
  lemma TextChangedByKey(d: Network, ps: seq<Params>, refreshed: set<Node>, c: Chain, s: Step, node: Node, key: Key)
    requires Apart(d) && Fleet(d, ps) && OnlyAllowed(d, ps, refreshed, c.resolver.grants) && External(d, s)
    requires Exec(d, c, s).resolver.TextAt(node, key) != c.resolver.TextAt(node, key)
    ensures key in {Endpoint, TiersSupported} && s.WriteText? && s.node == node && s.key == key
    ensures Keyed(ps, node, s.caller)
  {
    TextWriter(d, c, s, node, key);
    GrantSaysWho(d, ps, refreshed, Grant(Text(node, key), s.caller));
  }

  lemma TextWriter(d: Network, c: Chain, s: Step, node: Node, key: Key)
    requires External(d, s) && Exec(d, c, s).resolver.TextAt(node, key) != c.resolver.TextAt(node, key)
    ensures s.WriteText? && s.node == node && s.key == key && Grant(Text(node, key), s.caller) in c.resolver.grants
  {}

  lemma DataWriter(d: Network, c: Chain, s: Step, node: Node, key: Key)
    requires Apart(d) && External(d, s) && Exec(d, c, s).resolver.DataAt(node, key) != c.resolver.DataAt(node, key)
    ensures
      || (s.WriteData? && s.node == node && s.key == key && Grant(Data(node, key), s.caller) in c.resolver.grants)
      || (s.Refresh? && s.update.node == node && key == BuildHash
          && Grant(Data(node, key), d.refresher) in c.resolver.grants)
      || ((s.Check? || s.RevokeByAdmin?) && s.node == node && key == Status && Exec(d, c, s).Status(node) == REVOKED)
  {}

  /** A data record changes only in three ways: the hash by such a key or by the refresher on an enrolled
      node, and the status by the watchdog, to revoked. */
  lemma DataChangedByKey(d: Network, ps: seq<Params>, refreshed: set<Node>, c: Chain, s: Step, node: Node, key: Key)
    requires Apart(d) && Fleet(d, ps) && OwnKeys(d, ps)
    requires OnlyAllowed(d, ps, refreshed, c.resolver.grants) && External(d, s)
    requires Exec(d, c, s).resolver.DataAt(node, key) != c.resolver.DataAt(node, key)
    ensures
      || (key == BuildHash && s.WriteData? && Keyed(ps, node, s.caller))
      || (key == BuildHash && s.Refresh? && s.update.node == node && node in refreshed)
      || (key == Status && (s.Check? || s.RevokeByAdmin?) && s.node == node && Exec(d, c, s).Status(node) == REVOKED)
  {
    DataWriter(d, c, s, node, key);
    if s.WriteData? {
      GrantSaysWho(d, ps, refreshed, Grant(Data(node, key), s.caller));
    } else if s.Refresh? {
      GrantSaysWho(d, ps, refreshed, Grant(Data(node, key), d.refresher));
      if Keyed(ps, node, d.refresher) { KeysAreNoContracts(d, ps, node, d.refresher); }
    }
  }

  // ---------------------------------------------------------------- a registered fleet

  /** The root admin registers the operators one after the other. */
  function RegisterAll(d: Network, ps: seq<Params>): Resolver
    requires forall p :: p in ps ==> Buildable(p)
  {
    if ps == [] then FRESH
    else
      var n := |ps| - 1;
      assert Buildable(ps[n]);
      PerformAll(d, RegisterAll(d, ps[..n]), BuildRegisterOperatorCalls(ps[n]).value)
  }

  /** The root admin then lets the refresher write the hashes of some nodes. */
  function Start(d: Network, ps: seq<Params>, refreshed: set<Node>): Chain
    requires forall p :: p in ps ==> Buildable(p)
  {
    var r := RegisterAll(d, ps);
    Chain(r.(grants := r.grants + set n | n in refreshed :: Grant(Data(n, BuildHash), d.refresher)), [])
  }

  lemma FleetPrefix(d: Network, ps: seq<Params>, n: nat)
    requires Fleet(d, ps) && n <= |ps|
    ensures Fleet(d, ps[..n])
  {}

  lemma {:induction false} FleetHolds(d: Network, ps: seq<Params>, i: nat)
    requires Fleet(d, ps) && i < |ps|
    ensures Holds(RegisterAll(d, ps), ps[i]) && GrantsOf(ps[i]) <= RegisterAll(d, ps).grants
  {
    var n := |ps| - 1;
    var before := RegisterAll(d, ps[..n]);
    RegistrationPerformed(d, before, ps[n]);
    if i == n {
      RegistrationHolds(before, ps[n]);
    } else {
      FleetPrefix(d, ps, n);
      FleetHolds(d, ps[..n], i);
      assert ps[..n][i] == ps[i] && NodeOf(ps[i].name) != NodeOf(ps[n].name);
      StillHolds(before, ps[n], ps[i]);
    }
  }

  lemma StillHolds(r: Resolver, next: Params, p: Params)
    requires NodeOf(p.name) != NodeOf(next.name) && Holds(r, p)
    ensures Holds(Registered(r, next), p)
  {
    forall key ensures
      Registered(r, next).TextAt(NodeOf(p.name), key) == r.TextAt(NodeOf(p.name), key)
      && Registered(r, next).DataAt(NodeOf(p.name), key) == r.DataAt(NodeOf(p.name), key)
    {
      OtherNodesKept(r, next, NodeOf(p.name), key);
    }
  }

  lemma {:induction false} FleetGrants(d: Network, ps: seq<Params>, g: Grant)
    requires Fleet(d, ps) && g in RegisterAll(d, ps).grants
    ensures exists i :: 0 <= i < |ps| && g in GrantsOf(ps[i])
  {
    if ps != [] {
      var n := |ps| - 1;
      RegistrationPerformed(d, RegisterAll(d, ps[..n]), ps[n]);
      if g in GrantsOf(ps[n]) {
      } else {
        FleetPrefix(d, ps, n);
        FleetGrants(d, ps[..n], g);
        var i :| 0 <= i < n && g in GrantsOf(ps[..n][i]);
        assert g in GrantsOf(ps[i]);
      }
    }
  }

  lemma StartIsAllowed(d: Network, ps: seq<Params>, refreshed: set<Node>)
    requires Fleet(d, ps)
    ensures OnlyAllowed(d, ps, refreshed, Start(d, ps, refreshed).resolver.grants)
    ensures Guarded(d, Start(d, ps, refreshed).resolver.grants)
  {
    forall g | g in Start(d, ps, refreshed).resolver.grants ensures Allowed(d, ps, refreshed, g) {
      if g in RegisterAll(d, ps).grants { FleetGrants(d, ps, g); }
    }
    AllowedIsGuarded(d, ps, refreshed, Start(d, ps, refreshed).resolver.grants);
  }

  lemma StartHolds(d: Network, ps: seq<Params>, refreshed: set<Node>, i: nat)
    requires Fleet(d, ps) && i < |ps|
    ensures Holds(Start(d, ps, refreshed).resolver, ps[i])
    ensures Grant(Data(GrantNode(ps[i]), Status), d.watchdog) in Start(d, ps, refreshed).resolver.grants
  {
    FleetHolds(d, ps, i);
    assert Grant(Data(GrantNode(ps[i]), Status), d.watchdog) in GrantsOf(ps[i]);
  }

  /** Registered together, such operators share an endpoint record: the first one's key, which is not the
      second one's, writes over the second one's endpoint. */
  lemma EmptyLabelMisdirects(d: Network, first: Params, second: Params, value: string)
    requires first.name == "a..b" && second.name == "a.b" && first.watchdog == second.watchdog == d.watchdog
    requires first.operationalKey != second.operationalKey && first.operationalKey !in {d.root, d.watchdog, d.refresher}
    ensures Fleet(d, [first, second]) && !Owns([first, second], NodeOf(second.name), first.operationalKey)
    ensures
      var c, s := Start(d, [first, second], {}), WriteText(first.operationalKey, NodeOf(second.name), Endpoint, value);
      c.resolver.TextAt(NodeOf(second.name), Endpoint) == second.endpoint
      && Exec(d, c, s).resolver.TextAt(NodeOf(second.name), Endpoint) == value
  {
    var ps := [first, second];
    TwinNames(first, second);
    assert ps[0] == first && ps[1] == second;
    FleetHolds(d, ps, 0);
    FleetHolds(d, ps, 1);
    assert Grant(Text(GrantNode(first), Endpoint), first.operationalKey) in GrantsOf(ps[0]);
  }

  /** Every operator of a freshly registered fleet reads back as registered, and active. */
  lemma FleetReadsBack(d: Network, ps: seq<Params>, refreshed: set<Node>, i: nat)
    requires Fleet(d, ps) && i < |ps|
    ensures ps[i].name != ""
    ensures ReadCapabilityRecord(d, Start(d, ps, refreshed).resolver, ps[i].name, ps[i].operationalKey)
         == if Readable(d, ps[i]) then Some(RecordOf(ps[i])) else None
  {
    StartHolds(d, ps, refreshed, i);
    RecordReadsBack(d, Start(d, ps, refreshed).resolver, ps[i]);
  }

  /** In every run by other accounts every operator of the fleet keeps its payout address, is active or
      revoked, and has emitted one `Revoked` event if revoked and none otherwise. */
  lemma FleetIsSafe(d: Network, ps: seq<Params>, refreshed: set<Node>, steps: seq<Step>, i: nat)
    requires Apart(d) && Fleet(d, ps) && AllExternal(d, steps) && i < |ps|
    ensures
      var node, end := NodeOf(ps[i].name), Run(d, Start(d, ps, refreshed), steps);
      DecodeAddress(end.resolver.DataAt(node, PayoutAddress)) == Some(ps[i].payoutAddress)
      && end.Status(node) in {ACTIVE, REVOKED}
      && Revocations(end.events, node) == if end.Status(node) == REVOKED then 1 else 0
  {
    StartIsAllowed(d, ps, refreshed);
    StartHolds(d, ps, refreshed, i);
    RunKeeps(d, Start(d, ps, refreshed), steps, NodeOf(ps[i].name));
    AddressRoundTrip(ps[i].payoutAddress);
  }

  /** At every step of every run: a text is changed only by a key with roles on its node, and a data record
      only as a hash by such a key or an enrolled refresh, or as a status become revoked. With plain names
      those keys are the operators' own (`KeyedIsOwner`). */
  lemma FleetIsOwned(d: Network, ps: seq<Params>, refreshed: set<Node>, steps: seq<Step>, s: Step, node: Node, key: Key)
    requires Apart(d) && Fleet(d, ps) && OwnKeys(d, ps) && AllExternal(d, steps) && External(d, s)
    ensures
      var c := Run(d, Start(d, ps, refreshed), steps);
      (Exec(d, c, s).resolver.TextAt(node, key) != c.resolver.TextAt(node, key) ==>
        key in {Endpoint, TiersSupported} && s.WriteText? && Keyed(ps, node, s.caller))
      && (Exec(d, c, s).resolver.DataAt(node, key) != c.resolver.DataAt(node, key) ==>
        || (key == BuildHash && s.WriteData? && Keyed(ps, node, s.caller))
        || (key == BuildHash && s.Refresh? && node in refreshed)
        || (key == Status && (s.Check? || s.RevokeByAdmin?) && Exec(d, c, s).Status(node) == REVOKED))
    ensures PlainNames(ps) && (s.WriteText? || s.WriteData?) ==>
      (Keyed(ps, node, s.caller) <==> Owns(ps, node, s.caller))
  {
    StartIsAllowed(d, ps, refreshed);
    RunKeeps(d, Start(d, ps, refreshed), steps, node);
    var c := Run(d, Start(d, ps, refreshed), steps);
    if Exec(d, c, s).resolver.TextAt(node, key) != c.resolver.TextAt(node, key) {
      TextChangedByKey(d, ps, refreshed, c, s, node, key);
    }
    if Exec(d, c, s).resolver.DataAt(node, key) != c.resolver.DataAt(node, key) {
      DataChangedByKey(d, ps, refreshed, c, s, node, key);
    }
    if PlainNames(ps) && (s.WriteText? || s.WriteData?) { KeyedIsOwner(d, ps, node, s.caller); }
  }

  /** At every moment of every run anyone's check decides: on a published hash of full length it revokes
      exactly an operator still active whose report does not hash to it, and on a shorter one it reverts. */
  lemma CheckDecides(
    d: Network, ps: seq<Params>, refreshed: set<Node>, steps: seq<Step>, i: nat, caller: Address20, report: seq<Byte>)
    requires Apart(d) && Fleet(d, ps) && AllExternal(d, steps) && i < |ps| && "" !in DnsName.Split(ps[i].name)
    ensures
      var node, c := NodeOf(ps[i].name), Run(d, Start(d, ps, refreshed), steps);
      var published, o := c.resolver.DataAt(node, BuildHash), SubmitAttestationCheck(d, c, caller, node, report);
      (o.Some? <==> |published| >= 32)
      && (o.Some? ==>
        (o.value.revoked <==> d.keccak(report) != published[..32] && c.Status(node) == ACTIVE)
        && (o.value.chain.Status(node) == REVOKED <==>
             d.keccak(report) != published[..32] || c.Status(node) == REVOKED)
        && (!o.value.revoked ==> o.value.chain == c))
  {
    FleetIsSafe(d, ps, refreshed, steps, i);
    DnsName.WireNamesNode(ps[i].name);
    StartIsAllowed(d, ps, refreshed);
    StartHolds(d, ps, refreshed, i);
    RunKeeps(d, Start(d, ps, refreshed), steps, NodeOf(ps[i].name));
  }

  /** The step neither writes the node's hash nor is the admin's revocation of it. */
  predicate LeavesHash(s: Step, node: Node) {
    match s
    case WriteData(_, at, key, _) => at != node || key != BuildHash
    case Refresh(_, update) => update.node != node
    case RevokeByAdmin(_, at) => at != node
    case _ => true
  }

  lemma {:induction false} ShortHashHolds(d: Network, c: Chain, later: seq<Step>, node: Node)
    requires Apart(d) && Guarded(d, c.resolver.grants) && AllExternal(d, later)
    requires |c.resolver.DataAt(node, BuildHash)| < 32
    requires forall k :: 0 <= k < |later| ==> LeavesHash(later[k], node)
    ensures Run(d, c, later).resolver.DataAt(node, BuildHash) == c.resolver.DataAt(node, BuildHash)
    ensures Run(d, c, later).Status(node) == c.Status(node)
  {
    if later != [] {
      var n := |later| - 1;
      ShortHashHolds(d, c, later[..n], node);
      var w := Run(d, c, later[..n]);
      RunKeeps(d, c, later[..n], node);
      ShortHashStays(d, w, later[n], node);
    }
  }

  lemma ShortHashStays(d: Network, c: Chain, s: Step, node: Node)
    requires Apart(d) && Guarded(d, c.resolver.grants) && External(d, s) && LeavesHash(s, node)
    requires |c.resolver.DataAt(node, BuildHash)| < 32
    ensures Exec(d, c, s).resolver.DataAt(node, BuildHash) == c.resolver.DataAt(node, BuildHash)
    ensures Exec(d, c, s).Status(node) == c.Status(node)
  {
    if Exec(d, c, s).resolver.DataAt(node, BuildHash) != c.resolver.DataAt(node, BuildHash) {
      DataWriter(d, c, s, node, BuildHash);
    }
    if Exec(d, c, s).Status(node) != c.Status(node) {
      DataWriter(d, c, s, node, Status);
    }
  }

  lemma KeyPublishes(d: Network, c: Chain, key: Address20, node: Node, data: seq<Byte>)
    requires Grant(Data(node, BuildHash), key) in c.resolver.grants && key !in {d.root, d.watchdog, d.refresher}
    ensures
      var next := Exec(d, c, WriteData(key, node, BuildHash, data));
      next.resolver.grants == c.resolver.grants && next.resolver.DataAt(node, BuildHash) == data
      && next.Status(node) == c.Status(node)
  {}

  /** At any moment of any run an operator's key can publish a short hash, and from then on no check changes
      the operator's status until the hash is written again. */
  lemma ShortHashStopsChecks(
    d: Network, ps: seq<Params>, refreshed: set<Node>, steps: seq<Step>, i: nat, data: seq<Byte>, later: seq<Step>)
    requires Apart(d) && Fleet(d, ps) && AllExternal(d, steps) && AllExternal(d, later) && i < |ps|
    requires "" !in DnsName.Split(ps[i].name) && ps[i].operationalKey !in {d.root, d.watchdog, d.refresher}
    requires |data| < 32 && forall k :: 0 <= k < |later| ==> LeavesHash(later[k], NodeOf(ps[i].name))
    ensures
      var node, c := NodeOf(ps[i].name), Run(d, Start(d, ps, refreshed), steps);
      var short := Exec(d, c, WriteData(ps[i].operationalKey, node, BuildHash, data));
      short.resolver.DataAt(node, BuildHash) == data && Run(d, short, later).Status(node) == c.Status(node)
  {
    var node, c := NodeOf(ps[i].name), Run(d, Start(d, ps, refreshed), steps);
    DnsName.WireNamesNode(ps[i].name);
    StartIsAllowed(d, ps, refreshed);
    FleetHolds(d, ps, i);
    RunKeeps(d, Start(d, ps, refreshed), steps, node);
    assert Grant(Data(node, BuildHash), ps[i].operationalKey) in GrantsOf(ps[i]);
    KeyPublishes(d, c, ps[i].operationalKey, node, data);
    ShortHashHolds(d, Exec(d, c, WriteData(ps[i].operationalKey, node, BuildHash, data)), later, node);
  }

  // ---------------------------------------------------------------- consequences for readers

  lemma {:induction false} RunSplits(d: Network, c: Chain, steps: seq<Step>, k: nat)
    requires AllExternal(d, steps) && k <= |steps|
    ensures Run(d, c, steps) == Run(d, Run(d, c, steps[..k]), steps[k..])
    decreases |steps|
  {
    var n := |steps| - 1;
    if k <= n {
      RunSplits(d, c, steps[..n], k);
      assert steps[..n][..k] == steps[..k] && steps[..n][k..] == steps[k..][..n - k];
    } else {
      assert steps[..k] == steps;
    }
  }

  /** Once revoked, revoked for the rest of the run. */
  lemma RevokedForever(d: Network, c: Chain, steps: seq<Step>, k: nat, node: Node)
    requires Apart(d) && Guarded(d, c.resolver.grants) && AllExternal(d, steps) && k <= |steps|
    requires Run(d, c, steps[..k]).Status(node) == REVOKED
    ensures Run(d, c, steps).Status(node) == REVOKED
  {
    RunSplits(d, c, steps, k);
    RunKeeps(d, c, steps[..k], node);
    RunKeeps(d, Run(d, c, steps[..k]), steps[k..], node);
  }

  /** A refresh that goes through changes the record read back in its hash and nothing else. */
  lemma RefreshedReadsBack(d: Network, c: Chain, caller: Address20, report: Report, name: string, key: Address20)
    requires |report.after| >= 74 && OnReport(d, c, caller, report).Some? && report.node == NodeOf(name)
    requires ReadCapabilityRecord(d, c.resolver, name, key).Some?
    ensures
      ReadCapabilityRecord(d, OnReport(d, c, caller, report).value.resolver, name, key)
      == Some(ReadCapabilityRecord(d, c.resolver, name, key).value.(attestationBuildHash := report.newHash))
  {}
}
