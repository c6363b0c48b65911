/** Who decides what in the registry at every moment of every run, and what a reader then sees. */
module RegistryDecisions {
  import opened Bytes
  import opened Optional
  import opened Registry
  import opened RegistryRuns
  import DnsName
  import Keystone
  import TierList

  /** What a fleet's chain is like at every moment of every run, for one operator. */
  lemma AtEveryMoment(d: Network, ps: seq<Params>, refreshed: set<Node>, steps: seq<Step>, i: nat)
    requires Apart(d) && Fleet(d, ps) && AllExternal(d, steps) && i < |ps|
    ensures
      var node, c := NodeOf(ps[i].name), Run(d, Start(d, ps, refreshed), steps);
      && c.Status(node) in {ACTIVE, REVOKED} && c.resolver.grants == Start(d, ps, refreshed).resolver.grants
      && c.resolver.DataAt(node, PayoutAddress) == AbiAddress(ps[i].payoutAddress)
      && ("" !in DnsName.Split(ps[i].name) ==> Grant(Data(node, Status), d.watchdog) in c.resolver.grants)
  {
    FleetIsSafe(d, ps, refreshed, steps, i);
    StartIsAllowed(d, ps, refreshed);
    StartHolds(d, ps, refreshed, i);
    RunKeeps(d, Start(d, ps, refreshed), steps, NodeOf(ps[i].name));
    if "" !in DnsName.Split(ps[i].name) { DnsName.WireNamesNode(ps[i].name); }
  }

  // ---------------------------------------------------------------- revocations

  /** The node's status becomes revoked and nothing else changes but the events added. */
  predicate OnlyRevokes(c: Chain, e: Chain, node: Node, added: seq<RegistryRuns.Event>) {
    e == Chain(c.resolver.(datas := c.resolver.datas[Data(node, Status) := REVOKED]), c.events + added)
  }

  /** At every moment of every run the manual revocation is the admin's alone, and always goes through: it revokes
      an operator still active, with both its events, and leaves one already revoked as it was. */
  lemma AdminDecides(d: Network, ps: seq<Params>, refreshed: set<Node>, steps: seq<Step>, i: nat, caller: Address20)
    requires Apart(d) && Fleet(d, ps) && AllExternal(d, steps) && i < |ps| && "" !in DnsName.Split(ps[i].name)
    ensures
      var node, c := NodeOf(ps[i].name), Run(d, Start(d, ps, refreshed), steps);
      var o := AdminRevoke(d, c, caller, node);
      && (o.Some? <==> caller == d.admin)
      && (o.Some? && c.Status(node) == ACTIVE ==>
            OnlyRevokes(c, o.value, node, [RevokedEvent(node, caller, "admin_manual_revoke"),
                                           AdminRevokedEvent(node, caller)]))
      && (o.Some? && c.Status(node) == REVOKED ==> o.value == c)
      && RegistryRuns.Exec(d, c, RevokeByAdmin(caller, node)) == if o.Some? then o.value else c
  {
    AtEveryMoment(d, ps, refreshed, steps, i);
    var node, c := NodeOf(ps[i].name), Run(d, Start(d, ps, refreshed), steps);
    var first, second := RevokedEvent(node, caller, "admin_manual_revoke"), AdminRevokedEvent(node, caller);
    assert c.events + [first] + [second] == c.events + [first, second];
  }

  /** The admin cannot revoke where the watchdog has no role: that reverts, unless it is revoked already. */
  lemma AdminNeedsRole(d: Network, c: Chain, node: Node)
    requires Apart(d) && Grant(Data(node, Status), d.watchdog) !in c.resolver.grants
    ensures AdminRevoke(d, c, d.admin, node) == if c.Status(node) == REVOKED then Some(c) else None
  {}

  /** And a check that revokes does just that, announced under its caller's name. */
  lemma CheckAnnounces(
    d: Network, ps: seq<Params>, refreshed: set<Node>, steps: seq<Step>, i: nat, caller: Address20, report: seq<Byte>)
    requires Apart(d) && Fleet(d, ps) && AllExternal(d, steps) && i < |ps| && "" !in DnsName.Split(ps[i].name)
    ensures
      var node, c := NodeOf(ps[i].name), Run(d, Start(d, ps, refreshed), steps);
      var o := SubmitAttestationCheck(d, c, caller, node, report);
      (o.Some? && o.value.revoked ==>
        OnlyRevokes(c, o.value.chain, node, [RevokedEvent(node, caller, "attestation_mismatch")]))
      && RegistryRuns.Exec(d, c, Check(caller, node, report)) == if o.Some? then o.value.chain else c
  {
    AtEveryMoment(d, ps, refreshed, steps, i);
  }

  // ---------------------------------------------------------------- refreshes

  lemma EnrolledIff(d: Network, ps: seq<Params>, refreshed: set<Node>, node: Node)
    requires Apart(d) && Fleet(d, ps) && OwnKeys(d, ps)
    ensures Grant(Data(node, BuildHash), d.refresher) in Start(d, ps, refreshed).resolver.grants <==> node in refreshed
  {
    var g := Grant(Data(node, BuildHash), d.refresher);
    StartIsAllowed(d, ps, refreshed);
    if g in Start(d, ps, refreshed).resolver.grants {
      GrantSaysWho(d, ps, refreshed, g);
      if Keyed(ps, node, d.refresher) { KeysAreNoContracts(d, ps, node, d.refresher); }
    }
  }

  /** At every moment of every run a report goes through exactly if the gate accepts it and its node was enrolled;
      it then writes its hash there and emits its event, and nothing else. */
  lemma RefreshDecides(
    d: Network, ps: seq<Params>, refreshed: set<Node>, steps: seq<Step>, caller: Address20, report: Report)
    requires Apart(d) && Fleet(d, ps) && OwnKeys(d, ps) && AllExternal(d, steps) && |report.after| >= 74
    ensures
      var c := Run(d, Start(d, ps, refreshed), steps);
      var o := OnReport(d, c, caller, report);
      && (o.Some? <==>
            Keystone.Judge(d.gate, caller, report.metadata, report.after) == Keystone.Accepted
            && report.node in refreshed)
      && (o.Some? ==>
            o.value == Chain(
              c.resolver.(datas := c.resolver.datas[Data(report.node, BuildHash) := report.newHash]),
              c.events + [RefreshedEvent(report.node, report.newHash)]))
      && RegistryRuns.Exec(d, c, Refresh(caller, report)) == if o.Some? then o.value else c
  {
    StartIsAllowed(d, ps, refreshed);
    RunKeeps(d, Start(d, ps, refreshed), steps, report.node);
    EnrolledIff(d, ps, refreshed, report.node);
  }

  // ---------------------------------------------------------------- who, at every step

  /** At every step of every run a status changes only by the admin's own revocation or by a check whose report
      does not hash to the published value, and to revoked; a hash changes only by a key with its role, to what
      the key wrote, or by a report the gate accepted, to the report's hash. */
  lemma ChangesAreDecided(
    d: Network, ps: seq<Params>, refreshed: set<Node>, steps: seq<Step>, s: Step, node: Node)
    requires Apart(d) && Fleet(d, ps) && OwnKeys(d, ps) && AllExternal(d, steps) && External(d, s)
    ensures
      var c := Run(d, Start(d, ps, refreshed), steps);
      var e := RegistryRuns.Exec(d, c, s);
      && (e.Status(node) != c.Status(node) ==>
            && e.Status(node) == REVOKED
            && ((s.RevokeByAdmin? && s.node == node && s.caller == d.admin)
                || (s.Check? && s.node == node && |c.resolver.DataAt(node, BuildHash)| >= 32
                    && d.keccak(s.report) != c.resolver.DataAt(node, BuildHash)[..32])))
      && (e.resolver.DataAt(node, BuildHash) != c.resolver.DataAt(node, BuildHash) ==>
            || (s.WriteData? && Keyed(ps, node, s.caller) && e.resolver.DataAt(node, BuildHash) == s.data)
            || (s.Refresh? && node in refreshed && e.resolver.DataAt(node, BuildHash) == s.update.newHash
                && Keystone.Judge(d.gate, s.caller, s.update.metadata, s.update.after) == Keystone.Accepted))
  {
    StartIsAllowed(d, ps, refreshed);
    RunKeeps(d, Start(d, ps, refreshed), steps, node);
    var c := Run(d, Start(d, ps, refreshed), steps);
    var e := RegistryRuns.Exec(d, c, s);
    if e.Status(node) != c.Status(node) { DataChangedByKey(d, ps, refreshed, c, s, node, Status); }
    if e.resolver.DataAt(node, BuildHash) != c.resolver.DataAt(node, BuildHash) {
      DataChangedByKey(d, ps, refreshed, c, s, node, BuildHash);
    }
  }

  // ---------------------------------------------------------------- readers

  /** At every moment of every run an operator's record reads exactly if its endpoint is a URL, its tier list a
      non-empty one and its hash not empty; it then says who the operator is and where it is paid, as registered,
      shows what is stored, and is revoked or active as the chain says. */
  lemma RecordReadsIff(d: Network, ps: seq<Params>, refreshed: set<Node>, steps: seq<Step>, i: nat)
    requires Apart(d) && Fleet(d, ps) && AllExternal(d, steps) && i < |ps|
    ensures
      var node, c := NodeOf(ps[i].name), Run(d, Start(d, ps, refreshed), steps);
      var endpoint, hash := c.resolver.TextAt(node, Endpoint), c.resolver.DataAt(node, BuildHash);
      var tiers := TierList.Parse(c.resolver.TextAt(node, TiersSupported));
      var record := ReadCapabilityRecord(d, c.resolver, ps[i].name, ps[i].operationalKey);
      && (record.Some? <==> d.isUrl(endpoint) && tiers.Some? && tiers.value != [] && hash != [])
      && (record.Some? ==>
            && record.value.operator == ps[i].name && record.value.operationalKey == ps[i].operationalKey
            && record.value.payoutAddress == ps[i].payoutAddress && record.value.endpoint == endpoint
            && record.value.tiers == tiers.value && record.value.attestationBuildHash == hash
            && (record.value.status == Revoked <==> c.Status(node) == REVOKED))
  {
    AtEveryMoment(d, ps, refreshed, steps, i);
    AddressRoundTrip(ps[i].payoutAddress);
    FleetReadsBack(d, ps, refreshed, i);
  }

  /** So a revocation changes the record read back in its status and nothing else. */
  lemma RevokedReadsBack(d: Network, ps: seq<Params>, refreshed: set<Node>, steps: seq<Step>, i: nat)
    requires Apart(d) && Fleet(d, ps) && AllExternal(d, steps) && i < |ps| && "" !in DnsName.Split(ps[i].name)
    ensures
      var node, c := NodeOf(ps[i].name), Run(d, Start(d, ps, refreshed), steps);
      var before := ReadCapabilityRecord(d, c.resolver, ps[i].name, ps[i].operationalKey);
      var e := RegistryRuns.Exec(d, c, RevokeByAdmin(d.admin, node));
      ReadCapabilityRecord(d, e.resolver, ps[i].name, ps[i].operationalKey)
      == if before.Some? then Some(before.value.(status := Revoked)) else None
  {
    AtEveryMoment(d, ps, refreshed, steps, i);
    AdminDecides(d, ps, refreshed, steps, i, d.admin);
    AddressRoundTrip(ps[i].payoutAddress);
  }
}
