/** The resolver and the two contracts as objects whose storage the transactions change in place. A method
    that reverts returns nothing and leaves every field as it was. */
module RegistryContracts {
  import opened Bytes
  import opened Optional
  import opened Registry
  import opened RegistryRuns
  import Keystone

  class PermissionedResolver {
    ghost const network: Network
    const root: Address20
    var texts: map<Slot, string>
    var datas: map<Slot, seq<Byte>>
    var grants: set<Grant>

    ghost function State(): Resolver
      reads this
    {
      Resolver(texts, datas, grants)
    }

    constructor (network: Network)
      ensures State() == FRESH && this.network == network && root == network.root
    {
      this.network, root, texts, datas, grants := network, network.root, map[], map[], {};
    }

    method SetText(sender: Address20, node: Node, key: Key, value: string) returns (done: bool)
      requires root == network.root
      modifies this
      ensures done <==> Registry.SetText(network, old(State()), sender, node, key, value).Some?
      ensures State()
           == if done then Registry.SetText(network, old(State()), sender, node, key, value).value else old(State())
    {
      if sender != root && Grant(Text(node, key), sender) !in grants { return false; }
      texts := texts[Text(node, key) := value];
      return true;
    }

    method SetData(sender: Address20, node: Node, key: Key, value: seq<Byte>) returns (done: bool)
      requires root == network.root
      modifies this
      ensures done <==> Registry.SetData(network, old(State()), sender, node, key, value).Some?
      ensures State()
           == if done then Registry.SetData(network, old(State()), sender, node, key, value).value else old(State())
    {
      if sender != root && Grant(Data(node, key), sender) !in grants { return false; }
      datas := datas[Data(node, key) := value];
      return true;
    }

    method ReadData(node: Node, key: Key) returns (value: seq<Byte>)
      ensures value == State().DataAt(node, key)
    {
      return if Data(node, key) in datas then datas[Data(node, key)] else [];
    }
  }

  class WatchdogRevoker {
    const resolver: PermissionedResolver
    const self: Address20
    const admin: Address20
    const keccak: seq<Byte> -> Word
    var events: seq<RegistryRuns.Event>

    ghost predicate Valid()
      reads this
    {
      resolver.root == resolver.network.root && self == resolver.network.watchdog
      && admin == resolver.network.admin && keccak == resolver.network.keccak
    }

    ghost function State(): Chain
      reads this, resolver
    {
      Chain(resolver.State(), events)
    }

    constructor (resolver: PermissionedResolver, self: Address20, admin: Address20, keccak: seq<Byte> -> Word)
      requires resolver.root == resolver.network.root && self == resolver.network.watchdog
      requires admin == resolver.network.admin && keccak == resolver.network.keccak
      ensures Valid() && events == [] && this.resolver == resolver
    {
      this.resolver, this.self, this.admin, this.keccak, events := resolver, self, admin, keccak, [];
    }

    method Revoke(node: Node, sender: Address20, reason: string) returns (revoked: Option<bool>)
      requires Valid()
      modifies this, resolver
      ensures Valid()
      ensures RegistryRuns.Revoke(resolver.network, old(State()), node, sender, reason)
           == if revoked.Some? then Some(Verdict(revoked.value, State())) else None
      ensures revoked.None? ==> State() == old(State())
    {
      var currentStatus := resolver.ReadData(node, Status);
      if currentStatus == REVOKED { return Some(false); }
      var done := resolver.SetData(self, node, Status, REVOKED);
      if !done { return None; }
      events := events + [RevokedEvent(node, sender, reason)];
      return Some(true);
    }

    method SubmitAttestationCheck(sender: Address20, node: Node, report: seq<Byte>) returns (revoked: Option<bool>)
      requires Valid()
      modifies this, resolver
      ensures Valid()
      ensures RegistryRuns.SubmitAttestationCheck(resolver.network, old(State()), sender, node, report)
           == if revoked.Some? then Some(Verdict(revoked.value, State())) else None
      ensures revoked.None? ==> State() == old(State())
    {
      var published := resolver.ReadData(node, BuildHash);
      if |published| < 32 { return None; }
      if keccak(report) == published[..32] { return Some(false); }
      revoked := Revoke(node, sender, "attestation_mismatch");
    }

    method AdminRevoke(sender: Address20, node: Node) returns (done: bool)
      requires Valid()
      modifies this, resolver
      ensures Valid()
      ensures RegistryRuns.AdminRevoke(resolver.network, old(State()), sender, node)
           == if done then Some(State()) else None
      ensures !done ==> State() == old(State())
    {
      if sender != admin { return false; }
      var revoked := Revoke(node, sender, "admin_manual_revoke");
      if revoked.None? { return false; }
      if revoked.value { events := events + [AdminRevokedEvent(node, sender)]; }
      return true;
    }
  }

  class AttestationRefresher {
    const resolver: PermissionedResolver
    const self: Address20
    const receiver: Keystone.Receiver
    var events: seq<RegistryRuns.Event>

    ghost predicate Valid()
      reads this, receiver
    {
      resolver.root == resolver.network.root && self == resolver.network.refresher
      && receiver.gate == resolver.network.gate
    }

    ghost function State(): Chain
      reads this, resolver
    {
      Chain(resolver.State(), events)
    }

    constructor (resolver: PermissionedResolver, self: Address20, receiver: Keystone.Receiver)
      requires resolver.root == resolver.network.root && self == resolver.network.refresher
      requires receiver.gate == resolver.network.gate
      ensures Valid() && events == [] && this.resolver == resolver && this.receiver == receiver
    {
      this.resolver, this.self, this.receiver, events := resolver, self, receiver, [];
    }

    /** `onReport`: the gate, then `_processReport`. */
    method OnReport(sender: Address20, report: Report) returns (done: bool)
      requires Valid() && |report.after| >= 74
      modifies this, resolver
      ensures Valid()
      ensures RegistryRuns.OnReport(resolver.network, old(State()), sender, report)
           == if done then Some(State()) else None
      ensures !done ==> State() == old(State())
    {
      var verdict := receiver.OnReport(sender, report.metadata, report.after);
      if verdict != Keystone.Accepted { return false; }
      done := resolver.SetData(self, report.node, BuildHash, report.newHash);
      if done { events := events + [RefreshedEvent(report.node, report.newHash)]; }
    }
  }
}
