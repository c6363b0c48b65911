/** The shared resolver and its permission table, the calls that register an operator, the record read
    back from them, and the two contracts that write to it afterwards: watchdog and refresher. */
module Registry {
  import opened Bytes
  import opened Escrow
  import opened Optional
  import DnsName
  import Keystone
  import SessionLog
  import TierList

  /** A name hash, which stands for the octets of the labels it is taken over. */
  type Node = seq<seq<Byte>>

  datatype Key = Endpoint | TiersSupported | BuildHash | PayoutAddress | Status

  datatype Slot = Text(node: Node, key: Key) | Data(node: Node, key: Key)

  datatype Grant = Grant(slot: Slot, account: Address20)

  const ACTIVE: seq<Byte> := [97, 99, 116, 105, 118, 101]
  const REVOKED: seq<Byte> := [114, 101, 118, 111, 107, 101, 100]

  datatype Resolver = Resolver(texts: map<Slot, string>, datas: map<Slot, seq<Byte>>, grants: set<Grant>) {
    function TextAt(node: Node, key: Key): string {
      if Text(node, key) in texts then texts[Text(node, key)] else ""
    }

    function DataAt(node: Node, key: Key): seq<Byte> {
      if Data(node, key) in datas then datas[Data(node, key)] else []
    }
  }

  const FRESH := Resolver(map[], map[], {})

  /** Who is who on chain, the hash, and the URL test of the record schema. */
  datatype Network = Network(
    root: Address20, watchdog: Address20, admin: Address20, refresher: Address20, gate: Keystone.Gate,
    keccak: seq<Byte> -> Word, isUrl: string -> bool)

  // ---------------------------------------------------------------- the resolver

  /** The root admin may write anything, every other account what it was granted. */
  predicate MayWrite(d: Network, r: Resolver, caller: Address20, slot: Slot) {
    caller == d.root || Grant(slot, caller) in r.grants
  }

  /** The resolver after a write, or nothing when it reverts. */
  function SetText(d: Network, r: Resolver, caller: Address20, node: Node, key: Key, value: string): Option<Resolver> {
    if MayWrite(d, r, caller, Text(node, key)) then Some(r.(texts := r.texts[Text(node, key) := value])) else None
  }

  function SetData(d: Network, r: Resolver, caller: Address20, node: Node, key: Key, value: seq<Byte>): Option<Resolver>
  {
    if MayWrite(d, r, caller, Data(node, key)) then Some(r.(datas := r.datas[Data(node, key) := value])) else None
  }

  /** Only the root admin hands out roles; the name arrives in wire form. */
  function Authorize(
    d: Network, r: Resolver, caller: Address20, toName: seq<Byte>, isText: bool, key: Key, account: Address20)
    : Option<Resolver>
  {
    match DnsName.Decode(toName)
    case Err(_) => None
    case Ok(name) =>
      var slot := if isText then Text(name.labels, key) else Data(name.labels, key);
      if caller == d.root then Some(r.(grants := r.grants + {Grant(slot, account)})) else None
  }

  // ---------------------------------------------------------------- registration

  datatype Params = Params(
    name: string, operationalKey: Address20, payoutAddress: Address20, endpoint: string, tiers: seq<Tier>,
    attestationBuildHash: seq<Byte>, watchdog: Address20)

  datatype Call =
    | CallSetText(node: Node, key: Key, value: string)
    | CallSetData(node: Node, key: Key, data: seq<Byte>)
    | CallAuthorize(toName: seq<Byte>, isText: bool, key: Key, account: Address20)

  function NodeOf(name: string): Node { DnsName.Octets(DnsName.Split(name)) }

  /** An address as an ABI word. */
  function AbiAddress(a: Address20): (w: Word) { Zeros(12) + a }

  /** The resolver calls of a registration, in order; building them throws on an empty first label and on
      a label the wire form cannot hold. */
  function BuildRegisterOperatorCalls(p: Params): (r: DnsName.Result<seq<Call>>)
    ensures r.Ok? <==> Buildable(p)
  {
    var labels := DnsName.NonEmpty(DnsName.Split(p.name));
    if DnsName.Split(p.name)[0] == "" then DnsName.Err("cannot derive a label")
    else if !DnsName.AllFit(labels) then DnsName.Err("invalid DNS label length")
    else
      var node, toName := NodeOf(p.name), DnsName.Wire(labels);
      DnsName.Ok([
        CallSetText(node, Endpoint, p.endpoint),
        CallSetText(node, TiersSupported, TierList.Stringify(p.tiers)),
        CallSetData(node, BuildHash, p.attestationBuildHash),
        CallSetData(node, PayoutAddress, AbiAddress(p.payoutAddress)),
        CallSetData(node, Status, ACTIVE),
        CallAuthorize(toName, true, Endpoint, p.operationalKey),
        CallAuthorize(toName, true, TiersSupported, p.operationalKey),
        CallAuthorize(toName, false, BuildHash, p.operationalKey),
        CallAuthorize(toName, false, Status, p.watchdog)])
  }

  function Perform(d: Network, r: Resolver, caller: Address20, call: Call): Option<Resolver> {
    match call
    case CallSetText(node, key, value) => SetText(d, r, caller, node, key, value)
    case CallSetData(node, key, data) => SetData(d, r, caller, node, key, data)
    case CallAuthorize(toName, isText, key, account) => Authorize(d, r, caller, toName, isText, key, account)
  }

  /** The root admin sends the calls one after the other; one that reverts leaves no trace. */
  function PerformAll(d: Network, r: Resolver, calls: seq<Call>): Resolver
    decreases |calls|
  {
    if calls == [] then r
    else
      var next := Perform(d, r, d.root, calls[0]);
      PerformAll(d, if next.Some? then next.value else r, calls[1..])
  }

  // ---------------------------------------------------------------- the record read back

  datatype RelayStatus = Active | Revoked

  datatype Record = Record(
    operator: SessionLog.RelayName, operationalKey: Address20, payoutAddress: Address20, endpoint: string,
    tiers: seq<Tier>, status: RelayStatus, attestationBuildHash: seq<Byte>)

  function StatusOf(data: seq<Byte>): Option<RelayStatus> {
    if data == ACTIVE then Some(Active) else if data == REVOKED then Some(Revoked) else None
  }

  /** `decodeAbiParameters` of an address: too short throws, the upper twelve octets are ignored. */
  function DecodeAddress(data: seq<Byte>): Option<Address20> {
    if |data| < 32 then None else Some(data[12..32])
  }

  /** What is stored, decoded and checked against the record schema. */
  function ReadCapabilityRecord(d: Network, r: Resolver, name: string, operationalKey: Address20): Option<Record> {
    var node := NodeOf(name);
    var endpoint, hash := r.TextAt(node, Endpoint), r.DataAt(node, BuildHash);
    var tiers := TierList.Parse(r.TextAt(node, TiersSupported));
    var payout := DecodeAddress(r.DataAt(node, PayoutAddress));
    var status := StatusOf(r.DataAt(node, Status));
    if name != "" && payout.Some? && d.isUrl(endpoint) && tiers.Some? && tiers.value != [] && status.Some? && hash != []
    then
      Some(Record(name, operationalKey, payout.value, endpoint, tiers.value, status.value, hash))
    else None
  }

  // ---------------------------------------------------------------- what registration leaves behind

  predicate Buildable(p: Params) {
    DnsName.Split(p.name)[0] != "" && DnsName.AllFit(DnsName.NonEmpty(DnsName.Split(p.name)))
  }

  /** The node the grants of a registration are for. */
  function GrantNode(p: Params): Node { DnsName.Octets(DnsName.NonEmpty(DnsName.Split(p.name))) }

  function GrantsOf(p: Params): set<Grant> {
    var node := GrantNode(p);
    { Grant(Text(node, Endpoint), p.operationalKey), Grant(Text(node, TiersSupported), p.operationalKey),
      Grant(Data(node, BuildHash), p.operationalKey), Grant(Data(node, Status), p.watchdog) }
  }

  function Written(r: Resolver, p: Params): Resolver {
    var node := NodeOf(p.name);
    Resolver(
      r.texts[Text(node, Endpoint) := p.endpoint][Text(node, TiersSupported) := TierList.Stringify(p.tiers)],
      r.datas[Data(node, BuildHash) := p.attestationBuildHash]
        [Data(node, PayoutAddress) := AbiAddress(p.payoutAddress)][Data(node, Status) := ACTIVE],
      r.grants)
  }

  function Registered(r: Resolver, p: Params): Resolver {
    Written(r, p).(grants := r.grants + GrantsOf(p))
  }

  lemma RootAuthorizes(d: Network, r: Resolver, p: Params, isText: bool, key: Key, account: Address20)
    requires Buildable(p)
    ensures
      var labels := DnsName.NonEmpty(DnsName.Split(p.name));
      var slot := if isText then Text(GrantNode(p), key) else Data(GrantNode(p), key);
      Authorize(d, r, d.root, DnsName.Wire(labels), isText, key, account)
      == Some(r.(grants := r.grants + {Grant(slot, account)}))
  {
    var labels := DnsName.NonEmpty(DnsName.Split(p.name));
    DnsName.DecodeWire(labels, []);
    assert DnsName.Wire(labels) + [] == DnsName.Wire(labels);
  }

  lemma OneCall(d: Network, r: Resolver, call: Call, calls: seq<Call>, next: Resolver)
    requires Perform(d, r, d.root, call) == Some(next)
    ensures PerformAll(d, r, [call] + calls) == PerformAll(d, next, calls)
  {
    assert ([call] + calls)[1..] == calls;
  }

  function Grants(p: Params): seq<Call>
    requires Buildable(p)
  {
    var toName := DnsName.Wire(DnsName.NonEmpty(DnsName.Split(p.name)));
    [CallAuthorize(toName, true, Endpoint, p.operationalKey)]
    + ([CallAuthorize(toName, true, TiersSupported, p.operationalKey)]
    + ([CallAuthorize(toName, false, BuildHash, p.operationalKey)]
    + ([CallAuthorize(toName, false, Status, p.watchdog)] + [])))
  }

  lemma GrantsPerformed(d: Network, r: Resolver, p: Params)
    requires Buildable(p)
    ensures PerformAll(d, r, Grants(p)) == r.(grants := r.grants + GrantsOf(p))
  {
    var node, toName := GrantNode(p), DnsName.Wire(DnsName.NonEmpty(DnsName.Split(p.name)));
    var c2, c3, c4 :=
      CallAuthorize(toName, true, TiersSupported, p.operationalKey),
      CallAuthorize(toName, false, BuildHash, p.operationalKey),
      CallAuthorize(toName, false, Status, p.watchdog);
    var r1 := r.(grants := r.grants + {Grant(Text(node, Endpoint), p.operationalKey)});
    var r2 := r1.(grants := r1.grants + {Grant(Text(node, TiersSupported), p.operationalKey)});
    var r3 := r2.(grants := r2.grants + {Grant(Data(node, BuildHash), p.operationalKey)});
    var r4 := r3.(grants := r3.grants + {Grant(Data(node, Status), p.watchdog)});
    RootAuthorizes(d, r, p, true, Endpoint, p.operationalKey);
    RootAuthorizes(d, r1, p, true, TiersSupported, p.operationalKey);
    RootAuthorizes(d, r2, p, false, BuildHash, p.operationalKey);
    RootAuthorizes(d, r3, p, false, Status, p.watchdog);
    OneCall(d, r, CallAuthorize(toName, true, Endpoint, p.operationalKey), [c2] + ([c3] + ([c4] + [])), r1);
    OneCall(d, r1, c2, [c3] + ([c4] + []), r2);
    OneCall(d, r2, c3, [c4] + [], r3);
    OneCall(d, r3, c4, [], r4);
    assert r4.grants == r.grants + GrantsOf(p);
  }

  function Writes(p: Params, rest: seq<Call>): seq<Call> {
    var node := NodeOf(p.name);
    [CallSetText(node, Endpoint, p.endpoint)]
    + ([CallSetText(node, TiersSupported, TierList.Stringify(p.tiers))]
    + ([CallSetData(node, BuildHash, p.attestationBuildHash)]
    + ([CallSetData(node, PayoutAddress, AbiAddress(p.payoutAddress))]
    + ([CallSetData(node, Status, ACTIVE)] + rest))))
  }

  lemma WritesPerformed(d: Network, r: Resolver, p: Params, rest: seq<Call>)
    ensures PerformAll(d, r, Writes(p, rest)) == PerformAll(d, Written(r, p), rest)
  {
    var node := NodeOf(p.name);
    var c2, c3, c4, c5 :=
      CallSetText(node, TiersSupported, TierList.Stringify(p.tiers)),
      CallSetData(node, BuildHash, p.attestationBuildHash),
      CallSetData(node, PayoutAddress, AbiAddress(p.payoutAddress)),
      CallSetData(node, Status, ACTIVE);
    var r1 := r.(texts := r.texts[Text(node, Endpoint) := p.endpoint]);
    var r2 := r1.(texts := r1.texts[Text(node, TiersSupported) := TierList.Stringify(p.tiers)]);
    var r3 := r2.(datas := r2.datas[Data(node, BuildHash) := p.attestationBuildHash]);
    var r4 := r3.(datas := r3.datas[Data(node, PayoutAddress) := AbiAddress(p.payoutAddress)]);
    OneCall(d, r, CallSetText(node, Endpoint, p.endpoint), [c2] + ([c3] + ([c4] + ([c5] + rest))), r1);
    OneCall(d, r1, c2, [c3] + ([c4] + ([c5] + rest)), r2);
    OneCall(d, r2, c3, [c4] + ([c5] + rest), r3);
    OneCall(d, r3, c4, [c5] + rest, r4);
    OneCall(d, r4, c5, rest, Written(r, p));
  }

  lemma CallsInOrder(p: Params)
    requires Buildable(p)
    ensures BuildRegisterOperatorCalls(p) == DnsName.Ok(Writes(p, Grants(p)))
  {
    assert BuildRegisterOperatorCalls(p).value == Writes(p, Grants(p));
  }

  /** Sent by the root admin, the calls of a registration write the five records of the name's node and
      grant four roles on the node its wire form names, and nothing else. */
  lemma RegistrationPerformed(d: Network, r: Resolver, p: Params)
    requires Buildable(p)
    ensures PerformAll(d, r, BuildRegisterOperatorCalls(p).value) == Registered(r, p)
  {
    CallsInOrder(p);
    WritesPerformed(d, r, p, Grants(p));
    GrantsPerformed(d, Written(r, p), p);
  }

  // ---------------------------------------------------------------- round trip

  predicate Readable(d: Network, p: Params) {
    d.isUrl(p.endpoint) && p.tiers != [] && p.attestationBuildHash != []
  }

  function RecordOf(p: Params): Record
    requires p.name != ""
  {
    Record(p.name, p.operationalKey, p.payoutAddress, p.endpoint, p.tiers, Active, p.attestationBuildHash)
  }

  /** The five records of a name's node are those of its registration. */
  predicate Holds(r: Resolver, p: Params) {
    var node := NodeOf(p.name);
    r.TextAt(node, Endpoint) == p.endpoint && r.TextAt(node, TiersSupported) == TierList.Stringify(p.tiers)
    && r.DataAt(node, BuildHash) == p.attestationBuildHash
    && r.DataAt(node, PayoutAddress) == AbiAddress(p.payoutAddress) && r.DataAt(node, Status) == ACTIVE
  }

  lemma RegistrationHolds(r: Resolver, p: Params)
    ensures Holds(Registered(r, p), p)
  {}

  lemma OtherNodesKept(r: Resolver, p: Params, node: Node, key: Key)
    requires node != NodeOf(p.name)
    ensures Registered(r, p).TextAt(node, key) == r.TextAt(node, key)
    ensures Registered(r, p).DataAt(node, key) == r.DataAt(node, key)
  {}

  lemma AddressRoundTrip(a: Address20)
    ensures DecodeAddress(AbiAddress(a)) == Some(a)
  {
    assert (Zeros(12) + a)[12..32] == a;
  }

  /** Reading a registered operator's record returns exactly its parameters and status active; it throws
      exactly for an endpoint that is no URL, an empty tier list or an empty hash. */
  lemma RecordReadsBack(d: Network, r: Resolver, p: Params)
    requires Buildable(p) && Holds(r, p)
    ensures p.name != ""
    ensures ReadCapabilityRecord(d, r, p.name, p.operationalKey)
         == if Readable(d, p) then Some(RecordOf(p)) else None
  {
    AddressRoundTrip(p.payoutAddress);
    TierList.TiersRoundTrip(p.tiers);
  }

  /** The watchdog gets its role on the record's own node exactly when no label of the name is empty. */
  lemma WatchdogMayRevokeIff(d: Network, p: Params)
    requires Buildable(p) && p.watchdog != d.root
    ensures
      var r := PerformAll(d, FRESH, BuildRegisterOperatorCalls(p).value);
      MayWrite(d, r, p.watchdog, Data(NodeOf(p.name), Status)) <==> "" !in DnsName.Split(p.name)
  {
    RegistrationPerformed(d, FRESH, p);
    DnsName.WireNamesNode(p.name);
  }
}
