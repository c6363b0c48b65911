/** The orchestrator's view of the registry: every known operator's record, cached for ten seconds, and the
    relays eligible for a tier. Time passes and the chain moves between lookups. */
module Directory {
  import opened Bytes
  import opened Escrow
  import opened Optional
  import opened Registry
  import opened RegistryRuns
  import Handlers
  import SessionLog
  import TierList

  const CACHE_TTL_MS := 10_000

  datatype Known = Known(name: string, operationalKey: Address20)

  datatype Cache = Cache(records: seq<Record>, expiresAt: nat)

  datatype World = World(chain: Chain, cache: Option<Cache>, now: nat)

  /** A restart of the orchestrator forgets the cache. */
  datatype Action = OnChain(step: Step) | Passing(ms: nat) | Lookup | Forget

  /** One read per known operator; a single unreadable record fails the whole fetch. */
  function FetchAll(d: Network, r: Resolver, ops: seq<Known>): Option<seq<Record>> {
    if ops == [] then Some([])
    else
      var first := ReadCapabilityRecord(d, r, ops[0].name, ops[0].operationalKey);
      var rest := FetchAll(d, r, ops[1..]);
      if first.Some? && rest.Some? then Some([first.value] + rest.value) else None
  }

  datatype Listing = Listing(cache: Option<Cache>, records: Option<seq<Record>>)

  /** `listOperators`: the cache while it lasts, otherwise a fetch that replaces it; a failed fetch throws
      and leaves it alone. */
  function ListOperators(d: Network, ops: seq<Known>, w: World): Listing {
    if w.cache.Some? && w.cache.value.expiresAt > w.now then Listing(w.cache, Some(w.cache.value.records))
    else
      match FetchAll(d, w.chain.resolver, ops)
      case None => Listing(w.cache, None)
      case Some(records) => Listing(Some(Cache(records, w.now + CACHE_TTL_MS)), Some(records))
  }

  function Eligible(records: seq<Record>, tier: Tier): seq<SessionLog.RelayName> {
    if records == [] then []
    else if records[0].status == Active && tier in records[0].tiers then
      [records[0].operator] + Eligible(records[1..], tier)
    else Eligible(records[1..], tier)
  }

  /** A relay is eligible exactly when some record of its name is active and lists the tier. */
  lemma {:induction false} EligibleIff(records: seq<Record>, tier: Tier, name: SessionLog.RelayName)
    ensures name in Eligible(records, tier)
       <==> exists i ::
            0 <= i < |records| && records[i].operator == name && records[i].status == Active && tier in records[i].tiers
  {
    if records != [] {
      EligibleIff(records[1..], tier, name);
      assert forall i :: 1 <= i < |records| ==> records[i] == records[1..][i - 1];
      assert forall i :: 0 <= i < |records| - 1 ==> records[1..][i] == records[i + 1];
    }
  }

  predicate Possible(d: Network, a: Action) { a.OnChain? ==> External(d, a.step) }

  predicate AllPossible(d: Network, acts: seq<Action>) { forall i :: 0 <= i < |acts| ==> Possible(d, acts[i]) }

  function Next(d: Network, ops: seq<Known>, w: World, a: Action): World
    requires Possible(d, a)
  {
    match a
    case OnChain(step) => w.(chain := RegistryRuns.Exec(d, w.chain, step))
    case Passing(ms) => w.(now := w.now + ms)
    case Lookup => w.(cache := ListOperators(d, ops, w).cache)
    case Forget => w.(cache := None)
  }

  function After(d: Network, ops: seq<Known>, w: World, acts: seq<Action>): World
    requires AllPossible(d, acts)
  {
    if acts == [] then w else Next(d, ops, After(d, ops, w, acts[..|acts| - 1]), acts[|acts| - 1])
  }

  // ---------------------------------------------------------------- how old a listing can be

  /** After the first `j` actions the clock stood at `at` and a fetch would have returned `records`. */
  ghost predicate Fetched(
    d: Network, ops: seq<Known>, w: World, acts: seq<Action>, j: nat, at: nat, records: seq<Record>)
    requires AllPossible(d, acts)
  {
    j <= |acts| && After(d, ops, w, acts[..j]).now == at
    && FetchAll(d, After(d, ops, w, acts[..j]).chain.resolver, ops) == Some(records)
  }

  lemma FetchedEarlier(
    d: Network, ops: seq<Known>, w: World, acts: seq<Action>, n: nat, j: nat, at: nat, records: seq<Record>)
    requires AllPossible(d, acts) && n <= |acts| && Fetched(d, ops, w, acts[..n], j, at, records)
    ensures Fetched(d, ops, w, acts, j, at, records)
  {
    assert acts[..n][..j] == acts[..j];
  }

  /** What the cache holds was on chain exactly ten seconds before it expires. */
  lemma {:induction false} CacheWasFetched(d: Network, ops: seq<Known>, w: World, acts: seq<Action>) returns (j: nat)
    requires AllPossible(d, acts) && w.cache == None && After(d, ops, w, acts).cache.Some?
    ensures After(d, ops, w, acts).cache.value.expiresAt >= CACHE_TTL_MS
    ensures
      var c := After(d, ops, w, acts).cache.value;
      Fetched(d, ops, w, acts, j, c.expiresAt - CACHE_TTL_MS, c.records)
  {
    var n := |acts| - 1;
    var before, now := After(d, ops, w, acts[..n]), After(d, ops, w, acts);
    if now.cache == before.cache {
      j := CacheWasFetched(d, ops, w, acts[..n]);
      FetchedEarlier(d, ops, w, acts, n, j, now.cache.value.expiresAt - CACHE_TTL_MS, now.cache.value.records);
    } else {
      j := n;
    }
  }

  lemma {:induction false} ClockRuns(d: Network, ops: seq<Known>, w: World, acts: seq<Action>, j: nat)
    requires AllPossible(d, acts) && j <= |acts|
    ensures After(d, ops, w, acts[..j]).now <= After(d, ops, w, acts).now
  {
    if j < |acts| {
      var n := |acts| - 1;
      ClockRuns(d, ops, w, acts[..n], j);
      assert acts[..n][..j] == acts[..j];
    } else {
      assert acts[..j] == acts;
    }
  }

  /** Every listing is the chain's own state now or at a moment less than ten seconds ago. */
  lemma ListingIsRecent(d: Network, ops: seq<Known>, w: World, acts: seq<Action>) returns (j: nat, at: nat)
    requires AllPossible(d, acts) && w.cache == None
    requires ListOperators(d, ops, After(d, ops, w, acts)).records.Some?
    ensures Fetched(d, ops, w, acts, j, at, ListOperators(d, ops, After(d, ops, w, acts)).records.value)
    ensures at <= After(d, ops, w, acts).now < at + 10_000
  {
    var now := After(d, ops, w, acts);
    if now.cache.Some? && now.cache.value.expiresAt > now.now {
      j := CacheWasFetched(d, ops, w, acts);
      at := now.cache.value.expiresAt - CACHE_TTL_MS;
      ClockRuns(d, ops, w, acts, j);
    } else {
      j, at := |acts|, now.now;
      assert acts[..j] == acts;
    }
  }

  /** And it may be almost that old: whatever the chain does, a lookup within ten seconds of a fetch
      returns what was fetched. */
  lemma ServedFromCache(d: Network, ops: seq<Known>, w: World, later: Chain, ms: nat)
    requires !(w.cache.Some? && w.cache.value.expiresAt > w.now) && FetchAll(d, w.chain.resolver, ops).Some?
    ensures
      var next := World(later, ListOperators(d, ops, w).cache, w.now + ms);
      ms < 10_000 ==> ListOperators(d, ops, next).records == FetchAll(d, w.chain.resolver, ops)
  {}

  // ---------------------------------------------------------------- complete listings

  function RecordAt(d: Network, r: Resolver, known: Known): Option<Record> {
    ReadCapabilityRecord(d, r, known.name, known.operationalKey)
  }

  /** A fetch succeeds exactly when every known operator's record reads, and then holds them all in order. */
  lemma {:induction false} FetchAllIff(d: Network, r: Resolver, ops: seq<Known>)
    ensures FetchAll(d, r, ops).Some? <==> forall i :: 0 <= i < |ops| ==> RecordAt(d, r, ops[i]).Some?
    ensures FetchAll(d, r, ops).Some? ==> |FetchAll(d, r, ops).value| == |ops|
    ensures FetchAll(d, r, ops).Some? ==>
      forall i :: 0 <= i < |ops| ==> RecordAt(d, r, ops[i]) == Some(FetchAll(d, r, ops).value[i])
  {
    if ops != [] {
      FetchAllIff(d, r, ops[1..]);
      assert forall i :: 0 <= i < |ops| - 1 ==> ops[1..][i] == ops[i + 1];
      assert forall i :: 1 <= i < |ops| ==> ops[i] == ops[1..][i - 1];
    }
  }

  /** The stored tiers list the tier. */
  predicate Offers(r: Resolver, name: string, tier: Tier) {
    var tiers := TierList.Parse(r.TextAt(NodeOf(name), TiersSupported));
    tiers.Some? && tier in tiers.value
  }

  /** In every run over a fleet, whatever is fetched from all known operators: one of the fleet is eligible
      exactly when it is not revoked and its stored tiers list the tier. */
  lemma FetchedIsEligibleIff(
    d: Network, ps: seq<Params>, refreshed: set<Node>, steps: seq<Step>, ops: seq<Known>, i: nat, k: nat, tier: Tier)
    requires Apart(d) && Fleet(d, ps) && AllExternal(d, steps) && i < |ps| && k < |ops| && ops[k].name == ps[i].name
    requires FetchAll(d, RegistryRuns.Run(d, Start(d, ps, refreshed), steps).resolver, ops).Some?
    ensures
      var c := RegistryRuns.Run(d, Start(d, ps, refreshed), steps);
      ps[i].name in Eligible(FetchAll(d, c.resolver, ops).value, tier)
      <==> c.Status(NodeOf(ps[i].name)) != REVOKED && Offers(c.resolver, ps[i].name, tier)
  {
    var c := RegistryRuns.Run(d, Start(d, ps, refreshed), steps);
    FleetIsSafe(d, ps, refreshed, steps, i);
    FetchAllIff(d, c.resolver, ops);
    var records := FetchAll(d, c.resolver, ops).value;
    assert RecordAt(d, c.resolver, ops[k]) == Some(records[k]);
    EligibleIff(records, tier, ps[i].name);
    forall j | 0 <= j < |records| && records[j].operator == ps[i].name
      ensures records[j].status == records[k].status && records[j].tiers == records[k].tiers
    {
      assert RecordAt(d, c.resolver, ops[j]) == Some(records[j]);
    }
  }

  /** Eligible relays keep the order of the listing: the first is the first record that qualifies. */
  lemma {:induction false} FirstEligible(records: seq<Record>, tier: Tier)
    ensures Eligible(records, tier) != [] ==>
      exists i ::
        && 0 <= i < |records| && Qualifies(records[i], tier) && Eligible(records, tier)[0] == records[i].operator
        && Eligible(records, tier)[1..] == Eligible(records[i + 1..], tier)
        && forall j :: 0 <= j < i ==> !Qualifies(records[j], tier)
    ensures Eligible(records, tier) == [] <==> forall i :: 0 <= i < |records| ==> !Qualifies(records[i], tier)
  {
    if records != [] && !Qualifies(records[0], tier) {
      FirstEligible(records[1..], tier);
      assert forall i :: 0 <= i < |records| - 1 ==> records[1..][i] == records[i + 1];
      assert forall i :: 1 <= i < |records| ==> records[i] == records[1..][i - 1];
      if Eligible(records, tier) != [] {
        var i :| 0 <= i < |records| - 1 && Qualifies(records[1..][i], tier)
          && Eligible(records, tier)[0] == records[1..][i].operator
          && Eligible(records, tier)[1..] == Eligible(records[1..][i + 1..], tier)
          && forall j :: 0 <= j < i ==> !Qualifies(records[1..][j], tier);
        assert records[1..][i + 1..] == records[i + 2..];
        assert Qualifies(records[i + 1], tier);
      }
    }
  }

  predicate Qualifies(record: Record, tier: Tier) { record.status == Active && tier in record.tiers }

  // ---------------------------------------------------------------- revoked relays

  lemma {:induction false} ChainKeeps(d: Network, ops: seq<Known>, w: World, acts: seq<Action>, j: nat, node: Node)
    requires Apart(d) && Guarded(d, w.chain.resolver.grants) && AllPossible(d, acts) && j <= |acts|
    ensures After(d, ops, w, acts).chain.resolver.grants == w.chain.resolver.grants
    ensures Keeps(After(d, ops, w, acts[..j]).chain, After(d, ops, w, acts).chain, node)
    decreases |acts|
  {
    if acts == [] || j == |acts| {
      assert acts[..j] == acts;
      if acts != [] { ChainKeeps(d, ops, w, acts[..j - 1], 0, node); LastKeeps(d, ops, w, acts, node); }
    } else {
      var n := |acts| - 1;
      ChainKeeps(d, ops, w, acts[..n], j, node);
      assert acts[..n][..j] == acts[..j];
      LastKeeps(d, ops, w, acts, node);
    }
  }

  lemma LastKeeps(d: Network, ops: seq<Known>, w: World, acts: seq<Action>, node: Node)
    requires Apart(d) && Guarded(d, w.chain.resolver.grants) && AllPossible(d, acts) && acts != []
    requires After(d, ops, w, acts[..|acts| - 1]).chain.resolver.grants == w.chain.resolver.grants
    ensures After(d, ops, w, acts).chain.resolver.grants == w.chain.resolver.grants
    ensures Keeps(After(d, ops, w, acts[..|acts| - 1]).chain, After(d, ops, w, acts).chain, node)
  {
    var n := |acts| - 1;
    if acts[n].OnChain? { StepKeeps(d, After(d, ops, w, acts[..n]).chain, acts[n].step, node); }
  }

  lemma {:induction false} RevokedIsNotEligible(d: Network, r: Resolver, ops: seq<Known>, name: string, tier: Tier)
    requires r.DataAt(NodeOf(name), Status) == REVOKED && FetchAll(d, r, ops).Some?
    ensures name !in Eligible(FetchAll(d, r, ops).value, tier)
  {
    if ops != [] {
      RevokedIsNotEligible(d, r, ops[1..], name, tier);
      var records := FetchAll(d, r, ops).value;
      assert records[1..] == FetchAll(d, r, ops[1..]).value;
    }
  }

  /** A relay revoked at some moment is in no listing's eligible relays from ten seconds later on. */
  lemma RevokedNeverListed(d: Network, ops: seq<Known>, w: World, acts: seq<Action>, t: nat, name: string, tier: Tier)
    requires Apart(d) && Guarded(d, w.chain.resolver.grants) && AllPossible(d, acts) && w.cache == None && t <= |acts|
    requires After(d, ops, w, acts[..t]).chain.Status(NodeOf(name)) == REVOKED
    requires After(d, ops, w, acts).now >= After(d, ops, w, acts[..t]).now + CACHE_TTL_MS
    requires ListOperators(d, ops, After(d, ops, w, acts)).records.Some?
    ensures name !in Eligible(ListOperators(d, ops, After(d, ops, w, acts)).records.value, tier)
  {
    var j, at := ListingIsRecent(d, ops, w, acts);
    if j < t {
      assert acts[..t][..j] == acts[..j];
      ClockRuns(d, ops, w, acts[..t], j);
    } else {
      assert acts[..j][..t] == acts[..t];
      ChainKeeps(d, ops, w, acts[..j], t, NodeOf(name));
      RevokedIsNotEligible(d, After(d, ops, w, acts[..j]).chain.resolver, ops, name, tier);
    }
  }

  /** So no purchase, which takes the first eligible relay, and no failover, which takes the first other
      than the failed one, is assigned a relay revoked ten seconds or more before its lookup. */
  lemma RevokedNeverAssigned(
    d: Network, ps: seq<Params>, refreshed: set<Node>, ops: seq<Known>, start: nat, acts: seq<Action>, t: nat,
    name: string, tier: Tier, failed: SessionLog.RelayName)
    requires Apart(d) && Fleet(d, ps) && AllPossible(d, acts) && t <= |acts|
    requires
      var w := World(Start(d, ps, refreshed), None, start);
      After(d, ops, w, acts[..t]).chain.Status(NodeOf(name)) == REVOKED
      && After(d, ops, w, acts).now >= After(d, ops, w, acts[..t]).now + CACHE_TTL_MS
      && ListOperators(d, ops, After(d, ops, w, acts)).records.Some?
    ensures
      var w := World(Start(d, ps, refreshed), None, start);
      var eligible := Eligible(ListOperators(d, ops, After(d, ops, w, acts)).records.value, tier);
      (eligible != [] ==> eligible[0] != name)
      && (Handlers.Pick(eligible, failed).Some? ==> Handlers.Pick(eligible, failed).value != name)
  {
    StartIsAllowed(d, ps, refreshed);
    var w := World(Start(d, ps, refreshed), None, start);
    RevokedNeverListed(d, ops, w, acts, t, name, tier);
    Handlers.PickDiffers(Eligible(ListOperators(d, ops, After(d, ops, w, acts)).records.value, tier), failed);
  }

  // ---------------------------------------------------------------- in place

  /** The module-level cache variable and the function that updates it. */
  class OperatorList {
    const network: Network
    const known: seq<Known>
    var cache: Option<Cache>

    constructor (network: Network, known: seq<Known>)
      ensures cache == None && this.network == network && this.known == known
    {
      this.network, this.known, cache := network, known, None;
    }

    /** `chain` is what the reads see, `now` the clock. */
    method List(chain: Chain, now: nat) returns (records: Option<seq<Record>>)
      modifies this
      ensures Listing(cache, records) == ListOperators(network, known, World(chain, old(cache), now))
    {
      if cache.Some? && cache.value.expiresAt > now { return Some(cache.value.records); }
      records := FetchAll(network, chain.resolver, known);
      if records.Some? { cache := Some(Cache(records.value, now + CACHE_TTL_MS)); }
    }
  }
}
