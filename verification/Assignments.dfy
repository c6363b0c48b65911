/** Registry, cache and handlers together: every purchase and every failover looks its relay up through the
    cached listing of its moment, and the rows it writes name that relay. */
module Assignments {
  import opened Optional
  import opened SessionLog
  import Directory
  import Escrow
  import Handlers
  import Registry
  import RegistryRuns

  /** `looked` is each process's last lookup, `stamps` for each row that of the process that wrote it. */
  datatype System = System(
    directory: Directory.World, handlers: Handlers.World, looked: seq<nat>, stamps: seq<nat>)

  datatype Action = Outside(action: Directory.Action) | Handle(event: Handlers.Event)

  /** The tier of the lookup an event makes: a valid purchase at its start, a failover when it chooses. */
  function LooksFor(h: Handlers.World, e: Handlers.Event): Option<Escrow.Tier> {
    match e
    case BeginPurchase(tier, hours, _, _) => if 1 <= hours <= Handlers.MAX_SESSION_HOURS then Some(tier) else None
    case Resume(pid, _) => if pid < |h.procs| && h.procs[pid].Choosing? then Some(h.procs[pid].tier) else None
    case _ => None
  }

  function WithEligible(e: Handlers.Event, eligible: seq<RelayName>): Handlers.Event {
    match e
    case BeginPurchase(_, _, _, _) => e.(eligible := eligible)
    case Resume(_, answer) => e.(answer := answer.(eligible := eligible))
    case _ => e
  }

  function Stamp(looked: seq<nat>, pid: nat): nat { if pid < |looked| then looked[pid] else 0 }

  function Looked(s: System, e: Handlers.Event): seq<nat> {
    var now := s.directory.now;
    match e
    case Resume(pid, _) => if LooksFor(s.handlers, e).Some? && pid < |s.looked| then s.looked[pid := now] else s.looked
    case Restart => s.looked
    case _ => s.looked + [now]
  }

  function Handled(s: System, e: Handlers.Event): System {
    var h, looked := Handlers.Apply(s.handlers, e), Looked(s, e);
    var stamps := if |h.log| > |s.handlers.log| && e.Resume? then s.stamps + [Stamp(looked, e.pid)] else s.stamps;
    System(s.directory, h, looked, stamps)
  }

  /** A listing that throws ends the request. */
  function Failed(s: System, e: Handlers.Event): System {
    if e.Resume? && e.pid < |s.handlers.procs| then
      s.(handlers := s.handlers.(procs := s.handlers.procs[e.pid := Handlers.Finished(Handlers.Killed)]))
    else s
  }

  predicate Possible(d: Registry.Network, x: Action) { x.Outside? ==> Directory.Possible(d, x.action) }

  predicate AllPossible(d: Registry.Network, xs: seq<Action>) { forall i :: 0 <= i < |xs| ==> Possible(d, xs[i]) }

  function Listed(d: Registry.Network, ops: seq<Directory.Known>, s: System): Option<seq<Registry.Record>> {
    Directory.ListOperators(d, ops, s.directory).records
  }

  function Act(d: Registry.Network, ops: seq<Directory.Known>, s: System, x: Action): System
    requires Possible(d, x)
  {
    match x
    case Outside(a) => s.(directory := Directory.Next(d, ops, s.directory, a))
    case Handle(e) =>
      var tier := LooksFor(s.handlers, e);
      if e.Restart? then Handled(s.(directory := Directory.Next(d, ops, s.directory, Directory.Forget)), e)
      else if tier.None? then Handled(s, e)
      else
        var next := s.(directory := Directory.Next(d, ops, s.directory, Directory.Lookup));
        if Listed(d, ops, s).None? then Failed(next, e)
        else Handled(next, WithEligible(e, Directory.Eligible(Listed(d, ops, s).value, tier.value)))
  }

  function Start(d: Registry.Network, ps: seq<Registry.Params>, refreshed: set<Registry.Node>, now: nat): System
    requires forall p :: p in ps ==> Registry.Buildable(p)
  {
    System(Directory.World(RegistryRuns.Start(d, ps, refreshed), None, now), Handlers.START, [], [])
  }

  function Course(d: Registry.Network, ops: seq<Directory.Known>, s: System, xs: seq<Action>): System
    requires AllPossible(d, xs)
  {
    if xs == [] then s else Act(d, ops, Course(d, ops, s, xs[..|xs| - 1]), xs[|xs| - 1])
  }

  // ---------------------------------------------------------------- the directory's part of a course

  /** What an action is to the directory. */
  function Seen(s: System, x: Action): seq<Directory.Action> {
    match x
    case Outside(a) => [a]
    case Handle(e) =>
      if e.Restart? then [Directory.Forget] else if LooksFor(s.handlers, e).Some? then [Directory.Lookup] else []
  }

  function AllSeen(d: Registry.Network, ops: seq<Directory.Known>, s: System, xs: seq<Action>): seq<Directory.Action>
    requires AllPossible(d, xs)
  {
    if xs == [] then []
    else
      var n := |xs| - 1;
      AllSeen(d, ops, s, xs[..n]) + Seen(Course(d, ops, s, xs[..n]), xs[n])
  }

  lemma {:induction false} DirectoryFollows(d: Registry.Network, ops: seq<Directory.Known>, s: System, xs: seq<Action>)
    requires AllPossible(d, xs)
    ensures Directory.AllPossible(d, AllSeen(d, ops, s, xs))
    ensures Course(d, ops, s, xs).directory == Directory.After(d, ops, s.directory, AllSeen(d, ops, s, xs))
  {
    if xs != [] {
      var n := |xs| - 1;
      DirectoryFollows(d, ops, s, xs[..n]);
      var acts, seen := AllSeen(d, ops, s, xs[..n]), Seen(Course(d, ops, s, xs[..n]), xs[n]);
      if seen == [] {
        assert acts + seen == acts;
      } else {
        assert (acts + seen)[..|acts|] == acts && |acts + seen| == |acts| + 1;
      }
    }
  }

  lemma {:induction false} SeenSoFar(d: Registry.Network, ops: seq<Directory.Known>, s: System, xs: seq<Action>, t: nat)
    requires AllPossible(d, xs) && t <= |xs|
    ensures AllSeen(d, ops, s, xs[..t]) <= AllSeen(d, ops, s, xs)
    decreases |xs|
  {
    if t < |xs| {
      var n := |xs| - 1;
      assert xs[..n][..t] == xs[..t];
      SeenSoFar(d, ops, s, xs[..n], t);
    } else {
      assert xs[..t] == xs;
    }
  }

  // ---------------------------------------------------------------- what a lookup decides

  /** The relay a process has been given. */
  function Assigned(p: Handlers.Process): Option<RelayName> {
    match p
    case Verifying(_, _, _, relay) => Some(relay)
    case Opening(_, _, relay, _, _) => Some(relay)
    case Reopening(_, _, _, _, next) => Some(next)
    case Reactivating(_, _, _, _, next) => Some(next)
    case _ => None
  }

  /** The rows that put a session on a relay. */
  predicate Assigns(row: Row) { row.toState in {PAID, TOKEN_ISSUED, TUNNEL_OPEN, ACTIVE} }

  predicate InStep(s: System) {
    && |s.looked| == |s.handlers.procs| && |s.stamps| == |s.handlers.log|
    && (forall i :: 0 <= i < |s.looked| ==> s.looked[i] <= s.directory.now)
    && forall i :: 0 <= i < |s.stamps| ==> s.stamps[i] <= s.directory.now
  }

  /** No process and no assigning row whose lookup was at `limit` or later has this relay. */
  predicate Avoids(s: System, name: string, limit: nat)
    requires InStep(s)
  {
    && (forall i :: 0 <= i < |s.looked| && s.looked[i] >= limit ==> Assigned(s.handlers.procs[i]) != Some(name))
    && forall i :: 0 <= i < |s.stamps| && s.stamps[i] >= limit && Assigns(s.handlers.log[i]) ==>
         s.handlers.log[i].relay != Some(name)
  }

  lemma StepAssigns(log: seq<Row>, used: set<Handlers.TxHash>, p: Handlers.Process, a: Handlers.Answer)
    ensures
      var f := Handlers.Step(log, used, p, a);
      && (f.log == log
          || (f.log == log + [f.log[|log|]] && (Assigns(f.log[|log|]) ==> f.log[|log|].relay == Assigned(p))))
      && (!p.Choosing? && Assigned(f.proc).Some? ==> Assigned(f.proc) == Assigned(p))
      && (p.Choosing? && Assigned(f.proc).Some? ==> Assigned(f.proc).value in a.eligible)
  {
    if p.Choosing? { Handlers.PickDiffers(a.eligible, p.failed); }
  }

  lemma ResumeAvoids(s: System, e: Handlers.Event, name: string, limit: nat)
    requires InStep(s) && Avoids(s, name, limit) && e.Resume?
    requires LooksFor(s.handlers, e).Some? && s.directory.now >= limit ==> name !in e.answer.eligible
    ensures InStep(Handled(s, e)) && Avoids(Handled(s, e), name, limit)
  {
    if e.pid < |s.handlers.procs| {
      var p, h := s.handlers.procs[e.pid], s.handlers;
      StepAssigns(h.log, h.used, p, e.answer);
    }
  }

  lemma OtherAvoids(s: System, e: Handlers.Event, name: string, limit: nat)
    requires InStep(s) && Avoids(s, name, limit) && !e.Resume?
    requires e.BeginPurchase? && LooksFor(s.handlers, e).Some? && s.directory.now >= limit ==> name !in e.eligible
    ensures InStep(Handled(s, e)) && Avoids(Handled(s, e), name, limit)
  {}

  lemma FailedAvoids(s: System, e: Handlers.Event, name: string, limit: nat)
    requires InStep(s) && Avoids(s, name, limit)
    ensures InStep(Failed(s, e)) && Avoids(Failed(s, e), name, limit)
  {}

  lemma ActAvoids(d: Registry.Network, ops: seq<Directory.Known>, s: System, x: Action, name: string, limit: nat)
    requires Possible(d, x) && InStep(s) && Avoids(s, name, limit)
    requires s.directory.now >= limit && Listed(d, ops, s).Some? ==>
      forall tier :: name !in Directory.Eligible(Listed(d, ops, s).value, tier)
    ensures InStep(Act(d, ops, s, x)) && Avoids(Act(d, ops, s, x), name, limit)
  {
    if x.Handle? {
      var e, tier := x.event, LooksFor(s.handlers, x.event);
      if tier.None? {
        var next := if e.Restart? then s.(directory := Directory.Next(d, ops, s.directory, Directory.Forget)) else s;
        if e.Resume? { ResumeAvoids(next, e, name, limit); } else { OtherAvoids(next, e, name, limit); }
      } else {
        var next := s.(directory := Directory.Next(d, ops, s.directory, Directory.Lookup));
        if Listed(d, ops, s).None? {
          FailedAvoids(next, e, name, limit);
        } else {
          var e' := WithEligible(e, Directory.Eligible(Listed(d, ops, s).value, tier.value));
          if e.Resume? { ResumeAvoids(next, e', name, limit); } else { OtherAvoids(next, e', name, limit); }
        }
      }
    }
  }

  // ---------------------------------------------------------------- revoked relays

  /** In every course from a registered fleet on: if a relay is revoked after the first `t` actions, no listing
      ten seconds or more later has it. */
  lemma RevokedNeverListed(
    d: Registry.Network, ps: seq<Registry.Params>, refreshed: set<Registry.Node>, ops: seq<Directory.Known>, start: nat,
    xs: seq<Action>, t: nat, name: string, tier: Escrow.Tier)
    requires RegistryRuns.Apart(d) && RegistryRuns.Fleet(d, ps) && AllPossible(d, xs) && t <= |xs|
    requires
      var s := Start(d, ps, refreshed, start);
      Course(d, ops, s, xs[..t]).directory.chain.Status(Registry.NodeOf(name)) == Registry.REVOKED
      && Course(d, ops, s, xs).directory.now >= Course(d, ops, s, xs[..t]).directory.now + Directory.CACHE_TTL_MS
      && Listed(d, ops, Course(d, ops, s, xs)).Some?
    ensures
      var s := Start(d, ps, refreshed, start);
      name !in Directory.Eligible(Listed(d, ops, Course(d, ops, s, xs)).value, tier)
  {
    var s := Start(d, ps, refreshed, start);
    var acts, before := AllSeen(d, ops, s, xs), AllSeen(d, ops, s, xs[..t]);
    DirectoryFollows(d, ops, s, xs);
    DirectoryFollows(d, ops, s, xs[..t]);
    SeenSoFar(d, ops, s, xs, t);
    assert acts[..|before|] == before;
    RegistryRuns.StartIsAllowed(d, ps, refreshed);
    Directory.RevokedNeverListed(d, ops, s.directory, acts, |before|, name, tier);
  }

  /** Once ten seconds have passed since the revocation, no lookup makes the relay eligible for any tier. */
  lemma LookupsAvoid(
    d: Registry.Network, ps: seq<Registry.Params>, refreshed: set<Registry.Node>, ops: seq<Directory.Known>, start: nat,
    xs: seq<Action>, t: nat, name: string)
    requires RegistryRuns.Apart(d) && RegistryRuns.Fleet(d, ps) && AllPossible(d, xs) && t <= |xs|
    requires
      var s := Start(d, ps, refreshed, start);
      Course(d, ops, s, xs[..t]).directory.chain.Status(Registry.NodeOf(name)) == Registry.REVOKED
    ensures
      var s := Start(d, ps, refreshed, start);
      var end, limit := Course(d, ops, s, xs), Course(d, ops, s, xs[..t]).directory.now + Directory.CACHE_TTL_MS;
      end.directory.now >= limit && Listed(d, ops, end).Some? ==>
        forall tier :: name !in Directory.Eligible(Listed(d, ops, end).value, tier)
  {
    var s := Start(d, ps, refreshed, start);
    var end, limit := Course(d, ops, s, xs), Course(d, ops, s, xs[..t]).directory.now + Directory.CACHE_TTL_MS;
    if end.directory.now >= limit && Listed(d, ops, end).Some? {
      forall tier ensures name !in Directory.Eligible(Listed(d, ops, end).value, tier) {
        RevokedNeverListed(d, ps, refreshed, ops, start, xs, t, name, tier);
      }
    }
  }

  lemma {:induction false} CourseInStep(d: Registry.Network, ops: seq<Directory.Known>, s: System, xs: seq<Action>)
    requires AllPossible(d, xs) && InStep(s)
    ensures InStep(Course(d, ops, s, xs)) && Course(d, ops, s, xs).directory.now >= s.directory.now
  {
    if xs != [] {
      var n := |xs| - 1;
      var before := Course(d, ops, s, xs[..n]);
      CourseInStep(d, ops, s, xs[..n]);
      var limit := before.directory.now + 1;
      assert Avoids(before, "", limit);
      ActAvoids(d, ops, before, xs[n], "", limit);
    }
  }

  /** Nothing has been looked up later than now. */
  lemma AvoidsAtFirst(d: Registry.Network, ops: seq<Directory.Known>, s: System, xs: seq<Action>, name: string)
    requires AllPossible(d, xs) && InStep(s)
    ensures
      var end := Course(d, ops, s, xs);
      InStep(end) && Avoids(end, name, end.directory.now + Directory.CACHE_TTL_MS)
  {
    CourseInStep(d, ops, s, xs);
  }

  lemma CourseAvoids(
    d: Registry.Network, ops: seq<Directory.Known>, s: System, xs: seq<Action>, name: string, limit: nat)
    requires AllPossible(d, xs) && xs != []
    requires
      var before := Course(d, ops, s, xs[..|xs| - 1]);
      && InStep(before) && Avoids(before, name, limit)
      && (before.directory.now >= limit && Listed(d, ops, before).Some? ==>
            forall tier :: name !in Directory.Eligible(Listed(d, ops, before).value, tier))
    ensures InStep(Course(d, ops, s, xs)) && Avoids(Course(d, ops, s, xs), name, limit)
  {
    var n := |xs| - 1;
    ActAvoids(d, ops, Course(d, ops, s, xs[..n]), xs[n], name, limit);
  }

  lemma {:induction false} AvoidsFromThenOn(
    d: Registry.Network, ps: seq<Registry.Params>, refreshed: set<Registry.Node>, ops: seq<Directory.Known>, start: nat,
    zs: seq<Action>, xs: seq<Action>, name: string)
    requires RegistryRuns.Apart(d) && RegistryRuns.Fleet(d, ps) && zs <= xs && AllPossible(d, zs) && AllPossible(d, xs)
    requires
      Course(d, ops, Start(d, ps, refreshed, start), zs).directory.chain.Status(Registry.NodeOf(name))
      == Registry.REVOKED
    ensures
      var s := Start(d, ps, refreshed, start);
      var end, revoked := Course(d, ops, s, xs), Course(d, ops, s, zs).directory.now;
      InStep(end) && Avoids(end, name, revoked + Directory.CACHE_TTL_MS)
    decreases |xs|
  {
    var s := Start(d, ps, refreshed, start);
    if |zs| == |xs| {
      assert zs == xs;
      AvoidsAtFirst(d, ops, s, xs, name);
    } else {
      var n := |xs| - 1;
      var limit := Course(d, ops, s, zs).directory.now + Directory.CACHE_TTL_MS;
      AvoidsFromThenOn(d, ps, refreshed, ops, start, zs, xs[..n], name);
      assert xs[..n][..|zs|] == zs;
      LookupsAvoid(d, ps, refreshed, ops, start, xs[..n], |zs|, name);
      CourseAvoids(d, ops, s, xs, name, limit);
    }
  }

  /** In every course from a registered fleet on: if a relay is revoked after the first `t` actions, then no row
      that puts a session on a relay, and no process on its way to write one, has it from a lookup made ten
      seconds or more after that. */
  lemma RevokedNeverAssigned(
    d: Registry.Network, ps: seq<Registry.Params>, refreshed: set<Registry.Node>, ops: seq<Directory.Known>, start: nat,
    xs: seq<Action>, t: nat, name: string)
    requires RegistryRuns.Apart(d) && RegistryRuns.Fleet(d, ps) && AllPossible(d, xs) && t <= |xs|
    requires
      var s := Start(d, ps, refreshed, start);
      Course(d, ops, s, xs[..t]).directory.chain.Status(Registry.NodeOf(name)) == Registry.REVOKED
    ensures
      var s := Start(d, ps, refreshed, start);
      var end, revoked := Course(d, ops, s, xs), Course(d, ops, s, xs[..t]).directory.now;
      InStep(end) && Avoids(end, name, revoked + Directory.CACHE_TTL_MS)
  {
    AvoidsFromThenOn(d, ps, refreshed, ops, start, xs[..t], xs, name);
  }

  // ---------------------------------------------------------------- what is looked up is used

  lemma OneMoreAction(d: Registry.Network, ops: seq<Directory.Known>, s: System, xs: seq<Action>, x: Action)
    requires AllPossible(d, xs) && Possible(d, x)
    ensures AllPossible(d, xs + [x]) && Course(d, ops, s, xs + [x]) == Act(d, ops, Course(d, ops, s, xs), x)
  {
    assert (xs + [x])[..|xs|] == xs;
  }

  /** In every course a valid purchase request gets the first relay eligible by the listing of its moment, and a
      choosing failover the first of them other than the one that failed, or is told that there is none. */
  lemma LookupsAreUsed(
    d: Registry.Network, ops: seq<Directory.Known>, s: System, xs: seq<Action>, tier: Escrow.Tier, hours: nat,
    tx: Handlers.TxHash, pid: nat, answer: Handlers.Answer)
    requires AllPossible(d, xs) && Listed(d, ops, Course(d, ops, s, xs)).Some? && 1 <= hours <= 24
    ensures
      var c := Course(d, ops, s, xs);
      var eligible := Directory.Eligible(Listed(d, ops, c).value, tier);
      var begin := Handle(Handlers.BeginPurchase(tier, hours, Some(tx), []));
      eligible != [] && tx !in c.handlers.used ==>
        AllPossible(d, xs + [begin])
        && Course(d, ops, s, xs + [begin]).handlers.procs
           == c.handlers.procs + [Handlers.Verifying(tier, hours, tx, eligible[0])]
    ensures
      var c := Course(d, ops, s, xs);
      var resume := Handle(Handlers.Resume(pid, answer));
      pid < |c.handlers.procs| && c.handlers.procs[pid].Choosing? ==>
        var p := c.handlers.procs[pid];
        var next := Handlers.Pick(Directory.Eligible(Listed(d, ops, c).value, p.tier), p.failed);
        AllPossible(d, xs + [resume])
        && Course(d, ops, s, xs + [resume]).handlers.procs
           == c.handlers.procs[pid := if next.None? then Handlers.Finished(Handlers.NoOtherRelay)
                                      else Handlers.Reopening(p.sid, p.tier, p.failed, p.dropped, next.value)]
  {
    OneMoreAction(d, ops, s, xs, Handle(Handlers.BeginPurchase(tier, hours, Some(tx), [])));
    OneMoreAction(d, ops, s, xs, Handle(Handlers.Resume(pid, answer)));
  }
}
