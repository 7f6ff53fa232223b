/** The unified topology: the servers it talks to follow its description of the deployment (topology.js). */
module Cluster {
  import opened Bytes
  import opened Sdam
  import opened SdamProofs
  import opened SdamEffects
  import opened SdamFailures
  import opened Selection
  import opened TopologyUpdate

  /** `description` and `servers` of a topology's state; of a server only its last description matters. */
  datatype State = State(description: Topology, servers: Servers)

  const NO_SERVERS := Servers([], map[])

  /** connectServers: a server for every description. */
  function ConnectAll(s: Servers, ds: seq<ServerDescription>): Servers
    decreases |ds|
  {
    if ds == [] then s else ConnectAll(s.Set(ds[0].address, ds[0]), ds[1..])
  }

  function Connected(t: Topology): State
    requires t.servers.Ok()
  {
    State(t, ConnectAll(NO_SERVERS, Values(t.servers)))
  }

  function AddMissing(s: Servers, ds: seq<ServerDescription>): Servers
    decreases |ds|
  {
    if ds == [] then s else
    AddMissing(if ds[0].address in s.at then s else s.Set(ds[0].address, ds[0]), ds[1..])
  }

  /** updateServers: the answering server's description, then the new servers, then the servers gone. */
  function Tracked(s: Servers, t: Topology, incoming: ServerDescription): Servers
    requires t.servers.Ok()
  {
    var s1 := if incoming.address in s.at then s.Set(incoming.address, incoming) else s;
    var s2 := AddMissing(s1, Values(t.servers));
    DeleteAll(s2, NotIn(s2.order, t.servers.order))
  }

  /** serverUpdateHandler; None stands for an exception out of `update`. */
  function Handled(c: State, d: ServerDescription): Option<State>
    requires c.description.servers.Ok()
  {
    if d.address !in c.description.servers.at then Some(c) else
    var t :- Updated(c.description, d);
    UpdatedOk(c.description, d);
    Some(State(t, if t.compatible then Tracked(c.servers, t, d) else c.servers))
  }

  lemma UpdatedOk(t: Topology, d: ServerDescription)
    requires t.servers.Ok()
    ensures Updated(t, d).Some? ==> Updated(t, d).value.servers.Ok()
  {
    hide AfterNoPrimary, AfterWithPrimary;
    SetOk(t.servers, d.address, d);
    var t0 := Stored(t, d);
    DeleteOk(t0.servers, d.address);
    DeleteOk(AfterUnknown(t0, d).servers, d.address);
    var t2 := AfterSharded(AfterUnknown(t0, d), d);
    NoPrimaryOk(t2, d);
    WithPrimaryOk(AfterNoPrimary(t2, d), d);
  }

  // ---------- the tables coincide ----------

  predicate SameKeys(s: Servers, t: Servers) {
    s.at.Keys == t.at.Keys
  }

  lemma {:induction false} AddMissingExact(s: Servers, ds: seq<ServerDescription>)
    requires s.Keyed()
    ensures var r := AddMissing(s, ds);
      && r.Keyed()
      && (forall a :: a in r.at <==> a in s.at || exists d <- ds :: d.address == a)
      && (forall a <- s.at :: r.at[a] == s.at[a])
    decreases |ds|
  {
    if ds == [] {
    } else {
      assert ds == [ds[0]] + ds[1..];
      SetOk(s, ds[0].address, ds[0]);
      AddMissingExact(if ds[0].address in s.at then s else s.Set(ds[0].address, ds[0]), ds[1..]);
    }
  }

  lemma {:induction false} ConnectAllExact(s: Servers, ds: seq<ServerDescription>)
    requires s.Keyed()
    ensures var r := ConnectAll(s, ds);
      r.Keyed() && forall a :: a in r.at <==> a in s.at || exists d <- ds :: d.address == a
    decreases |ds|
  {
    if ds == [] {
    } else {
      assert ds == [ds[0]] + ds[1..];
      SetOk(s, ds[0].address, ds[0]);
      ConnectAllExact(s.Set(ds[0].address, ds[0]), ds[1..]);
    }
  }

  lemma ValuesCover(t: Servers)
    requires t.Keyed()
    ensures forall a :: a in t.at <==> exists d <- Values(t) :: d.address == a
    ensures forall d <- Values(t) :: d.address in t.at && t.at[d.address] == d
  {
    forall a | a in t.at ensures exists d <- Values(t) :: d.address == a {
      assert a in t.order;
      var i :| 0 <= i < |t.order| && t.order[i] == a;
      assert Values(t)[i] in Values(t);
    }
  }

  /**
   * After an update there is a server for every described address and no other; the answering server holds the answer,
   * and every server that stays is left alone.
   */
  lemma TrackedExact(s: Servers, t: Topology, incoming: ServerDescription)
    requires s.Keyed() && t.servers.Keyed()
    ensures var r := Tracked(s, t, incoming);
      && r.Keyed() && SameKeys(r, t.servers)
      && forall a <- r.at | a in s.at :: r.at[a] == if a == incoming.address then incoming else s.at[a]
  {
    var s1 := if incoming.address in s.at then s.Set(incoming.address, incoming) else s;
    SetOk(s, incoming.address, incoming);
    var s2 := AddMissing(s1, Values(t.servers));
    AddMissingExact(s1, Values(t.servers));
    ValuesCover(t.servers);
    DeleteAllOk(s2, NotIn(s2.order, t.servers.order));
  }

  // ---------- every run ----------

  ghost predicate Described(t: Topology) {
    Inv(t) || (t.kind == Single && t.servers.Keyed())
  }

  /** A seed list of any of the three starting types. */
  ghost predicate Seeded(t: Topology) {
    Initial(t.(kind := if t.kind == Single then Unknown else t.kind))
  }

  ghost predicate ClusterInv(c: State) {
    && Described(c.description) && c.servers.Keyed()
    && (c.description.compatible ==> SameKeys(c.servers, c.description.servers))
  }

  lemma UpdatedDescribed(t: Topology, d: ServerDescription)
    requires Described(t) && WellTyped(d)
    ensures Updated(t, d).Some? && Described(Updated(t, d).value)
  {
    hide Updated;
    if t.kind == Single {
      SingleStaysSingle(t, d);
    } else {
      UpdatedKeepsInv(t, d);
    }
  }

  lemma SingleStaysSingle(t: Topology, d: ServerDescription)
    requires t.kind == Single && t.servers.Keyed()
    ensures Updated(t, d).Some? && Updated(t, d).value.kind == Single && Updated(t, d).value.servers.Keyed()
  {
    SetKeyed(t.servers, d);
  }

  lemma HandledKeeps(c: State, d: ServerDescription)
    requires ClusterInv(c) && WellTyped(d)
    ensures Handled(c, d).Some? && ClusterInv(Handled(c, d).value)
  {
    hide Updated, Tracked;
    UpdatedDescribed(c.description, d);
    if d.address in c.description.servers.at {
      TrackedExact(c.servers, Updated(c.description, d).value, d);
    }
  }

  ghost function RunHandled(c: Option<State>, ds: seq<ServerDescription>): Option<State> {
    if ds == [] then c else
    var before := RunHandled(c, ds[..|ds| - 1]);
    if before.None? || !before.value.description.servers.Ok() then None else Handled(before.value, ds[|ds| - 1])
  }

  /** From any seed list, whatever the servers answer: nothing is thrown and the invariant holds after each answer. */
  lemma {:induction false} RunsKeepTrack(t: Topology, ds: seq<ServerDescription>)
    requires Seeded(t) && forall d <- ds :: WellTyped(d)
    ensures RunHandled(Some(Connected(t)), ds).Some? && ClusterInv(RunHandled(Some(Connected(t)), ds).value)
    decreases |ds|
  {
    if ds == [] {
      ConnectAllExact(NO_SERVERS, Values(t.servers));
      ValuesCover(t.servers);
    } else {
      hide Handled, ClusterInv, Seeded, Connected;
      RunsKeepTrack(t, ds[..|ds| - 1]);
      HandledKeeps(RunHandled(Some(Connected(t)), ds[..|ds| - 1]).value, ds[|ds| - 1]);
    }
  }

  /**
   * The answer of a described server changes the picture as the update's reference says; the servers follow it unless
   * it is incompatible. The answer of anybody else changes nothing.
   */
  lemma AnswerIsFollowed(c: State, d: ServerDescription)
    requires ClusterInv(c) && WellTyped(d)
    ensures Handled(c, d).Some?
    ensures var t, r := c.description, Handled(c, d).value;
      if d.address !in t.servers.at then r == c
      else
        && (if t.kind == Single then r.description.servers.at == t.servers.at[d.address := d]
            else r.description.kind == TypeBy(t, d) && Holds(r.description.servers, t, d))
        && (if r.description.compatible then
              SameKeys(r.servers, r.description.servers) && (d.address in c.servers.at && d.address in r.servers.at ==>
                r.servers.at[d.address] == d)
            else r.servers == c.servers)
  {
    hide Updated, Tracked, Holds, TypeBy, Inv;
    UpdatedDescribed(c.description, d);
    DescribedKeyed(c.description);
    DescribedKeyed(Updated(c.description, d).value);
    if d.address in c.description.servers.at {
      TrackedExact(c.servers, Updated(c.description, d).value, d);
      if c.description.kind == Single {
        SingleStays(c.description, d);
      } else {
        UpdatedExact(c.description, d);
      }
    }
  }

  lemma DescribedKeyed(t: Topology)
    requires Described(t)
    ensures t.servers.Keyed() && (t.kind != Single ==> Inv(t))
  {
  }

  /** Once no server is described any more nobody is listened to, for good. */
  lemma {:induction false} GivenUpForGood(c: State, ds: seq<ServerDescription>)
    requires c.description.servers.Ok() && c.description.servers.at == map[]
    ensures RunHandled(Some(c), ds) == Some(c)
    decreases |ds|
  {
    if ds == [] {
    } else {
      GivenUpForGood(c, ds[..|ds| - 1]);
    }
  }

  // ---------- selection in every run ----------

  lemma DescribedPrimary(t: Topology)
    requires Inv(t)
    ensures OnePrimary(Values(t.servers))
    ensures t.kind == ReplicaSetWithPrimary <==> exists p <- Values(t.servers) :: IsRSPrimary(p)
  {
    hide Values, Inv;
    InvKeyed(t);
    ValuesCover(t.servers);
    var ds := Values(t.servers);
    forall p, q | p in ds && q in ds && p.kind == RSPrimary && q.kind == RSPrimary ensures p == q {
      SamePrimary(t, p.address, q.address);
    }
    if t.kind == ReplicaSetWithPrimary {
      var a := PrimaryOf(t);
      var d :| d in ds && d.address == a;
      assert IsRSPrimary(d);
    }
    if p :| p in ds && IsRSPrimary(p) {
      SamePrimary(t, p.address, p.address);
    }
  }

  lemma SamePrimary(t: Topology, a: Address, b: Address)
    requires Inv(t) && IsPrimary(t.servers, a) && IsPrimary(t.servers, b)
    ensures a == b && t.kind == ReplicaSetWithPrimary
  {
  }

  lemma PrimaryOf(t: Topology) returns (a: Address)
    requires Inv(t) && t.kind == ReplicaSetWithPrimary
    ensures IsPrimary(t.servers, a)
  {
    a :| IsPrimary(t.servers, a);
  }

  /**
   * In every run whose description is compatible, every server a read preference or the writable selector
   * chooses is one the topology holds.
   */
  lemma SelectionIsBacked(t: Topology, ds: seq<ServerDescription>, rp: ReadPreference, s: Settings)
    requires Seeded(t) && forall d <- ds :: WellTyped(d)
    ensures RunHandled(Some(Connected(t)), ds).Some?
      && RunHandled(Some(Connected(t)), ds).value.description.servers.Ok()
    ensures var c := RunHandled(Some(Connected(t)), ds).value;
      c.description.compatible ==>
        && (Select(rp, c.description, s, Values(c.description.servers)).Chosen? ==>
              forall d <- Select(rp, c.description, s, Values(c.description.servers)).servers ::
                d.address in c.servers.at && c.servers.at[d.address].address == d.address)
        && forall d <- Writable(s, Values(c.description.servers)) :: d.address in c.servers.at && d.IsWritable()
  {
    hide Select, Writable, Handled;
    RunsKeepTrack(t, ds);
    var c := RunHandled(Some(Connected(t)), ds).value;
    var all := Values(c.description.servers);
    ValuesCover(c.description.servers);
    if Select(rp, c.description, s, all).Chosen? {
      SelectionFilters(rp, c.description, s, all);
      FiltersGiven(Select(rp, c.description, s, all).servers, all);
    }
    WritableGiven(s, all);
  }

  lemma FiltersGiven(r: seq<ServerDescription>, ds: seq<ServerDescription>)
    requires Filters(r, ds)
    ensures forall d <- r :: d in ds
  {
  }

  lemma WritableGiven(s: Settings, ds: seq<ServerDescription>)
    ensures forall d <- Writable(s, ds) :: d in ds && d.IsWritable()
  {
    forall d <- Writable(s, ds) ensures d in ds && d.IsWritable() {
      assert d in Keep(IsWritableServer, ds);
    }
  }

  /**
   * With a primary, every mode that may read from it finds it, and comparing with it never fails for want of one:
   * primary mode and primaryPreferred choose exactly the primary, secondaryPreferred chooses something.
   */
  lemma PrimaryIsFound(t: Topology, rp: ReadPreference, s: Settings)
    requires Inv(t) && t.kind == ReplicaSetWithPrimary
    ensures var r := Select(rp, t, s, Values(t.servers));
      && r != Failed(NoPrimaryToCompare) && r != Failed(NothingToCompare)
      && (!TooOld(rp, t) && (rp.mode == Primary || rp.mode == PrimaryPreferred) ==>
            && r.Chosen? && r.servers != []
            && forall d <- r.servers :: IsPrimary(t.servers, d.address) && t.servers.at[d.address] == d)
      && (r.Chosen? && rp.mode == SecondaryPreferred ==> r.servers != [])
  {
    var ds := Values(t.servers);
    DescribedPrimary(t);
    ValuesCover(t.servers);
    SelectTypeErrors(t, rp, s, ds);
    PrimaryChosen(t, rp, s, ds);
    forall d <- Keep(IsRSPrimary, ds) ensures IsPrimary(t.servers, d.address) && t.servers.at[d.address] == d {
      assert d in ds;
    }
  }

  lemma PrimaryChosen(t: Topology, rp: ReadPreference, s: Settings, ds: seq<ServerDescription>)
    requires t.kind == ReplicaSetWithPrimary && exists p <- ds :: IsRSPrimary(p)
    ensures var r := Select(rp, t, s, ds);
      && Keep(IsRSPrimary, ds) != []
      && (!TooOld(rp, t) && (rp.mode == Primary || rp.mode == PrimaryPreferred) ==> r == Chosen(Keep(IsRSPrimary, ds)))
      && (r.Chosen? && rp.mode == SecondaryPreferred ==> r.servers != [])
  {
    hide Reduced, Keep;
    KeepsNothing(IsRSPrimary, ds);
  }

  /** The unseeded `reduce` fails exactly for an empty replica set without primary and a valid staleness bound. */
  lemma NothingToCompareExact(t: Topology, rp: ReadPreference, s: Settings)
    requires Inv(t)
    ensures Select(rp, t, s, Values(t.servers)) == Failed(NothingToCompare) <==>
      && t.kind == ReplicaSetNoPrimary && t.servers.order == []
      && !TooOld(rp, t) && rp.mode != Primary
      && rp.maxStalenessSeconds.Some? && rp.maxStalenessSeconds.value >= SMALLEST_MAX_STALENESS_SECONDS
      && rp.maxStalenessSeconds.value * 1000 >= s.heartbeatFrequencyMS + IDLE_WRITE_PERIOD
    ensures Select(rp, t, s, Values(t.servers)) != Failed(NoPrimaryToCompare)
  {
    assert t.servers.Ok();
    DescribedPrimary(t);
    SelectTypeErrors(t, rp, s, Values(t.servers));
  }

  lemma SelectTypeErrors(t: Topology, rp: ReadPreference, s: Settings, ds: seq<ServerDescription>)
    ensures Select(rp, t, s, ds) == Failed(NothingToCompare) <==>
      && t.kind == ReplicaSetNoPrimary && ds == []
      && !TooOld(rp, t) && rp.mode != Primary
      && rp.maxStalenessSeconds.Some? && rp.maxStalenessSeconds.value >= SMALLEST_MAX_STALENESS_SECONDS
      && rp.maxStalenessSeconds.value * 1000 >= s.heartbeatFrequencyMS + IDLE_WRITE_PERIOD
    ensures Select(rp, t, s, ds) == Failed(NoPrimaryToCompare) ==>
      t.kind == ReplicaSetWithPrimary && forall d <- ds :: !IsRSPrimary(d)
  {
    hide MaxStalenessReducer, LatencyWindow, TagSetReducer, Keep;
    KeepsNothing(IsRSPrimary, ds);
    StalenessTypeErrors(rp, t.kind, s, ds);
  }

  lemma StalenessTypeErrors(rp: ReadPreference, kind: TopologyType, s: Settings, ds: seq<ServerDescription>)
    ensures MaxStalenessReducer(rp, kind, s, ds) == Failed(NothingToCompare) <==>
      && kind == ReplicaSetNoPrimary && ds == []
      && rp.maxStalenessSeconds.Some? && rp.maxStalenessSeconds.value >= SMALLEST_MAX_STALENESS_SECONDS
      && rp.maxStalenessSeconds.value * 1000 >= s.heartbeatFrequencyMS + IDLE_WRITE_PERIOD
    ensures MaxStalenessReducer(rp, kind, s, ds) == Failed(NoPrimaryToCompare) ==>
      kind == ReplicaSetWithPrimary && forall d <- ds :: !IsRSPrimary(d)
  {
    KeepsNothing(IsRSPrimary, ds);
  }

  // ---------- the object ----------

  datatype Found = Found(servers: seq<Option<ServerDescription>>) | NotFound(failure: Failure)

  class UnifiedTopology {
    var description: Topology
    const servers: ServerTable

    ghost predicate Valid()
      reads this, servers
    {
      description.servers.Ok()
    }

    ghost function View(): State
      reads this, servers
    {
      State(description, servers.Value())
    }

    constructor (t: Topology)
      requires t.servers.Ok()
      ensures Valid() && View() == Connected(t) && fresh(servers)
    {
      description := t;
      var table := new ServerTable(NO_SERVERS);
      servers := table;
      new;
      var ds := Values(t.servers);
      for i := 0 to |ds|
        invariant description == t && fresh(servers)
        invariant ConnectAll(servers.Value(), ds[i..]) == ConnectAll(NO_SERVERS, ds)
      {
        assert ds[i..][1..] == ds[i + 1..];
        servers.Set(ds[i].address, ds[i]);
      }
      assert ds[|ds|..] == [];
    }

    method UpdateServers(incoming: ServerDescription)
      requires Valid()
      modifies servers
      ensures Valid() && servers.Value() == Tracked(old(servers.Value()), description, incoming)
    {
      if incoming.address in servers.at {
        servers.Set(incoming.address, incoming);
      }
      ghost var s1 := servers.Value();
      var ds := Values(description.servers);
      for i := 0 to |ds|
        invariant AddMissing(servers.Value(), ds[i..]) == AddMissing(s1, ds)
      {
        assert ds[i..][1..] == ds[i + 1..];
        if ds[i].address !in servers.at {
          servers.Set(ds[i].address, ds[i]);
        }
      }
      assert ds[|ds|..] == [];
      servers.KeepOnly(description.servers.order);
    }

    method ServerUpdateHandler(d: ServerDescription) returns (thrown: bool)
      requires Valid()
      modifies this, servers
      ensures Valid()
      ensures thrown <==> Handled(old(View()), d).None?
      ensures thrown ==> View() == old(View())
      ensures !thrown ==> Handled(old(View()), d) == Some(View())
    {
      hide Updated, Tracked;
      thrown := false;
      if d.address !in description.servers.at {
        return;
      }
      UpdatedOk(description, d);
      var updated := Update(description, d);
      if updated.None? {
        return true;
      }
      description := updated.value;
      if !description.compatible {
        return;
      }
      UpdateServers(d);
    }

    /** One attempt of selectServers: the chosen descriptions, looked up among the servers. */
    method SelectServers(rp: ReadPreference, s: Settings) returns (r: Found)
      requires Valid()
      ensures var choice := Select(rp, description, s, Values(description.servers));
        if choice.Failed? then r == NotFound(choice.failure)
        else
          && r.Found? && |r.servers| == |choice.servers|
          && forall i | 0 <= i < |r.servers| :: var a := choice.servers[i].address;
               r.servers[i] == if a in servers.at then Some(servers.at[a]) else None
    {
      hide Select;
      var choice := Select(rp, description, s, Values(description.servers));
      if choice.Failed? {
        return NotFound(choice.failure);
      }
      var found := [];
      for i := 0 to |choice.servers|
        invariant |found| == i
        invariant forall k | 0 <= k < i :: var a := choice.servers[k].address;
          found[k] == if a in servers.at then Some(servers.at[a]) else None
      {
        var a := choice.servers[i].address;
        found := found + [if a in servers.at then Some(servers.at[a]) else None];
      }
      r := Found(found);
    }
  }
}
