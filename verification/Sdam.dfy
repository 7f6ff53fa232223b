/** The client's picture of a deployment and how one server's answer changes it (TopologyDescription). */
module Sdam {
  import opened Bytes
  import opened Lists
  import Order

  type Address = string
  type ElectionId = seq<int>  // the code units of an election id's `$oid`

  datatype ServerType =
    | Standalone | Mongos | PossiblePrimary | RSPrimary | RSSecondary | RSArbiter | RSOther | RSGhost
    | UnknownServer

  datatype TopologyType = Single | ReplicaSetNoPrimary | ReplicaSetWithPrimary | Sharded | Unknown

  datatype ServerDescription = ServerDescription(
    address: Address, kind: ServerType,
    setName: Option<string>, setVersion: Option<int>, electionId: Option<ElectionId>,
    hosts: seq<Address>, arbiters: seq<Address>, passives: seq<Address>, me: Option<Address>,
    minWireVersion: int, maxWireVersion: int, logicalSessionTimeoutMinutes: Option<int>,
    roundTripTime: int, lastUpdateTime: int, lastWriteDate: int, tags: map<string, string>)
  {
    function AllHosts(): seq<Address> { hosts + arbiters + passives }

    predicate IsWritable() { kind == RSPrimary || kind == Standalone || kind == Mongos }

    predicate IsReadable() { kind == RSSecondary || IsWritable() }
  }

  /**
   * The description of a server nothing is known about, made at the given time. Those that an update makes are made
   * while an answer is handled, at the time of its own description.
   */
  function Blank(address: Address, now: int): ServerDescription {
    ServerDescription(address, UnknownServer, None, None, None, [], [], [], None, 0, 0, None, 0, now, 0, map[])
  }

  // ---------- a Map from address to description, with its iteration order ----------

  datatype Servers = Servers(order: seq<Address>, at: map<Address, ServerDescription>) {
    /** The order lists every key once. */
    ghost predicate Ok() {
      && (forall a :: a in order <==> a in at)
      && Distinct(order)
    }

    /** Ok, and every key is its description's address. */
    ghost predicate Keyed() {
      Ok() && forall a <- at :: at[a].address == a
    }

    function Set(a: Address, d: ServerDescription): Servers {
      Servers(if a in at then order else order + [a], at[a := d])
    }

    function Delete(a: Address): Servers {
      Servers(Without(order, a), at - {a})
    }
  }

  predicate IsPrimary(s: Servers, a: Address) {
    a in s.at && s.at[a].kind == RSPrimary
  }

  function CheckHasPrimary(s: Servers): TopologyType {
    if exists a <- s.at :: IsPrimary(s, a) then ReplicaSetWithPrimary else ReplicaSetNoPrimary
  }

  // ---------- a primary reports ----------

  /** What the replica-set rules decide about. */
  datatype Decision = Decision(
    kind: TopologyType, servers: Servers,
    setName: Option<string>, maxSetVersion: Option<int>, maxElectionId: Option<ElectionId>)

  predicate HasBoth(d: ServerDescription) {
    d.setVersion.Some? && d.electionId.Some?
  }

  predicate Stale(d: ServerDescription, maxSetVersion: Option<int>, maxElectionId: Option<ElectionId>) {
    && HasBoth(d) && maxSetVersion.Some? && maxElectionId.Some?
    && (maxSetVersion.value > d.setVersion.value || Order.Less(d.electionId.value, maxElectionId.value))
  }

  /** The first server, in iteration order, that claims to be primary under another address. */
  function OtherPrimary(s: Servers, order: seq<Address>, self: Address): (r: Option<Address>)
    requires forall a <- order :: a in s.at
    ensures r.Some? ==> r.value in order && IsPrimary(s, r.value) && s.at[r.value].address != self
    ensures r.None? ==> forall a <- order :: IsPrimary(s, a) ==> s.at[a].address == self
  {
    if order == [] then None
    else if IsPrimary(s, order[0]) && s.at[order[0]].address != self then Some(order[0])
    else
      assert order == [order[0]] + order[1..];
      OtherPrimary(s, order[1..], self)
  }

  function Demote(s: Servers, self: Address, now: int): Servers
    requires s.Ok()
  {
    var other := OtherPrimary(s, s.order, self);
    if other.Some? then s.Set(other.value, Blank(s.at[other.value].address, now)) else s
  }

  function Discover(s: Servers, hosts: seq<Address>, now: int): Servers
    decreases |hosts|
  {
    if hosts == [] then s else
    Discover(if hosts[0] in s.at then s else s.Set(hosts[0], Blank(hosts[0], now)), hosts[1..], now)
  }

  function DeleteAll(s: Servers, gone: seq<Address>): Servers
    decreases |gone|
  {
    if gone == [] then s else DeleteAll(s.Delete(gone[0]), gone[1..])
  }

  function NotIn(order: seq<Address>, hosts: seq<Address>): (r: seq<Address>)
    ensures forall a :: a in r <==> a in order && a !in hosts
    ensures (forall a <- order :: a in hosts) ==> r == []
  {
    if order == [] then [] else
    assert order == [order[0]] + order[1..];
    (if order[0] in hosts then [] else [order[0]]) + NotIn(order[1..], hosts)
  }

  /** The servers once a primary's answer is accepted: the old primary demoted, the listed hosts kept. */
  function Accepted(s: Servers, d: ServerDescription): Servers
    requires s.Ok()
  {
    var found := Discover(Demote(s, d.address, d.lastUpdateTime), d.AllHosts(), d.lastUpdateTime);
    DeleteAll(found, NotIn(found.order, d.AllHosts()))
  }

  function FromPrimary(s: Servers, setName: Option<string>, d: ServerDescription,
                       maxSetVersion: Option<int>, maxElectionId: Option<ElectionId>): Decision
    requires s.Ok()
  {
    var name := if setName.Some? then setName else d.setName;
    if name != d.setName then
      var s' := s.Delete(d.address);
      Decision(CheckHasPrimary(s'), s', name, maxSetVersion, maxElectionId)
    else if Stale(d, maxSetVersion, maxElectionId) then
      var s' := s.Set(d.address, Blank(d.address, d.lastUpdateTime));
      Decision(CheckHasPrimary(s'), s', name, maxSetVersion, maxElectionId)
    else
      var s' := Accepted(s, d);
      Decision(CheckHasPrimary(s'), s', name,
               if d.setVersion.Some? && (maxSetVersion.None? || d.setVersion.value > maxSetVersion.value)
               then d.setVersion else maxSetVersion,
               if HasBoth(d) then d.electionId else maxElectionId)
  }

  // ---------- another member reports ----------

  predicate NotMe(d: ServerDescription) {
    d.me.Some? && d.address != d.me.value
  }

  /** None stands for the TypeError raised without a set name. */
  function WithPrimaryFromMember(s: Servers, setName: Option<string>, d: ServerDescription): Option<Servers> {
    if setName.None? then None
    else Some(if setName != d.setName || NotMe(d) then s.Delete(d.address) else s)
  }

  function NoPrimaryFromMember(s: Servers, setName: Option<string>, d: ServerDescription): (Servers, Option<string>) {
    var name := if setName.Some? then setName else d.setName;
    if name != d.setName then (s.Delete(d.address), name) else
    var found := Discover(s, d.AllHosts(), d.lastUpdateTime);
    (if NotMe(d) then found.Delete(d.address) else found, name)
  }

  // ---------- the description of a deployment ----------

  const MIN_SUPPORTED_WIRE_VERSION := 2
  const MAX_SUPPORTED_WIRE_VERSION := 8

  datatype Topology = Topology(
    kind: TopologyType, servers: Servers,
    setName: Option<string>, maxSetVersion: Option<int>, maxElectionId: Option<ElectionId>,
    commonWireVersion: Option<int>, compatible: bool, logicalSessionTimeoutMinutes: Option<int>)

  predicate Supported(d: ServerDescription) {
    d.kind == UnknownServer
    || (d.minWireVersion <= MAX_SUPPORTED_WIRE_VERSION && d.maxWireVersion >= MIN_SUPPORTED_WIRE_VERSION)
  }

  /** The servers in iteration order. */
  function Values(s: Servers): (r: seq<ServerDescription>)
    requires s.Ok()
    ensures |r| == |s.order| && forall i | 0 <= i < |r| :: r[i] == s.at[s.order[i]]
  {
    seq(|s.order|, i requires 0 <= i < |s.order| => s.at[s.order[i]])
  }

  /** The left fold over the data-bearing servers. */
  function SessionTimeout(ds: seq<ServerDescription>): Option<int> {
    if ds == [] then None else
    var d, before := ds[|ds| - 1], SessionTimeout(ds[..|ds| - 1]);
    if !d.IsReadable() then before
    else if d.logicalSessionTimeoutMinutes.None? then None
    else if before.Some? && before.value < d.logicalSessionTimeoutMinutes.value then before
    else d.logicalSessionTimeoutMinutes
  }

  /** `x || null`: a zero counts as absent. */
  function NonZero(x: Option<int>): Option<int> {
    if x == Some(0) then None else x
  }

  function MakeTopology(d: Decision, commonWireVersion: Option<int>): Topology
    requires d.servers.Ok()
  {
    Topology(d.kind, d.servers, d.setName, NonZero(d.maxSetVersion), d.maxElectionId, NonZero(commonWireVersion),
             forall x <- Values(d.servers) :: Supported(x), SessionTimeout(Values(d.servers)))
  }

  function WireVersion(common: Option<int>, d: ServerDescription): Option<int> {
    if d.maxWireVersion == 0 then common
    else if common.None? || d.maxWireVersion < common.value then Some(d.maxWireVersion)
    else common
  }

  function TypeForServer(kind: ServerType): TopologyType {
    if kind == Mongos then Sharded
    else if kind == RSPrimary then ReplicaSetWithPrimary
    else ReplicaSetNoPrimary
  }

  predicate IsMember(kind: ServerType) {
    kind == RSSecondary || kind == RSArbiter || kind == RSOther
  }

  function AfterUnknown(t: Decision, d: ServerDescription): Decision {
    if t.kind != Unknown then t
    else if d.kind == Standalone then t.(servers := t.servers.Delete(d.address))
    else t.(kind := TypeForServer(d.kind))
  }

  function AfterSharded(t: Decision, d: ServerDescription): Decision {
    if t.kind == Sharded && d.kind != Mongos && d.kind != UnknownServer
    then t.(servers := t.servers.Delete(d.address)) else t
  }

  function AfterNoPrimary(t: Decision, d: ServerDescription): Decision
    requires t.servers.Ok()
  {
    if t.kind != ReplicaSetNoPrimary then t
    else if d.kind == Mongos || d.kind == UnknownServer then t.(servers := t.servers.Delete(d.address))
    else if d.kind == RSPrimary then
      FromPrimary(t.servers, t.setName, d, t.maxSetVersion, t.maxElectionId)
    else if IsMember(d.kind) then
      var (s, name) := NoPrimaryFromMember(t.servers, t.setName, d);
      t.(servers := s, setName := name)
    else t
  }

  function AfterWithPrimary(t: Decision, d: ServerDescription): Option<Decision>
    requires t.servers.Ok()
  {
    if t.kind != ReplicaSetWithPrimary then Some(t)
    else if d.kind == Standalone || d.kind == Mongos then
      var s := t.servers.Delete(d.address);
      Some(t.(servers := s, kind := CheckHasPrimary(s)))
    else if d.kind == RSPrimary then
      Some(FromPrimary(t.servers, t.setName, d, t.maxSetVersion, t.maxElectionId))
    else if IsMember(d.kind) then
      var s :- WithPrimaryFromMember(t.servers, t.setName, d);
      Some(t.(servers := s, kind := CheckHasPrimary(s)))
    else Some(t.(kind := CheckHasPrimary(t.servers)))
  }

  /** The decision part of a topology with d's description stored. */
  function Stored(t: Topology, d: ServerDescription): Decision {
    Decision(t.kind, t.servers.Set(d.address, d), t.setName, t.maxSetVersion, t.maxElectionId)
  }

  /** `update`; the type may change on the way, and later branches see the new type. */
  function Updated(t: Topology, d: ServerDescription): Option<Topology>
    requires t.servers.Ok()
  {
    SetOk(t.servers, d.address, d);
    var t0 := Stored(t, d);
    var common := WireVersion(t.commonWireVersion, d);
    if t.kind == Single then Some(MakeTopology(t0, common)) else
    var t2 := AfterSharded(AfterUnknown(t0, d), d);
    DeleteOk(t0.servers, d.address);
    DeleteOk(AfterUnknown(t0, d).servers, d.address);
    NoPrimaryOk(t2, d);
    var t3 := AfterNoPrimary(t2, d);
    WithPrimaryOk(t3, d);
    var t4 :- AfterWithPrimary(t3, d);
    Some(MakeTopology(t4, common))
  }

  // ---------- the map operations keep the map well formed ----------

  lemma SetOk(s: Servers, a: Address, d: ServerDescription)
    requires s.Ok()
    ensures s.Set(a, d).Ok()
  {
    if a !in s.at {
      DistinctAppend(s.order, a);
    }
  }

  lemma DeleteOk(s: Servers, a: Address)
    requires s.Ok()
    ensures s.Delete(a).Ok()
  {
    WithoutMembers(s.order, a);
  }

  lemma {:induction false} DiscoverOk(s: Servers, hosts: seq<Address>, now: int)
    requires s.Ok()
    ensures var r := Discover(s, hosts, now);
      && r.Ok()
      && (forall a :: a in r.at <==> a in s.at || a in hosts)
      && (forall a <- r.at :: r.at[a] == if a in s.at then s.at[a] else Blank(a, now))
    decreases |hosts|
  {
    if hosts == [] {
    } else {
      SetOk(s, hosts[0], Blank(hosts[0], now));
      DiscoverOk(if hosts[0] in s.at then s else s.Set(hosts[0], Blank(hosts[0], now)), hosts[1..], now);
      assert hosts == [hosts[0]] + hosts[1..];
    }
  }

  lemma {:induction false} DeleteAllOk(s: Servers, gone: seq<Address>)
    requires s.Ok()
    ensures var r := DeleteAll(s, gone);
      && r.Ok()
      && (forall a :: a in r.at <==> a in s.at && a !in gone)
      && (forall a <- r.at :: r.at[a] == s.at[a])
    decreases |gone|
  {
    if gone == [] {
    } else {
      DeleteOk(s, gone[0]);
      DeleteAllOk(s.Delete(gone[0]), gone[1..]);
      assert gone == [gone[0]] + gone[1..];
    }
  }

  lemma DemoteOk(s: Servers, self: Address, now: int)
    requires s.Ok()
    ensures Demote(s, self, now).Ok() && forall a :: a in Demote(s, self, now).at <==> a in s.at
  {
    var other := OtherPrimary(s, s.order, self);
    if other.Some? {
      SetOk(s, other.value, Blank(s.at[other.value].address, now));
    }
  }

  /** The addresses kept after an accepted primary's answer are exactly the ones it lists. */
  lemma AcceptedServers(s: Servers, d: ServerDescription)
    requires s.Ok()
    ensures var r := Accepted(s, d);
      && r.Ok()
      && (forall a :: a in r.at <==> a in d.AllHosts())
      && (forall a <- r.at :: r.at[a] ==
            if a in s.at then Demote(s, d.address, d.lastUpdateTime).at[a] else Blank(a, d.lastUpdateTime))
  {
    DemoteOk(s, d.address, d.lastUpdateTime);
    var found := Discover(Demote(s, d.address, d.lastUpdateTime), d.AllHosts(), d.lastUpdateTime);
    DiscoverOk(Demote(s, d.address, d.lastUpdateTime), d.AllHosts(), d.lastUpdateTime);
    DeleteAllOk(found, NotIn(found.order, d.AllHosts()));
  }

  lemma FromPrimaryOk(s: Servers, setName: Option<string>, d: ServerDescription,
                      maxSetVersion: Option<int>, maxElectionId: Option<ElectionId>)
    requires s.Ok()
    ensures FromPrimary(s, setName, d, maxSetVersion, maxElectionId).servers.Ok()
  {
    AcceptedServers(s, d);
    DeleteOk(s, d.address);
    SetOk(s, d.address, Blank(d.address, d.lastUpdateTime));
  }

  lemma NoPrimaryOk(t: Decision, d: ServerDescription)
    requires t.servers.Ok()
    ensures AfterNoPrimary(t, d).servers.Ok()
  {
    DeleteOk(t.servers, d.address);
    if d.kind == RSPrimary {
      FromPrimaryOk(t.servers, t.setName, d, t.maxSetVersion, t.maxElectionId);
    } else if IsMember(d.kind) {
      DiscoverOk(t.servers, d.AllHosts(), d.lastUpdateTime);
      DeleteOk(Discover(t.servers, d.AllHosts(), d.lastUpdateTime), d.address);
    }
  }

  lemma WithPrimaryOk(t: Decision, d: ServerDescription)
    requires t.servers.Ok()
    ensures AfterWithPrimary(t, d).Some? ==> AfterWithPrimary(t, d).value.servers.Ok()
  {
    FromPrimaryOk(t.servers, t.setName, d, t.maxSetVersion, t.maxElectionId);
    DeleteOk(t.servers, d.address);
  }
}
