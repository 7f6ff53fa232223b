/** `update` and its helpers as the code runs them: one copied Map, changed in place by each rule. */
module TopologyUpdate {
  import opened Bytes
  import opened Lists
  import opened Sdam

  /** A JavaScript Map from address to description: keys keep the position of their first insertion. */
  class ServerTable {
    var order: seq<Address>
    var at: map<Address, ServerDescription>

    ghost function Value(): Servers
      reads this
    {
      Servers(order, at)
    }

    constructor (s: Servers)
      ensures Value() == s
    {
      order, at := s.order, s.at;
    }

    method Set(a: Address, d: ServerDescription)
      modifies this
      ensures Value() == old(Value()).Set(a, d)
    {
      if a !in at {
        order := order + [a];
      }
      at := at[a := d];
    }

    method Delete(a: Address)
      modifies this
      ensures Value() == old(Value()).Delete(a)
    {
      order, at := Without(order, a), at - {a};
    }

    method HasPrimary() returns (kind: TopologyType)
      requires Value().Ok()
      ensures kind == CheckHasPrimary(Value())
    {
      for i := 0 to |order|
        invariant forall a <- order[..i] :: !IsPrimary(Value(), a)
      {
        if at[order[i]].kind == RSPrimary {
          assert IsPrimary(Value(), order[i]);
          return ReplicaSetWithPrimary;
        }
        assert order[..i + 1] == order[..i] + [order[i]];
      }
      assert order[..|order|] == order;
      kind := ReplicaSetNoPrimary;
    }

    /** Resets the first other server that is a primary; there can only be one. */
    method DemoteOther(self: Address, now: int)
      requires Value().Ok()
      modifies this
      ensures Value() == Demote(old(Value()), self, now)
    {
      ghost var s := Value();
      for i := 0 to |order|
        invariant Value() == s
        invariant OtherPrimary(s, s.order, self) == OtherPrimary(s, s.order[i..], self)
      {
        var server := at[order[i]];
        assert order[i..][1..] == order[i + 1..];
        if server.kind == RSPrimary && server.address != self {
          Set(order[i], Blank(server.address, now));
          return;
        }
      }
      assert order[|order|..] == [];
    }

    method AddUnknown(hosts: seq<Address>, now: int)
      modifies this
      ensures Value() == Discover(old(Value()), hosts, now)
    {
      for i := 0 to |hosts|
        invariant Discover(Value(), hosts[i..], now) == Discover(old(Value()), hosts, now)
      {
        assert hosts[i..][1..] == hosts[i + 1..];
        if hosts[i] !in at {
          Set(hosts[i], Blank(hosts[i], now));
        }
      }
      assert hosts[|hosts|..] == [];
    }

    method KeepOnly(hosts: seq<Address>)
      modifies this
      ensures Value() == DeleteAll(old(Value()), NotIn(old(order), hosts))
    {
      var gone := NotIn(order, hosts);
      for i := 0 to |gone|
        invariant DeleteAll(Value(), gone[i..]) == DeleteAll(old(Value()), gone)
      {
        assert gone[i..][1..] == gone[i + 1..];
        Delete(gone[i]);
      }
      assert gone[|gone|..] == [];
    }
  }

  method UpdateRsFromPrimary(table: ServerTable, setName: Option<string>, d: ServerDescription,
                             maxSetVersion: Option<int>, maxElectionId: Option<ElectionId>)
    returns (kind: TopologyType, name: Option<string>, version: Option<int>, id: Option<ElectionId>)
    requires table.Value().Ok()
    modifies table
    ensures Decision(kind, table.Value(), name, version, id)
      == FromPrimary(old(table.Value()), setName, d, maxSetVersion, maxElectionId)
  {
    ghost var s := table.Value();
    FromPrimaryOk(s, setName, d, maxSetVersion, maxElectionId);
    name, version, id := if setName.Some? then setName else d.setName, maxSetVersion, maxElectionId;
    if name != d.setName {
      table.Delete(d.address);
      kind := table.HasPrimary();
      return;
    }
    if d.setVersion.Some? && d.electionId.Some? {
      if maxSetVersion.Some? && maxElectionId.Some? {
        if maxSetVersion.value > d.setVersion.value || Order.Less(d.electionId.value, maxElectionId.value) {
          table.Set(d.address, Blank(d.address, d.lastUpdateTime));
          kind := table.HasPrimary();
          return;
        }
      }
      id := d.electionId;
    }
    if d.setVersion.Some? && (maxSetVersion.None? || d.setVersion.value > maxSetVersion.value) {
      version := d.setVersion;
    }
    table.DemoteOther(d.address, d.lastUpdateTime);
    table.AddUnknown(d.AllHosts(), d.lastUpdateTime);
    table.KeepOnly(d.AllHosts());
    kind := table.HasPrimary();
  }

  /** `thrown` is the TypeError raised without a set name. */
  method UpdateRsWithPrimaryFromMember(table: ServerTable, setName: Option<string>, d: ServerDescription)
    returns (kind: TopologyType, thrown: bool)
    requires table.Value().Ok()
    modifies table
    ensures thrown <==> WithPrimaryFromMember(old(table.Value()), setName, d).None?
    ensures !thrown ==>
      && Some(table.Value()) == WithPrimaryFromMember(old(table.Value()), setName, d)
      && kind == CheckHasPrimary(table.Value())
  {
    kind, thrown := Unknown, setName.None?;
    if thrown {
      return;
    }
    DeleteOk(table.Value(), d.address);
    if setName != d.setName || NotMe(d) {
      table.Delete(d.address);
    }
    kind := table.HasPrimary();
  }

  method UpdateRsNoPrimaryFromMember(table: ServerTable, setName: Option<string>, d: ServerDescription)
    returns (kind: TopologyType, name: Option<string>)
    modifies table
    ensures kind == ReplicaSetNoPrimary
    ensures (table.Value(), name) == NoPrimaryFromMember(old(table.Value()), setName, d)
  {
    kind := ReplicaSetNoPrimary;
    name := if setName.Some? then setName else d.setName;
    if name != d.setName {
      table.Delete(d.address);
      return;
    }
    table.AddUnknown(d.AllHosts(), d.lastUpdateTime);
    if NotMe(d) {
      table.Delete(d.address);
    }
  }

  /** The constructor's two passes over the servers. */
  method NewTopology(d: Decision, commonWireVersion: Option<int>) returns (t: Topology)
    requires d.servers.Ok()
    ensures t == MakeTopology(d, commonWireVersion)
  {
    var servers := Values(d.servers);
    var compatible := true;
    for i := 0 to |servers|
      invariant compatible <==> forall x <- servers[..i] :: Supported(x)
    {
      assert servers[..i + 1] == servers[..i] + [servers[i]] && servers[i] in servers[..i + 1];
      if servers[i].kind == UnknownServer {
        continue;
      }
      if servers[i].minWireVersion > MAX_SUPPORTED_WIRE_VERSION {
        compatible := false;
      }
      if servers[i].maxWireVersion < MIN_SUPPORTED_WIRE_VERSION {
        compatible := false;
        assert servers[i] in servers;
        break;
      }
    }
    assert compatible ==> servers[..|servers|] == servers;
    var timeout: Option<int> := None;
    for i := 0 to |servers|
      invariant timeout == SessionTimeout(servers[..i])
    {
      assert servers[..i + 1][..i] == servers[..i];
      if servers[i].IsReadable() {
        var minutes := servers[i].logicalSessionTimeoutMinutes;
        timeout := if minutes.None? then None
          else if timeout.None? then minutes
          else if minutes.value <= timeout.value then minutes else timeout;
      }
    }
    assert servers[..|servers|] == servers;
    t := Topology(d.kind, d.servers, d.setName, NonZero(d.maxSetVersion), d.maxElectionId,
                  NonZero(commonWireVersion), compatible, timeout);
  }

  /** The description after one server's answer; None for the TypeError. */
  method Update(t: Topology, d: ServerDescription) returns (r: Option<Topology>)
    requires t.servers.Ok()
    ensures r == Updated(t, d)
  {
    hide FromPrimary, NoPrimaryFromMember, CheckHasPrimary, MakeTopology;
    var kind, setName, maxSetVersion, maxElectionId := t.kind, t.setName, t.maxSetVersion, t.maxElectionId;
    var common := t.commonWireVersion;
    if d.maxWireVersion != 0 {
      common := if common.None? || d.maxWireVersion < common.value then Some(d.maxWireVersion) else common;
    }
    var table := new ServerTable(t.servers);
    SetOk(t.servers, d.address, d);
    table.Set(d.address, d);
    if kind == Single {
      var single := NewTopology(
        Decision(Single, Servers(table.order, table.at), setName, maxSetVersion, maxElectionId), common);
      return Some(single);
    }
    DeleteOk(table.Value(), d.address);
    if kind == Unknown {
      if d.kind == Standalone {
        table.Delete(d.address);
      } else {
        kind := TypeForServer(d.kind);
      }
    }
    DeleteOk(table.Value(), d.address);
    if kind == Sharded {
      if d.kind != Mongos && d.kind != UnknownServer {
        table.Delete(d.address);
      }
    }
    ghost var t2 := Decision(kind, table.Value(), setName, maxSetVersion, maxElectionId);
    assert t2 == AfterSharded(AfterUnknown(Stored(t, d), d), d);
    NoPrimaryOk(t2, d);
    if kind == ReplicaSetNoPrimary {
      if d.kind == Mongos || d.kind == UnknownServer {
        table.Delete(d.address);
      }
      if d.kind == RSPrimary {
        kind, setName, maxSetVersion, maxElectionId :=
          UpdateRsFromPrimary(table, setName, d, maxSetVersion, maxElectionId);
      } else if IsMember(d.kind) {
        kind, setName := UpdateRsNoPrimaryFromMember(table, setName, d);
      }
    }
    ghost var t3 := Decision(kind, table.Value(), setName, maxSetVersion, maxElectionId);
    assert t3 == AfterNoPrimary(t2, d);
    WithPrimaryOk(t3, d);
    if kind == ReplicaSetWithPrimary {
      if d.kind == Standalone || d.kind == Mongos {
        DeleteOk(table.Value(), d.address);
        table.Delete(d.address);
        kind := table.HasPrimary();
      } else if d.kind == RSPrimary {
        kind, setName, maxSetVersion, maxElectionId :=
          UpdateRsFromPrimary(table, setName, d, maxSetVersion, maxElectionId);
      } else if IsMember(d.kind) {
        var thrown;
        kind, thrown := UpdateRsWithPrimaryFromMember(table, setName, d);
        if thrown {
          return None;
        }
      } else {
        kind := table.HasPrimary();
      }
    }
    assert Some(Decision(kind, table.Value(), setName, maxSetVersion, maxElectionId)) == AfterWithPrimary(t3, d);
    var updated := NewTopology(
      Decision(kind, Servers(table.order, table.at), setName, maxSetVersion, maxElectionId), common);
    r := Some(updated);
  }
}
