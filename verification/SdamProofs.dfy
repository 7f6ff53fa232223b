/** What every sequence of server answers keeps true of the client's picture of the deployment. */
module SdamProofs {
  import opened Bytes
  import opened Sdam
  import Order

  // ---------- the structural invariant ----------

  ghost predicate NoPrimary(s: Servers) {
    forall a :: !IsPrimary(s, a)
  }

  ghost predicate AtMostOnePrimary(s: Servers) {
    forall a, b | IsPrimary(s, a) && IsPrimary(s, b) :: a == b
  }

  /** No server but possibly a is a primary. */
  ghost predicate OnlyPrimary(s: Servers, a: Address) {
    forall b | IsPrimary(s, b) :: b == a
  }

  /**
   * A deployment has a primary exactly when its type says so; a sharded one holds mongos and unknown
   * servers only; one of unknown type holds unknown servers only; a set name goes with a primary.
   */
  ghost predicate Consistent(kind: TopologyType, s: Servers, setName: Option<string>) {
    && s.Keyed()
    && kind != Single
    && (kind == ReplicaSetWithPrimary <==> !NoPrimary(s))
    && AtMostOnePrimary(s)
    && (kind == ReplicaSetWithPrimary ==> setName.Some?)
    && (kind == Sharded ==> forall a <- s.at :: s.at[a].kind == Mongos || s.at[a].kind == UnknownServer)
    && (kind == Unknown ==> forall a <- s.at :: s.at[a].kind == UnknownServer)
  }

  ghost predicate Inv(t: Topology) {
    Consistent(t.kind, t.servers, t.setName)
  }

  /** A member of a replica set names its set: what ServerDescription's typing guarantees. */
  predicate WellTyped(d: ServerDescription) {
    d.kind == RSPrimary || IsMember(d.kind) ==> d.setName.Some?
  }

  lemma CheckedPrimary(s: Servers)
    ensures CheckHasPrimary(s) == (if NoPrimary(s) then ReplicaSetNoPrimary else ReplicaSetWithPrimary)
  {
    if !NoPrimary(s) {
      var a :| IsPrimary(s, a);
      assert a in s.at;
    }
  }

  lemma SetKeyed(s: Servers, d: ServerDescription)
    requires s.Keyed()
    ensures s.Set(d.address, d).Keyed()
    ensures forall b :: IsPrimary(s.Set(d.address, d), b) <==>
      (if b == d.address then d.kind == RSPrimary else IsPrimary(s, b))
  {
    SetOk(s, d.address, d);
  }

  lemma DeleteKeyed(s: Servers, a: Address)
    requires s.Keyed()
    ensures s.Delete(a).Keyed()
    ensures forall b :: IsPrimary(s.Delete(a), b) <==> b != a && IsPrimary(s, b)
  {
    DeleteOk(s, a);
  }

  lemma DiscoverKeyed(s: Servers, hosts: seq<Address>, now: int)
    requires s.Keyed()
    ensures Discover(s, hosts, now).Keyed()
    ensures forall b :: IsPrimary(Discover(s, hosts, now), b) <==> IsPrimary(s, b)
  {
    DiscoverOk(s, hosts, now);
  }

  /** Apart from a, at most one server is a primary. */
  ghost predicate OneOther(s: Servers, a: Address) {
    forall b, c | IsPrimary(s, b) && IsPrimary(s, c) && b != a && c != a :: b == c
  }

  /** The demotion loop stops at the first other primary; that is enough when there is only one. */
  lemma DemoteKeyed(s: Servers, self: Address, now: int)
    requires s.Keyed() && OneOther(s, self)
    ensures var r := Demote(s, self, now);
      && r.Keyed() && OnlyPrimary(r, self)
      && (IsPrimary(r, self) <==> IsPrimary(s, self))
      && (forall a :: a in r.at <==> a in s.at)
      && (forall a <- s.at :: r.at[a] == if a != self && IsPrimary(s, a) then Blank(a, now) else s.at[a])
  {
    var other := OtherPrimary(s, s.order, self);
    if other.Some? {
      SetKeyed(s, Blank(other.value, now));
    }
  }

  /** An accepted primary is the only one left, if it lists itself; if not, none is. */
  lemma AcceptedKeyed(s: Servers, d: ServerDescription)
    requires s.Keyed() && OneOther(s, d.address)
    ensures var r := Accepted(s, d);
      && r.Keyed() && OnlyPrimary(r, d.address)
      && (IsPrimary(r, d.address) <==> IsPrimary(s, d.address) && d.address in d.AllHosts())
      && (IsPrimary(r, d.address) ==> r.at[d.address] == s.at[d.address])
  {
    AcceptedServers(s, d);
    DemoteKeyed(s, d.address, d.lastUpdateTime);
  }

  lemma Rechecked(s: Servers, setName: Option<string>)
    requires s.Keyed() && AtMostOnePrimary(s) && setName.Some?
    ensures Consistent(CheckHasPrimary(s), s, setName) && InReplicaSet(CheckHasPrimary(s))
  {
    CheckedPrimary(s);
  }

  /** What one application of the primary's rules guarantees. */
  lemma PrimaryKeyed(s: Servers, setName: Option<string>, d: ServerDescription,
                     maxSetVersion: Option<int>, maxElectionId: Option<ElectionId>)
    requires s.Keyed() && d.setName.Some? && OneOther(s, d.address)
    ensures var r := FromPrimary(s, setName, d, maxSetVersion, maxElectionId);
      && Consistent(r.kind, r.servers, r.setName)
      && (r.kind == ReplicaSetWithPrimary || r.kind == ReplicaSetNoPrimary)
  {
    hide Accepted, CheckHasPrimary, Consistent;
    var r := FromPrimary(s, setName, d, maxSetVersion, maxElectionId);
    if (if setName.Some? then setName else d.setName) != d.setName {
      DeleteKeyed(s, d.address);
    } else if Stale(d, maxSetVersion, maxElectionId) {
      SetKeyed(s, Blank(d.address, d.lastUpdateTime));
    } else {
      AcceptedKeyed(s, d);
    }
    Rechecked(r.servers, r.setName);
  }

  predicate InReplicaSet(kind: TopologyType) {
    kind == ReplicaSetNoPrimary || kind == ReplicaSetWithPrimary
  }

  lemma NoPrimaryStage(t: Decision, d: ServerDescription)
    requires t.kind == ReplicaSetNoPrimary && t.servers.Keyed() && WellTyped(d)
    requires forall b | IsPrimary(t.servers, b) :: b == d.address && d.kind == RSPrimary
    ensures var r := AfterNoPrimary(t, d);
      Consistent(r.kind, r.servers, r.setName) && InReplicaSet(r.kind)
  {
    hide FromPrimary, Discover;
    DeleteKeyed(t.servers, d.address);
    if d.kind == RSPrimary {
      PrimaryKeyed(t.servers, t.setName, d, t.maxSetVersion, t.maxElectionId);
    } else if IsMember(d.kind) {
      DiscoverKeyed(t.servers, d.AllHosts(), d.lastUpdateTime);
      DeleteKeyed(Discover(t.servers, d.AllHosts(), d.lastUpdateTime), d.address);
    }
  }

  lemma MemberStage(t: Decision, d: ServerDescription)
    requires t.kind == ReplicaSetWithPrimary && t.servers.Keyed() && d.kind != RSPrimary
    requires t.setName.Some? && AtMostOnePrimary(t.servers)
    ensures AfterWithPrimary(t, d).Some?
    ensures var r := AfterWithPrimary(t, d).value;
      Consistent(r.kind, r.servers, r.setName) && InReplicaSet(r.kind)
  {
    hide CheckHasPrimary, Consistent;
    DeleteKeyed(t.servers, d.address);
    Rechecked(t.servers, t.setName);
    Rechecked(t.servers.Delete(d.address), t.setName);
  }

  lemma WithPrimaryStage(t: Decision, d: ServerDescription)
    requires t.kind == ReplicaSetWithPrimary && t.servers.Keyed() && WellTyped(d)
    requires t.setName.Some? || d.kind == RSPrimary
    requires OneOther(t.servers, d.address)
    requires IsPrimary(t.servers, d.address) ==> d.kind == RSPrimary
    ensures AfterWithPrimary(t, d).Some?
    ensures var r := AfterWithPrimary(t, d).value;
      Consistent(r.kind, r.servers, r.setName) && InReplicaSet(r.kind)
  {
    if d.kind == RSPrimary {
      hide FromPrimary, CheckHasPrimary, Consistent;
      PrimaryKeyed(t.servers, t.setName, d, t.maxSetVersion, t.maxElectionId);
    } else {
      MemberStage(t, d);
    }
  }

  /** Before the replica-set rules run. */
  lemma EarlyStages(t: Topology, d: ServerDescription)
    requires Inv(t) && WellTyped(d)
    ensures var r := AfterSharded(AfterUnknown(Stored(t, d), d), d);
      && r.servers.Keyed() && r.kind != Single
      && (!InReplicaSet(r.kind) ==> Consistent(r.kind, r.servers, r.setName))
      && (InReplicaSet(r.kind) ==> r.servers == Stored(t, d).servers)
      && (r.kind == ReplicaSetNoPrimary ==>
            forall b | IsPrimary(r.servers, b) :: b == d.address && d.kind == RSPrimary)
      && (r.kind == ReplicaSetWithPrimary ==>
            && (r.setName.Some? || d.kind == RSPrimary)
            && OneOther(r.servers, d.address)
            && (IsPrimary(r.servers, d.address) ==> d.kind == RSPrimary))
      && (InReplicaSet(t.kind) ==> r.kind == t.kind) && (t.kind == Sharded ==> r.kind == Sharded)
  {
    SetKeyed(t.servers, d);
    DeleteKeyed(Stored(t, d).servers, d.address);
  }

  /** One answer keeps the invariant, cannot raise the TypeError, and never leaves a family of types. */
  lemma UpdatedKeepsInv(t: Topology, d: ServerDescription)
    requires Inv(t) && WellTyped(d)
    ensures Updated(t, d).Some? && Inv(Updated(t, d).value)
    ensures InReplicaSet(t.kind) ==> InReplicaSet(Updated(t, d).value.kind)
    ensures t.kind == Sharded ==> Updated(t, d).value.kind == Sharded
  {
    hide AfterNoPrimary, AfterWithPrimary, AfterUnknown, AfterSharded, SessionTimeout, Values;
    EarlyStages(t, d);
    var t2 := AfterSharded(AfterUnknown(Stored(t, d), d), d);
    StagesSkip(t2, d);
    if t2.kind == ReplicaSetNoPrimary {
      NoPrimaryStage(t2, d);
      var t3 := AfterNoPrimary(t2, d);
      StagesSkip(t3, d);
      if t3.kind == ReplicaSetWithPrimary {
        FirstPassOnly(t2, d);
        WithPrimaryStage(t3, d);
      }
    } else if t2.kind == ReplicaSetWithPrimary {
      WithPrimaryStage(t2, d);
    }
  }

  lemma StagesSkip(t: Decision, d: ServerDescription)
    requires t.servers.Keyed()
    ensures t.kind != ReplicaSetNoPrimary ==> AfterNoPrimary(t, d) == t
    ensures t.kind != ReplicaSetWithPrimary ==> AfterWithPrimary(t, d) == Some(t)
  {
  }

  /** Only a primary's own answer takes a set without a primary to one with a primary: itself. */
  lemma FirstPassOnly(t: Decision, d: ServerDescription)
    requires t.kind == ReplicaSetNoPrimary && t.servers.Keyed() && WellTyped(d)
    requires forall b | IsPrimary(t.servers, b) :: b == d.address && d.kind == RSPrimary
    requires AfterNoPrimary(t, d).kind == ReplicaSetWithPrimary
    ensures d.kind == RSPrimary && OnlyPrimary(AfterNoPrimary(t, d).servers, d.address)
  {
    hide Accepted, Discover;
    if d.kind == RSPrimary {
      var r := FromPrimary(t.servers, t.setName, d, t.maxSetVersion, t.maxElectionId);
      AcceptedKeyed(t.servers, d);
      DeleteKeyed(t.servers, d.address);
      SetKeyed(t.servers, Blank(d.address, d.lastUpdateTime));
    }
  }

  // ---------- never back to an older primary ----------

  predicate Positive(x: Option<int>) {
    x.Some? ==> x.value >= 1
  }

  /** p's election id is the highest seen and its set version is not above the highest seen. */
  predicate Elected(p: ServerDescription, maxSetVersion: Option<int>, maxElectionId: Option<ElectionId>) {
    HasBoth(p) ==>
      maxElectionId == p.electionId && maxSetVersion.Some? && p.setVersion.value <= maxSetVersion.value
  }

  ghost predicate AllElected(s: Servers, maxSetVersion: Option<int>, maxElectionId: Option<ElectionId>) {
    forall a | IsPrimary(s, a) :: Elected(s.at[a], maxSetVersion, maxElectionId)
  }

  ghost predicate OthersElected(s: Servers, self: Address,
                                maxSetVersion: Option<int>, maxElectionId: Option<ElectionId>) {
    forall a | IsPrimary(s, a) && a != self :: Elected(s.at[a], maxSetVersion, maxElectionId)
  }

  predicate Sound(maxSetVersion: Option<int>, maxElectionId: Option<ElectionId>) {
    Positive(maxSetVersion) && (maxElectionId.Some? ==> maxSetVersion.Some?)
  }

  /** Set name fixed once known; set version and election id never lower. */
  predicate Forward(name: Option<string>, version: Option<int>, id: Option<ElectionId>,
                    name': Option<string>, version': Option<int>, id': Option<ElectionId>) {
    && (name.Some? ==> name' == name)
    && (version.Some? ==> version'.Some? && version.value <= version'.value)
    && (id.Some? ==> id'.Some? && Order.AtMost(id.value, id'.value))
  }

  ghost predicate ElectionInv(t: Topology) {
    Sound(t.maxSetVersion, t.maxElectionId) && AllElected(t.servers, t.maxSetVersion, t.maxElectionId)
  }

  predicate Advances(t: Topology, t': Topology) {
    Forward(t.setName, t.maxSetVersion, t.maxElectionId, t'.setName, t'.maxSetVersion, t'.maxElectionId)
  }

  lemma AdvancesTransitive(a: Topology, b: Topology, c: Topology)
    requires Advances(a, b) && Advances(b, c)
    ensures Advances(a, c)
  {
    if a.maxElectionId.Some? {
      Order.AtMostTransitive(a.maxElectionId.value, b.maxElectionId.value, c.maxElectionId.value);
    }
  }

  lemma PrimaryElection(s: Servers, setName: Option<string>, d: ServerDescription,
                        maxSetVersion: Option<int>, maxElectionId: Option<ElectionId>)
    requires s.Keyed() && OneOther(s, d.address) && d.address in s.at && s.at[d.address] == d
    requires Positive(d.setVersion) && Sound(maxSetVersion, maxElectionId)
    requires OthersElected(s, d.address, maxSetVersion, maxElectionId)
    ensures var r := FromPrimary(s, setName, d, maxSetVersion, maxElectionId);
      && Sound(r.maxSetVersion, r.maxElectionId)
      && AllElected(r.servers, r.maxSetVersion, r.maxElectionId)
      && Forward(setName, maxSetVersion, maxElectionId, r.setName, r.maxSetVersion, r.maxElectionId)
  {
    hide Accepted;
    if maxElectionId.Some? {
      Order.Irreflexive(maxElectionId.value);
    }
    if (if setName.Some? then setName else d.setName) != d.setName {
      DeleteKeyed(s, d.address);
    } else if Stale(d, maxSetVersion, maxElectionId) {
      SetKeyed(s, Blank(d.address, d.lastUpdateTime));
    } else {
      AcceptedKeyed(s, d);
    }
  }

  /** After the first pass made the set one with a primary, the second pass starts from the reporting server. */
  lemma FirstPassKeeps(t: Decision, d: ServerDescription)
    requires t.kind == ReplicaSetNoPrimary && d.kind == RSPrimary && t.servers.Keyed()
    requires d.address in t.servers.at && t.servers.at[d.address] == d && OnlyPrimary(t.servers, d.address)
    requires AfterNoPrimary(t, d).kind == ReplicaSetWithPrimary
    ensures var r := AfterNoPrimary(t, d);
      && r.setName == d.setName && !Stale(d, t.maxSetVersion, t.maxElectionId)
      && r.servers == Accepted(t.servers, d)
      && IsPrimary(r.servers, d.address) && r.servers.at[d.address] == d
  {
    hide Accepted;
    AcceptedKeyed(t.servers, d);
    DeleteKeyed(t.servers, d.address);
    SetKeyed(t.servers, Blank(d.address, d.lastUpdateTime));
  }

  lemma StoredElection(t: Topology, d: ServerDescription)
    requires Inv(t) && WellTyped(d) && ElectionInv(t)
    ensures var r := AfterSharded(AfterUnknown(Stored(t, d), d), d);
      && r.setName == t.setName && r.maxSetVersion == t.maxSetVersion && r.maxElectionId == t.maxElectionId
      && (InReplicaSet(r.kind) ==>
            && d.address in r.servers.at && r.servers.at[d.address] == d
            && OthersElected(r.servers, d.address, t.maxSetVersion, t.maxElectionId))
  {
    EarlyStages(t, d);
    SetKeyed(t.servers, d);
  }

  /** The election facts after the replica-set stages. */
  lemma StagesElection(t: Decision, d: ServerDescription)
    requires InReplicaSet(t.kind) && t.servers.Keyed() && WellTyped(d) && Positive(d.setVersion)
    requires t.kind == ReplicaSetNoPrimary ==>
      forall b | IsPrimary(t.servers, b) :: b == d.address && d.kind == RSPrimary
    requires d.address in t.servers.at && t.servers.at[d.address] == d && OneOther(t.servers, d.address)
    requires Sound(t.maxSetVersion, t.maxElectionId)
    requires OthersElected(t.servers, d.address, t.maxSetVersion, t.maxElectionId)
    ensures AfterNoPrimary(t, d).servers.Ok()
    ensures AfterWithPrimary(AfterNoPrimary(t, d), d).Some? ==>
      var r := AfterWithPrimary(AfterNoPrimary(t, d), d).value;
      && Sound(r.maxSetVersion, r.maxElectionId)
      && AllElected(r.servers, r.maxSetVersion, r.maxElectionId)
      && Forward(t.setName, t.maxSetVersion, t.maxElectionId, r.setName, r.maxSetVersion, r.maxElectionId)
  {
    hide FromPrimary, Discover;
    StagesSkip(t, d);
    if t.maxElectionId.Some? {
      Order.Irreflexive(t.maxElectionId.value);
    }
    if t.kind == ReplicaSetNoPrimary {
      NoPrimaryStage(t, d);
      if d.kind == RSPrimary {
        TwoPassElection(t, d);
      } else {
        StagesSkip(AfterNoPrimary(t, d), d);
      }
    } else if d.kind == RSPrimary {
      PrimaryElection(t.servers, t.setName, d, t.maxSetVersion, t.maxElectionId);
    } else {
      MemberElection(t, d);
    }
  }

  /** One answer with a positive set version keeps the election invariant and only moves forward. */
  lemma UpdatedElection(t: Topology, d: ServerDescription)
    requires Inv(t) && WellTyped(d) && ElectionInv(t) && Positive(d.setVersion)
    ensures Updated(t, d).Some? && ElectionInv(Updated(t, d).value) && Advances(t, Updated(t, d).value)
  {
    hide AfterUnknown, AfterSharded, AfterNoPrimary, AfterWithPrimary, SessionTimeout, Values;
    EarlyStages(t, d);
    StoredElection(t, d);
    UpdatedKeepsInv(t, d);
    var t2 := AfterSharded(AfterUnknown(Stored(t, d), d), d);
    if InReplicaSet(t2.kind) {
      StagesElection(t2, d);
    } else {
      StagesSkip(t2, d);
      if t.maxElectionId.Some? {
        Order.Irreflexive(t.maxElectionId.value);
      }
    }
  }

  /** Whatever a server that is no primary reports, the maxima stay and no primary is added. */
  lemma MemberElection(t: Decision, d: ServerDescription)
    requires t.kind == ReplicaSetWithPrimary && d.kind != RSPrimary && t.servers.Keyed()
    requires d.address in t.servers.at && t.servers.at[d.address] == d
    requires OthersElected(t.servers, d.address, t.maxSetVersion, t.maxElectionId)
    ensures AfterWithPrimary(t, d).Some? ==>
      var r := AfterWithPrimary(t, d).value;
      && r.setName == t.setName && r.maxSetVersion == t.maxSetVersion && r.maxElectionId == t.maxElectionId
      && AllElected(r.servers, r.maxSetVersion, r.maxElectionId)
  {
    DeleteKeyed(t.servers, d.address);
  }

  lemma TwoPassElection(t: Decision, d: ServerDescription)
    requires t.kind == ReplicaSetNoPrimary && d.kind == RSPrimary && t.servers.Keyed() && d.setName.Some?
    requires d.address in t.servers.at && t.servers.at[d.address] == d && OnlyPrimary(t.servers, d.address)
    requires Positive(d.setVersion) && Sound(t.maxSetVersion, t.maxElectionId)
    ensures AfterNoPrimary(t, d).servers.Ok() && AfterWithPrimary(AfterNoPrimary(t, d), d).Some?
    ensures var r := AfterWithPrimary(AfterNoPrimary(t, d), d).value;
      && Sound(r.maxSetVersion, r.maxElectionId)
      && AllElected(r.servers, r.maxSetVersion, r.maxElectionId)
      && Forward(t.setName, t.maxSetVersion, t.maxElectionId, r.setName, r.maxSetVersion, r.maxElectionId)
  {
    hide FromPrimary;
    PrimaryKeyed(t.servers, t.setName, d, t.maxSetVersion, t.maxElectionId);
    PrimaryElection(t.servers, t.setName, d, t.maxSetVersion, t.maxElectionId);
    var r1 := AfterNoPrimary(t, d);
    StagesSkip(r1, d);
    if r1.kind == ReplicaSetWithPrimary {
      FirstPassKeeps(t, d);
      FirstPassOnly(t, d);
      PrimaryElection(r1.servers, r1.setName, d, r1.maxSetVersion, r1.maxElectionId);
      var r2 := FromPrimary(r1.servers, r1.setName, d, r1.maxSetVersion, r1.maxElectionId);
      if t.maxElectionId.Some? {
        Order.AtMostTransitive(t.maxElectionId.value, r1.maxElectionId.value, r2.maxElectionId.value);
      }
    }
  }

  // ---------- whole runs ----------

  /** The description after the answers of a run; None once an exception was raised. */
  ghost function RunUpdates(t: Option<Topology>, ds: seq<ServerDescription>): Option<Topology> {
    if ds == [] then t else
    var before := RunUpdates(t, ds[..|ds| - 1]);
    if before.None? || !before.value.servers.Ok() then None else Updated(before.value, ds[|ds| - 1])
  }

  /** A seed list: every address blank, the type Unknown or a replica set without primary. */
  ghost predicate Initial(t: Topology) {
    && t.servers.Keyed() && (forall a <- t.servers.at :: t.servers.at[a] == Blank(a, t.servers.at[a].lastUpdateTime))
    && (t.kind == Unknown || t.kind == ReplicaSetNoPrimary)
    && t.maxSetVersion.None? && t.maxElectionId.None?
  }

  /** In every run from a seed list the invariant holds after each answer and nothing is thrown. */
  lemma {:induction false} RunsKeepInv(t: Topology, ds: seq<ServerDescription>)
    requires Initial(t) && forall d <- ds :: WellTyped(d)
    ensures RunUpdates(Some(t), ds).Some? && Inv(RunUpdates(Some(t), ds).value)
    decreases |ds|
  {
    if ds == [] {
    } else {
      RunsKeepInv(t, ds[..|ds| - 1]);
      UpdatedKeepsInv(RunUpdates(Some(t), ds[..|ds| - 1]).value, ds[|ds| - 1]);
    }
  }

  /** Any later point of a run has the same set name and no lower set version or election id. */
  lemma {:induction false} RunsAdvance(t: Topology, ds: seq<ServerDescription>, k: nat)
    requires Initial(t) && k <= |ds| && forall d <- ds :: WellTyped(d) && Positive(d.setVersion)
    ensures RunUpdates(Some(t), ds[..k]).Some? && RunUpdates(Some(t), ds).Some?
    ensures ElectionInv(RunUpdates(Some(t), ds).value)
    ensures Advances(RunUpdates(Some(t), ds[..k]).value, RunUpdates(Some(t), ds).value)
    decreases |ds|
  {
    hide Updated, ElectionInv;
    var before := ds[..|ds| - if ds == [] then 0 else 1];
    RunsKeepInv(t, ds);
    RunsKeepInv(t, ds[..k]);
    if k < |ds| {
      assert before[..k] == ds[..k];
      RunsAdvance(t, before, k);
      StepAdvances(t, ds);
      AdvancesTransitive(
        RunUpdates(Some(t), ds[..k]).value, RunUpdates(Some(t), before).value, RunUpdates(Some(t), ds).value);
    } else {
      assert ds[..k] == ds;
      if ds != [] {
        RunsAdvance(t, before, |before|);
        StepAdvances(t, ds);
      } else {
        InitialElection(t);
      }
      AdvancesReflexive(RunUpdates(Some(t), ds).value);
    }
  }

  lemma StepAdvances(t: Topology, ds: seq<ServerDescription>)
    requires Initial(t) && ds != [] && forall d <- ds :: WellTyped(d) && Positive(d.setVersion)
    requires var r := RunUpdates(Some(t), ds[..|ds| - 1]); r.Some? && ElectionInv(r.value)
    ensures RunUpdates(Some(t), ds).Some? && ElectionInv(RunUpdates(Some(t), ds).value)
    ensures Advances(RunUpdates(Some(t), ds[..|ds| - 1]).value, RunUpdates(Some(t), ds).value)
  {
    hide Updated, ElectionInv;
    RunsKeepInv(t, ds[..|ds| - 1]);
    UpdatedElection(RunUpdates(Some(t), ds[..|ds| - 1]).value, ds[|ds| - 1]);
  }

  lemma InitialElection(t: Topology)
    requires Initial(t)
    ensures ElectionInv(t)
  {
  }

  lemma AdvancesReflexive(t: Topology)
    ensures Advances(t, t)
  {
    if t.maxElectionId.Some? {
      Order.Irreflexive(t.maxElectionId.value);
    }
  }

  // ---------- the primary's rules applied twice ----------

  /**
   * When a set without primary gains one, update runs the primary's rules a second time. The second
   * run changes nothing, except exactly when the first election id arrives with a set version below
   * the highest seen: then it takes the server just accepted for a stale primary.
   */
  lemma SecondPassExact(t: Decision, d: ServerDescription)
    requires t.kind == ReplicaSetNoPrimary && d.kind == RSPrimary && WellTyped(d) && t.servers.Keyed()
    requires d.address in t.servers.at && t.servers.at[d.address] == d && OnlyPrimary(t.servers, d.address)
    requires AfterNoPrimary(t, d).kind == ReplicaSetWithPrimary
    ensures var r := AfterNoPrimary(t, d);
      var demoted := HasBoth(d) && t.maxElectionId.None? && t.maxSetVersion.Some?
        && t.maxSetVersion.value > d.setVersion.value;
      && r.servers.Ok()
      && (AfterWithPrimary(r, d) == Some(r) <==> !demoted)
      && (demoted ==>
            AfterWithPrimary(r, d) == Some(
              r.(kind := ReplicaSetNoPrimary,
                 servers := r.servers.Set(d.address, Blank(d.address, d.lastUpdateTime)))))
  {
    hide Accepted;
    var r := AfterNoPrimary(t, d);
    FirstPassKeeps(t, d);
    FirstPassOnly(t, d);
    AcceptedKeyed(t.servers, d);
    if d.electionId.Some? {
      Order.Irreflexive(d.electionId.value);
    }
    if Stale(d, r.maxSetVersion, r.maxElectionId) {
      SetKeyed(r.servers, Blank(d.address, d.lastUpdateTime));
      CheckedPrimary(r.servers.Set(d.address, Blank(d.address, d.lastUpdateTime)));
    } else {
      AcceptedAgain(t.servers, d);
    }
  }

  /** Accepting the same answer again finds nobody to demote, add or drop. */
  lemma AcceptedAgain(s: Servers, d: ServerDescription)
    requires s.Keyed() && OneOther(s, d.address) && Accepted(s, d).Ok()
    ensures Accepted(Accepted(s, d), d) == Accepted(s, d)
  {
    var r := Accepted(s, d);
    AcceptedServers(s, d);
    AcceptedKeyed(s, d);
    var other := OtherPrimary(r, r.order, d.address);
    assert other.None?;
    KnownHosts(r, d.AllHosts(), d.lastUpdateTime);
    assert NotIn(r.order, d.AllHosts()) == [];
  }

  lemma {:induction false} KnownHosts(s: Servers, hosts: seq<Address>, now: int)
    requires forall h <- hosts :: h in s.at
    ensures Discover(s, hosts, now) == s
  {
    if hosts == [] {
    } else {
      assert hosts == [hosts[0]] + hosts[1..];
      KnownHosts(s, hosts[1..], now);
    }
  }

  // ---------- where the code and the SDAM specification part ----------

  /** The specification compares (setVersion, electionId) lexicographically. */
  predicate StaleBySpecification(d: ServerDescription, maxSetVersion: Option<int>, maxElectionId: Option<ElectionId>) {
    && HasBoth(d) && maxSetVersion.Some? && maxElectionId.Some?
    && (|| maxSetVersion.value > d.setVersion.value
        || (maxSetVersion.value == d.setVersion.value && Order.Less(d.electionId.value, maxElectionId.value)))
  }

  /** The code rejects more: exactly the primaries with a newer set version and an older election id. */
  lemma StalenessDiffers(d: ServerDescription, maxSetVersion: Option<int>, maxElectionId: Option<ElectionId>)
    ensures StaleBySpecification(d, maxSetVersion, maxElectionId) ==> Stale(d, maxSetVersion, maxElectionId)
    ensures Stale(d, maxSetVersion, maxElectionId) && !StaleBySpecification(d, maxSetVersion, maxElectionId) <==>
      && HasBoth(d) && maxSetVersion.Some? && maxElectionId.Some?
      && maxSetVersion.value < d.setVersion.value && Order.Less(d.electionId.value, maxElectionId.value)
  {
  }

  // ---------- the session timeout ----------

  /** The types of servers that hold data, mongos standing for those behind it. */
  predicate DataBearing(d: ServerDescription) {
    d.kind == Standalone || d.kind == Mongos || d.kind == RSPrimary || d.kind == RSSecondary
  }

  /** The specification: the smallest timeout of the data-bearing servers, none if any has none. */
  ghost predicate TimeoutBySpecification(ds: seq<ServerDescription>, r: Option<int>) {
    if exists d <- ds :: DataBearing(d) && d.logicalSessionTimeoutMinutes.None? then r.None?
    else if exists d <- ds :: DataBearing(d) then
      && r.Some?
      && (exists d <- ds :: DataBearing(d) && d.logicalSessionTimeoutMinutes == r)
      && (forall d <- ds | DataBearing(d) :: r.value <= d.logicalSessionTimeoutMinutes.value)
    else r.None?
  }

  ghost predicate NoneMissing(ds: seq<ServerDescription>) {
    forall d <- ds | DataBearing(d) :: d.logicalSessionTimeoutMinutes.Some?
  }

  /** The timeout of the last data-bearing server, None also if there is no such server. */
  function LastTimeout(ds: seq<ServerDescription>): Option<int> {
    if ds == [] then None
    else if DataBearing(ds[|ds| - 1]) then ds[|ds| - 1].logicalSessionTimeoutMinutes
    else LastTimeout(ds[..|ds| - 1])
  }

  lemma {:induction false} TimeoutShape(ds: seq<ServerDescription>)
    ensures SessionTimeout(ds).Some? <==> LastTimeout(ds).Some?
    ensures NoneMissing(ds) ==> TimeoutBySpecification(ds, SessionTimeout(ds))
  {
    if ds == [] {
    } else {
      var before, d := ds[..|ds| - 1], ds[|ds| - 1];
      TimeoutShape(before);
      assert ds == before + [d];
      if NoneMissing(ds) {
        assert NoneMissing(before);
        if !DataBearing(d) || (SessionTimeout(before).Some? && SessionTimeout(ds) == SessionTimeout(before)) {
          assert TimeoutBySpecification(before, SessionTimeout(ds));
        }
      }
    }
  }

  /**
   * The fold forgets a missing timeout as soon as another data-bearing server follows, so it gives
   * the specification's answer exactly when none is missing or the last one is.
   */
  lemma TimeoutExact(ds: seq<ServerDescription>)
    ensures TimeoutBySpecification(ds, SessionTimeout(ds)) <==> NoneMissing(ds) || LastTimeout(ds).None?
  {
    TimeoutShape(ds);
  }
}
