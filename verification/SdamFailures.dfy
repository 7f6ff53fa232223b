/** Where the election rules of an update go wrong: the exact answers, and runs from a seed list that meet them. */
module SdamFailures {
  import opened Bytes
  import Order
  import opened Sdam
  import opened SdamProofs

  predicate SameMaxima(a: Decision, b: Decision) {
    a.setName == b.setName && a.maxSetVersion == b.maxSetVersion && a.maxElectionId == b.maxElectionId
  }

  /** Applying the primary's rules again, to whatever servers, moves neither name nor maxima. */
  lemma MaximaTwice(t: Decision, d: ServerDescription)
    requires t.servers.Ok()
    ensures var r := FromPrimary(t.servers, t.setName, d, t.maxSetVersion, t.maxElectionId);
      && r.servers.Ok()
      && SameMaxima(FromPrimary(r.servers, r.setName, d, r.maxSetVersion, r.maxElectionId), r)
  {
    hide Accepted, CheckHasPrimary;
    FromPrimaryOk(t.servers, t.setName, d, t.maxSetVersion, t.maxElectionId);
    if d.electionId.Some? {
      Order.Irreflexive(d.electionId.value);
    }
  }

  /** The name and maxima after an update are those of one application of the primary's rules. */
  lemma UpdatedMaxima(t: Topology, d: ServerDescription)
    requires Inv(t) && WellTyped(d)
    ensures Updated(t, d).Some? && Stored(t, d).servers.Ok()
    ensures d.kind == RSPrimary && t.kind != Sharded ==>
      var r := FromPrimary(Stored(t, d).servers, t.setName, d, t.maxSetVersion, t.maxElectionId);
      var u := Updated(t, d).value;
      u.setName == r.setName && u.maxSetVersion == NonZero(r.maxSetVersion) && u.maxElectionId == r.maxElectionId
  {
    hide FromPrimary, SessionTimeout, Values, Inv;
    UpdatedKeepsInv(t, d);
    SetOk(t.servers, d.address, d) by {
      assert t.servers.Keyed() by { InvKeyed(t); }
    }
    if d.kind == RSPrimary && t.kind != Sharded {
      assert t.kind != Single by { InvKeyed(t); }
      MaximaTwice(Stored(t, d), d);
    }
  }

  lemma InvKeyed(t: Topology)
    requires Inv(t)
    ensures t.servers.Keyed() && t.kind != Single
  {
  }

  /** An answer of a server that is no primary leaves the maxima alone; a set name once known stays. */
  lemma OthersForward(t: Topology, d: ServerDescription)
    requires Inv(t) && WellTyped(d) && (d.kind != RSPrimary || t.kind == Sharded) && Positive(t.maxSetVersion)
    ensures Updated(t, d).Some? && Advances(t, Updated(t, d).value)
  {
    hide FromPrimary, SessionTimeout, Values, Discover, CheckHasPrimary, Inv;
    UpdatedKeepsInv(t, d);
    InvKeyed(t);
    if t.maxElectionId.Some? {
      Order.Irreflexive(t.maxElectionId.value);
    }
  }

  /**
   * An update takes the set name, set version or election id back exactly when a primary of the set answers with both
   * ids while an election id but no set version is held, and its election id is the older one.
   */
  lemma ElectionLowered(t: Topology, d: ServerDescription)
    requires Inv(t) && WellTyped(d) && Positive(t.maxSetVersion) && (d.setVersion.Some? ==> d.setVersion.value >= 0)
    ensures Updated(t, d).Some?
    ensures !Advances(t, Updated(t, d).value) <==>
      && d.kind == RSPrimary && t.kind != Sharded && (t.setName.Some? ==> t.setName == d.setName)
      && HasBoth(d) && t.maxSetVersion.None? && t.maxElectionId.Some?
      && Order.Less(d.electionId.value, t.maxElectionId.value)
  {
    hide Updated, Accepted, CheckHasPrimary, Inv;
    UpdatedMaxima(t, d);
    if d.kind != RSPrimary || t.kind == Sharded {
      OthersForward(t, d);
    } else if t.maxElectionId.Some? {
      Order.Irreflexive(t.maxElectionId.value);
    }
  }

  // ---------- two runs ----------

  /** A replica set of one member that nothing is known about yet. */
  function Seed(): Topology {
    Topology(ReplicaSetNoPrimary, Servers(["a"], map["a" := Blank("a", 0)]), None, None, None, None, true, None)
  }

  /** The member answers as primary of its set. */
  function Primary(setVersion: int, electionId: Option<ElectionId>): ServerDescription {
    Blank("a", 0).(kind := RSPrimary, setName := Some("rs"), setVersion := Some(setVersion), electionId := electionId,
                   hosts := ["a"], maxWireVersion := 7)
  }

  lemma SeedInitial()
    ensures Initial(Seed()) && Inv(Seed())
  {
    var order := ["a"];
    assert order[1..] == [];
  }

  lemma RunOne(t: Topology, d: ServerDescription)
    requires t.servers.Ok()
    ensures RunUpdates(Some(t), [d]) == Updated(t, d)
  {
    assert [d][..0] == [];
  }

  lemma RunMore(t: Topology, ds: seq<ServerDescription>, d: ServerDescription)
    requires RunUpdates(Some(t), ds).Some? && RunUpdates(Some(t), ds).value.servers.Ok()
    ensures RunUpdates(Some(t), ds + [d]) == Updated(RunUpdates(Some(t), ds).value, d)
  {
    assert (ds + [d])[..|ds|] == ds;
  }

  /** A primary reports set version 0, which the constructor drops; then the next one's older id is believed. */
  lemma LoweringRun()
    ensures Initial(Seed())
    ensures var first, second := Primary(0, Some([2])), Primary(0, Some([1]));
      && RunUpdates(Some(Seed()), [first]).Some? && RunUpdates(Some(Seed()), [first, second]).Some?
      && RunUpdates(Some(Seed()), [first]).value.maxElectionId == Some([2])
      && RunUpdates(Some(Seed()), [first, second]).value.maxElectionId == Some([1])
  {
    hide Updated, Accepted, CheckHasPrimary, Initial, Inv;
    var first, second := Primary(0, Some([2])), Primary(0, Some([1]));
    SeedInitial();
    InvKeyed(Seed());
    UpdatedMaxima(Seed(), first);
    UpdatedKeepsInv(Seed(), first);
    var t := Updated(Seed(), first).value;
    InvKeyed(t);
    RunOne(Seed(), first);
    RunMore(Seed(), [first], second);
    assert [first] + [second] == [first, second];
    UpdatedMaxima(t, second);
  }

  /** A primary that lists itself, is of the set and not stale makes a set without primary one with a primary. */
  lemma FirstPassGains(t: Decision, d: ServerDescription)
    requires t.kind == ReplicaSetNoPrimary && d.kind == RSPrimary && t.servers.Keyed()
    requires d.address in t.servers.at && t.servers.at[d.address] == d && OnlyPrimary(t.servers, d.address)
    requires d.setName.Some? && (t.setName.None? || t.setName == d.setName) && d.address in d.AllHosts()
    requires !Stale(d, t.maxSetVersion, t.maxElectionId)
    ensures var r := AfterNoPrimary(t, d);
      && r.kind == ReplicaSetWithPrimary && r.servers.Keyed()
      && OnlyPrimary(r.servers, d.address) && d.address in r.servers.at
  {
    hide Accepted;
    AcceptedKeyed(t.servers, d);
    CheckedPrimary(Accepted(t.servers, d));
  }

  lemma StoredNoPrimary(t: Topology, d: ServerDescription)
    requires Inv(t) && t.kind == ReplicaSetNoPrimary && d.kind == RSPrimary
    ensures var t0 := Stored(t, d);
      && t0.servers.Keyed() && OnlyPrimary(t0.servers, d.address)
      && d.address in t0.servers.at && t0.servers.at[d.address] == d
      && AfterSharded(AfterUnknown(t0, d), d) == t0
  {
    SetKeyed(t.servers, d);
  }

  /** What an accepted primary's update does to a set without primary, both passes together. */
  lemma GainedOrDemoted(t: Topology, d: ServerDescription)
    requires Inv(t) && t.kind == ReplicaSetNoPrimary && d.kind == RSPrimary && WellTyped(d)
    requires (t.setName.None? || t.setName == d.setName) && d.address in d.AllHosts()
    requires !Stale(d, t.maxSetVersion, t.maxElectionId)
    ensures var u := Updated(t, d);
      var demoted := HasBoth(d) && t.maxElectionId.None? && t.maxSetVersion.Some?
        && t.maxSetVersion.value > d.setVersion.value;
      && u.Some? && u.value.servers.Keyed() && d.address in u.value.servers.at
      && u.value.kind == (if demoted then ReplicaSetNoPrimary else ReplicaSetWithPrimary)
      && (demoted ==> u.value.servers.at[d.address].kind == UnknownServer)
      && OnlyPrimary(u.value.servers, d.address)
  {
    hide AfterNoPrimary, AfterWithPrimary, AfterUnknown, AfterSharded, SessionTimeout, Values, Inv;
    InvKeyed(t);
    StoredNoPrimary(t, d);
    FirstPassGains(Stored(t, d), d);
    SecondPassExact(Stored(t, d), d);
    var r := AfterNoPrimary(Stored(t, d), d);
    SetKeyed(r.servers, Blank(d.address, d.lastUpdateTime));
    UpdatedKeepsInv(t, d);
    InvKeyed(Updated(t, d).value);
  }

  /** The only primary stops answering: the set has no primary and remembers its maxima. */
  lemma PrimaryLost(t: Topology, d: ServerDescription)
    requires Inv(t) && t.kind == ReplicaSetWithPrimary && d.kind == UnknownServer && OnlyPrimary(t.servers, d.address)
    ensures var u := Updated(t, d);
      && u.Some? && u.value.kind == ReplicaSetNoPrimary && u.value.setName == t.setName
      && u.value.maxSetVersion == NonZero(t.maxSetVersion) && u.value.maxElectionId == t.maxElectionId
  {
    hide SessionTimeout, Values;
    SetKeyed(t.servers, d);
    CheckedPrimary(Stored(t, d).servers);
  }

  /**
   * A primary without election ids, lost and back with its first election id and an older set version: the update that
   * accepts it also takes it for stale.
   */
  lemma DemotionRun()
    ensures Initial(Seed())
    ensures var ds := [Primary(2, None), Blank("a", 0), Primary(1, Some([1]))];
      var u := RunUpdates(Some(Seed()), ds);
      && u.Some? && u.value.kind == ReplicaSetNoPrimary
      && "a" in u.value.servers.at && u.value.servers.at["a"].kind == UnknownServer
  {
    hide Updated, Initial, Inv, FromPrimary, OnlyPrimary;
    var d1, d2, d3 := Primary(2, None), Blank("a", 0), Primary(1, Some([1]));
    SeedInitial();
    InvKeyed(Seed());
    GainedOrDemoted(Seed(), d1);
    UpdatedKeepsInv(Seed(), d1);
    FirstVersion(d1);
    RunOne(Seed(), d1);
    var t1 := Updated(Seed(), d1).value;
    PrimaryLost(t1, d2);
    UpdatedKeepsInv(t1, d2);
    RunMore(Seed(), [d1], d2);
    assert [d1] + [d2] == [d1, d2];
    var t2 := Updated(t1, d2).value;
    InvKeyed(t2);
    GainedOrDemoted(t2, d3);
    RunMore(Seed(), [d1, d2], d3);
    assert [d1, d2] + [d3] == [d1, d2, d3];
  }

  lemma FirstVersion(d: ServerDescription)
    requires d == Primary(2, None)
    ensures var u := Updated(Seed(), d);
      u.Some? && u.value.setName == Some("rs") && u.value.maxSetVersion == Some(2) && u.value.maxElectionId == None
  {
    hide Accepted, CheckHasPrimary, Updated;
    SeedInitial();
    UpdatedMaxima(Seed(), d);
  }
}
