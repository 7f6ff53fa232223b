/** What one answer makes of the picture of a deployment, server by server, whatever the order and number of passes. */
module SdamEffects {
  import opened Bytes
  import opened Sdam
  import opened SdamProofs
  import opened SdamFailures

  // ---------- the reference: one answer, one address at a time ----------

  /** The answer is taken as one of a sharded cluster. */
  predicate Sharding(t: Topology, d: ServerDescription) {
    t.kind == Sharded || (t.kind == Unknown && d.kind == Mongos)
  }

  /** The answer is taken as one about a replica set. */
  predicate Replicating(t: Topology, d: ServerDescription) {
    InReplicaSet(t.kind) || (t.kind == Unknown && d.kind != Standalone && d.kind != Mongos)
  }

  predicate OtherSet(t: Topology, d: ServerDescription) {
    t.setName.Some? && t.setName != d.setName
  }

  /** A primary of the set whose ids are not behind: it says who the members are. */
  predicate Believed(t: Topology, d: ServerDescription) {
    Replicating(t, d) && d.kind == RSPrimary && !OtherSet(t, d) && !Stale(d, t.maxSetVersion, t.maxElectionId)
  }

  /** A member of a set without primary adds the members it knows. */
  predicate Vouching(t: Topology, d: ServerDescription) {
    Replicating(t, d) && t.kind != ReplicaSetWithPrimary && IsMember(d.kind) && !OtherSet(t, d)
  }

  /** Believed, then taken for stale by the second pass. */
  predicate BelievedThenStale(t: Topology, d: ServerDescription) {
    && Believed(t, d) && d.address in d.AllHosts() && t.kind == ReplicaSetNoPrimary && HasBoth(d)
    && t.maxElectionId.None? && t.maxSetVersion.Some? && t.maxSetVersion.value > d.setVersion.value
  }

  /** What is held of the server that answered; None if it is dropped. */
  function HeldOfItself(t: Topology, d: ServerDescription): Option<ServerDescription> {
    var blank := Blank(d.address, d.lastUpdateTime);
    if t.kind == Unknown && d.kind == Standalone then None
    else if Sharding(t, d) then (if d.kind == Mongos || d.kind == UnknownServer then Some(d) else None)
    else
      match d.kind
      case Mongos => None
      case Standalone => if t.kind == ReplicaSetWithPrimary then None else Some(d)
      case UnknownServer => if t.kind == ReplicaSetWithPrimary then Some(d) else None
      case RSPrimary =>
        if OtherSet(t, d) then None
        else if Stale(d, t.maxSetVersion, t.maxElectionId) then Some(blank)
        else if d.address !in d.AllHosts() then None
        else if BelievedThenStale(t, d) then Some(blank) else Some(d)
      case RSSecondary => if OtherSet(t, d) || NotMe(d) then None else Some(d)
      case RSArbiter => if OtherSet(t, d) || NotMe(d) then None else Some(d)
      case RSOther => if OtherSet(t, d) || NotMe(d) then None else Some(d)
      case _ => Some(d)
  }

  /** What is held of another server. */
  function HeldOfOther(t: Topology, d: ServerDescription, a: Address): Option<ServerDescription> {
    var listed := a in d.AllHosts();
    if a in t.servers.at && !(Believed(t, d) && (!listed || IsPrimary(t.servers, a))) then Some(t.servers.at[a])
    else if listed && (Believed(t, d) || Vouching(t, d)) then Some(Blank(a, d.lastUpdateTime))
    else None
  }

  function Held(t: Topology, d: ServerDescription, a: Address): Option<ServerDescription> {
    if a == d.address then HeldOfItself(t, d) else HeldOfOther(t, d, a)
  }

  function TypeBy(t: Topology, d: ServerDescription): TopologyType {
    if t.kind == Unknown && d.kind == Standalone then Unknown
    else if Sharding(t, d) then Sharded
    else if HeldOfItself(t, d) == Some(d) && d.kind == RSPrimary then ReplicaSetWithPrimary
    else if !Believed(t, d) && exists a <- t.servers.at :: a != d.address && IsPrimary(t.servers, a) then
      ReplicaSetWithPrimary
    else ReplicaSetNoPrimary
  }

  ghost predicate Holds(s: Servers, t: Topology, d: ServerDescription) {
    forall a :: (a in s.at <==> Held(t, d, a).Some?) && (a in s.at ==> s.at[a] == Held(t, d, a).value)
  }

  // ---------- the stages ----------

  lemma StoredAt(t: Topology, d: ServerDescription)
    requires Inv(t)
    ensures var s := Stored(t, d).servers;
      && s.Keyed() && s.Ok() && d.address in s.at && s.at[d.address] == d && OneOther(s, d.address)
      && (forall a | a != d.address :: (a in s.at <==> a in t.servers.at) && (a in s.at ==> s.at[a] == t.servers.at[a]))
      && s.Delete(d.address).Keyed()
  {
    SetKeyed(t.servers, d);
    DeleteKeyed(Stored(t, d).servers, d.address);
  }

  /** One address after an accepted primary's answer. */
  lemma AcceptedAt(t: Topology, d: ServerDescription, a: Address, was: Option<ServerDescription>, listed: bool)
    requires Believed(t, d) && (a != d.address || !BelievedThenStale(t, d)) && listed == (a in d.AllHosts())
    requires was == if a == d.address then Some(d) else if a in t.servers.at then Some(t.servers.at[a]) else None
    ensures Held(t, d, a) ==
      if !listed then None
      else if was.None? || (a != d.address && was.value.kind == RSPrimary) then Some(Blank(a, d.lastUpdateTime))
      else was
  {
    hide Stale, ServerDescription.AllHosts, HasBoth;
  }

  /** The servers of an accepted primary, one by one. */
  lemma AcceptedHolds(t: Topology, d: ServerDescription)
    requires Inv(t) && Believed(t, d) && !BelievedThenStale(t, d) && Stored(t, d).servers.Ok()
    ensures Holds(Accepted(Stored(t, d).servers, d), t, d)
  {
    hide Accepted, Believed, BelievedThenStale, Demote, OneOther, Held, Inv, ServerDescription.AllHosts;
    var s := Stored(t, d).servers;
    StoredAt(t, d);
    AcceptedServers(s, d);
    DemoteKeyed(s, d.address, d.lastUpdateTime);
    var r := Accepted(s, d);
    forall a
      ensures a in r.at <==> Held(t, d, a).Some?
      ensures a in r.at ==> r.at[a] == Held(t, d, a).value
    {
      AcceptedAt(t, d, a, if a in s.at then Some(s.at[a]) else None, a in d.AllHosts());
    }
  }

  lemma RejectedHeld(t: Topology, d: ServerDescription)
    requires Replicating(t, d) && d.kind == RSPrimary && !Believed(t, d)
    ensures Held(t, d, d.address) == if OtherSet(t, d) then None else Some(Blank(d.address, d.lastUpdateTime))
    ensures forall a | a != d.address :: Held(t, d, a) == if a in t.servers.at then Some(t.servers.at[a]) else None
  {
    hide Stale, ServerDescription.AllHosts;
  }

  /** A primary of another set is dropped, a stale one blanked, and nobody else is touched. */
  lemma RejectedHolds(t: Topology, d: ServerDescription)
    requires Inv(t) && Replicating(t, d) && d.kind == RSPrimary && !Believed(t, d) && Stored(t, d).servers.Ok()
    ensures var s := Stored(t, d).servers;
      Holds(if OtherSet(t, d) then s.Delete(d.address) else s.Set(d.address, Blank(d.address, d.lastUpdateTime)), t, d)
  {
    hide Held, Believed, Replicating, Inv;
    StoredAt(t, d);
    RejectedHeld(t, d);
  }

  /** One application of the primary's rules. */
  lemma PrimaryHolds(t: Topology, d: ServerDescription)
    requires Inv(t) && WellTyped(d) && Replicating(t, d) && d.kind == RSPrimary && !BelievedThenStale(t, d)
    requires Stored(t, d).servers.Ok()
    ensures Holds(FromPrimary(Stored(t, d).servers, t.setName, d, t.maxSetVersion, t.maxElectionId).servers, t, d)
  {
    hide Accepted, CheckHasPrimary, Stale, Inv, Holds, Held, BelievedThenStale;
    if Believed(t, d) {
      AcceptedHolds(t, d);
    } else {
      RejectedHolds(t, d);
    }
  }

  /** What the stages of an update leave to the replica-set rules. */
  lemma EarlyDecision(t: Topology, d: ServerDescription)
    requires Inv(t)
    ensures var s, t2 := Stored(t, d), AfterSharded(AfterUnknown(Stored(t, d), d), d);
      && t2.servers.Ok()
      && t2.kind == (if t.kind == Unknown && d.kind == Standalone then Unknown
                     else if Sharding(t, d) then Sharded
                     else if t.kind != Unknown then t.kind
                     else if d.kind == RSPrimary then ReplicaSetWithPrimary else ReplicaSetNoPrimary)
      && (Replicating(t, d) ==> t2 == s.(kind := t2.kind))
      && (!Replicating(t, d) ==>
            t2 == s.(kind := t2.kind, servers := if HeldOfItself(t, d).Some? then s.servers
                                                 else s.servers.Delete(d.address)))
  {
    hide ServerDescription.AllHosts, Stale;
    StoredAt(t, d);
  }

  /** The second pass blanks a primary already accepted. */
  lemma DemotedHolds(t: Topology, d: ServerDescription)
    requires Inv(t) && BelievedThenStale(t, d) && Stored(t, d).servers.Ok() && Accepted(Stored(t, d).servers, d).Ok()
    ensures Holds(Accepted(Stored(t, d).servers, d).Set(d.address, Blank(d.address, d.lastUpdateTime)), t, d)
  {
    hide Accepted, Believed, BelievedThenStale, Demote, OneOther, Held, Inv, ServerDescription.AllHosts;
    var s := Stored(t, d).servers;
    StoredAt(t, d);
    AcceptedServers(s, d);
    DemoteKeyed(s, d.address, d.lastUpdateTime);
    DemotedSelf(t, d);
    var r := Accepted(s, d).Set(d.address, Blank(d.address, d.lastUpdateTime));
    forall a
      ensures a in r.at <==> Held(t, d, a).Some?
      ensures a in r.at ==> r.at[a] == Held(t, d, a).value
    {
      if a != d.address {
        AcceptedAt(t, d, a, if a in s.at then Some(s.at[a]) else None, a in d.AllHosts());
      }
    }
  }

  lemma DemotedSelf(t: Topology, d: ServerDescription)
    requires BelievedThenStale(t, d)
    ensures Believed(t, d) && d.address in d.AllHosts()
    ensures Held(t, d, d.address) == Some(Blank(d.address, d.lastUpdateTime))
  {
    hide Stale, ServerDescription.AllHosts;
  }

  /** A primary reports to a set with a primary, or of a deployment unknown so far. */
  lemma OnePass(t: Topology, d: ServerDescription)
    requires Inv(t) && WellTyped(d) && Replicating(t, d) && d.kind == RSPrimary && t.kind != ReplicaSetNoPrimary
    ensures var t2 := Stored(t, d).(kind := ReplicaSetWithPrimary);
      && t2.servers.Ok() && AfterWithPrimary(t2, d).Some?
      && Holds(AfterWithPrimary(t2, d).value.servers, t, d) && InReplicaSet(AfterWithPrimary(t2, d).value.kind)
  {
    hide FromPrimary, Holds, Held, Believed, BelievedThenStale, Inv;
    StoredAt(t, d);
    assert !BelievedThenStale(t, d) by {
      DemotedKind(t, d);
    }
    PrimaryHolds(t, d);
    PrimaryKeyed(Stored(t, d).servers, t.setName, d, t.maxSetVersion, t.maxElectionId);
  }

  lemma DemotedKind(t: Topology, d: ServerDescription)
    ensures BelievedThenStale(t, d) ==>
      && Believed(t, d) && t.kind == ReplicaSetNoPrimary && d.address in d.AllHosts()
  {
  }

  lemma FirstPassBelieves(t: Topology, d: ServerDescription)
    requires Inv(t) && WellTyped(d) && d.kind == RSPrimary && t.kind == ReplicaSetNoPrimary && Stored(t, d).servers.Ok()
    requires AfterNoPrimary(Stored(t, d), d).kind == ReplicaSetWithPrimary
    ensures Believed(t, d) && d.address in d.AllHosts()
  {
    hide Accepted, CheckHasPrimary, Stale, Inv, OneOther;
    StoredAt(t, d);
    StoredNoPrimary(t, d);
    FirstPassKeeps(Stored(t, d), d);
    AcceptedKeyed(Stored(t, d).servers, d);
  }

  /** A primary reports to a set without one; if it is believed and lists itself, the rules run again. */
  lemma TwoPasses(t: Topology, d: ServerDescription)
    requires Inv(t) && WellTyped(d) && d.kind == RSPrimary && t.kind == ReplicaSetNoPrimary
    ensures var t2 := Stored(t, d);
      && t2.servers.Ok() && AfterNoPrimary(t2, d).servers.Ok() && AfterWithPrimary(AfterNoPrimary(t2, d), d).Some?
      && var t4 := AfterWithPrimary(AfterNoPrimary(t2, d), d).value;
      && Holds(t4.servers, t, d) && InReplicaSet(t4.kind)
  {
    hide FromPrimary, Accepted, Holds, Held, Inv, CheckHasPrimary, Stale;
    var t2 := Stored(t, d);
    StoredAt(t, d);
    StoredNoPrimary(t, d);
    NoPrimaryStage(t2, d);
    var t3 := AfterNoPrimary(t2, d);
    StagesSkip(t3, d);
    if t3.kind == ReplicaSetWithPrimary {
      FirstPassBelieves(t, d);
      FirstPassKeeps(t2, d);
      SecondPassExact(t2, d);
      if BelievedThenStale(t, d) {
        DemotedHolds(t, d);
      } else {
        PrimaryHolds(t, d);
      }
    } else {
      FirstPassLoses(t, d);
      PrimaryHolds(t, d);
    }
  }

  /** A primary believed but not listed by itself gives the set no primary. */
  lemma FirstPassLoses(t: Topology, d: ServerDescription)
    requires Inv(t) && WellTyped(d) && d.kind == RSPrimary && t.kind == ReplicaSetNoPrimary && Stored(t, d).servers.Ok()
    requires AfterNoPrimary(Stored(t, d), d).kind != ReplicaSetWithPrimary
    ensures !BelievedThenStale(t, d)
  {
    hide Stale, Inv;
    if BelievedThenStale(t, d) {
      StoredAt(t, d);
      StoredNoPrimary(t, d);
      FirstPassGains(Stored(t, d), d);
    }
  }

  /** A primary reports, one pass or two. */
  lemma PrimaryDecides(t: Topology, d: ServerDescription)
    requires Inv(t) && WellTyped(d) && Replicating(t, d) && d.kind == RSPrimary
    ensures Updated(t, d).Some?
    ensures Holds(Updated(t, d).value.servers, t, d) && InReplicaSet(Updated(t, d).value.kind)
  {
    hide AfterNoPrimary, AfterWithPrimary, AfterUnknown, AfterSharded, SessionTimeout, Values, Holds, Inv;
    UpdatedKeepsInv(t, d);
    EarlyDecision(t, d);
    StoredAt(t, d);
    var t2 := AfterSharded(AfterUnknown(Stored(t, d), d), d);
    if t.kind == ReplicaSetNoPrimary {
      TwoPasses(t, d);
      assert t2 == Stored(t, d);
    } else {
      OnePass(t, d);
      StagesSkip(t2, d);
    }
  }

  // ---------- the other answers ----------

  /** A sharded cluster, or a standalone in an unknown deployment. */
  lemma OutsideDecides(t: Topology, d: ServerDescription)
    requires Inv(t) && WellTyped(d) && !Replicating(t, d)
    ensures Updated(t, d).Some?
    ensures Holds(Updated(t, d).value.servers, t, d)
    ensures Updated(t, d).value.kind == if Sharding(t, d) then Sharded else Unknown
  {
    hide AfterNoPrimary, AfterWithPrimary, AfterUnknown, AfterSharded, SessionTimeout, Values, Inv, Holds, HeldOfItself;
    UpdatedKeepsInv(t, d);
    EarlyDecision(t, d);
    StoredAt(t, d);
    StagesSkip(AfterSharded(AfterUnknown(Stored(t, d), d), d), d);
    InvKeyed(t);
    OutsideHolds(t, d);
  }

  lemma OutsideHolds(t: Topology, d: ServerDescription)
    requires Inv(t) && !Replicating(t, d) && t.kind != Single
    ensures var s := Stored(t, d).servers;
      Holds(if HeldOfItself(t, d).Some? then s else s.Delete(d.address), t, d)
  {
    hide Inv, Held, HeldOfItself, Replicating;
    StoredAt(t, d);
    OutsideHeld(t, d);
  }

  lemma OutsideHeld(t: Topology, d: ServerDescription)
    requires !Replicating(t, d) && t.kind != Single
    ensures Held(t, d, d.address) == HeldOfItself(t, d)
    ensures HeldOfItself(t, d).Some? ==> HeldOfItself(t, d).value == d
    ensures forall a | a != d.address :: Held(t, d, a) == if a in t.servers.at then Some(t.servers.at[a]) else None
  {
    hide ServerDescription.AllHosts, Stale;
  }

  /** The answer of a server that is no primary, one address at a time. */
  lemma OthersHeld(t: Topology, d: ServerDescription)
    requires Replicating(t, d) && d.kind != RSPrimary
    ensures HeldOfItself(t, d) == if HeldOfItself(t, d).None? then None else Some(d)
    ensures forall a | a != d.address ::
      Held(t, d, a) ==
        (if a in t.servers.at then Some(t.servers.at[a])
         else if a in d.AllHosts() && Vouching(t, d) then Some(Blank(a, d.lastUpdateTime)) else None)
  {
    hide ServerDescription.AllHosts, Stale;
  }

  /** The rules for a set without primary, in terms of what is held of the server that answered. */
  lemma NoPrimaryServers(t: Topology, d: ServerDescription)
    requires WellTyped(d) && Replicating(t, d) && t.kind != ReplicaSetWithPrimary && d.kind != RSPrimary
    requires Stored(t, d).servers.Ok()
    ensures var s, r := Stored(t, d).servers, AfterNoPrimary(Stored(t, d).(kind := ReplicaSetNoPrimary), d);
      var known := if Vouching(t, d) then Discover(s, d.AllHosts(), d.lastUpdateTime) else s;
      && r.kind == ReplicaSetNoPrimary
      && r.servers == if HeldOfItself(t, d).Some? then known else known.Delete(d.address)
  {
    hide ServerDescription.AllHosts, Stale, Discover;
  }

  /** Dropping the answering server, or not. */
  lemma KnownHolds(t: Topology, d: ServerDescription, known: Servers)
    requires Replicating(t, d) && d.kind != RSPrimary && known.Ok() && d.address in known.at && known.at[d.address] == d
    requires forall a | a != d.address ::
      && (a in known.at <==> a in t.servers.at || (a in d.AllHosts() && Vouching(t, d)))
      && (a in known.at ==>
            known.at[a] == if a in t.servers.at then t.servers.at[a] else Blank(a, d.lastUpdateTime))
    ensures var r := if HeldOfItself(t, d).Some? then known else known.Delete(d.address);
      r.Ok() && Holds(r, t, d)
  {
    hide ServerDescription.AllHosts, HeldOfItself, HeldOfOther, Vouching, Replicating;
    OthersHeld(t, d);
    DeleteOk(known, d.address);
    assert Held(t, d, d.address) == HeldOfItself(t, d);
  }

  /** A member reports to a set without primary: everybody it knows of is a candidate. */
  lemma VouchingDecides(t: Topology, d: ServerDescription)
    requires Inv(t) && WellTyped(d) && Replicating(t, d) && t.kind != ReplicaSetWithPrimary && d.kind != RSPrimary
    ensures var t2 := Stored(t, d).(kind := ReplicaSetNoPrimary);
      && t2.servers.Ok() && AfterNoPrimary(t2, d).servers.Ok() && Holds(AfterNoPrimary(t2, d).servers, t, d)
      && AfterNoPrimary(t2, d).kind == ReplicaSetNoPrimary
  {
    hide Inv, AfterNoPrimary, Discover, OneOther, HeldOfItself, Vouching, Holds, Replicating;
    var s := Stored(t, d).servers;
    StoredAt(t, d);
    NoPrimaryServers(t, d);
    DiscoverOk(s, d.AllHosts(), d.lastUpdateTime);
    KnownHolds(t, d, if Vouching(t, d) then Discover(s, d.AllHosts(), d.lastUpdateTime) else s);
  }

  /** The rules for a set with a primary. */
  lemma WithPrimaryServers(t: Topology, d: ServerDescription)
    requires WellTyped(d) && t.kind == ReplicaSetWithPrimary && d.kind != RSPrimary && t.setName.Some?
    requires Stored(t, d).servers.Ok()
    ensures var s, r := Stored(t, d).servers, AfterWithPrimary(Stored(t, d), d);
      && r.Some? && InReplicaSet(r.value.kind) && Replicating(t, d) && !Vouching(t, d)
      && r.value.servers == if HeldOfItself(t, d).Some? then s else s.Delete(d.address)
  {
    hide ServerDescription.AllHosts, Stale, CheckHasPrimary;
    CheckedKind(Stored(t, d).servers);
    CheckedKind(Stored(t, d).servers.Delete(d.address));
  }

  /** Any server but a primary reports to a set with a primary. */
  lemma MemberDecides(t: Topology, d: ServerDescription)
    requires Inv(t) && WellTyped(d) && t.kind == ReplicaSetWithPrimary && d.kind != RSPrimary
    ensures Stored(t, d).servers.Ok()
    ensures var r := AfterWithPrimary(Stored(t, d), d);
      r.Some? && Holds(r.value.servers, t, d) && InReplicaSet(r.value.kind)
  {
    hide AfterWithPrimary, OneOther, HeldOfItself, Vouching, Holds, Replicating, NoPrimary, AtMostOnePrimary;
    StoredAt(t, d);
    WithPrimaryServers(t, d);
    KnownHolds(t, d, Stored(t, d).servers);
  }

  lemma CheckedKind(s: Servers)
    ensures InReplicaSet(CheckHasPrimary(s))
  {
  }

  lemma NoSecondPass(t: Decision, d: ServerDescription)
    requires t.servers.Ok() && t.kind != ReplicaSetWithPrimary
    ensures AfterWithPrimary(t, d) == Some(t)
  {
  }

  lemma OthersDecide(t: Topology, d: ServerDescription)
    requires Inv(t) && WellTyped(d) && Replicating(t, d) && d.kind != RSPrimary
    ensures Updated(t, d).Some?
    ensures Holds(Updated(t, d).value.servers, t, d) && InReplicaSet(Updated(t, d).value.kind)
  {
    hide AfterNoPrimary, AfterWithPrimary, AfterUnknown, AfterSharded, SessionTimeout, Values, Holds, Inv;
    UpdatedKeepsInv(t, d);
    EarlyDecision(t, d);
    StoredAt(t, d);
    InvKeyed(t);
    var t2 := AfterSharded(AfterUnknown(Stored(t, d), d), d);
    StagesSkip(t2, d);
    if t.kind == ReplicaSetWithPrimary {
      MemberDecides(t, d);
    } else {
      VouchingDecides(t, d);
      assert t2 == Stored(t, d).(kind := ReplicaSetNoPrimary);
      NoSecondPass(AfterNoPrimary(t2, d), d);
    }
  }

  // ---------- the whole update ----------

  /** A primary is held exactly when the reference says so. */
  lemma PrimaryHeld(t: Topology, d: ServerDescription, s: Servers)
    requires Holds(s, t, d) && Replicating(t, d)
    ensures TypeBy(t, d) == ReplicaSetWithPrimary ==> exists a :: IsPrimary(s, a)
    ensures (exists a :: IsPrimary(s, a)) ==> TypeBy(t, d) == ReplicaSetWithPrimary
  {
    hide ServerDescription.AllHosts, Stale;
    if TypeBy(t, d) == ReplicaSetWithPrimary {
      if HeldOfItself(t, d) == Some(d) && d.kind == RSPrimary {
        assert IsPrimary(s, d.address);
      } else {
        var a :| a in t.servers.at && a != d.address && IsPrimary(t.servers, a);
        assert IsPrimary(s, a);
      }
    }
  }

  /** The type follows from what is held. */
  lemma TypeFollows(t: Topology, d: ServerDescription, u: Topology)
    requires Inv(u) && Replicating(t, d) && t.kind != Single && InReplicaSet(u.kind) && Holds(u.servers, t, d)
    ensures u.kind == TypeBy(t, d)
  {
    hide ServerDescription.AllHosts, Stale, HeldOfItself, Holds, Believed;
    PrimaryHeld(t, d, u.servers);
  }

  /** After any answer, the type, and for every address whether a server is held and as what. */
  lemma UpdatedExact(t: Topology, d: ServerDescription)
    requires Inv(t) && WellTyped(d)
    ensures Updated(t, d).Some?
    ensures var u := Updated(t, d).value; u.kind == TypeBy(t, d) && Holds(u.servers, t, d)
  {
    hide Updated, Inv, Holds, HeldOfItself;
    UpdatedKeepsInv(t, d);
    InvKeyed(t);
    if !Replicating(t, d) {
      OutsideDecides(t, d);
    } else if d.kind == RSPrimary {
      PrimaryDecides(t, d);
      TypeFollows(t, d, Updated(t, d).value);
    } else {
      OthersDecide(t, d);
      TypeFollows(t, d, Updated(t, d).value);
    }
  }

  /** Whether the answer may name the set. */
  predicate Naming(t: Topology, d: ServerDescription) {
    Replicating(t, d) && (d.kind == RSPrimary || (IsMember(d.kind) && t.kind != ReplicaSetWithPrimary))
  }

  /** An answer of a server that is no primary takes the set's name over if there is none yet, and leaves the maxima. */
  lemma OthersSay(t: Topology, d: ServerDescription)
    requires Inv(t) && WellTyped(d) && (d.kind != RSPrimary || t.kind == Sharded)
    ensures Updated(t, d).Some?
    ensures var u := Updated(t, d).value;
      && u.setName == (if Naming(t, d) && t.setName.None? then d.setName else t.setName)
      && u.maxSetVersion == NonZero(t.maxSetVersion) && u.maxElectionId == t.maxElectionId
  {
    hide FromPrimary, SessionTimeout, Values, Discover, CheckHasPrimary, Inv, ServerDescription.AllHosts;
    UpdatedKeepsInv(t, d);
    InvKeyed(t);
  }

  /**
   * The set's name is the first one reported; the maxima are raised by a primary that is believed, the set version only
   * to a higher one and the election id only together with a set version; a set version of zero is forgotten.
   */
  lemma MaximaExact(t: Topology, d: ServerDescription)
    requires Inv(t) && WellTyped(d)
    ensures Updated(t, d).Some?
    ensures var u := Updated(t, d).value;
      && u.setName == (if Naming(t, d) && t.setName.None? then d.setName else t.setName)
      && u.maxElectionId == (if Believed(t, d) && HasBoth(d) then d.electionId else t.maxElectionId)
      && (var higher := d.setVersion.Some? && (t.maxSetVersion.None? || d.setVersion.value > t.maxSetVersion.value);
          u.maxSetVersion == NonZero(if Believed(t, d) && higher then d.setVersion else t.maxSetVersion))
  {
    hide Updated, Inv, Accepted, Stale, CheckHasPrimary, ServerDescription.AllHosts;
    UpdatedMaxima(t, d);
    InvKeyed(t);
    if d.kind != RSPrimary || t.kind == Sharded {
      OthersSay(t, d);
    }
  }

  /** Once a deployment is a single server it stays one, whatever that server answers. */
  lemma SingleStays(t: Topology, d: ServerDescription)
    requires t.kind == Single && t.servers.Ok()
    ensures var u := Updated(t, d);
      && u.Some? && u.value.kind == Single && u.value.servers.at == t.servers.at[d.address := d]
      && u.value.setName == t.setName && u.value.maxElectionId == t.maxElectionId
      && u.value.maxSetVersion == NonZero(t.maxSetVersion)
  {
    SetOk(t.servers, d.address, d);
  }

  /** Whatever the state, an update raises the TypeError exactly for a member of a set with a primary but no name. */
  lemma ThrowsExact(t: Topology, d: ServerDescription)
    requires t.servers.Ok()
    ensures Updated(t, d).None? <==> t.kind == ReplicaSetWithPrimary && IsMember(d.kind) && t.setName.None?
  {
    hide FromPrimary, SessionTimeout, Values, Discover, CheckHasPrimary, ServerDescription.AllHosts;
  }

  /** The deployment is compatible exactly if every server heard from speaks a wire version from 2 to 8. */
  lemma CompatibleExact(t: Topology, d: ServerDescription)
    requires t.servers.Ok() && Updated(t, d).Some?
    ensures var u := Updated(t, d).value;
      u.compatible <==> forall a <- u.servers.at ::
        u.servers.at[a].kind == UnknownServer
        || (u.servers.at[a].minWireVersion <= 8 && 2 <= u.servers.at[a].maxWireVersion)
  {
    hide AfterNoPrimary, AfterWithPrimary, AfterUnknown, AfterSharded;
    MadeOk(t, d);
    var u := Updated(t, d).value;
    var values := Values(u.servers);
    forall a | a in u.servers.at ensures u.servers.at[a] in values {
      var i :| 0 <= i < |u.servers.order| && u.servers.order[i] == a;
      assert values[i] == u.servers.at[a];
    }
    forall x | x in values ensures exists a <- u.servers.at :: u.servers.at[a] == x {
      var i :| 0 <= i < |values| && values[i] == x;
      assert u.servers.order[i] in u.servers.at;
    }
  }

  lemma MadeOk(t: Topology, d: ServerDescription)
    requires t.servers.Ok() && Updated(t, d).Some?
    ensures var u := Updated(t, d).value;
      && u.servers.Ok() && (u.compatible <==> forall x <- Values(u.servers) :: Supported(x))
      && u.commonWireVersion == NonZero(WireVersion(t.commonWireVersion, d))
  {
    hide AfterNoPrimary, AfterWithPrimary, AfterUnknown, AfterSharded, SessionTimeout;
    SetOk(t.servers, d.address, d);
    var t2 := AfterSharded(AfterUnknown(Stored(t, d), d), d);
    if t.kind != Single {
      EarlyOk(t, d);
      NoPrimaryOk(t2, d);
      WithPrimaryOk(AfterNoPrimary(t2, d), d);
    }
  }

  lemma EarlyOk(t: Topology, d: ServerDescription)
    requires Stored(t, d).servers.Ok()
    ensures AfterSharded(AfterUnknown(Stored(t, d), d), d).servers.Ok()
  {
    DeleteOk(Stored(t, d).servers, d.address);
    DeleteOk(AfterUnknown(Stored(t, d), d).servers, d.address);
  }

  // ---------- runs from a seed list ----------

  /** The wire version held in common is the least one any answer of the run reported, zero aside. */
  lemma {:induction false} CommonIsLeast(t: Topology, ds: seq<ServerDescription>)
    requires Initial(t) && t.commonWireVersion.None? && forall d <- ds :: WellTyped(d)
    ensures RunUpdates(Some(t), ds).Some?
    ensures var c := RunUpdates(Some(t), ds).value.commonWireVersion;
      && (c.None? <==> forall d <- ds :: d.maxWireVersion == 0)
      && (c.Some? ==> exists d <- ds :: d.maxWireVersion != 0 && d.maxWireVersion == c.value)
      && (c.Some? ==> forall d <- ds | d.maxWireVersion != 0 :: c.value <= d.maxWireVersion)
    decreases |ds|
  {
    hide Updated, Inv, Initial;
    RunsKeepInv(t, ds);
    if ds == [] {
    } else {
      var before, d := ds[..|ds| - 1], ds[|ds| - 1];
      assert ds == before + [d];
      RunsKeepInv(t, before);
      CommonIsLeast(t, before);
      InvKeyed(RunUpdates(Some(t), before).value);
      MadeOk(RunUpdates(Some(t), before).value, d);
    }
  }

  /**
   * What an unknown deployment is taken for: unknown still while only standalones have answered, sharded exactly if the
   * first other answer is a mongos's, and otherwise a replica set, for good.
   */
  lemma {:induction false} TypeOfRun(t: Topology, ds: seq<ServerDescription>)
    requires Initial(t) && t.kind == Unknown && forall d <- ds :: WellTyped(d)
    ensures RunUpdates(Some(t), ds).Some?
    ensures var kind := RunUpdates(Some(t), ds).value.kind;
      && (kind == Unknown <==> forall d <- ds :: d.kind == Standalone)
      && (kind == Sharded <==> exists k | 0 <= k < |ds| ::
            ds[k].kind == Mongos && forall j | 0 <= j < k :: ds[j].kind == Standalone)
      && (kind == Unknown || kind == Sharded || InReplicaSet(kind))
    decreases |ds|
  {
    hide Updated, Inv, Initial, TypeBy, Holds;
    RunsKeepInv(t, ds);
    if ds == [] {
    } else {
      var before, d := ds[..|ds| - 1], ds[|ds| - 1];
      assert ds == before + [d];
      RunsKeepInv(t, before);
      TypeOfRun(t, before);
      var t1 := RunUpdates(Some(t), before).value;
      InvKeyed(t1);
      UpdatedExact(t1, d);
      TypeByFamily(t1, d);
    }
  }

  lemma TypeByFamily(t: Topology, d: ServerDescription)
    requires t.kind != Single
    ensures var kind := TypeBy(t, d);
      && (kind == Unknown <==> t.kind == Unknown && d.kind == Standalone)
      && (kind == Sharded <==> t.kind == Sharded || (t.kind == Unknown && d.kind == Mongos))
      && (kind == Unknown || kind == Sharded || InReplicaSet(kind))
  {
    hide HeldOfItself, Believed;
  }

  /** A seed that cannot be reached at first is given up: a deployment of that one address is left without any. */
  lemma SilentSeedIsDropped(t: Topology, d: ServerDescription)
    requires Initial(t) && t.servers.at.Keys == {d.address} && d == Blank(d.address, d.lastUpdateTime)
    ensures Updated(t, d).Some?
    ensures Updated(t, d).value.kind == ReplicaSetNoPrimary && Updated(t, d).value.servers.at == map[]
  {
    hide Updated, Stale, ServerDescription.AllHosts;
    UpdatedExact(t, d);
    var u := Updated(t, d).value;
    assert forall a :: a !in u.servers.at by {
      forall a ensures a !in u.servers.at {
        assert a in t.servers.at <==> a in t.servers.at.Keys;
        assert Held(t, d, a).None?;
      }
    }
  }
}
