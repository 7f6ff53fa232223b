/** What every run of the legacy replica-set state keeps. */
module LegacyProofs {
  import opened Bytes
  import opened Lists
  import Order
  import opened Legacy

  // ---------- elections never go back ----------

  /** The highest election id never gets lower. */
  predicate IdAdvances(a: Maxima, b: Maxima) {
    a.electionId.Some? ==> b.electionId.Some? && Order.AtMost(a.electionId.value, b.electionId.value)
  }

  function VersionOf(v: Option<int>): int {
    if v.Some? then v.value else 0
  }

  /** The pair of the highest election id and its set version never gets lower, the id deciding first. */
  predicate Advances(a: Maxima, b: Maxima) {
    && IdAdvances(a, b)
    && (a.electionId == b.electionId ==> VersionOf(a.setVersion) <= VersionOf(b.setVersion))
  }

  /** Whoever claims to be primary reports an election id and a positive set version. */
  predicate Complete(im: IsMaster) {
    im.ClaimsPrimary() ==> im.electionId.Some? && im.setVersion.Some? && im.setVersion.value >= 1
  }

  lemma ClaimsAdvance(max: Maxima, im: IsMaster)
    ensures FirstMaxima(max, im).Some? ==> IdAdvances(max, FirstMaxima(max, im).value)
    ensures ReplaceMaxima(max, im).Some? ==> IdAdvances(max, ReplaceMaxima(max, im).value)
    ensures im.ClaimsPrimary() && Complete(im) && FirstMaxima(max, im).Some? ==>
      Advances(max, FirstMaxima(max, im).value)
    ensures im.ClaimsPrimary() && Complete(im) && ReplaceMaxima(max, im).Some? ==>
      Advances(max, ReplaceMaxima(max, im).value)
  {
    if max.electionId.Some? {
      Order.Irreflexive(max.electionId.value);
    }
  }

  /** An answer of a member that does not claim to be primary leaves the maxima alone. */
  lemma OnlyClaimsCount(s: State, name: Name, im: IsMaster)
    requires !im.ClaimsPrimary()
    ensures MaximaOf(Update(s, name, Some(im)).0) == MaximaOf(s)
  {
    hide Early, Member, Suspect, AddHosts;
    var s1 := s.(entries := AddHosts(s.entries, im.AllHosts()));
    EarlyCountsNothing(s1, name, im);
    MemberCountsNothing(Suspect(s1, im), name, im);
    SuspectCountsNothing(s1, im);
  }

  lemma EarlyCountsNothing(s: State, name: Name, im: IsMaster)
    ensures Early(s, name, im).Some? ==> MaximaOf(Early(s, name, im).value) == MaximaOf(s)
  {
    hide Without;
  }

  lemma MemberCountsNothing(s: State, name: Name, im: IsMaster)
    ensures MaximaOf(Member(s, name, im).0) == MaximaOf(s)
  {
  }

  lemma SuspectCountsNothing(s: State, im: IsMaster)
    ensures MaximaOf(Suspect(s, im)) == MaximaOf(s)
  {
  }

  lemma SelfAdvances(max: Maxima)
    ensures Advances(max, max)
  {
    if max.electionId.Some? {
      Order.Irreflexive(max.electionId.value);
    }
  }

  lemma UpdateAdvances(s: State, e: Event)
    ensures IdAdvances(MaximaOf(s), MaximaOf(Step(s, e)))
    ensures (e.Answered? && e.answer.Some? ==> Complete(e.answer.value)) ==> Advances(MaximaOf(s), MaximaOf(Step(s, e)))
  {
    hide IdAdvances, Advances, FirstMaxima, ReplaceMaxima, AddHosts, Outdated, Without, Early, Member, Suspect;
    SelfAdvances(MaximaOf(s));
    AdvancesBoth(MaximaOf(s), MaximaOf(s));
    if e.Answered? && e.answer.Some? {
      var im := e.answer.value;
      if im.ClaimsPrimary() {
        ClaimsAdvance(MaximaOf(s), im);
        EarlyCountsNothing(s.(entries := AddHosts(s.entries, im.AllHosts())), e.name, im);
      } else {
        OnlyClaimsCount(s, e.name, im);
      }
    }
  }

  lemma AdvancesBoth(a: Maxima, b: Maxima)
    ensures Advances(a, b) ==> IdAdvances(a, b)
  {
  }

  lemma AdvancesTransitive(a: Maxima, b: Maxima, c: Maxima)
    ensures IdAdvances(a, b) && IdAdvances(b, c) ==> IdAdvances(a, c)
    ensures Advances(a, b) && Advances(b, c) ==> Advances(a, c)
  {
    if a.electionId.Some? && b.electionId.Some? && c.electionId.Some? && IdAdvances(a, b) && IdAdvances(b, c) {
      Order.AtMostTransitive(a.electionId.value, b.electionId.value, c.electionId.value);
      if a.electionId == c.electionId {
        Order.Total(a.electionId.value, b.electionId.value);
      }
    }
  }

  function Run(s: State, es: seq<Event>): State {
    if es == [] then s else Step(Run(s, es[..|es| - 1]), es[|es| - 1])
  }

  /** Over any run, whatever is answered, the election id never decreases; with complete claims the pair does not. */
  lemma {:induction false} RunsAdvance(s: State, es: seq<Event>, k: nat)
    requires k <= |es|
    ensures IdAdvances(MaximaOf(Run(s, es[..k])), MaximaOf(Run(s, es)))
    ensures (forall e <- es | e.Answered? && e.answer.Some? :: Complete(e.answer.value)) ==>
      Advances(MaximaOf(Run(s, es[..k])), MaximaOf(Run(s, es)))
    decreases |es|
  {
    hide IdAdvances, Advances, Step, Complete;
    if k == |es| {
      assert es[..k] == es;
      SelfAdvances(MaximaOf(Run(s, es)));
      AdvancesBoth(MaximaOf(Run(s, es)), MaximaOf(Run(s, es)));
    } else {
      var before := es[..|es| - 1];
      assert before[..k] == es[..k] && es == before + [es[|es| - 1]];
      RunsAdvance(s, before, k);
      UpdateAdvances(Run(s, before), es[|es| - 1]);
      AdvancesTransitive(MaximaOf(Run(s, es[..k])), MaximaOf(Run(s, before)), MaximaOf(Run(s, es)));
    }
  }

  /** Settled by nothing before the elections. */
  predicate Settled(name: Name, im: IsMaster) {
    !im.isMongos && !im.isReplicaSet && !IsOther(im) && (im.isMaster ==> im.setName.Some?)
    && (im.isMaster || im.secondary || im.arbiterOnly)
  }

  /** A claim without a primary is refused for its set name; with one, for its entry, its names or its ids. */
  predicate Considered(s: State, name: Name, im: IsMaster) {
    && Settled(name, im) && !NotMe(name, im)
    && if s.primary.None? then s.setName.None? || s.setName == im.setName
       else
         var p := s.primary.value;
         && (p in s.entries || p in im.AllHosts())
         && var cur := if p in s.entries then s.entries[p] else BLANK;
         && !(p == name && cur.setName == im.setName)
         && (cur.setName.None? || cur.setName == im.setName)
         && !Outdated(cur, MaximaOf(s), im)
  }

  /**
   * Exactly which claims lower the pair: those considered whose set version is below the highest, and which, without a
   * primary, repeat the highest election id without a set version, or, with one, miss an id.
   */
  lemma LoweredExact(s: State, name: Name, im: IsMaster)
    requires im.ClaimsPrimary() && (im.setVersion.Some? ==> im.setVersion.value >= 0) && VersionOf(s.maxSetVersion) >= 0
    ensures !Advances(MaximaOf(s), MaximaOf(Update(s, name, Some(im)).0)) <==>
      && Considered(s, name, im)
      && VersionOf(im.setVersion) < VersionOf(s.maxSetVersion)
      && if s.primary.None? then im.electionId.Some? && im.electionId == s.maxElectionId && !Given(im.setVersion)
         else im.electionId.None? || (im.electionId == s.maxElectionId && im.setVersion.None?)
  {
    hide AddHosts, Outdated, Without, Early;
    var s1 := s.(entries := AddHosts(s.entries, im.AllHosts()));
    EarlyCountsNothing(s1, name, im);
    EarlyNone(s1, name, im);
    if s.maxElectionId.Some? {
      Order.Irreflexive(s.maxElectionId.value);
    }
    if im.electionId.Some? && s.maxElectionId.Some? {
      Order.Total(im.electionId.value, s.maxElectionId.value);
    }
  }

  // ---------- the primary and its entry ----------

  ghost predicate Anchored(s: State) {
    s.primary.Some? ==> s.primary.value in s.entries
  }

  /** The believed primary, if it reported an election id, reported the highest one seen. */
  ghost predicate Elected(s: State) {
    s.primary.Some? && s.primary.value in s.entries ==>
      var e := s.entries[s.primary.value];
      e.kind == RSPrimary && e.electionId.Some? ==> s.maxElectionId == e.electionId
  }

  /** The lists reads are spread over name no server twice, and the primary not at all. */
  ghost predicate Listed(s: State) {
    && Distinct(s.secondaries) && Distinct(s.passives)
    && (s.primary.Some? ==> s.primary.value !in s.secondaries && s.primary.value !in s.passives)
  }

  ghost predicate Inv(s: State) {
    Anchored(s) && Elected(s) && Listed(s)
  }

  /** The believed primary does not report another name for itself. */
  predicate Steady(s: State, e: Event) {
    e.Answered? && e.answer.Some? && s.primary == Some(e.name) ==> !NotMe(e.name, e.answer.value)
  }

  lemma DroppedListed(s: State, name: Name)
    requires Distinct(s.secondaries) && Distinct(s.passives)
    ensures var a, b := Without(s.secondaries, name), Without(s.passives, name);
      Distinct(a) && Distinct(b) && name !in a && name !in b
  {
    WithoutMembers(s.secondaries, name);
    WithoutMembers(s.passives, name);
  }

  lemma EnthronedKeeps(s: State, name: Name, im: IsMaster)
    requires Distinct(s.secondaries) && Distinct(s.passives)
    requires im.electionId.Some? ==> s.maxElectionId == im.electionId
    ensures Inv(Enthroned(s, name, im))
  {
    DroppedListed(s, name);
  }

  lemma ClaimedId(max: Maxima, im: IsMaster)
    requires im.electionId.Some?
    ensures FirstMaxima(max, im).Some? ==> FirstMaxima(max, im).value.electionId == im.electionId
    ensures ReplaceMaxima(max, im).Some? ==> ReplaceMaxima(max, im).value.electionId == im.electionId
  {
  }

  lemma FirstPrimaryKeeps(s: State, name: Name, im: IsMaster)
    requires Inv(s) && s.primary.None?
    ensures Inv(FirstPrimary(s, name, im).0) && FirstPrimary(s, name, im).1 != Thrown
  {
    hide FirstMaxima, Enthroned, Distinct;
    var max := FirstMaxima(MaximaOf(s), im);
    if max.Some? {
      if im.electionId.Some? {
        ClaimedId(MaximaOf(s), im);
      }
      EnthronedKeeps(s.(maxElectionId := max.value.electionId, maxSetVersion := max.value.setVersion), name, im);
    }
  }

  lemma ReplacePrimaryKeeps(s: State, name: Name, im: IsMaster)
    requires Inv(s) && s.primary.Some?
    ensures Inv(ReplacePrimary(s, name, im).0) && ReplacePrimary(s, name, im).1 != Thrown
  {
    hide ReplaceMaxima, Enthroned, Distinct, Outdated;
    var max := ReplaceMaxima(MaximaOf(s), im);
    if max.Some? {
      if im.electionId.Some? {
        ClaimedId(MaximaOf(s), im);
      }
      EnthronedKeeps(
        s.(maxElectionId := max.value.electionId, maxSetVersion := max.value.setVersion,
           entries := s.entries[s.primary.value := BLANK]), name, im);
    }
  }

  lemma RemovedKeeps(s: State, name: Name)
    requires Inv(s)
    ensures Inv(Removed(s, name))
  {
    DroppedListed(s, name);
  }

  lemma EarlyKeeps(s: State, name: Name, im: IsMaster)
    requires Inv(s) && Steady(s, Answered(name, Some(im))) && Early(s, name, im).Some?
    ensures Inv(Early(s, name, im).value)
  {
    hide Removed, Distinct;
    RemovedKeeps(s, name);
  }

  predicate Joins(s: State, name: Name, im: IsMaster) {
    JoinsSecondaries(s, name, im) || JoinsArbiters(s, name, im) || JoinsPassives(s, name, im)
  }

  lemma MemberKeeps(s: State, name: Name, im: IsMaster)
    requires Inv(s) && !im.ClaimsPrimary()
    ensures Inv(Member(s, name, im).0)
    ensures Member(s, name, im).1 == Thrown <==>
      if Joins(s, name, im) then name !in s.entries
      else s.primary.None? && name in s.entries && s.entries[name].kind == RSPrimary
  {
    hide Distinct;
    if name !in s.secondaries {
      DistinctAppend(s.secondaries, name);
    }
    if name !in s.passives {
      DistinctAppend(s.passives, name);
    }
  }

  lemma SuspectKeeps(s: State, im: IsMaster)
    requires Inv(s)
    ensures Inv(Suspect(s, im))
  {
  }

  lemma HostsKeep(s: State, hosts: seq<Name>)
    requires Inv(s)
    ensures Inv(s.(entries := AddHosts(s.entries, hosts)))
  {
  }

  lemma StepKeeps(s: State, e: Event)
    requires Inv(s) && Steady(s, e)
    ensures Inv(Step(s, e))
  {
    hide Inv, FirstPrimary, ReplacePrimary, Member, Suspect, Removed, AddHosts, Early;
    match e
    case Lost(name, force, connected) =>
      RemovedKeeps(s, name);
    case Answered(name, answer) =>
      if answer.None? {
        SilentKeeps(s, name);
      } else {
        var im := answer.value;
        var s1 := s.(entries := AddHosts(s.entries, im.AllHosts()));
        HostsKeep(s, im.AllHosts());
        if Early(s1, name, im).Some? {
          EarlyKeeps(s1, name, im);
        } else if im.ClaimsPrimary() {
          if s1.primary.None? {
            FirstPrimaryKeeps(s1, name, im);
          } else {
            ReplacePrimaryKeeps(s1, name, im);
          }
        } else {
          SuspectKeeps(s1, im);
          MemberKeeps(Suspect(s1, im), name, im);
        }
      }
  }

  lemma SilentKeeps(s: State, name: Name)
    requires Inv(s)
    ensures Inv(Update(s, name, None).0)
  {
  }

  ghost predicate SteadyRun(s: State, es: seq<Event>) {
    es == [] || (SteadyRun(s, es[..|es| - 1]) && Steady(Run(s, es[..|es| - 1]), es[|es| - 1]))
  }

  /**
   * In every run with a steady primary: it has an entry, which holds the highest election id if it holds one, and the
   * lists that reads are spread over repeat nobody.
   */
  lemma {:induction false} RunsKeep(setName: Option<string>, es: seq<Event>)
    requires SteadyRun(Fresh(setName), es)
    ensures Inv(Run(Fresh(setName), es))
    decreases |es|
  {
    hide Step, Steady;
    if es == [] {
    } else {
      RunsKeep(setName, es[..|es| - 1]);
      StepKeeps(Run(Fresh(setName), es[..|es| - 1]), es[|es| - 1]);
    }
  }

  // ---------- exactly when `update` fails ----------

  /**
   * A TypeError is raised exactly for a member that joins a list without being known as a host, and for one that joins
   * none while its entry is still that of a primary but no primary is believed in.
   */
  lemma ThrownExact(s: State, name: Name, im: IsMaster)
    requires Inv(s)
    ensures Update(s, name, Some(im)).1 == Thrown <==>
      && Settled(name, im) && !NotMe(name, im) && !im.ClaimsPrimary()
      && !(s.primary.None? && im.primary == Some(name))
      && if Joins(s, name, im) then name !in s.entries && name !in im.AllHosts()
         else s.primary.None? && name in s.entries && s.entries[name].kind == RSPrimary
  {
    hide Inv, FirstPrimary, ReplacePrimary, Member, Removed;
    var s1 := s.(entries := AddHosts(s.entries, im.AllHosts()));
    HostsKeep(s, im.AllHosts());
    if Early(s1, name, im).None? {
      if im.ClaimsPrimary() {
        if s1.primary.None? {
          FirstPrimaryKeeps(s1, name, im);
        } else {
          ReplacePrimaryKeeps(s1, name, im);
        }
      } else {
        SuspectKeeps(s1, im);
        MemberKeeps(Suspect(s1, im), name, im);
      }
    }
  }

  /** Exactly the believed primary that reports another name for itself is left without its entry. */
  lemma EntryLostExact(s: State, name: Name, im: IsMaster)
    requires Inv(s)
    ensures var r := Update(s, name, Some(im)).0;
      (r.primary.Some? && r.primary.value !in r.entries) <==>
        s.primary == Some(name) && Settled(name, im) && NotMe(name, im)
  {
    hide FirstPrimary, ReplacePrimary, Member, Elected, Listed;
    var s1 := s.(entries := AddHosts(s.entries, im.AllHosts()));
    HostsKeep(s, im.AllHosts());
    if Early(s1, name, im).None? {
      if im.ClaimsPrimary() {
        if s1.primary.None? {
          FirstPrimaryKeeps(s1, name, im);
        } else {
          ReplacePrimaryKeeps(s1, name, im);
        }
      } else {
        SuspectKeeps(s1, im);
        MemberKeeps(Suspect(s1, im), name, im);
      }
    }
  }

  /** From then on every claim to be primary raises a TypeError. */
  lemma ClaimsThrowWithoutEntry(s: State, name: Name, im: IsMaster)
    requires s.primary.Some? && s.primary.value !in s.entries && s.primary.value !in im.AllHosts()
    requires Settled(name, im) && !NotMe(name, im) && im.ClaimsPrimary()
    ensures Update(s, name, Some(im)).1 == Thrown
  {
  }

  /** No entry but the believed primary's is that of a primary. */
  ghost predicate OneThrone(s: State) {
    forall x <- s.entries | s.entries[x].kind == RSPrimary :: s.primary == Some(x)
  }

  /** The answer ends the belief in the primary but leaves its entry typed as one. */
  predicate LeavesThrone(s: State, name: Name, im: IsMaster) {
    && s.primary == Some(name) && name in s.entries && s.entries[name].kind == RSPrimary
    && (im.isMongos || (Settled(name, im) && !NotMe(name, im) && !im.ClaimsPrimary() && !Joins(s, name, im)))
  }

  lemma OneThroneExact(s: State, name: Name, im: IsMaster)
    requires Inv(s) && OneThrone(s)
    ensures OneThrone(Update(s, name, Some(im)).0) <==> !LeavesThrone(s, name, im)
  {
    hide Inv, OneThrone, FirstPrimary, ReplacePrimary, Member, Early, Joins;
    var s1 := s.(entries := AddHosts(s.entries, im.AllHosts()));
    HostsKeepThrone(s, im.AllHosts(), name, im);
    EarlyNone(s1, name, im);
    if Early(s1, name, im).Some? {
      EarlyThrone(s1, name, im);
    } else if im.ClaimsPrimary() {
      ClaimThrone(s1, name, im);
    } else {
      MemberThrone(s1, name, im);
    }
  }

  lemma HostsKeepThrone(s: State, hosts: seq<Name>, name: Name, im: IsMaster)
    requires Inv(s) && OneThrone(s)
    ensures var s1 := s.(entries := AddHosts(s.entries, hosts));
      Inv(s1) && OneThrone(s1) && LeavesThrone(s1, name, im) == LeavesThrone(s, name, im)
  {
  }

  lemma EarlyNone(s: State, name: Name, im: IsMaster)
    ensures Early(s, name, im).None? <==> Settled(name, im) && !NotMe(name, im)
  {
  }

  lemma EarlyThrone(s: State, name: Name, im: IsMaster)
    requires Inv(s) && OneThrone(s) && Early(s, name, im).Some?
    ensures OneThrone(Early(s, name, im).value) <==> !LeavesThrone(s, name, im)
  {
    hide Without, Distinct, Listed, Elected;
    var r := Early(s, name, im).value;
    if LeavesThrone(s, name, im) {
      assert name in r.entries && r.entries[name].kind == RSPrimary;
    }
  }

  lemma ClaimThrone(s: State, name: Name, im: IsMaster)
    requires Inv(s) && OneThrone(s)
    ensures s.primary.None? ==> OneThrone(FirstPrimary(s, name, im).0)
    ensures s.primary.Some? ==> OneThrone(ReplacePrimary(s, name, im).0)
  {
    hide FirstMaxima, ReplaceMaxima, Outdated, Without, Distinct, Listed, Elected;
  }

  lemma MemberThrone(s: State, name: Name, im: IsMaster)
    requires Inv(s) && OneThrone(s) && Settled(name, im) && !NotMe(name, im) && !im.ClaimsPrimary()
    ensures OneThrone(Member(Suspect(s, im), name, im).0) <==> !LeavesThrone(s, name, im)
  {
    hide Without, Distinct, Listed, Elected;
    var s1 := Suspect(s, im);
    assert Joins(s1, name, im) == Joins(s, name, im);
    var r := Member(s1, name, im).0;
    if LeavesThrone(s, name, im) {
      assert name in r.entries && r.entries[name].kind == RSPrimary;
    }
  }

  /** Whoever left such an entry behind later ends the belief in any other primary, by joining no list. */
  lemma LeftThroneUnseats(s: State, name: Name, im: IsMaster)
    requires Inv(s) && name in s.entries && s.entries[name].kind == RSPrimary
    requires Settled(name, im) && !NotMe(name, im) && !im.ClaimsPrimary() && !Joins(s, name, im)
    ensures s.primary.Some? ==> Update(s, name, Some(im)).0.primary.None?
  {
  }
}
