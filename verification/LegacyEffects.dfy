/** What one answer changes in the legacy replica-set state: who becomes primary, who joins, who leaves. */
module LegacyEffects {
  import opened Bytes
  import opened Lists
  import Order
  import opened Legacy
  import opened LegacyProofs

  // ---------- a claim to be primary ----------

  /** Both ids are known, and the claim's is below the highest. */
  predicate OlderId(s: State, im: IsMaster) {
    s.maxElectionId.Some? && im.electionId.Some? && Order.Less(im.electionId.value, s.maxElectionId.value)
  }

  /** The claim repeats the highest election id, or any with a primary believed in, under a lower set version. */
  predicate OlderVersion(s: State, im: IsMaster) {
    && s.maxElectionId.Some? && im.electionId.Some? && im.setVersion.Some? && s.maxSetVersion.Some?
    && im.setVersion.value < s.maxSetVersion.value
    && (s.primary.Some? || (im.electionId == s.maxElectionId && im.setVersion.value != 0))
  }

  /** The claim is behind what the believed primary itself reported, or behind the highest version if that has no id. */
  predicate BehindEntry(s: State, cur: Entry, im: IsMaster) {
    && im.electionId.Some?
    && if cur.electionId.None? then
         && im.setVersion.Some? && s.maxSetVersion.Some? && im.setVersion.value != 0
         && im.setVersion.value < s.maxSetVersion.value
       else
         || Order.Less(im.electionId.value, cur.electionId.value)
         || (&& im.electionId == cur.electionId && im.setVersion.Some? && cur.setVersion.Some?
             && im.setVersion.value < cur.setVersion.value)
  }

  /** With a primary whose entry is cur, the claim is another server's, of its set, and not behind it. */
  predicate Challenges(s: State, cur: Entry, name: Name, im: IsMaster) {
    && (cur.setName.None? || cur.setName == im.setName)
    && !(s.primary == Some(name) && cur.setName == im.setName)
    && !BehindEntry(s, cur, im)
  }

  predicate Accepted(s: State, name: Name, im: IsMaster) {
    && !OlderId(s, im) && !OlderVersion(s, im)
    && if s.primary.None? then s.setName.None? || s.setName == im.setName
       else s.primary.value in s.entries && Challenges(s, s.entries[s.primary.value], name, im)
  }

  /** An accepted claim enthrones the server, but without a primary only if it lists itself. */
  predicate Enthrones(s: State, name: Name, im: IsMaster) {
    Accepted(s, name, im) && (s.primary.Some? || name in im.hosts)
  }

  /** The entry of x after a claim. */
  function EntryAfter(s: State, name: Name, im: IsMaster, x: Name): Option<Entry> {
    if Enthrones(s, name, im) && x == name then Some(Entry(RSPrimary, im.setVersion, im.electionId, im.setName))
    else if Enthrones(s, name, im) && s.primary == Some(x) then Some(BLANK)
    else if x in s.entries then Some(s.entries[x])
    else if x in im.AllHosts() then Some(BLANK)
    else None
  }

  /** The maxima after an accepted claim. */
  function MaximaAfter(s: State, im: IsMaster): Maxima {
    Maxima(if im.electionId.Some? then im.electionId else s.maxElectionId,
           if im.electionId.Some? && s.maxElectionId.Some? then im.setVersion
           else if im.electionId.None? && s.primary.Some? then im.setVersion
           else s.maxSetVersion)
  }

  ghost predicate EntriesAre(r: State, s: State, name: Name, im: IsMaster) {
    forall x ::
      && (x in r.entries <==> EntryAfter(s, name, im, x).Some?)
      && (x in r.entries ==> Some(r.entries[x]) == EntryAfter(s, name, im, x))
  }

  /** A claim while no primary is believed in. */
  lemma ClaimWithout(s: State, name: Name, im: IsMaster)
    requires s.primary.None? && im.ClaimsPrimary()
    requires forall h <- im.AllHosts() :: h in s.entries
    ensures var (r, reply) := FirstPrimary(s, name, im);
      && (reply == Changed <==> Accepted(s, name, im))
      && (reply == WrongSetName <==> s.setName.Some? && s.setName != im.setName)
      && reply != Thrown && ClaimOutcome(s, name, im, r, reply)
  {
    hide Without, Outdated, IsMaster.AllHosts;
    if s.maxElectionId.Some? {
      Order.Irreflexive(s.maxElectionId.value);
    }
  }

  /** A claim against a believed primary that has an entry. */
  lemma ClaimAgainst(s: State, name: Name, im: IsMaster)
    requires s.primary.Some? && s.primary.value in s.entries && im.ClaimsPrimary()
    requires forall h <- im.AllHosts() :: h in s.entries
    ensures var (r, reply) := ReplacePrimary(s, name, im);
      && (reply == Changed <==> Accepted(s, name, im))
      && (reply == Changed || reply == Ignored) && ClaimOutcome(s, name, im, r, reply)
  {
    hide Without, IsMaster.AllHosts;
    if s.maxElectionId.Some? {
      Order.Irreflexive(s.maxElectionId.value);
    }
  }

  /** What a claim leaves: all that an accepted one changes, and nothing for any other. */
  ghost predicate ClaimOutcome(s: State, name: Name, im: IsMaster, r: State, reply: Reply) {
    var enthroned := Enthrones(s, name, im);
    && EntriesAre(r, s, name, im)
    && (reply != Changed ==> r == s)
    && (reply == Changed ==> MaximaOf(r) == MaximaAfter(s, im))
    && r.primary == (if enthroned then Some(name) else s.primary)
    && r.setName == (if enthroned then im.setName else s.setName)
    && r.secondaries == (if enthroned then Without(s.secondaries, name) else s.secondaries)
    && r.passives == (if enthroned then Without(s.passives, name) else s.passives)
    && r.arbiters == s.arbiters
  }

  /** The state once the hosts an answer lists are known. */
  function Heard(s: State, im: IsMaster): (r: State)
    ensures r == s.(entries := r.entries)
    ensures forall x :: x in r.entries <==> x in s.entries || x in im.AllHosts()
    ensures forall x <- r.entries :: r.entries[x] == if x in s.entries then s.entries[x] else BLANK
  {
    s.(entries := AddHosts(s.entries, im.AllHosts()))
  }

  /** Whatever the state, a claim is accepted by its ids, versions and names alone, and does exactly this. */
  lemma ClaimExact(s: State, name: Name, im: IsMaster)
    requires im.ClaimsPrimary() && Settled(name, im) && !NotMe(name, im)
    requires s.primary.Some? ==> s.primary.value in s.entries
    ensures var (r, reply) := Update(s, name, Some(im));
      && (reply == Changed <==> Accepted(Heard(s, im), name, im))
      && (reply == WrongSetName <==> s.primary.None? && s.setName.Some? && s.setName != im.setName)
      && reply != Thrown && ClaimOutcome(Heard(s, im), name, im, r, reply)
  {
    hide Early, FirstPrimary, ReplacePrimary, AddHosts, Accepted, ClaimOutcome;
    EarlyNone(Heard(s, im), name, im);
    if s.primary.None? {
      ClaimWithout(Heard(s, im), name, im);
    } else {
      ClaimAgainst(Heard(s, im), name, im);
    }
  }

  /** A newer claim of another member of the set takes the throne, whoever holds it. */
  lemma NewerClaimWins(s: State, name: Name, im: IsMaster)
    requires Inv(s) && s.primary.Some? && s.primary != Some(name)
    requires var cur := s.entries[s.primary.value]; cur.kind == RSPrimary && cur.setName == im.setName
    requires im.ClaimsPrimary() && Settled(name, im) && !NotMe(name, im) && Complete(im)
    requires s.maxElectionId.Some? && Order.Less(s.maxElectionId.value, im.electionId.value)
    requires s.maxSetVersion.Some? ==> s.maxSetVersion.value <= im.setVersion.value
    ensures var (r, reply) := Update(s, name, Some(im));
      && reply == Changed && r.primary == Some(name) && MaximaOf(r) == Maxima(im.electionId, im.setVersion)
      && s.primary.value in r.entries && r.entries[s.primary.value] == BLANK
  {
    hide Update, IsMaster.AllHosts;
    ClaimExact(s, name, im);
    Order.Irreflexive(s.maxElectionId.value);
    NotBoth(s.maxElectionId.value, im.electionId.value);
    assert EntryAfter(Heard(s, im), name, im, s.primary.value) == Some(BLANK);
  }

  lemma NotBoth(a: ElectionId, b: ElectionId)
    requires Order.Less(a, b)
    ensures !Order.Less(b, a)
  {
    if Order.Less(b, a) {
      Order.Transitive(a, b, a);
      Order.Irreflexive(a);
    }
  }

  // ---------- the other answers ----------

  /** Which list an answering member joins; secondaries before arbiters before passives. */
  datatype List = Secondaries | Arbiters | Passives | NoList

  function Joined(s: State, name: Name, im: IsMaster): List {
    if s.setName.None? || s.setName != im.setName then NoList
    else if im.secondary && name !in s.secondaries then Secondaries
    else if im.arbiterOnly && name !in s.arbiters then Arbiters
    else if im.passive && name !in s.passives then Passives
    else NoList
  }

  /** The state in which a member is sorted in: hosts known, a primary it names suspected if none is believed in. */
  function Sorting(s: State, im: IsMaster): State {
    var s1 := Heard(s, im);
    if s.primary.None? && im.primary.Some?
    then s1.(entries := s1.entries[im.primary.value := Entry(PossiblePrimary, None, None, None)]) else s1
  }

  /**
   * A known member that claims nothing joins the first list it may, typed accordingly, and is primary no more if it
   * becomes readable; one that joins none changes nothing, unless its entry is a primary's.
   */
  lemma MemberExact(s: State, name: Name, im: IsMaster)
    requires !im.ClaimsPrimary() && Settled(name, im) && !NotMe(name, im) && name in Sorting(s, im).entries
    ensures var (r, reply) := Update(s, name, Some(im));
      var s1, list := Sorting(s, im), Joined(s, name, im);
      var kind := if list == Arbiters then RSArbiter else RSSecondary;
      && r.secondaries == s.secondaries + (if list == Secondaries then [name] else [])
      && r.arbiters == s.arbiters + (if list == Arbiters then [name] else [])
      && r.passives == s.passives + (if list == Passives then [name] else [])
      && r.entries == (if list == NoList then s1.entries
                       else s1.entries[name := Entry(kind, im.setVersion, im.electionId, im.setName)])
      && MaximaOf(r) == MaximaOf(s) && r.setName == s.setName
      && (var throne := s1.entries[name].kind == RSPrimary;
          && r.primary == (if list == NoList then if throne then None else s.primary
                           else if list != Arbiters && s.primary == Some(name) then None else s.primary)
          && reply == (if list != NoList then Changed
                       else if throne && s.primary.None? then Thrown else Ignored))
  {
    hide Early, AddHosts, IsMaster.AllHosts;
    EarlyNone(Heard(s, im), name, im);
    assert s.secondaries + [] == s.secondaries && s.arbiters + [] == s.arbiters && s.passives + [] == s.passives;
  }

  /** A server that is lost leaves both lists reads are spread over, its entry and the throne. */
  lemma LostExact(s: State, name: Name, force: bool, connected: bool)
    requires Inv(s)
    ensures var r := Step(s, Lost(name, force, connected));
      var kept := !force && connected && (s.primary == Some(name) || name in s.secondaries || name in s.arbiters
                                          || name in s.passives);
      if kept then r == s
      else
        && (forall x :: x in r.secondaries <==> x in s.secondaries && x != name)
        && (forall x :: x in r.passives <==> x in s.passives && x != name)
        && r.arbiters == Without(s.arbiters, name)
        && r.primary == (if s.primary == Some(name) then None else s.primary)
        && r.entries == (if name in s.entries then s.entries[name := BLANK] else s.entries)
        && MaximaOf(r) == MaximaOf(s) && r.setName == s.setName
  {
    hide Without, Distinct;
    WithoutMembers(s.secondaries, name);
    WithoutMembers(s.passives, name);
  }

  /** An answer that names no role takes the server out as if it were lost. */
  lemma RolelessExact(s: State, name: Name, im: IsMaster)
    requires !im.isMongos && !im.isReplicaSet
    requires if im.isMaster then im.setName.None?
      else !im.secondary && !im.arbiterOnly && (im.setName.None? || (im.passive && !im.hidden))
    ensures Update(s, name, Some(im)) == (Step(Heard(s, im), Lost(name, true, false)), Ignored)
  {
    hide AddHosts, Without;
  }

  /** A mongos or ghost is not primary any more; a ghost, a hidden and any other member are typed so, naming the set. */
  lemma OutsidersExact(s: State, name: Name, im: IsMaster)
    requires im.isMongos || im.isReplicaSet
      || (im.setName.Some? && (im.hidden || (!im.isMaster && !im.secondary && !im.arbiterOnly && !im.passive)))
    ensures var (r, reply) := Update(s, name, Some(im));
      var s1 := Heard(s, im);
      var ghostly := !im.isMongos && im.isReplicaSet;
      && reply == Ignored
      && r.primary == (if (im.isMongos || im.isReplicaSet) && s.primary == Some(name) then None else s.primary)
      && r.entries == (if im.isMongos then s1.entries
                       else s1.entries[name := Entry(if ghostly then RSGhost else RSOther, None, None, im.setName)])
      && r.setName == (if im.isMongos || im.setName.None? then s.setName else im.setName)
      && r.secondaries == s.secondaries && r.arbiters == s.arbiters && r.passives == s.passives
      && MaximaOf(r) == MaximaOf(s)
  {
    hide AddHosts, Without;
  }

  /** A member known by another name loses its entry under this one; the primary it names is suspected if none is. */
  lemma RenamedExact(s: State, name: Name, im: IsMaster)
    requires Settled(name, im) && NotMe(name, im)
    ensures var (r, reply) := Update(s, name, Some(im));
      var left := Heard(s, im).entries - {name};
      && reply == Ignored
      && r == s.(entries := if s.primary.None? && im.primary.Some?
                            then left[im.primary.value := Entry(PossiblePrimary, None, None, None)] else left)
  {
    hide AddHosts, Without;
  }

  /** A server that gives no answer is known, and nothing is known of it. */
  lemma SilentExact(s: State, name: Name)
    ensures Update(s, name, None) == (s.(entries := s.entries[name := BLANK]), Ignored)
  {
  }
}
