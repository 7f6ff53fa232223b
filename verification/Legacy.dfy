/** What the legacy replica-set topology believes about its members (replset_state.js). Names are in lower case. */
module Legacy {
  import opened Bytes
  import opened Lists
  import Order

  type Name = string
  type ElectionId = seq<int>

  datatype Kind = RSPrimary | RSSecondary | RSArbiter | RSOther | RSGhost | PossiblePrimary | UnknownServer

  datatype Entry = Entry(kind: Kind, setVersion: Option<int>, electionId: Option<ElectionId>, setName: Option<string>)

  datatype State = State(
    primary: Option<Name>, secondaries: seq<Name>, arbiters: seq<Name>, passives: seq<Name>,
    entries: map<Name, Entry>,  // `set`
    setName: Option<string>, maxElectionId: Option<ElectionId>, maxSetVersion: Option<int>)

  /** A member's answer to isMaster; an empty set name counts as none. */
  datatype IsMaster = IsMaster(
    hosts: seq<Name>, arbiters: seq<Name>, passives: seq<Name>,
    isMongos: bool, isReplicaSet: bool, isMaster: bool, secondary: bool, arbiterOnly: bool, passive: bool, hidden: bool,
    setName: Option<string>, me: Option<Name>, primary: Option<Name>,
    electionId: Option<ElectionId>, setVersion: Option<int>)
  {
    function AllHosts(): seq<Name> { hosts + arbiters + passives }

    predicate ClaimsPrimary() { isMaster && setName.Some? }
  }

  /** What `update` returns: false, true or an error; Thrown stands for a TypeError. */
  datatype Reply = Ignored | Changed | WrongSetName | Thrown

  const BLANK := Entry(UnknownServer, None, None, None)

  function Fresh(setName: Option<string>): State {
    State(None, [], [], [], map[], setName, None, Some(0))
  }

  function AddHosts(entries: map<Name, Entry>, hosts: seq<Name>): (r: map<Name, Entry>)
    ensures forall x :: x in r <==> x in entries || x in hosts
    ensures forall x <- r :: r[x] == if x in entries then entries[x] else BLANK
    decreases |hosts|
  {
    if hosts == [] then entries else
    assert hosts == [hosts[0]] + hosts[1..];
    AddHosts(if hosts[0] in entries then entries else entries[hosts[0] := BLANK], hosts[1..])
  }

  /** `a < b` for set versions that may be undefined. */
  predicate Lower(a: Option<int>, b: Option<int>) {
    a.Some? && b.Some? && a.value < b.value
  }

  predicate Given(version: Option<int>) {
    version.Some? && version.value != 0
  }

  // ---------- a member that claims to be primary ----------

  datatype Maxima = Maxima(electionId: Option<ElectionId>, setVersion: Option<int>)

  function MaximaOf(s: State): Maxima {
    Maxima(s.maxElectionId, s.maxSetVersion)
  }

  /** Without a primary: the new maxima, or None for a claim that is out of date. */
  function FirstMaxima(max: Maxima, im: IsMaster): Option<Maxima> {
    if max.electionId.None? && im.electionId.Some? then Some(max.(electionId := im.electionId))
    else if max.electionId.Some? && im.electionId.Some? then
      if Order.Less(im.electionId.value, max.electionId.value) then None
      else if im.electionId == max.electionId && Given(im.setVersion) && Lower(im.setVersion, max.setVersion) then None
      else Some(Maxima(im.electionId, im.setVersion))
    else Some(max)
  }

  function PrimaryEntry(im: IsMaster): Entry {
    Entry(RSPrimary, im.setVersion, im.electionId, im.setName)
  }

  /** The server becomes the primary. */
  function Enthroned(s: State, name: Name, im: IsMaster): State {
    s.(primary := Some(name), entries := s.entries[name := PrimaryEntry(im)], setName := im.setName,
       secondaries := Without(s.secondaries, name), passives := Without(s.passives, name))
  }

  function FirstPrimary(s: State, name: Name, im: IsMaster): (State, Reply) {
    if s.setName.Some? && s.setName != im.setName then (s, WrongSetName)
    else
      match FirstMaxima(MaximaOf(s), im)
      case None => (s, Ignored)
      case Some(max) =>
        var s1 := s.(maxElectionId := max.electionId, maxSetVersion := max.setVersion);
        (if name in im.hosts then Enthroned(s1, name, im) else s1, Changed)
  }

  /** With a primary whose entry is cur. */
  predicate Outdated(cur: Entry, max: Maxima, im: IsMaster) {
    if cur.electionId.Some? && im.electionId.Some? then
      || Order.Less(im.electionId.value, cur.electionId.value)
      || (im.electionId == cur.electionId && Lower(im.setVersion, cur.setVersion))
    else
      cur.electionId.None? && im.electionId.Some? && Given(im.setVersion) && Lower(im.setVersion, max.setVersion)
  }

  function ReplaceMaxima(max: Maxima, im: IsMaster): Option<Maxima> {
    if max.electionId.None? && im.electionId.Some? then Some(max.(electionId := im.electionId))
    else if max.electionId.Some? && im.electionId.Some? then
      if Order.Less(im.electionId.value, max.electionId.value) || Lower(im.setVersion, max.setVersion) then None
      else Some(Maxima(im.electionId, im.setVersion))
    else Some(max.(setVersion := im.setVersion))
  }

  function ReplacePrimary(s: State, name: Name, im: IsMaster): (State, Reply)
    requires s.primary.Some?
  {
    var p := s.primary.value;
    if p !in s.entries then (s, Thrown)
    else
      var cur := s.entries[p];
      if p == name && cur.setName == im.setName then (s, Ignored)
      else if cur.setName.Some? && cur.setName != im.setName then (s, Ignored)
      else if Outdated(cur, MaximaOf(s), im) then (s, Ignored)
      else
        match ReplaceMaxima(MaximaOf(s), im)
        case None => (s, Ignored)
        case Some(max) =>
          var s1 := s.(maxElectionId := max.electionId, maxSetVersion := max.setVersion,
                       entries := s.entries[p := BLANK]);
          (Enthroned(s1, name, im), Changed)
  }

  // ---------- the other answers ----------

  function Dethroned(s: State, name: Name): State {
    if s.primary == Some(name) then s.(primary := None) else s
  }

  /** `remove` once it is not a mere failed attempt to connect to a connected member. */
  function Removed(s: State, name: Name): State {
    Dethroned(s, name).(
      entries := if name in s.entries then s.entries[name := BLANK] else s.entries,
      secondaries := Without(s.secondaries, name), arbiters := Without(s.arbiters, name),
      passives := Without(s.passives, name))
  }

  function Remove(s: State, name: Name, force: bool, connected: bool): State {
    if !force && connected && (s.primary == Some(name) || name in s.secondaries + s.arbiters + s.passives) then s
    else Removed(s, name)
  }

  function Suspect(s: State, im: IsMaster): State {
    if s.primary.None? && im.primary.Some?
    then s.(entries := s.entries[im.primary.value := Entry(PossiblePrimary, None, None, None)]) else s
  }

  predicate IsOther(im: IsMaster) {
    im.setName.Some?
    && (im.hidden || (!im.isMaster && !im.secondary && !im.arbiterOnly && !im.passive))
  }

  predicate NotMe(name: Name, im: IsMaster) {
    im.me.Some? && im.me.value != name
  }

  predicate SameSet(s: State, im: IsMaster) {
    s.setName.Some? && s.setName == im.setName
  }

  predicate JoinsSecondaries(s: State, name: Name, im: IsMaster) {
    im.secondary && SameSet(s, im) && name !in s.secondaries
  }

  predicate JoinsArbiters(s: State, name: Name, im: IsMaster) {
    im.arbiterOnly && SameSet(s, im) && name !in s.arbiters
  }

  predicate JoinsPassives(s: State, name: Name, im: IsMaster) {
    im.passive && SameSet(s, im) && name !in s.passives
  }

  function Member(s: State, name: Name, im: IsMaster): (State, Reply) {
    var joins := JoinsSecondaries(s, name, im) || JoinsArbiters(s, name, im) || JoinsPassives(s, name, im);
    if joins && name !in s.entries then (s, Thrown)
    else if JoinsSecondaries(s, name, im) then
      (Dethroned(s, name).(secondaries := s.secondaries + [name],
                           entries := s.entries[name := Entry(RSSecondary, im.setVersion, im.electionId, im.setName)]),
       Changed)
    else if JoinsArbiters(s, name, im) then
      (s.(arbiters := s.arbiters + [name],
          entries := s.entries[name := Entry(RSArbiter, im.setVersion, im.electionId, im.setName)]),
       Changed)
    else if JoinsPassives(s, name, im) then
      (Dethroned(s, name).(passives := s.passives + [name],
                           entries := s.entries[name := Entry(RSSecondary, im.setVersion, im.electionId, im.setName)]),
       Changed)
    else if name in s.entries && s.entries[name].kind == RSPrimary then
      if s.primary.None? then (s, Thrown) else (s.(primary := None), Ignored)
    else (s, Ignored)
  }

  /** The answers that are dealt with before any election is considered. */
  function Early(s: State, name: Name, im: IsMaster): Option<State> {
    if im.isMongos then Some(Dethroned(s, name))
    else if im.isReplicaSet then
      Some(Dethroned(s, name).(entries := s.entries[name := Entry(RSGhost, None, None, im.setName)],
                               setName := if im.setName.Some? then im.setName else s.setName))
    else if IsOther(im) then
      Some(s.(entries := s.entries[name := Entry(RSOther, None, None, im.setName)], setName := im.setName))
    else if (im.isMaster && im.setName.None?) || (!im.isMaster && !im.secondary && !im.arbiterOnly) then
      Some(Removed(s, name))
    else if NotMe(name, im) then Some(Suspect(s.(entries := s.entries - {name}), im))
    else None
  }

  /** `update`. */
  function Update(s: State, name: Name, answer: Option<IsMaster>): (State, Reply) {
    match answer
    case None => (s.(entries := s.entries[name := BLANK]), Ignored)
    case Some(im) =>
      var s1 := s.(entries := AddHosts(s.entries, im.AllHosts()));
      var early := Early(s1, name, im);
      if early.Some? then (early.value, Ignored)
      else if im.ClaimsPrimary() then
        if s1.primary.None? then FirstPrimary(s1, name, im) else ReplacePrimary(s1, name, im)
      else Member(Suspect(s1, im), name, im)
  }

  datatype Event =
    | Answered(name: Name, answer: Option<IsMaster>)
    | Lost(name: Name, force: bool, connected: bool)

  function Step(s: State, e: Event): State {
    match e
    case Answered(name, answer) => Update(s, name, answer).0
    case Lost(name, force, connected) => Remove(s, name, force, connected)
  }
}
