/** The legacy replica-set state as the code keeps it: fields, lists and `set` changed in place. */
module ReplicaSetState {
  import opened Bytes
  import opened Lists
  import Order
  import opened Legacy

  class ReplSetState {
    var primary: Option<Name>
    var secondaries: seq<Name>
    var arbiters: seq<Name>
    var passives: seq<Name>
    var entries: map<Name, Entry>
    var setName: Option<string>
    var maxElectionId: Option<ElectionId>
    var maxSetVersion: Option<int>

    function View(): State
      reads this
    {
      State(primary, secondaries, arbiters, passives, entries, setName, maxElectionId, maxSetVersion)
    }

    constructor (name: Option<string>)
      ensures View() == Fresh(name)
    {
      primary, secondaries, arbiters, passives, entries := None, [], [], [], map[];
      setName, maxElectionId, maxSetVersion := name, None, Some(0);
    }

    method AddUnknownHosts(hosts: seq<Name>)
      modifies this`entries
      ensures entries == AddHosts(old(entries), hosts)
    {
      for i := 0 to |hosts|
        invariant AddHosts(entries, hosts[i..]) == AddHosts(old(entries), hosts)
      {
        assert hosts[i..][1..] == hosts[i + 1..];
        if hosts[i] !in entries {
          entries := entries[hosts[i] := BLANK];
        }
      }
      assert hosts[|hosts|..] == [];
    }

    method RemoveServer(name: Name, force: bool, connected: bool)
      modifies this
      ensures View() == Remove(old(View()), name, force, connected)
    {
      if !force && connected {
        if primary == Some(name) || name in secondaries + arbiters + passives {
          return;
        }
      }
      if name in entries {
        entries := entries[name := BLANK];
      }
      if primary == Some(name) {
        primary := None;
      }
      var found;
      secondaries, found := RemoveFirst(secondaries, name);
      arbiters, found := RemoveFirst(arbiters, name);
      passives, found := RemoveFirst(passives, name);
    }

    /** The server becomes the primary and leaves the lists it was in. */
    method Crown(name: Name, im: IsMaster)
      modifies this
      ensures View() == Enthroned(old(View()), name, im)
    {
      primary := Some(name);
      entries := entries[name := PrimaryEntry(im)];
      setName := im.setName;
      var found;
      secondaries, found := RemoveFirst(secondaries, name);
      passives, found := RemoveFirst(passives, name);
    }

    method ClaimWithoutPrimary(name: Name, im: IsMaster) returns (reply: Reply)
      modifies this
      ensures (View(), reply) == FirstPrimary(old(View()), name, im)
    {
      hide Enthroned;
      if setName.Some? && setName != im.setName {
        return WrongSetName;
      }
      if maxElectionId.None? && im.electionId.Some? {
        maxElectionId := im.electionId;
      } else if maxElectionId.Some? && im.electionId.Some? {
        var result := Order.CompareObjectIds(maxElectionId.value, im.electionId.value);
        if result == 1 {
          return Ignored;
        } else if result == 0 && Given(im.setVersion) {
          if Lower(im.setVersion, maxSetVersion) {
            return Ignored;
          }
        }
        maxSetVersion := im.setVersion;
        maxElectionId := im.electionId;
      }
      if name in im.hosts {
        Crown(name, im);
      }
      reply := Changed;
    }

    method ClaimWithPrimary(name: Name, im: IsMaster) returns (reply: Reply)
      requires primary.Some?
      modifies this
      ensures (View(), reply) == ReplacePrimary(old(View()), name, im)
    {
      hide Enthroned;
      var current := primary.value;
      if current !in entries {
        return Thrown;
      }
      var cur := entries[current];
      if (current == name && cur.setName == im.setName) || (cur.setName.Some? && cur.setName != im.setName) {
        return Ignored;
      }
      if cur.electionId.Some? && im.electionId.Some? {
        var result := Order.CompareObjectIds(cur.electionId.value, im.electionId.value);
        if result == 1 || (result == 0 && Lower(im.setVersion, cur.setVersion)) {
          return Ignored;
        }
      } else if cur.electionId.None? && im.electionId.Some? && Given(im.setVersion) {
        if Lower(im.setVersion, maxSetVersion) {
          return Ignored;
        }
      }
      if maxElectionId.None? && im.electionId.Some? {
        maxElectionId := im.electionId;
      } else if maxElectionId.Some? && im.electionId.Some? {
        var result := Order.CompareObjectIds(maxElectionId.value, im.electionId.value);
        if result == 1 || Lower(im.setVersion, maxSetVersion) {
          return Ignored;
        }
        maxElectionId := im.electionId;
        maxSetVersion := im.setVersion;
      } else {
        maxSetVersion := im.setVersion;
      }
      entries := entries[current := BLANK];
      Crown(name, im);
      reply := Changed;
    }

    /** Ghosts, hidden members, standalones and the like; `done` says that the answer is dealt with. */
    method HandleEarly(name: Name, im: IsMaster) returns (done: bool)
      modifies this
      ensures done <==> Early(old(View()), name, im).Some?
      ensures View() == if done then Early(old(View()), name, im).value else old(View())
    {
      done := true;
      if im.isMongos {
        if primary == Some(name) {
          primary := None;
        }
        return;
      }
      if im.isReplicaSet {
        entries := entries[name := Entry(RSGhost, None, None, im.setName)];
        if primary == Some(name) {
          primary := None;
        }
        if im.setName.Some? {
          setName := im.setName;
        }
        return;
      }
      if IsOther(im) {
        entries := entries[name := Entry(RSOther, None, None, im.setName)];
        setName := im.setName;
        return;
      }
      if im.isMaster && im.setName.None? {
        RemoveServer(name, true, false);
        return;
      }
      if !im.isMaster && !im.secondary && !im.arbiterOnly {
        RemoveServer(name, true, false);
        return;
      }
      if NotMe(name, im) {
        entries := entries - {name};
        NotePrimary(im);
        return;
      }
      done := false;
    }

    method NotePrimary(im: IsMaster)
      modifies this`entries
      ensures View() == Suspect(old(View()), im)
    {
      if primary.None? && im.primary.Some? {
        entries := entries[im.primary.value := Entry(PossiblePrimary, None, None, None)];
      }
    }

    method HandleMember(name: Name, im: IsMaster) returns (reply: Reply)
      modifies this
      ensures (View(), reply) == Member(old(View()), name, im)
    {
      var known := name in entries;
      if JoinsSecondaries(View(), name, im) {
        if !known {
          return Thrown;
        }
        entries := entries[name := Entry(RSSecondary, im.setVersion, im.electionId, im.setName)];
        secondaries := secondaries + [name];
        StepDown(name);
        return Changed;
      }
      if JoinsArbiters(View(), name, im) {
        if !known {
          return Thrown;
        }
        entries := entries[name := Entry(RSArbiter, im.setVersion, im.electionId, im.setName)];
        arbiters := arbiters + [name];
        return Changed;
      }
      if JoinsPassives(View(), name, im) {
        if !known {
          return Thrown;
        }
        entries := entries[name := Entry(RSSecondary, im.setVersion, im.electionId, im.setName)];
        passives := passives + [name];
        StepDown(name);
        return Changed;
      }
      if known && entries[name].kind == RSPrimary {
        if primary.None? {
          return Thrown;
        }
        primary := None;
      }
      reply := Ignored;
    }

    method StepDown(name: Name)
      modifies this`primary
      ensures View() == Dethroned(old(View()), name)
    {
      if primary == Some(name) {
        primary := None;
      }
    }

    method UpdateServer(name: Name, answer: Option<IsMaster>) returns (reply: Reply)
      modifies this
      ensures (View(), reply) == Update(old(View()), name, answer)
    {
      hide Early, FirstPrimary, ReplacePrimary, Member, Suspect;
      if answer.None? {
        entries := entries[name := BLANK];
        return Ignored;
      }
      var im := answer.value;
      AddUnknownHosts(im.AllHosts());
      var done := HandleEarly(name, im);
      if done {
        return Ignored;
      }
      if im.isMaster && im.setName.Some? {
        if primary.None? {
          reply := ClaimWithoutPrimary(name, im);
        } else {
          reply := ClaimWithPrimary(name, im);
        }
        return;
      }
      NotePrimary(im);
      reply := HandleMember(name, im);
    }
  }
}
