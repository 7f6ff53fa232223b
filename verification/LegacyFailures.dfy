/** Runs of the legacy replica-set state, from a new one, that meet each of its failures. */
module LegacyFailures {
  import opened Bytes
  import opened Legacy
  import opened LegacyProofs

  /** An answer that says nothing yet. */
  const SILENT := IsMaster([], [], [], false, false, false, false, false, false, false, None, None, None, None, None)

  /** A member of the set "rs", listing the given hosts, claims to be primary. */
  function Claim(hosts: seq<Name>, setVersion: Option<int>): IsMaster {
    SILENT.(isMaster := true, setName := Some("rs"), hosts := hosts, setVersion := setVersion)
  }

  /** The name answers from the state s. */
  function Told(s: State, name: Name, im: IsMaster): State {
    Step(s, Answered(name, Some(im)))
  }

  lemma RunTold(s: State, es: seq<Event>, name: Name, im: IsMaster)
    ensures Run(s, es + [Answered(name, Some(im))]) == Told(Run(s, es), name, im)
  {
    assert (es + [Answered(name, Some(im))])[..|es|] == es;
  }

  /** The first claim of a new state is believed. */
  lemma FirstClaim(setVersion: Option<int>)
    ensures var s := Told(Fresh(None), "a", Claim(["a"], setVersion));
      && s.primary == Some("a") && s.entries == map["a" := PrimaryEntry(Claim(["a"], setVersion))]
      && s.setName == Some("rs") && s.maxElectionId.None? && s.maxSetVersion == Some(0)
      && s.secondaries == s.arbiters == s.passives == []
  {
    var im := Claim(["a"], setVersion);
    assert im.AllHosts() == ["a"] && im.AllHosts()[1..] == [];
    assert AddHosts(map[], ["a"]) == map["a" := BLANK];
  }

  /**
   * A primary turns into a mongos, which leaves its entry typed as a primary's; as a secondary of another set it then
   * raises a TypeError.
   */
  lemma LeftThroneRun()
    ensures var es := [Answered("a", Some(Claim(["a"], None))), Answered("a", Some(SILENT.(isMongos := true)))];
      var s := Run(Fresh(None), es);
      && !OneThrone(s) && s.primary.None?
      && Update(s, "a", Some(SILENT.(secondary := true, setName := Some("other")))).1 == Thrown
  {
    var im, mongos := Claim(["a"], None), SILENT.(isMongos := true);
    var later := SILENT.(secondary := true, setName := Some("other"));
    FirstClaim(None);
    var first := [Answered("a", Some(im))];
    RunTold(Fresh(None), [], "a", im);
    assert [] + first == first;
    RunTold(Fresh(None), first, "a", mongos);
    assert first + [Answered("a", Some(mongos))] == [Answered("a", Some(im)), Answered("a", Some(mongos))];
    var s := Told(Told(Fresh(None), "a", im), "a", mongos);
    assert mongos.AllHosts() == [] && later.AllHosts() == [];
    assert "a" in s.entries && s.entries["a"].kind == RSPrimary;
  }

  /** A believed primary reports another name for itself; the next claim, of another member, raises a TypeError. */
  lemma LostEntryRun()
    ensures var es := [Answered("a", Some(Claim(["a"], None))), Answered("a", Some(Claim([], None).(me := Some("b"))))];
      var s := Run(Fresh(None), es);
      && s.primary == Some("a") && "a" !in s.entries
      && Update(s, "c", Some(Claim(["c"], None))).1 == Thrown
  {
    var im, renamed, other := Claim(["a"], None), Claim([], None).(me := Some("b")), Claim(["c"], None);
    FirstClaim(None);
    var first := [Answered("a", Some(im))];
    RunTold(Fresh(None), [], "a", im);
    assert [] + first == first;
    RunTold(Fresh(None), first, "a", renamed);
    assert first + [Answered("a", Some(renamed))] == [Answered("a", Some(im)), Answered("a", Some(renamed))];
    assert renamed.AllHosts() == [] && other.AllHosts() == ["c"];
    assert NotMe("a", renamed) && Settled("a", renamed);
    ClaimsThrowWithoutEntry(Told(Told(Fresh(None), "a", im), "a", renamed), "c", other);
  }

  /** Claims without election ids replace one another; the third takes the highest set version back. */
  lemma LoweredRun()
    ensures var es := [Answered("a", Some(Claim(["a"], None))), Answered("b", Some(Claim([], Some(5))))];
      var s := Run(Fresh(None), es);
      && s.maxSetVersion == Some(5) && Told(s, "c", Claim([], Some(3))).maxSetVersion == Some(3)
      && !Advances(MaximaOf(s), MaximaOf(Told(s, "c", Claim([], Some(3)))))
  {
    var im, second, third := Claim(["a"], None), Claim([], Some(5)), Claim([], Some(3));
    FirstClaim(None);
    var first := [Answered("a", Some(im))];
    RunTold(Fresh(None), [], "a", im);
    assert [] + first == first;
    RunTold(Fresh(None), first, "b", second);
    assert first + [Answered("b", Some(second))] == [Answered("a", Some(im)), Answered("b", Some(second))];
    assert second.AllHosts() == [] && third.AllHosts() == [];
  }
}
