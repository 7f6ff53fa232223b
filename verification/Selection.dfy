/** Which of the known servers an operation may go to (server_selectors.js). */
module Selection {
  import opened Bytes
  import opened Sdam

  type TagSets = seq<map<string, string>>

  type Descriptions = seq<ServerDescription>

  datatype Mode = Primary | PrimaryPreferred | Secondary | SecondaryPreferred | Nearest

  datatype ReadPreference = ReadPreference(
    mode: Mode, tags: TagSets, maxStalenessSeconds: Option<int>, minWireVersion: Option<int>)

  datatype Settings = Settings(heartbeatFrequencyMS: int, localThresholdMS: int)

  datatype Failure =
    | WireVersionTooLow
    | StalenessBelowVariance
    | StalenessBelowMinimum
    | NoPrimaryToCompare   // a TypeError: the primary of a set with a primary is not among the servers
    | NothingToCompare     // a TypeError: `reduce` of an empty array without an initial value

  datatype Choice = Chosen(servers: Descriptions) | Failed(failure: Failure) {
    predicate IsFailure() { Failed? }

    function PropagateFailure(): Choice
      requires Failed?
    { this }

    function Extract(): Descriptions
      requires Chosen?
    { servers }
  }

  const IDLE_WRITE_PERIOD := 10000
  const SMALLEST_MAX_STALENESS_SECONDS := 90

  /** `filter`. */
  function Keep(p: ServerDescription -> bool, ds: Descriptions): (r: Descriptions)
    ensures forall d :: d in r <==> d in ds && p(d)
  {
    if ds == [] then [] else
    assert ds == [ds[0]] + ds[1..];
    (if p(ds[0]) then [ds[0]] else []) + Keep(p, ds[1..])
  }

  predicate IsRSPrimary(d: ServerDescription) { d.kind == RSPrimary }
  predicate IsSecondary(d: ServerDescription) { d.kind == RSSecondary }
  predicate IsNearest(d: ServerDescription) { d.kind == RSSecondary || d.kind == RSPrimary }
  predicate IsWritableServer(d: ServerDescription) { d.IsWritable() }
  predicate IsKnown(d: ServerDescription) { d.kind != UnknownServer }

  // ---------- the tests the filters use ----------

  function In(ds: Descriptions): ServerDescription -> bool {
    (d: ServerDescription) => d in ds
  }

  function Both(p: ServerDescription -> bool, q: ServerDescription -> bool): ServerDescription -> bool {
    (d: ServerDescription) => p(d) && q(d)
  }

  function WithinOfPrimary(primary: ServerDescription, heartbeat: int, limit: int): ServerDescription -> bool {
    (d: ServerDescription) => BehindPrimary(d, primary, heartbeat) <= limit
  }

  function WithinOfNewest(newest: ServerDescription, heartbeat: int, limit: int): ServerDescription -> bool {
    (d: ServerDescription) => BehindNewest(d, newest, heartbeat) <= limit
  }

  function HasTags(wanted: map<string, string>): ServerDescription -> bool {
    (d: ServerDescription) => TagSetMatch(wanted, d.tags)
  }

  function Between(low: int, high: int): ServerDescription -> bool {
    (d: ServerDescription) => low <= d.roundTripTime <= high
  }

  // ---------- the reducers ----------

  /** How far d may be behind the primary. */
  function BehindPrimary(d: ServerDescription, primary: ServerDescription, heartbeat: int): int {
    d.lastUpdateTime - d.lastWriteDate - (primary.lastUpdateTime - primary.lastWriteDate) + heartbeat
  }

  /** How far d may be behind the server written last. */
  function BehindNewest(d: ServerDescription, newest: ServerDescription, heartbeat: int): int {
    newest.lastWriteDate - d.lastWriteDate + heartbeat
  }

  /** The left fold that keeps the server written last. */
  function Newest(ds: Descriptions): (r: ServerDescription)
    requires ds != []
    ensures r in ds && forall d <- ds :: d.lastWriteDate <= r.lastWriteDate
  {
    if |ds| == 1 then ds[0] else
    var last, max := ds[|ds| - 1], Newest(ds[..|ds| - 1]);
    assert ds == ds[..|ds| - 1] + [last];
    if last.lastWriteDate > max.lastWriteDate then last else max
  }

  function MaxStalenessReducer(rp: ReadPreference, kind: TopologyType, s: Settings, ds: Descriptions): Choice {
    if rp.maxStalenessSeconds.None? || rp.maxStalenessSeconds.value < 0 then Chosen(ds) else
    var limit := rp.maxStalenessSeconds.value * 1000;
    if limit < s.heartbeatFrequencyMS + IDLE_WRITE_PERIOD then Failed(StalenessBelowVariance)
    else if rp.maxStalenessSeconds.value < SMALLEST_MAX_STALENESS_SECONDS then Failed(StalenessBelowMinimum)
    else if kind == ReplicaSetWithPrimary then
      var primaries := Keep(IsRSPrimary, ds);
      if ds == [] then Chosen([])
      else if primaries == [] then Failed(NoPrimaryToCompare)
      else Chosen(Keep(WithinOfPrimary(primaries[0], s.heartbeatFrequencyMS, limit), ds))
    else if kind == ReplicaSetNoPrimary then
      if ds == [] then Failed(NothingToCompare)
      else Chosen(Keep(WithinOfNewest(Newest(ds), s.heartbeatFrequencyMS, limit), ds))
    else Chosen(ds)
  }

  predicate TagSetMatch(wanted: map<string, string>, tags: map<string, string>) {
    forall key <- wanted :: key in tags && tags[key] == wanted[key]
  }

  /** The servers of the first tag set that any server matches. */
  function TagSetReducer(tags: TagSets, ds: Descriptions): Descriptions {
    if tags == [] then ds else FirstMatching(tags, ds)
  }

  function FirstMatching(tags: TagSets, ds: Descriptions): Descriptions {
    if tags == [] then [] else
    var matched := Keep(HasTags(tags[0]), ds);
    if matched != [] then matched else FirstMatching(tags[1..], ds)
  }

  /** The left fold with -1 for "nothing yet". */
  function Low(ds: Descriptions): int {
    if ds == [] then -1 else
    var last, min := ds[|ds| - 1].roundTripTime, Low(ds[..|ds| - 1]);
    if min == -1 || last < min then last else min
  }

  function LatencyWindow(s: Settings, ds: Descriptions): Descriptions {
    var low := Low(ds);
    Keep(Between(low, low + s.localThresholdMS), ds)
  }

  // ---------- the selectors ----------

  function Writable(s: Settings, ds: Descriptions): Descriptions {
    LatencyWindow(s, Keep(IsWritableServer, ds))
  }

  function Reduced(rp: ReadPreference, kind: TopologyType, s: Settings, ds: Descriptions): Choice {
    var recent :- MaxStalenessReducer(rp, kind, s, ds);
    Chosen(LatencyWindow(s, TagSetReducer(rp.tags, recent)))
  }

  predicate TooOld(rp: ReadPreference, t: Topology) {
    && t.commonWireVersion.Some? && t.commonWireVersion.value != 0
    && rp.minWireVersion.Some? && rp.minWireVersion.value > t.commonWireVersion.value
  }

  function Select(rp: ReadPreference, t: Topology, s: Settings, ds: Descriptions): Choice {
    if TooOld(rp, t) then Failed(WireVersionTooLow)
    else if t.kind == Single || t.kind == Sharded then Chosen(LatencyWindow(s, Keep(IsKnown, ds)))
    else
      match rp.mode
      case Primary => Chosen(Keep(IsRSPrimary, ds))
      case Secondary =>
        var near :- Reduced(rp, t.kind, s, ds);
        Chosen(Keep(IsSecondary, near))
      case Nearest =>
        var near :- Reduced(rp, t.kind, s, ds);
        Chosen(Keep(IsNearest, near))
      case SecondaryPreferred =>
        var near :- Reduced(rp, t.kind, s, ds);
        var secondaries := Keep(IsSecondary, near);
        Chosen(if secondaries == [] then Keep(IsRSPrimary, ds) else secondaries)
      case PrimaryPreferred =>
        if Keep(IsRSPrimary, ds) != [] then Chosen(Keep(IsRSPrimary, ds)) else
        var near :- Reduced(rp, t.kind, s, ds);
        Chosen(Keep(IsSecondary, near))
  }

  // ---------- what the reducers mean, server by server ----------

  ghost predicate TimesKnown(ds: Descriptions) {
    forall d <- ds :: d.roundTripTime >= 0
  }

  ghost predicate OnePrimary(ds: Descriptions) {
    forall p, q | p in ds && q in ds && p.kind == RSPrimary && q.kind == RSPrimary :: p == q
  }

  /** A staleness bound is asked for; a negative one counts as none. */
  predicate Bounded(rp: ReadPreference) {
    rp.maxStalenessSeconds.Some? && rp.maxStalenessSeconds.value >= 0
  }

  /**
   * d is as recent as the read preference asks: with a primary, d's lag when last heard from is no more than the bound
   * beyond the primary's; without one, its last write is no more than the bound behind any other's. Either way a
   * heartbeat is added to its lag.
   */
  ghost predicate Recent(rp: ReadPreference, kind: TopologyType, s: Settings, ds: Descriptions, d: ServerDescription) {
    Bounded(rp) ==>
      var limit := rp.maxStalenessSeconds.value * 1000;
      && (kind == ReplicaSetWithPrimary ==> forall p <- ds | p.kind == RSPrimary ::
            (d.lastUpdateTime - d.lastWriteDate) - (p.lastUpdateTime - p.lastWriteDate) + s.heartbeatFrequencyMS
              <= limit)
      && (kind == ReplicaSetNoPrimary ==> forall x <- ds ::
            x.lastWriteDate - d.lastWriteDate + s.heartbeatFrequencyMS <= limit)
  }

  /** d has every tag of the set with its value. */
  predicate Wears(d: ServerDescription, wanted: map<string, string>) {
    forall key <- wanted :: key in d.tags && d.tags[key] == wanted[key]
  }

  /** d matches tag set i, and no server of ds matches an earlier one. */
  ghost predicate FirstMatch(tags: TagSets, ds: Descriptions, d: ServerDescription, i: nat)
    requires i < |tags|
  {
    Wears(d, tags[i]) && forall j, x | 0 <= j < i && x in ds :: !Wears(x, tags[j])
  }

  ghost predicate Tagged(tags: TagSets, ds: Descriptions, d: ServerDescription) {
    tags == [] || exists i | 0 <= i < |tags| :: FirstMatch(tags, ds, d, i)
  }

  ghost predicate Near(s: Settings, ds: Descriptions, d: ServerDescription) {
    forall x <- ds :: d.roundTripTime <= x.roundTripTime + s.localThresholdMS
  }

  lemma {:induction false} LowIsLeast(ds: Descriptions)
    requires ds != [] && TimesKnown(ds)
    ensures (exists d <- ds :: d.roundTripTime == Low(ds)) && forall d <- ds :: Low(ds) <= d.roundTripTime
  {
    var last, front := ds[|ds| - 1], ds[..|ds| - 1];
    assert ds == front + [last] && last in ds;
    if front != [] {
      LowIsLeast(front);
      var d :| d in front && d.roundTripTime == Low(front);
      assert d in ds && d.roundTripTime >= 0;
      assert last.roundTripTime == Low(ds) || d.roundTripTime == Low(ds);
    } else {
      assert Low(front) == -1 && last.roundTripTime == Low(ds);
    }
  }

  /** The window holds exactly the servers within the threshold of every server it was given. */
  lemma WindowExact(s: Settings, ds: Descriptions)
    requires TimesKnown(ds)
    ensures forall d :: d in LatencyWindow(s, ds) <==> d in ds && Near(s, ds, d)
    ensures ds != [] && s.localThresholdMS >= 0 ==> LatencyWindow(s, ds) != []
  {
    if ds != [] {
      LowIsLeast(ds);
      var fastest :| fastest in ds && fastest.roundTripTime == Low(ds);
      forall d ensures d in LatencyWindow(s, ds) <==> d in ds && Near(s, ds, d) {
        if d in ds && d.roundTripTime <= Low(ds) + s.localThresholdMS {
          assert Near(s, ds, d);
        }
      }
      assert s.localThresholdMS >= 0 ==> fastest in LatencyWindow(s, ds);
    }
  }

  /** Writes go to a primary, a standalone or a mongos, within the threshold of every other such server. */
  lemma WritableExact(s: Settings, ds: Descriptions)
    requires TimesKnown(ds)
    ensures forall d :: d in Writable(s, ds) <==>
      && d in ds && (d.kind == RSPrimary || d.kind == Standalone || d.kind == Mongos)
      && forall x <- ds | x.kind == RSPrimary || x.kind == Standalone || x.kind == Mongos ::
           d.roundTripTime <= x.roundTripTime + s.localThresholdMS
  {
    hide LatencyWindow;
    var writable := Keep(IsWritableServer, ds);
    WindowExact(s, writable);
    forall d
      ensures Near(s, writable, d) <==>
        forall x <- ds | x.kind == RSPrimary || x.kind == Standalone || x.kind == Mongos ::
          d.roundTripTime <= x.roundTripTime + s.localThresholdMS
    {
    }
  }

  lemma {:induction false} FirstMatchingExact(tags: TagSets, ds: Descriptions)
    ensures forall d :: d in FirstMatching(tags, ds) <==>
      d in ds && exists i | 0 <= i < |tags| :: FirstMatch(tags, ds, d, i)
  {
    if tags == [] {
    } else {
      FirstMatchingExact(tags[1..], ds);
      var matched := Keep(HasTags(tags[0]), ds);
      forall d | d in ds
        ensures d in FirstMatching(tags, ds) <==> exists i | 0 <= i < |tags| :: FirstMatch(tags, ds, d, i)
      {
        if matched != [] {
          MatchedFirst(tags, ds, d, matched[0]);
        } else {
          MatchedLater(tags, ds, d);
        }
      }
    }
  }

  lemma MatchedFirst(tags: TagSets, ds: Descriptions, d: ServerDescription, x: ServerDescription)
    requires tags != [] && x in ds && Wears(x, tags[0])
    ensures Wears(d, tags[0]) <==> exists i | 0 <= i < |tags| :: FirstMatch(tags, ds, d, i)
  {
    if Wears(d, tags[0]) {
      assert FirstMatch(tags, ds, d, 0);
    }
  }

  lemma MatchedLater(tags: TagSets, ds: Descriptions, d: ServerDescription)
    requires tags != [] && d in ds && forall x <- ds :: !Wears(x, tags[0])
    ensures (exists i | 0 <= i < |tags| - 1 :: FirstMatch(tags[1..], ds, d, i)) <==>
      exists i | 0 <= i < |tags| :: FirstMatch(tags, ds, d, i)
  {
    forall i | 0 <= i < |tags| - 1
      ensures FirstMatch(tags[1..], ds, d, i) <==> FirstMatch(tags, ds, d, i + 1)
    {
      if FirstMatch(tags[1..], ds, d, i) {
        forall j, x | 0 <= j < i + 1 && x in ds ensures !Wears(x, tags[j]) {
          assert j > 0 ==> tags[j] == tags[1..][j - 1];
        }
      }
      if FirstMatch(tags, ds, d, i + 1) {
        assert forall j | 0 <= j < i :: tags[1..][j] == tags[j + 1];
      }
    }
    if i :| 0 <= i < |tags| && FirstMatch(tags, ds, d, i) {
      assert FirstMatch(tags[1..], ds, d, i - 1);
    }
  }

  /** Whether the staleness rules can be applied at all. */
  predicate StalenessFails(rp: ReadPreference, kind: TopologyType, s: Settings, ds: Descriptions) {
    MaxStalenessReducer(rp, kind, s, ds).Failed?
  }

  /** Why a bound is refused: below a heartbeat and ten seconds, below ninety seconds, or nothing to compare. */
  function Refusal(rp: ReadPreference, kind: TopologyType, s: Settings, ds: Descriptions): Option<Failure> {
    if !Bounded(rp) then None
    else if rp.maxStalenessSeconds.value * 1000 < s.heartbeatFrequencyMS + 10_000 then Some(StalenessBelowVariance)
    else if rp.maxStalenessSeconds.value < 90 then Some(StalenessBelowMinimum)
    else if kind == ReplicaSetNoPrimary && ds == [] then Some(NothingToCompare)
    else if kind == ReplicaSetWithPrimary && ds != [] && forall d <- ds :: d.kind != RSPrimary then
      Some(NoPrimaryToCompare)
    else None
  }

  lemma StalenessExact(rp: ReadPreference, kind: TopologyType, s: Settings, ds: Descriptions)
    ensures StalenessFails(rp, kind, s, ds) <==> Refusal(rp, kind, s, ds).Some?
    ensures StalenessFails(rp, kind, s, ds) ==>
      MaxStalenessReducer(rp, kind, s, ds) == Failed(Refusal(rp, kind, s, ds).value)
  {
    var primaries := Keep(IsRSPrimary, ds);
    if primaries != [] {
      assert primaries[0] in primaries;
    }
  }

  lemma RecentExact(rp: ReadPreference, kind: TopologyType, s: Settings, ds: Descriptions)
    requires OnePrimary(ds) && !StalenessFails(rp, kind, s, ds)
    ensures forall d :: d in MaxStalenessReducer(rp, kind, s, ds).servers <==> d in ds && Recent(rp, kind, s, ds, d)
  {
    var primaries := Keep(IsRSPrimary, ds);
    if primaries != [] {
      assert primaries[0] in primaries;
      assert forall p <- ds | IsRSPrimary(p) :: p == primaries[0];
    }
  }

  /** d matches tag set i, and no recent server an earlier one. */
  ghost predicate FirstOfRecent(
      rp: ReadPreference, kind: TopologyType, s: Settings, ds: Descriptions, d: ServerDescription, i: nat)
    requires i < |rp.tags|
  {
    && Wears(d, rp.tags[i])
    && forall j, x | 0 <= j < i && x in ds && Recent(rp, kind, s, ds, x) :: !Wears(x, rp.tags[j])
  }

  /** d is recent, and of the first tag set that any recent server matches. */
  ghost predicate Candidate(
      rp: ReadPreference, kind: TopologyType, s: Settings, ds: Descriptions, d: ServerDescription)
  {
    && d in ds && Recent(rp, kind, s, ds, d)
    && (rp.tags == [] || exists i | 0 <= i < |rp.tags| :: FirstOfRecent(rp, kind, s, ds, d, i))
  }

  lemma RecentTags(rp: ReadPreference, kind: TopologyType, s: Settings, ds: Descriptions, recent: Descriptions)
    requires forall d :: d in recent <==> d in ds && Recent(rp, kind, s, ds, d)
    ensures forall d :: Tagged(rp.tags, recent, d) <==>
      rp.tags == [] || exists i | 0 <= i < |rp.tags| :: FirstOfRecent(rp, kind, s, ds, d, i)
  {
    hide Recent, Wears;
    forall d, i: nat | i < |rp.tags|
      ensures FirstMatch(rp.tags, recent, d, i) <==> FirstOfRecent(rp, kind, s, ds, d, i)
    {
    }
  }

  /** A candidate within the threshold of every other candidate, whatever their roles. */
  ghost predicate Close(rp: ReadPreference, kind: TopologyType, s: Settings, ds: Descriptions, d: ServerDescription)
  {
    && Candidate(rp, kind, s, ds, d)
    && forall x <- ds | Candidate(rp, kind, s, ds, x) :: d.roundTripTime <= x.roundTripTime + s.localThresholdMS
  }

  /** Staleness, then tags, then latency, each applied to what the one before left. */
  lemma ReducedExact(rp: ReadPreference, kind: TopologyType, s: Settings, ds: Descriptions)
    requires TimesKnown(ds) && OnePrimary(ds)
    ensures Reduced(rp, kind, s, ds).Failed? <==> StalenessFails(rp, kind, s, ds)
    ensures !StalenessFails(rp, kind, s, ds) ==>
      forall d :: d in Reduced(rp, kind, s, ds).servers <==> Close(rp, kind, s, ds, d)
  {
    hide MaxStalenessReducer, Recent, Keep, LatencyWindow, FirstMatching, FirstMatch;
    if StalenessFails(rp, kind, s, ds) {
      return;
    }
    var recent := MaxStalenessReducer(rp, kind, s, ds).servers;
    RecentExact(rp, kind, s, ds);
    RecentTags(rp, kind, s, ds, recent);
    FirstMatchingExact(rp.tags, recent);
    var tagged := TagSetReducer(rp.tags, recent);
    forall d ensures d in tagged <==> Candidate(rp, kind, s, ds, d) {
      assert d in tagged <==> d in recent && Tagged(rp.tags, recent, d);
    }
    WindowExact(s, tagged);
  }

  /** The read preference asks for a newer wire version than the deployment has in common. */
  predicate AsksTooMuch(rp: ReadPreference, t: Topology) {
    && t.commonWireVersion.Some? && t.commonWireVersion.value != 0
    && rp.minWireVersion.Some? && t.commonWireVersion.value < rp.minWireVersion.value
  }

  /** What each of the five modes selects from a replica set, server by server, and when and how it fails. */
  lemma SelectExact(rp: ReadPreference, t: Topology, s: Settings, ds: Descriptions)
    requires TimesKnown(ds) && OnePrimary(ds) && t.kind != Single && t.kind != Sharded
    ensures var r := Select(rp, t, s, ds);
      var primaryKnown := exists p <- ds :: p.kind == RSPrimary;
      if AsksTooMuch(rp, t) then r == Failed(WireVersionTooLow)
      else if rp.mode == Primary || (rp.mode == PrimaryPreferred && primaryKnown) then
        r.Chosen? && forall d :: d in r.servers <==> d in ds && d.kind == RSPrimary
      else if Refusal(rp, t.kind, s, ds).Some? then r == Failed(Refusal(rp, t.kind, s, ds).value)
      else
        && r.Chosen?
        && var secondaryClose := exists x <- ds :: x.kind == RSSecondary && Close(rp, t.kind, s, ds, x);
        forall d :: d in r.servers <==>
          && d in ds
          && if rp.mode == Nearest then
               (d.kind == RSPrimary || d.kind == RSSecondary) && Close(rp, t.kind, s, ds, d)
             else if rp.mode == SecondaryPreferred && !secondaryClose then d.kind == RSPrimary
             else d.kind == RSSecondary && Close(rp, t.kind, s, ds, d)
  {
    hide Close, MaxStalenessReducer, Keep, Reduced, Refusal;
    ReducedExact(rp, t.kind, s, ds);
    StalenessExact(rp, t.kind, s, ds);
    KeepsNothing(IsRSPrimary, ds);
    if StalenessFails(rp, t.kind, s, ds) {
      assert Reduced(rp, t.kind, s, ds) == MaxStalenessReducer(rp, t.kind, s, ds) by {
        FailurePropagates(rp, t.kind, s, ds);
      }
    } else {
      CloseIsGiven(rp, t.kind, s, ds);
      KeepsNothing(IsSecondary, Reduced(rp, t.kind, s, ds).servers);
    }
  }

  lemma KeepsNothing(p: ServerDescription -> bool, ds: Descriptions)
    ensures Keep(p, ds) == [] <==> forall d <- ds :: !p(d)
  {
    if Keep(p, ds) != [] {
      assert Keep(p, ds)[0] in Keep(p, ds);
    }
  }

  lemma FailurePropagates(rp: ReadPreference, kind: TopologyType, s: Settings, ds: Descriptions)
    requires StalenessFails(rp, kind, s, ds)
    ensures Reduced(rp, kind, s, ds) == MaxStalenessReducer(rp, kind, s, ds)
  {
  }

  lemma CloseIsGiven(rp: ReadPreference, kind: TopologyType, s: Settings, ds: Descriptions)
    ensures forall d | Close(rp, kind, s, ds, d) :: d in ds
  {
  }

  /** A single server or a sharded deployment: the known servers within the threshold of each other. */
  lemma MongosExact(rp: ReadPreference, t: Topology, s: Settings, ds: Descriptions)
    requires TimesKnown(ds) && (t.kind == Single || t.kind == Sharded)
    ensures var r := Select(rp, t, s, ds);
      if AsksTooMuch(rp, t) then r == Failed(WireVersionTooLow)
      else
        && r.Chosen?
        && forall d :: d in r.servers <==>
             && d in ds && d.kind != UnknownServer
             && forall x <- ds | x.kind != UnknownServer :: d.roundTripTime <= x.roundTripTime + s.localThresholdMS
  {
    hide LatencyWindow;
    var known := Keep(IsKnown, ds);
    WindowExact(s, known);
    forall d
      ensures Near(s, known, d) <==>
        forall x <- ds | x.kind != UnknownServer :: d.roundTripTime <= x.roundTripTime + s.localThresholdMS
    {
    }
  }

  /**
   * The Server Selection specification narrows to secondaries before it measures latency; the code measures it over all
   * servers. Without tags and staleness, secondary mode then finds nothing exactly when every secondary is beyond the
   * threshold of some server of any kind.
   */
  lemma SecondaryFindsNothing(rp: ReadPreference, t: Topology, s: Settings, ds: Descriptions)
    requires TimesKnown(ds) && OnePrimary(ds) && !TooOld(rp, t) && t.kind != Single && t.kind != Sharded
    requires rp.mode == Secondary && rp.tags == [] && rp.maxStalenessSeconds.None?
    ensures Select(rp, t, s, ds).Chosen?
    ensures Select(rp, t, s, ds).servers == [] <==> forall d <- ds | IsSecondary(d) :: !Near(s, ds, d)
  {
    SelectExact(rp, t, s, ds);
    assert MaxStalenessReducer(rp, t.kind, s, ds) == Chosen(ds);
    hide Select, MaxStalenessReducer, Keep;
    var r := Select(rp, t, s, ds).servers;
    if r != [] {
      assert r[0] in r;
    }
    forall d <- ds | IsSecondary(d) ensures d in r <==> Near(s, ds, d) {
    }
  }

  /** A server not heard from yet counts as answering in no time: it hides every secondary slower than the threshold. */
  lemma UnansweredServerHidesSecondaries(
      rp: ReadPreference, t: Topology, s: Settings, ds: Descriptions, other: Address, now: int)
    requires TimesKnown(ds) && OnePrimary(ds) && !TooOld(rp, t) && t.kind != Single && t.kind != Sharded
    requires rp.mode == Secondary && rp.tags == [] && rp.maxStalenessSeconds.None?
    requires Blank(other, now) in ds
    ensures Select(rp, t, s, ds) == Chosen([]) <==>
      forall d <- ds | IsSecondary(d) :: exists x <- ds :: d.roundTripTime > x.roundTripTime + s.localThresholdMS
    ensures (forall d <- ds | IsSecondary(d) :: d.roundTripTime > s.localThresholdMS) ==>
      Select(rp, t, s, ds) == Chosen([])
  {
    SecondaryFindsNothing(rp, t, s, ds);
    assert forall d <- ds :: Near(s, ds, d) ==> d.roundTripTime <= s.localThresholdMS;
  }

  // ---------- a selector only ever filters ----------

  /** r is ds without the servers that are not in r: nothing is added, repeated or reordered. */
  ghost predicate Filters(r: Descriptions, ds: Descriptions) {
    r == Keep(In(r), ds)
  }

  lemma {:induction false} KeepSame(p: ServerDescription -> bool, q: ServerDescription -> bool, ds: Descriptions)
    requires forall d <- ds :: p(d) == q(d)
    ensures Keep(p, ds) == Keep(q, ds)
  {
    if ds == [] {
    } else {
      assert ds[0] in ds;
      KeepSame(p, q, ds[1..]);
    }
  }

  lemma {:induction false} KeepKeep(p: ServerDescription -> bool, q: ServerDescription -> bool, ds: Descriptions)
    ensures Keep(q, Keep(p, ds)) == Keep(Both(p, q), ds)
  {
    if ds == [] {
    } else {
      KeepKeep(p, q, ds[1..]);
      if p(ds[0]) {
        assert ([ds[0]] + Keep(p, ds[1..]))[1..] == Keep(p, ds[1..]);
      } else {
        assert Keep(p, ds) == Keep(p, ds[1..]);
      }
    }
  }

  lemma KeepFilters(p: ServerDescription -> bool, r: Descriptions, ds: Descriptions)
    requires Filters(r, ds)
    ensures Filters(Keep(p, r), ds)
  {
    KeepKeep(In(r), p, ds);
    KeepSame(Both(In(r), p), In(Keep(p, r)), ds);
  }

  lemma {:induction false} KeepAll(ds: Descriptions, all: Descriptions)
    requires forall d <- ds :: d in all
    ensures Keep(In(all), ds) == ds
  {
    if ds == [] {
    } else {
      assert ds[0] in ds;
      KeepAll(ds[1..], all);
    }
  }

  lemma FiltersItself(ds: Descriptions)
    ensures Filters(ds, ds)
  {
    KeepAll(ds, ds);
  }

  lemma {:induction false} NoneKept(ds: Descriptions)
    ensures Filters([], ds)
  {
    if ds == [] {
    } else {
      NoneKept(ds[1..]);
    }
  }

  lemma {:induction false} FirstMatchingFilters(tags: TagSets, r: Descriptions, ds: Descriptions)
    requires Filters(r, ds)
    ensures Filters(FirstMatching(tags, r), ds)
  {
    if tags == [] {
      NoneKept(ds);
    } else {
      KeepFilters(HasTags(tags[0]), r, ds);
      FirstMatchingFilters(tags[1..], r, ds);
    }
  }

  lemma ReducedFilters(rp: ReadPreference, kind: TopologyType, s: Settings, ds: Descriptions)
    requires Reduced(rp, kind, s, ds).Chosen?
    ensures Filters(Reduced(rp, kind, s, ds).servers, ds)
  {
    hide Filters, Keep;
    var recent := MaxStalenessReducer(rp, kind, s, ds).servers;
    StalenessFilters(rp, kind, s, ds);
    FirstMatchingFilters(rp.tags, recent, ds);
    var tagged := TagSetReducer(rp.tags, recent);
    KeepFilters(Between(Low(tagged), Low(tagged) + s.localThresholdMS), tagged, ds);
  }

  lemma StalenessFilters(rp: ReadPreference, kind: TopologyType, s: Settings, ds: Descriptions)
    requires !StalenessFails(rp, kind, s, ds)
    ensures Filters(MaxStalenessReducer(rp, kind, s, ds).servers, ds)
  {
    FiltersItself(ds);
    if rp.maxStalenessSeconds.Some? && ds != [] {
      var limit := rp.maxStalenessSeconds.value * 1000;
      KeepFilters(WithinOfNewest(Newest(ds), s.heartbeatFrequencyMS, limit), ds, ds);
      var primaries := Keep(IsRSPrimary, ds);
      if primaries != [] {
        KeepFilters(WithinOfPrimary(primaries[0], s.heartbeatFrequencyMS, limit), ds, ds);
      }
    }
  }

  /** Whatever the read preference: the servers chosen are some of the servers given, in their order. */
  lemma SelectionFilters(rp: ReadPreference, t: Topology, s: Settings, ds: Descriptions)
    requires Select(rp, t, s, ds).Chosen?
    ensures Filters(Select(rp, t, s, ds).servers, ds)
  {
    hide Filters, Keep, Reduced;
    FiltersItself(ds);
    KeepFilters(IsKnown, ds, ds);
    KeepFilters(IsRSPrimary, ds, ds);
    if t.kind == Single || t.kind == Sharded {
      var known := Keep(IsKnown, ds);
      KeepFilters(Between(Low(known), Low(known) + s.localThresholdMS), known, ds);
    } else if Reduced(rp, t.kind, s, ds).Chosen? {
      ReducedFilters(rp, t.kind, s, ds);
      var near := Reduced(rp, t.kind, s, ds).servers;
      KeepFilters(IsSecondary, near, ds);
      KeepFilters(IsNearest, near, ds);
    }
  }
}
