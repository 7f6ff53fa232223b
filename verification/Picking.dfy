/** How the legacy topologies spread operations over servers and keep their lists of proxies. */
module Picking {
  import opened Bytes
  import opened Lists
  import opened Rounds

  /** A server as the pickers see it. */
  datatype Peer = Peer(
    name: string, lastIsMasterMS: int, staleness: int, tags: map<string, string>, connected: bool)

  type TagSets = seq<map<string, string>>

  datatype Mode = Primary | PrimaryPreferred | Secondary | SecondaryPreferred | Nearest

  datatype Members = Members(primary: Option<Peer>, secondaries: seq<Peer>, acceptableLatency: int)

  /** The servers a read preference starts from. */
  function Seeds(m: Members, mode: Mode): seq<Peer> {
    var own := if m.primary.Some? then [m.primary.value] else [];
    var seeds := (if mode != Secondary && mode != SecondaryPreferred then own else []) + m.secondaries;
    if seeds == [] && mode != SecondaryPreferred then own else seeds
  }

  predicate HasTags(wanted: map<string, string>, tags: map<string, string>) {
    forall name <- wanted :: name in tags && tags[name] == wanted[name]
  }

  function Matching(wanted: map<string, string>, peers: seq<Peer>): seq<Peer> {
    if peers == [] then [] else
    (if HasTags(wanted, peers[0].tags) then [peers[0]] else []) + Matching(wanted, peers[1..])
  }

  /** A server is listed once for every tag set it matches. */
  function ByTagSets(tags: TagSets, peers: seq<Peer>): seq<Peer> {
    if tags == [] then [] else Matching(tags[0], peers) + ByTagSets(tags[1..], peers)
  }

  function FilterByTags(tags: Option<TagSets>, peers: seq<Peer>): seq<Peer> {
    if tags.None? then peers else ByTagSets(tags.value, peers)
  }

  /** x goes before the first peer that is not faster. */
  function Insert(x: Peer, peers: seq<Peer>): seq<Peer> {
    if peers == [] || x.lastIsMasterMS <= peers[0].lastIsMasterMS then [x] + peers
    else [peers[0]] + Insert(x, peers[1..])
  }

  /** The stable sort by answering time. */
  function Sort(peers: seq<Peer>): seq<Peer> {
    if peers == [] then [] else Insert(peers[0], Sort(peers[1..]))
  }

  function UpTo(high: int, peers: seq<Peer>): seq<Peer> {
    if peers == [] then [] else (if peers[0].lastIsMasterMS <= high then [peers[0]] else []) + UpTo(high, peers[1..])
  }

  /** The servers within the acceptable latency of the fastest. */
  function NearestWindow(m: Members, mode: Mode, tags: Option<TagSets>): seq<Peer> {
    var sorted := Sort(FilterByTags(tags, Seeds(m, mode)));
    if sorted == [] then [] else UpTo(sorted[0].lastIsMasterMS + m.acceptableLatency, sorted)
  }

  /** pickNearest: the server and the next index. */
  function PickNearest(m: Members, mode: Mode, tags: Option<TagSets>, index: nat): (Option<Peer>, nat) {
    var window := NearestWindow(m, mode, tags);
    if window == [] then (None, index) else (Some(window[index % |window|]), index % |window| + 1)
  }

  // ---------- mongos proxies ----------

  /** Number.MAX_VALUE, which no answering time reaches, is None. */
  function Fastest(proxies: seq<Peer>): Option<int> {
    if proxies == [] then None else
    var before, last := Fastest(proxies[..|proxies| - 1]), proxies[|proxies| - 1].lastIsMasterMS;
    if before.None? || last < before.value then Some(last) else before
  }

  function Available(high: int, proxies: seq<Peer>): seq<Peer> {
    if proxies == [] then [] else
    (if proxies[0].lastIsMasterMS <= high && proxies[0].connected then [proxies[0]] else [])
    + Available(high, proxies[1..])
  }

  function ProxyWindow(proxies: seq<Peer>, threshold: int): seq<Peer> {
    if proxies == [] then [] else Available(Fastest(proxies).value + threshold, proxies)
  }

  /** The choice outside a pinned transaction; without an available proxy it is the first, connected or not. */
  function ChooseProxy(proxies: seq<Peer>, threshold: int, index: nat): (Option<Peer>, nat) {
    var window := ProxyWindow(proxies, threshold);
    if window == [] then (if proxies == [] then None else Some(proxies[0]), index)
    else (Some(window[index % |window|]), (index + 1) % |window|)
  }

  /** A session's transaction: whether it is active and the proxy it is pinned to. */
  datatype Pin = Pin(active: bool, proxy: Option<Peer>)

  /** pickProxy: the proxy, the next index and the pin. */
  function PickProxy(proxies: seq<Peer>, threshold: int, index: nat, pin: Option<Pin>)
    : (Option<Peer>, nat, Option<Pin>)
  {
    if pin.Some? && pin.value.proxy.Some? && pin.value.proxy.value.connected then (pin.value.proxy, index, pin) else
    var (proxy, next) := ChooseProxy(proxies, threshold, index);
    var unpinned := if pin.Some? then Some(pin.value.(proxy := None)) else None;
    (proxy, next,
     if unpinned.Some? && unpinned.value.active && proxy.Some? && proxy.value.connected
     then Some(unpinned.value.(proxy := proxy)) else unpinned)
  }

  // ---------- sorting and windows ----------

  ghost predicate Sorted(peers: seq<Peer>) {
    forall i, j | 0 <= i < j < |peers| :: peers[i].lastIsMasterMS <= peers[j].lastIsMasterMS
  }

  lemma {:induction false} InsertSorts(x: Peer, peers: seq<Peer>, y: Peer)
    requires Sorted(peers)
    ensures Sorted(Insert(x, peers))
    ensures Count(Insert(x, peers), y) == Count(peers, y) + if x == y then 1 else 0
  {
    if peers == [] || x.lastIsMasterMS <= peers[0].lastIsMasterMS {
      assert ([x] + peers)[1..] == peers;
    } else {
      InsertSorts(x, peers[1..], y);
      var rest := Insert(x, peers[1..]);
      InsertMembers(x, peers[1..]);
      forall j | 0 <= j < |rest| ensures peers[0].lastIsMasterMS <= rest[j].lastIsMasterMS {
        assert rest[j] in rest;
      }
      assert ([peers[0]] + rest)[1..] == rest;
    }
  }

  lemma {:induction false} InsertMembers(x: Peer, peers: seq<Peer>)
    ensures forall y <- Insert(x, peers) :: y == x || y in peers
  {
    if peers != [] && x.lastIsMasterMS > peers[0].lastIsMasterMS {
      InsertMembers(x, peers[1..]);
    }
  }

  lemma {:induction false} SortSorts(peers: seq<Peer>, y: Peer)
    ensures Sorted(Sort(peers)) && Count(Sort(peers), y) == Count(peers, y)
  {
    if peers == [] {
    } else {
      SortSorts(peers[1..], y);
      InsertSorts(peers[0], Sort(peers[1..]), y);
    }
  }

  lemma {:induction false} UpToCounts(high: int, peers: seq<Peer>, y: Peer)
    ensures Count(UpTo(high, peers), y) == if y.lastIsMasterMS <= high then Count(peers, y) else 0
  {
    if peers == [] {
    } else {
      UpToCounts(high, peers[1..], y);
      CountAppend(if peers[0].lastIsMasterMS <= high then [peers[0]] else [], UpTo(high, peers[1..]), y);
    }
  }

  /** Whether a mode may read from the primary: secondary mode only if there is no secondary. */
  predicate ReadsPrimary(m: Members, mode: Mode) {
    match mode
    case Primary => true
    case PrimaryPreferred => true
    case Nearest => true
    case Secondary => m.secondaries == []
    case SecondaryPreferred => false
  }

  /** Every mode starts from the secondaries, and from the primary where it may read from it. */
  lemma SeedsExact(m: Members, mode: Mode, y: Peer)
    ensures Count(Seeds(m, mode), y) == Count(m.secondaries, y)
      + if m.primary == Some(y) && ReadsPrimary(m, mode) then 1 else 0
  {
    if m.primary.Some? {
      assert [m.primary.value][1..] == [] && [m.primary.value] + [] == [m.primary.value];
      CountAppend([m.primary.value], m.secondaries, y);
    }
    assert [] + m.secondaries == m.secondaries;
  }

  /** y is within d of every peer. */
  ghost predicate Within(peers: seq<Peer>, d: int, y: Peer) {
    forall x <- peers :: y.lastIsMasterMS <= x.lastIsMasterMS + d
  }

  /** The window: the tagged servers within the latency of every tagged server, each as often as it was tagged. */
  lemma NearestWindowExact(m: Members, mode: Mode, tags: Option<TagSets>, y: Peer)
    ensures var tagged := FilterByTags(tags, Seeds(m, mode));
      Count(NearestWindow(m, mode, tags), y) == if Within(tagged, m.acceptableLatency, y) then Count(tagged, y) else 0
  {
    var tagged := FilterByTags(tags, Seeds(m, mode));
    var sorted := Sort(tagged);
    SortSorts(tagged, y);
    CountIn(tagged, y);
    if sorted != [] {
      UpToCounts(sorted[0].lastIsMasterMS + m.acceptableLatency, sorted, y);
      FastestFirst(tagged);
      if y.lastIsMasterMS <= sorted[0].lastIsMasterMS + m.acceptableLatency {
        assert Within(tagged, m.acceptableLatency, y);
      }
    }
  }

  /** y has every tag of the set with its value. */
  predicate Wears(y: Peer, wanted: map<string, string>) {
    forall name <- wanted :: name in y.tags && y.tags[name] == wanted[name]
  }

  /** How many of the tag sets y matches. */
  function Hits(tags: TagSets, y: Peer): nat {
    if tags == [] then 0 else (if Wears(y, tags[0]) then 1 else 0) + Hits(tags[1..], y)
  }

  lemma {:induction false} MatchingCounts(wanted: map<string, string>, peers: seq<Peer>, y: Peer)
    ensures Count(Matching(wanted, peers), y) == if Wears(y, wanted) then Count(peers, y) else 0
  {
    if peers == [] {
    } else {
      MatchingCounts(wanted, peers[1..], y);
      CountAppend(if HasTags(wanted, peers[0].tags) then [peers[0]] else [], Matching(wanted, peers[1..]), y);
    }
  }

  /** The filter lists a server once for every tag set it matches. */
  lemma {:induction false} TagSetsCount(tags: TagSets, peers: seq<Peer>, y: Peer)
    ensures Count(ByTagSets(tags, peers), y) == Hits(tags, y) * Count(peers, y)
  {
    if tags == [] {
    } else {
      hide Count, Wears, Matching;
      TagSetsCount(tags[1..], peers, y);
      MatchingCounts(tags[0], peers, y);
      CountAppend(Matching(tags[0], peers), ByTagSets(tags[1..], peers), y);
      OneMore(Hits(tags[1..], y), Count(peers, y));
    }
  }

  lemma OneMore(hits: nat, n: nat)
    ensures (1 + hits) * n == n + hits * n
  {
  }

  /** How often y stands among the servers after the tag filter. */
  function Weight(m: Members, mode: Mode, tags: Option<TagSets>, y: Peer): nat {
    (if tags.None? then 1 else Hits(tags.value, y)) * Count(Seeds(m, mode), y)
  }

  lemma FilterCounts(m: Members, mode: Mode, tags: Option<TagSets>, y: Peer)
    ensures Count(FilterByTags(tags, Seeds(m, mode)), y) == Weight(m, mode, tags, y)
  {
    if tags.Some? {
      TagSetsCount(tags.value, Seeds(m, mode), y);
    }
  }

  lemma FastestFirst(peers: seq<Peer>)
    requires Sort(peers) != []
    ensures Sort(peers)[0] in peers && forall x <- peers :: Sort(peers)[0].lastIsMasterMS <= x.lastIsMasterMS
  {
    var sorted := Sort(peers);
    SortSorts(peers, sorted[0]);
    CountIn(sorted, sorted[0]);
    CountIn(peers, sorted[0]);
    forall x <- peers ensures sorted[0].lastIsMasterMS <= x.lastIsMasterMS {
      SortSorts(peers, x);
      CountIn(peers, x);
      CountIn(sorted, x);
      var i :| 0 <= i < |sorted| && sorted[i] == x;
      assert i == 0 || sorted[0].lastIsMasterMS <= sorted[i].lastIsMasterMS;
    }
  }

  lemma {:induction false} FastestIsLeast(proxies: seq<Peer>)
    requires proxies != []
    ensures Fastest(proxies).Some?
    ensures (exists x <- proxies :: x.lastIsMasterMS == Fastest(proxies).value)
      && forall x <- proxies :: Fastest(proxies).value <= x.lastIsMasterMS
  {
    var front, last := proxies[..|proxies| - 1], proxies[|proxies| - 1];
    assert proxies == front + [last] && last in proxies;
    if front == [] {
    } else {
      FastestIsLeast(front);
      var x :| x in front && x.lastIsMasterMS == Fastest(front).value;
      assert x in proxies;
    }
  }

  lemma {:induction false} AvailableCounts(high: int, proxies: seq<Peer>, y: Peer)
    ensures Count(Available(high, proxies), y) ==
      if y.lastIsMasterMS <= high && y.connected then Count(proxies, y) else 0
  {
    if proxies == [] {
    } else {
      AvailableCounts(high, proxies[1..], y);
      CountAppend(if proxies[0].lastIsMasterMS <= high && proxies[0].connected then [proxies[0]] else [],
                  Available(high, proxies[1..]), y);
    }
  }

  /** The window holds exactly the connected proxies within the threshold of every proxy, connected or not. */
  lemma ProxyWindowExact(proxies: seq<Peer>, threshold: int, y: Peer)
    ensures Count(ProxyWindow(proxies, threshold), y) ==
      if y.connected && Within(proxies, threshold, y) then Count(proxies, y) else 0
  {
    if proxies != [] {
      FastestIsLeast(proxies);
      AvailableCounts(Fastest(proxies).value + threshold, proxies, y);
      CountIn(proxies, y);
      if y.lastIsMasterMS <= Fastest(proxies).value + threshold {
        assert Within(proxies, threshold, y);
      }
    }
  }

  // ---------- round robin ----------

  /** The servers of k calls in a row, from an index. */
  function NearestCalls(m: Members, mode: Mode, tags: Option<TagSets>, index: nat, k: nat): seq<Option<Peer>>
    decreases k
  {
    if k == 0 then [] else
    var (server, next) := PickNearest(m, mode, tags, index);
    [server] + NearestCalls(m, mode, tags, next, k - 1)
  }

  function ProxyCalls(proxies: seq<Peer>, threshold: int, index: nat, k: nat): seq<Option<Peer>>
    decreases k
  {
    if k == 0 then [] else
    var (proxy, next) := ChooseProxy(proxies, threshold, index);
    [proxy] + ProxyCalls(proxies, threshold, next, k - 1)
  }

  lemma NextIndex(index: nat, j: nat, n: nat)
    requires n > 0
    ensures (index % n + 1 + j) % n == (index + (1 + j)) % n
    ensures ((index + 1) % n + j) % n == (index + (1 + j)) % n
  {
    SameRemainder(index, 1 + j, n);
    SameRemainder(index + 1, j, n);
  }

  /** Call j picks the window's server at index + j, round the window. */
  lemma {:induction false} NearestRoundRobin(m: Members, mode: Mode, tags: Option<TagSets>, index: nat, k: nat)
    requires NearestWindow(m, mode, tags) != []
    ensures var w, calls := NearestWindow(m, mode, tags), NearestCalls(m, mode, tags, index, k);
      |calls| == k && forall j | 0 <= j < k :: calls[j] == Some(w[(index + j) % |w|])
    decreases k
  {
    hide NearestWindow;
    if k == 0 {
    } else {
      var w := NearestWindow(m, mode, tags);
      var next := index % |w| + 1;
      var rest := NearestCalls(m, mode, tags, next, k - 1);
      NearestRoundRobin(m, mode, tags, next, k - 1);
      forall j | 0 <= j < k - 1 ensures rest[j] == Some(w[(index + (1 + j)) % |w|]) {
        NextIndex(index, j, |w|);
      }
    }
  }

  lemma {:induction false} ProxyRoundRobin(proxies: seq<Peer>, threshold: int, index: nat, k: nat)
    requires ProxyWindow(proxies, threshold) != []
    ensures var w, calls := ProxyWindow(proxies, threshold), ProxyCalls(proxies, threshold, index, k);
      |calls| == k && forall j | 0 <= j < k :: calls[j] == Some(w[(index + j) % |w|])
    decreases k
  {
    hide ProxyWindow;
    if k == 0 {
    } else {
      var w := ProxyWindow(proxies, threshold);
      var next := (index + 1) % |w|;
      var rest := ProxyCalls(proxies, threshold, next, k - 1);
      ProxyRoundRobin(proxies, threshold, next, k - 1);
      forall j | 0 <= j < k - 1 ensures rest[j] == Some(w[(index + (1 + j)) % |w|]) {
        NextIndex(index, j, |w|);
      }
    }
  }

  function Somes(peers: seq<Peer>): seq<Option<Peer>> {
    seq(|peers|, i requires 0 <= i < |peers| => Some(peers[i]))
  }

  lemma {:induction false} SomesCount(peers: seq<Peer>, y: Peer)
    ensures Count(Somes(peers), Some(y)) == Count(peers, y)
  {
    if peers == [] {
    } else {
      assert Somes(peers)[1..] == Somes(peers[1..]);
      SomesCount(peers[1..], y);
    }
  }

  /** Once round the window from any index picks every server of it exactly as often as it stands there. */
  lemma OnceRound(w: seq<Peer>, index: nat, calls: seq<Option<Peer>>, y: Peer)
    requires w != [] && |calls| == |w|
    requires forall j | 0 <= j < |w| :: calls[j] == Some(w[(index + j) % |w|])
    ensures Count(calls, Some(y)) == Count(w, y)
  {
    var n, i := |w|, index % |w|;
    forall j | 0 <= j < n ensures calls[j] == Somes(w[i..] + w[..i])[j] {
      SameRemainder(index, j, n);
      Wraps(i, j, n);
    }
    assert calls == Somes(w[i..] + w[..i]);
    SomesCount(w[i..] + w[..i], y);
    CountAppend(w[i..], w[..i], y);
    CountAppend(w[..i], w[i..], y);
    assert w[..i] + w[i..] == w;
  }

  /**
   * With unchanged members, as many calls as the window is long pick every server as often as it matches tag sets if it
   * is within the latency of all matching servers, and never otherwise. So a server that stands once among the members
   * is picked exactly once if and only if it is within the latency and matches exactly one tag set, or none are given.
   */
  lemma NearestIsFair(m: Members, mode: Mode, tags: Option<TagSets>, index: nat, y: Peer)
    requires NearestWindow(m, mode, tags) != []
    ensures var tagged := FilterByTags(tags, Seeds(m, mode));
      var picks := Count(NearestCalls(m, mode, tags, index, |NearestWindow(m, mode, tags)|), Some(y));
      && picks == (if Within(tagged, m.acceptableLatency, y) then Weight(m, mode, tags, y) else 0)
      && (Count(Seeds(m, mode), y) == 1 ==>
            (picks == 1 <==> Within(tagged, m.acceptableLatency, y) && (tags.None? || Hits(tags.value, y) == 1)))
  {
    hide NearestWindow, NearestCalls, FilterByTags, Seeds, Within, Count;
    var w := NearestWindow(m, mode, tags);
    NearestRoundRobin(m, mode, tags, index, |w|);
    OnceRound(w, index, NearestCalls(m, mode, tags, index, |w|), y);
    NearestWindowExact(m, mode, tags, y);
    FilterCounts(m, mode, tags, y);
  }

  /** The same for the proxies of a sharded deployment. */
  lemma ProxiesAreFair(proxies: seq<Peer>, threshold: int, index: nat, y: Peer)
    requires ProxyWindow(proxies, threshold) != []
    ensures Count(ProxyCalls(proxies, threshold, index, |ProxyWindow(proxies, threshold)|), Some(y))
      == if y.connected && Within(proxies, threshold, y) then Count(proxies, y) else 0
  {
    hide ProxyWindow, ProxyCalls, Within, Count;
    var w := ProxyWindow(proxies, threshold);
    ProxyRoundRobin(proxies, threshold, index, |w|);
    OnceRound(w, index, ProxyCalls(proxies, threshold, index, |w|), y);
    ProxyWindowExact(proxies, threshold, y);
  }

  /** A proxy that is not connected is chosen exactly when it is the first and every connected one is too slow. */
  lemma DisconnectedProxyExact(proxies: seq<Peer>, threshold: int, index: nat)
    ensures var proxy := ChooseProxy(proxies, threshold, index).0;
      proxy.Some? && !proxy.value.connected <==>
        && proxies != [] && !proxies[0].connected
        && forall y <- proxies | y.connected :: !Within(proxies, threshold, y)
  {
    var w := ProxyWindow(proxies, threshold);
    forall y ensures y in w <==> y in proxies && y.connected && Within(proxies, threshold, y) {
      ProxyWindowExact(proxies, threshold, y);
      CountIn(w, y);
      CountIn(proxies, y);
    }
    if w != [] {
      assert w[index % |w|] in w;
      assert w[0] in w;
    }
  }

  /** Without a connected pinned proxy the pin moves to the proxy picked, if that is connected and the pin active. */
  lemma PinMoves(proxies: seq<Peer>, threshold: int, index: nat, pin: Pin)
    requires !(pin.proxy.Some? && pin.proxy.value.connected)
    ensures var (proxy, next, pinned) := PickProxy(proxies, threshold, index, Some(pin));
      && (proxy, next) == ChooseProxy(proxies, threshold, index)
      && pinned == Some(Pin(pin.active, if pin.active && proxy.Some? && proxy.value.connected then proxy else None))
  {
  }

  /** A pinned transaction stays on its proxy, without using up a turn, for as long as the proxy is connected. */
  lemma PinnedStays(proxies: seq<Peer>, threshold: int, index: nat, pin: Pin)
    requires pin.active
    ensures var (proxy, next, after) := PickProxy(proxies, threshold, index, Some(pin));
      proxy.Some? && proxy.value.connected ==>
        after == Some(pin.(proxy := proxy)) && PickProxy(proxies, threshold, next, after) == (proxy, next, after)
  {
  }

  // ---------- the lists of proxies ----------

  /** The splicing loop steps over the proxy that moves into the place of one it took out. */
  function TakenOut(proxies: seq<Peer>, name: string): seq<Peer>
    decreases |proxies|
  {
    if proxies == [] then []
    else if proxies[0].name == name then (if |proxies| > 1 then [proxies[1]] + TakenOut(proxies[2..], name) else [])
    else [proxies[0]] + TakenOut(proxies[1..], name)
  }

  function Named(proxies: seq<Peer>, name: string): nat {
    if proxies == [] then 0 else (if proxies[0].name == name then 1 else 0) + Named(proxies[1..], name)
  }

  lemma {:induction false} NamedAppend(a: seq<Peer>, b: seq<Peer>, name: string)
    ensures Named(a + b, name) == Named(a, name) + Named(b, name)
  {
    if a == [] {
      assert a + b == b;
    } else {
      assert (a + b)[1..] == a[1..] + b;
      NamedAppend(a[1..], b, name);
    }
  }

  lemma {:induction false} TakenOutNames(proxies: seq<Peer>, name: string, other: string)
    ensures other != name ==> Named(TakenOut(proxies, name), other) == Named(proxies, other)
    ensures Named(proxies, name) <= 1 ==> Named(TakenOut(proxies, name), name) == 0
    decreases |proxies|
  {
    if proxies == [] {
    } else {
      if proxies[0].name != name {
        TakenOutNames(proxies[1..], name, other);
      } else if |proxies| > 1 {
        TakenOutNames(proxies[2..], name, other);
        assert proxies[1..][1..] == proxies[2..];
        assert Named(proxies, other) == (if other == name then 1 else 0) + Named(proxies[1..], other);
        assert Named(proxies, name) == 1 + (if proxies[1].name == name then 1 else 0) + Named(proxies[2..], name);
        var rest := TakenOut(proxies[2..], name);
        assert ([proxies[1]] + rest)[1..] == rest;
      }
    }
  }

  /** The loop leaves no proxy of the name exactly when no two of them stand next to each other. */
  lemma {:induction false} TakenOutExact(proxies: seq<Peer>, name: string)
    ensures Named(TakenOut(proxies, name), name) == 0 <==>
      forall i | 0 <= i < |proxies| - 1 :: !(proxies[i].name == name && proxies[i + 1].name == name)
    decreases |proxies|
  {
    if proxies == [] {
    } else {
      var step := if proxies[0].name == name then 2 else 1;
      if |proxies| > step {
        var rest := proxies[step..];
        TakenOutExact(rest, name);
        assert forall i | 0 <= i < |rest| :: rest[i] == proxies[i + step];
        assert forall i | step <= i < |proxies| :: proxies[i] == rest[i - step];
      }
      if |proxies| >= step {
        var front := proxies[step - 1];
        assert TakenOut(proxies, name)[0] == front;
        assert TakenOut(proxies, name)[1..] == if |proxies| > step then TakenOut(proxies[step..], name) else [];
      }
    }
  }

  /** No name stands twice in the three lists together. */
  ghost predicate Separate(a: seq<Peer>, b: seq<Peer>, c: seq<Peer>) {
    forall name: string :: Named(a, name) + Named(b, name) + Named(c, name) <= 1
  }

  /**
   * Moving a proxy between two of three separate lists puts it at the end of the second and nowhere in the first, moves
   * nobody else, and keeps the lists separate exactly when the third did not hold it.
   */
  lemma MoveKeepsSeparate(from: seq<Peer>, to: seq<Peer>, third: seq<Peer>, proxy: Peer, other: string)
    requires Separate(from, to, third)
    ensures var from', to' := TakenOut(from, proxy.name), TakenOut(to, proxy.name) + [proxy];
      && Named(from', proxy.name) == 0 && Named(to', proxy.name) == 1
      && (other != proxy.name ==> Named(from', other) == Named(from, other) && Named(to', other) == Named(to, other))
      && (Separate(from', to', third) <==> Named(third, proxy.name) == 0)
  {
    var from', to' := TakenOut(from, proxy.name), TakenOut(to, proxy.name) + [proxy];
    forall name: string
      ensures Named(from', name) == if name == proxy.name then 0 else Named(from, name)
      ensures Named(to', name) == if name == proxy.name then 1 else Named(to, name)
    {
      TakenOutNames(from, proxy.name, name);
      TakenOutNames(to, proxy.name, name);
      NamedAppend(TakenOut(to, proxy.name), [proxy], name);
      assert [proxy][1..] == [];
      assert Named(from, proxy.name) + Named(to, proxy.name) + Named(third, proxy.name) <= 1;
    }
    if Named(third, proxy.name) == 0 {
      forall name: string ensures Named(from', name) + Named(to', name) + Named(third, name) <= 1 {
        assert Named(from, name) + Named(to, name) + Named(third, name) <= 1;
      }
    } else {
      assert Named(from', proxy.name) + Named(to', proxy.name) + Named(third, proxy.name) > 1;
    }
  }

  // ---------- the objects ----------

  /** What a replica-set state keeps for picking. */
  class ReplSetPicker {
    var primary: Option<Peer>
    var secondaries: seq<Peer>
    var acceptableLatency: int
    var index: nat

    function View(): Members
      reads this
    {
      Members(primary, secondaries, acceptableLatency)
    }

    static method FilterServers(tags: Option<TagSets>, servers: seq<Peer>) returns (filtered: seq<Peer>)
      ensures filtered == FilterByTags(tags, servers)
    {
      if tags.None? {
        return servers;
      }
      filtered := [];
      for j := 0 to |tags.value|
        invariant ByTagSets(tags.value, servers) == filtered + ByTagSets(tags.value[j..], servers)
      {
        assert tags.value[j..][1..] == tags.value[j + 1..];
        filtered := AddMatching(tags.value[j], servers, filtered);
      }
      assert tags.value[|tags.value|..] == [];
    }

    static method AddMatching(wanted: map<string, string>, servers: seq<Peer>, before: seq<Peer>)
      returns (filtered: seq<Peer>)
      ensures filtered == before + Matching(wanted, servers)
    {
      filtered := before;
      for i := 0 to |servers|
        invariant before + Matching(wanted, servers) == filtered + Matching(wanted, servers[i..])
      {
        assert servers[i..][1..] == servers[i + 1..];
        if HasTags(wanted, servers[i].tags) {
          filtered := filtered + [servers[i]];
        }
      }
      assert servers[|servers|..] == [];
    }

    method Pick(mode: Mode, tags: Option<TagSets>) returns (server: Option<Peer>)
      modifies this`index
      ensures (server, index) == PickNearest(View(), mode, tags, old(index))
    {
      hide Sort, UpTo, FilterByTags;
      var servers := [];
      if primary.Some? && mode != Secondary && mode != SecondaryPreferred {
        servers := [primary.value];
      }
      servers := servers + secondaries;
      if |servers| == 0 && primary.Some? && mode != SecondaryPreferred {
        servers := [primary.value];
      }
      assert servers == Seeds(View(), mode);
      servers := FilterServers(tags, servers);
      servers := Sort(servers);
      if |servers| > 0 {
        servers := UpTo(servers[0].lastIsMasterMS + acceptableLatency, servers);
      }
      assert servers == NearestWindow(View(), mode, tags);
      if |servers| == 0 {
        return None;
      }
      index := index % |servers|;
      server := Some(servers[index]);
      index := index + 1;
    }
  }

  /** The proxies of a sharded deployment. */
  class MongosProxies {
    var connectingProxies: seq<Peer>
    var connectedProxies: seq<Peer>
    var disconnectedProxies: seq<Peer>
    var index: nat
    var localThresholdMS: int

    /** `pinned` and what it becomes stand for the transaction of the session, if there is one. */
    method Pick(pinned: Option<Pin>) returns (proxy: Option<Peer>, pin: Option<Pin>)
      modifies this`index
      ensures (proxy, index, pin) == PickProxy(connectedProxies, localThresholdMS, old(index), pinned)
    {
      hide Fastest, Available, ProxyWindow;
      pin := pinned;
      if pin.Some? && pin.value.proxy.Some? {
        if pin.value.proxy.value.connected {
          proxy := pin.value.proxy;
          return;
        }
        pin := Some(pin.value.(proxy := None));
      }
      var lowest := LowerBound(connectedProxies);
      var window := if lowest.None? then [] else Available(lowest.value + localThresholdMS, connectedProxies);
      WindowOf(connectedProxies, localThresholdMS);
      if |window| == 0 {
        proxy := if |connectedProxies| > 0 then Some(connectedProxies[0]) else None;
      } else {
        proxy := Some(window[index % |window|]);
        index := (index + 1) % |window|;
      }
      if pin.Some? && pin.value.active && proxy.Some? && proxy.value.connected {
        pin := Some(pin.value.(proxy := proxy));
      }
    }

    static method LowerBound(proxies: seq<Peer>) returns (lowest: Option<int>)
      ensures lowest == Fastest(proxies)
    {
      lowest := None;
      for i := 0 to |proxies|
        invariant lowest == Fastest(proxies[..i])
      {
        assert proxies[..i + 1][..i] == proxies[..i];
        if lowest.None? || proxies[i].lastIsMasterMS < lowest.value {
          lowest := Some(proxies[i].lastIsMasterMS);
        }
      }
      assert proxies[..|proxies|] == proxies;
    }

    static lemma WindowOf(proxies: seq<Peer>, threshold: int)
      ensures ProxyWindow(proxies, threshold) ==
        if Fastest(proxies).None? then [] else Available(Fastest(proxies).value + threshold, proxies)
    {
      if proxies != [] {
        FastestIsLeast(proxies);
      }
    }

    /** One turn of the loop: the proxy at the front of rest is taken out, or passed. */
    static lemma SpliceTurn(past: seq<Peer>, rest: seq<Peer>, name: string)
      requires rest != []
      ensures var r, i := past + rest, |past|;
        && r[i] == rest[0] && r[..i] + r[i + 1..] == past + rest[1..]
        && past + rest == (past + [rest[0]]) + rest[1..]
        && (rest[0].name != name ==> past + TakenOut(rest, name) == (past + [rest[0]]) + TakenOut(rest[1..], name))
        && (rest[0].name == name && |rest| == 1 ==> TakenOut(rest, name) == rest[1..] == [])
        && (rest[0].name == name && |rest| > 1 ==>
              && past + rest[1..] == (past + [rest[1]]) + rest[2..]
              && past + TakenOut(rest, name) == (past + [rest[1]]) + TakenOut(rest[2..], name))
    {
      SpliceFront(rest, name);
      hide TakenOut;
      SplicedAt(past, rest);
      Regroup(past, rest[0], rest[1..]);
      assert rest == [rest[0]] + rest[1..];
      Regroup(past, rest[0], TakenOut(rest[1..], name));
      if |rest| > 1 {
        assert rest[1..] == [rest[1]] + rest[2..];
        Regroup(past, rest[1], rest[2..]);
        Regroup(past, rest[1], TakenOut(rest[2..], name));
      }
    }

    static lemma SpliceFront(proxies: seq<Peer>, name: string)
      requires proxies != []
      ensures TakenOut(proxies, name) ==
        if proxies[0].name != name then [proxies[0]] + TakenOut(proxies[1..], name)
        else if |proxies| > 1 then [proxies[1]] + TakenOut(proxies[2..], name) else []
    {
    }

    static lemma Regroup(past: seq<Peer>, x: Peer, rest: seq<Peer>)
      ensures past + ([x] + rest) == (past + [x]) + rest
    {
    }

    static lemma SplicedAt(past: seq<Peer>, rest: seq<Peer>)
      requires rest != []
      ensures (past + rest)[|past|] == rest[0]
      ensures (past + rest)[..|past|] + (past + rest)[|past| + 1..] == past + rest[1..]
    {
      assert (past + rest)[..|past|] == past && (past + rest)[|past| + 1..] == rest[1..];
    }

    static method SpliceOut(list: seq<Peer>, name: string) returns (r: seq<Peer>)
      ensures r == TakenOut(list, name)
    {
      ghost var past, rest := [], list;
      var i := 0;
      r := list;
      assert TakenOut([], name) == [];
      hide TakenOut;
      while i < |r|
        invariant r == past + rest && i >= |past| && (i == |past| || rest == [])
        invariant TakenOut(list, name) == past + TakenOut(rest, name)
        decreases |r| - i
      {
        SpliceTurn(past, rest, name);
        if r[i].name == name {
          r := r[..i] + r[i + 1..];
          if |rest| > 1 {
            past, rest := past + [rest[1]], rest[2..];
          } else {
            rest := [];
          }
        } else {
          past, rest := past + [rest[0]], rest[1..];
        }
        i := i + 1;
      }
    }

    /** moveServerFrom between two of the lists. */
    method MoveServerFrom(from: seq<Peer>, to: seq<Peer>, proxy: Peer) returns (from': seq<Peer>, to': seq<Peer>)
      ensures from' == TakenOut(from, proxy.name) && to' == TakenOut(to, proxy.name) + [proxy]
    {
      from' := SpliceOut(from, proxy.name);
      to' := SpliceOut(to, proxy.name);
      to' := to' + [proxy];
    }

    /** A connected proxy is lost. */
    method Disconnected(proxy: Peer)
      modifies this`connectedProxies, this`disconnectedProxies
      ensures connectedProxies == TakenOut(old(connectedProxies), proxy.name)
      ensures disconnectedProxies == TakenOut(old(disconnectedProxies), proxy.name) + [proxy]
    {
      connectedProxies, disconnectedProxies := MoveServerFrom(connectedProxies, disconnectedProxies, proxy);
    }

    /** A new proxy answers: it joins unless one of that name is connected already. */
    method Joined(proxy: Peer)
      modifies this`connectingProxies, this`connectedProxies, this`disconnectedProxies
      ensures connectingProxies == TakenOut(old(connectingProxies), proxy.name)
      ensures Named(old(connectedProxies), proxy.name) == 0 ==>
        && connectedProxies == TakenOut(old(connectedProxies), proxy.name) + [proxy]
        && disconnectedProxies == old(disconnectedProxies)
      ensures Named(old(connectedProxies), proxy.name) > 0 ==>
        && disconnectedProxies == TakenOut(old(disconnectedProxies), proxy.name) + [proxy]
        && connectedProxies == old(connectedProxies)
    {
      for i := 0 to |connectedProxies|
        invariant connectingProxies == old(connectingProxies) && connectedProxies == old(connectedProxies)
        invariant disconnectedProxies == old(disconnectedProxies)
        invariant Named(connectedProxies, proxy.name) == Named(connectedProxies[i..], proxy.name)
      {
        assert connectedProxies[i..][1..] == connectedProxies[i + 1..];
        if connectedProxies[i].name == proxy.name {
          connectingProxies, disconnectedProxies := MoveServerFrom(connectingProxies, disconnectedProxies, proxy);
          return;
        }
      }
      assert connectedProxies[|connectedProxies|..] == [];
      connectingProxies, connectedProxies := MoveServerFrom(connectingProxies, connectedProxies, proxy);
    }
  }
}
