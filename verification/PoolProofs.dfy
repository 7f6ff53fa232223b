/** Conservation of operations, ownership of connections and order of sending, in every run of the pool. */
module PoolProofs {
  import opened Lists
  import opened Pools

  /** Flushing takes monitoring operations out and keeps the others in order. */
  lemma {:induction false} FlushSplits(q: seq<Item>, x: Item)
    ensures Count(FlushedOf(q), x) + Count(KeptOf(q), x) == Count(q, x)
    decreases |q|
  {
    if q == [] {
    } else if q[0].monitoring {
      if |q| > 1 {
        FlushSplits(q[2..], x);
        assert q[1..][1..] == q[2..];
        assert KeptOf(q)[1..] == KeptOf(q[2..]);
        assert FlushedOf(q)[1..] == FlushedOf(q[2..]);
      }
    } else {
      FlushSplits(q[1..], x);
      assert KeptOf(q)[1..] == KeptOf(q[1..]);
    }
  }

  lemma {:induction false} KeptOrdinary(q: seq<Item>)
    ensures Ordinary(KeptOf(q)) == Ordinary(q) && forall x <- KeptOf(q) :: x in q
    decreases |q|
  {
    if q == [] {
    } else if q[0].monitoring {
      if |q| > 1 {
        KeptOrdinary(q[2..]);
        assert q[1..][1..] == q[2..];
        assert KeptOf(q)[1..] == KeptOf(q[2..]);
      }
    } else {
      KeptOrdinary(q[1..]);
      assert KeptOf(q)[1..] == KeptOf(q[1..]);
    }
  }

  lemma {:induction false} MatchSplits(w: seq<Item>, id: int, x: Item)
    ensures Count(Matches(w, id), x) + Count(Unmatched(w, id), x) == Count(w, x)
    decreases |w|
  {
    if w == [] {
    } else if w[0].requestId == id {
      if |w| > 1 {
        MatchSplits(w[2..], id, x);
        assert w[1..][1..] == w[2..];
        assert Unmatched(w, id)[1..] == Unmatched(w[2..], id);
        assert Matches(w, id)[1..] == Matches(w[2..], id);
      }
    } else {
      MatchSplits(w[1..], id, x);
      assert Unmatched(w, id)[1..] == Unmatched(w[1..], id);
    }
  }

  lemma {:induction false} MatchMembers(w: seq<Item>, id: int)
    ensures (forall x <- Matches(w, id) :: x in w && x.requestId == id) && (forall x <- Unmatched(w, id) :: x in w)
    decreases |w|
  {
    if w == [] {
    } else {
      MatchMembers(if w[0].requestId == id then (if |w| > 1 then w[2..] else []) else w[1..], id);
    }
  }

  /** The operations that are not monitoring ones. */
  function Ordinary(xs: seq<Item>): seq<Item> {
    if xs == [] then [] else (if xs[0].monitoring then [] else [xs[0]]) + Ordinary(xs[1..])
  }

  lemma {:induction false} OrdinaryAppend(a: seq<Item>, b: seq<Item>)
    ensures Ordinary(a + b) == Ordinary(a) + Ordinary(b)
  {
    if a == [] {
      assert a + b == b;
    } else {
      assert (a + b)[1..] == a[1..] + b;
      OrdinaryAppend(a[1..], b);
    }
  }

  /** Finishing operations touches nothing but the two lists of ended ones. */
  lemma {:induction false} FinishAllEffect(p: Pool, xs: seq<Item>)
    ensures var r := FinishAll(p, xs);
      r == p.(called := r.called, silent := r.silent) && p.called <= r.called && p.silent <= r.silent
    decreases |xs|
  {
    if xs == [] {
    } else {
      FinishAllEffect(Finish(p, xs[0]), xs[1..]);
    }
  }

  function Ended(p: Pool, x: Item): nat {
    Count(p.called, x) + Count(p.silent, x)
  }

  lemma {:induction false} FinishAllEnds(p: Pool, xs: seq<Item>, x: Item)
    ensures Ended(FinishAll(p, xs), x) == Ended(p, x) + Count(xs, x)
    decreases |xs|
  {
    if xs == [] {
    } else {
      FinishAllEnds(Finish(p, xs[0]), xs[1..], x);
      FinishEnds(p, xs[0], x);
    }
  }

  lemma FinishEnds(p: Pool, y: Item, x: Item)
    ensures Ended(Finish(p, y), x) == Ended(p, x) + if y == x then 1 else 0
  {
    CountAppend(p.called, [y], x);
    CountAppend(p.silent, [y], x);
  }

  // ---------- the ledger ----------

  /** How often x is in flight on the given connections. */
  function Flying(work: map<Conn, seq<Item>>, cs: seq<Conn>, x: Item): nat {
    if cs == [] then 0 else (if cs[0] in work then Count(work[cs[0]], x) else 0) + Flying(work, cs[1..], x)
  }

  /** How often x is waiting, in flight or ended. */
  function Ledger(p: Pool, x: Item): nat {
    Count(p.queue, x) + Flying(p.work, p.conns, x) + Ended(p, x)
  }

  lemma {:induction false} FlyingElsewhere(
      work: map<Conn, seq<Item>>, work': map<Conn, seq<Item>>, cs: seq<Conn>, x: Item)
    requires forall c <- cs :: (c in work <==> c in work') && (c in work ==> work[c] == work'[c])
    ensures Flying(work, cs, x) == Flying(work', cs, x)
  {
    if cs == [] {
    } else {
      assert cs == [cs[0]] + cs[1..];
      FlyingElsewhere(work, work', cs[1..], x);
    }
  }

  /** Changing the work of one connection changes what is in flight by just that. */
  lemma {:induction false} FlyingUpdate(work: map<Conn, seq<Item>>, cs: seq<Conn>, c: Conn, w: seq<Item>, x: Item)
    requires Distinct(cs) && c in cs
    ensures Flying(work[c := w], cs, x) + (if c in work then Count(work[c], x) else 0)
      == Flying(work, cs, x) + Count(w, x)
  {
    assert cs == [cs[0]] + cs[1..];
    if cs[0] == c {
      FlyingElsewhere(work[c := w], work, cs[1..], x);
    } else {
      FlyingUpdate(work, cs[1..], c, w, x);
    }
  }

  lemma {:induction false} FlyingRemove(work: map<Conn, seq<Item>>, cs: seq<Conn>, c: Conn, x: Item)
    requires Distinct(cs) && c in cs
    ensures Flying(work - {c}, cs, x) + (if c in work then Count(work[c], x) else 0) == Flying(work, cs, x)
  {
    assert cs == [cs[0]] + cs[1..];
    if cs[0] == c {
      FlyingElsewhere(work - {c}, work, cs[1..], x);
    } else {
      FlyingRemove(work, cs[1..], c, x);
    }
  }

  lemma {:induction false} FlyingClear(work: map<Conn, seq<Item>>, cs: seq<Conn>, gone: seq<Conn>, x: Item)
    requires Distinct(cs) && Distinct(gone) && forall c <- gone :: c in cs
    ensures Flying(WithoutWork(work, gone), cs, x) + Flying(work, gone, x) == Flying(work, cs, x)
    decreases |gone|
  {
    if gone == [] {
      FlyingElsewhere(WithoutWork(work, gone), work, cs, x);
    } else {
      var c := gone[0];
      assert gone == [c] + gone[1..];
      FlyingClear(work, cs, gone[1..], x);
      FlyingRemove(WithoutWork(work, gone[1..]), cs, c, x);
      assert WithoutWork(work, gone) == WithoutWork(work, gone[1..]) - {c};
    }
  }

  lemma {:induction false} InFlightCount(p: Pool, cs: seq<Conn>, x: Item)
    ensures Count(InFlight(p, cs), x) == Flying(p.work, cs, x)
  {
    if cs == [] {
    } else {
      CountAppend(p.WorkOf(cs[0]), InFlight(p, cs[1..]), x);
      InFlightCount(p, cs[1..], x);
    }
  }

  // ---------- what every step keeps ----------

  predicate Plain(xs: seq<Item>) {
    forall x <- xs :: !x.monitoring
  }

  /** What write demands, and monitoring operations expect a reply. */
  predicate Sendable(x: Item) {
    (x.hasCallback || x.noResponse) && (x.monitoring ==> !x.noResponse)
  }

  /**
   * No connection is listed twice; one in use carries exactly one operation, a monitoring one;
   * an available one carries none of those.
   */
  ghost predicate Inv(p: Pool) {
    && Distinct(p.conns) && Distinct(p.available) && Distinct(p.inUse)
    && (forall c <- p.available :: c !in p.inUse && c in p.conns && Plain(p.WorkOf(c)))
    && (forall c <- p.inUse :: c in p.conns && |p.WorkOf(c)| == 1 && p.WorkOf(c)[0].monitoring)
    && (forall c <- p.work :: c in p.conns && forall x <- p.work[c] :: x.hasCallback)
    && (forall x <- p.queue :: Sendable(x))
  }

  /** No operation appears or vanishes. */
  ghost predicate SameLedger(p: Pool, p': Pool) {
    forall x :: Ledger(p', x) == Ledger(p, x)
  }

  lemma {:induction false} FlushedMembers(q: seq<Item>)
    ensures forall x <- FlushedOf(q) :: x in q && x.monitoring
    decreases |q|
  {
    if q == [] {
    } else {
      FlushedMembers(if q[0].monitoring then (if |q| > 1 then q[2..] else []) else q[1..]);
    }
  }

  /** Operations with a callback are not silent. */
  lemma {:induction false} FinishAllHeard(p: Pool, xs: seq<Item>)
    requires forall x <- xs :: x.hasCallback
    ensures FinishAll(p, xs).silent == p.silent
    decreases |xs|
  {
    if xs == [] {
    } else {
      assert xs == [xs[0]] + xs[1..];
      FinishAllHeard(Finish(p, xs[0]), xs[1..]);
    }
  }

  lemma FlushKeeps(p: Pool)
    requires Inv(p)
    ensures var r := FlushMonitoring(p);
      && Inv(r) && SameLedger(p, r)
      && r == p.(queue := KeptOf(p.queue), called := r.called, silent := p.silent)
  {
    var p1 := p.(queue := KeptOf(p.queue));
    FinishAllEffect(p1, FlushedOf(p.queue));
    FlushedMembers(p.queue);
    FinishAllHeard(p1, FlushedOf(p.queue));
    KeptOrdinary(p.queue);
    forall x ensures Ledger(FlushMonitoring(p), x) == Ledger(p, x) {
      FinishAllEnds(p1, FlushedOf(p.queue), x);
      FlushSplits(p.queue, x);
    }
  }

  lemma RemovedKeeps(p: Pool, c: Conn)
    requires Inv(p)
    ensures Inv(Removed(p, c)) && SameLedger(p, Removed(p, c))
    ensures c !in Removed(p, c).available && c !in Removed(p, c).inUse
    ensures forall d <- Removed(p, c).available + Removed(p, c).inUse :: d in p.available + p.inUse
    ensures Removed(p, c).Total() <= p.Total()
  {
    WithoutMembers(p.available, c);
    WithoutMembers(p.inUse, c);
    WithoutLength(p.available, c);
    WithoutLength(p.inUse, c);
  }

  lemma DispatchLedger(p: Pool, c: Conn)
    requires Inv(p) && p.queue != [] && c in p.available
    ensures SameLedger(p, Dispatch(p, c, false))
  {
    var x, r := p.queue[0], Dispatch(p, c, false);
    forall y ensures Ledger(r, y) == Ledger(p, y) {
      if x.noResponse {
        FinishEnds(p, x, y);
      } else {
        CountAppend(p.WorkOf(c), [x], y);
        FlyingUpdate(p.work, p.conns, c, p.WorkOf(c) + [x], y);
      }
    }
  }

  /** An ordinary operation joins the work of an available connection. */
  lemma DispatchOrdinary(p: Pool, c: Conn)
    requires Inv(p) && p.queue != [] && c in p.available && !p.queue[0].monitoring
    ensures Inv(Dispatch(p, c, false))
  {
    var x := p.queue[0];
    assert x in p.queue;
  }

  /** A monitoring operation takes an idle available connection into use. */
  lemma DispatchMonitoring(p: Pool, c: Conn)
    requires Inv(p) && p.queue != [] && c in p.available && p.queue[0].monitoring && p.WorkOf(c) == []
    ensures Inv(Dispatch(p, c, false)) && Dispatch(p, c, false).Total() == p.Total()
  {
    hide Without, Distinct;
    assert p.queue[0] in p.queue;
    WithoutMembers(p.available, c);
    WithoutLength(p.available, c);
    DistinctAppend(p.inUse, c);
  }

  /** Sending the operation at the front on an available connection, idle if it is a monitoring one. */
  lemma DispatchKeeps(p: Pool, c: Conn)
    requires Inv(p) && p.queue != [] && c in p.available
    requires p.queue[0].monitoring ==> p.WorkOf(c) == []
    ensures var r := Dispatch(p, c, false);
      && Inv(r) && r.Total() == p.Total() && Sends(p, r) && SilentOk(p, r)
  {
    hide Inv;
    assert p.queue[0] in p.queue;
    if p.queue[0].monitoring {
      DispatchMonitoring(p, c);
    } else {
      DispatchOrdinary(p, c);
    }
  }

  /** An operation nobody waits for. */
  predicate Muted(x: Item) {
    !x.hasCallback || x.immediateRelease
  }

  /** Only muted operations have ended without a callback since p. */
  ghost predicate SilentOk(p: Pool, r: Pool) {
    forall x <- r.silent :: x in p.silent || Muted(x)
  }

  /** The fields no step of the loop touches. */
  predicate SameFrame(p: Pool, r: Pool) {
    && r.accepted == p.accepted && r.refused == p.refused && r.phase == p.phase && r.conns == p.conns
    && r.options == p.options
  }

  /** A turn that ends the loop sends nothing and at most flushes monitoring operations. */
  predicate Ends(p: Pool, r: Pool) {
    r.wire == p.wire && (r.queue == p.queue || r.queue == KeptOf(p.queue))
  }

  /** A turn that goes on sends the operation at the front. */
  predicate Sends(p: Pool, r: Pool) {
    p.queue != [] && r.wire == p.wire + [p.queue[0]] && r.queue == p.queue[1..]
  }

  lemma SameLedgerReflexive(p: Pool)
    ensures SameLedger(p, p)
  {
  }

  lemma SameLedgerTransitive(p: Pool, q: Pool, r: Pool)
    requires SameLedger(p, q) && SameLedger(q, r)
    ensures SameLedger(p, r)
  {
  }

  lemma RemovedFrame(p: Pool, c: Conn)
    ensures var r := Removed(p, c); r == p.(available := r.available, inUse := r.inUse)
  {
  }

  lemma TurnKeeps(p: Pool)
    requires Inv(p)
    ensures var (r, goesOn) := Turn(p, {});
      && Inv(r) && SameLedger(p, r) && SameFrame(p, r) && SilentOk(p, r)
      && (if goesOn then Sends(p, r) else Ends(p, r))
      && (p.Total() <= p.options.size ==> r.Total() <= p.options.size)
  {
    hide Dispatch, FlushMonitoring, Inv, SameLedger, Removed, Picked, KeptOf;
    SameLedgerReflexive(p);
    if p.available == [] {
      FlushKeeps(p);
    } else if p.queue != [] {
      var first := Picked(p);
      var p1 := p.(index := p.index + 1);
      IndexIrrelevant(p);
      if first !in p.up {
        RemovedKeeps(p1, first);
        RemovedFrame(p1, first);
        FlushKeeps(Removed(p1, first));
        SameLedgerTransitive(p, p1, Removed(p1, first));
        SameLedgerTransitive(p, Removed(p1, first), FlushMonitoring(Removed(p1, first)));
      } else {
        var found := ForMonitoring(p1, p1.available);
        if !(p.queue[0].monitoring && found == []) {
          var c := if p.queue[0].monitoring then found[0] else first;
          DispatchKeeps(p1, c);
          DispatchLedger(p1, c);
          DispatchFrame(p1, c);
          SameLedgerTransitive(p, p1, Dispatch(p1, c, false));
        }
      }
    }
  }

  lemma IndexIrrelevant(p: Pool)
    requires Inv(p)
    ensures Inv(p.(index := p.index + 1)) && SameLedger(p, p.(index := p.index + 1))
    ensures var q := p.(index := p.index + 1, connecting := p.connecting + 1, pending := p.pending + 1);
      Inv(q) && SameLedger(p, q)
  {
  }

  lemma DispatchFrame(p: Pool, c: Conn)
    requires p.queue != []
    ensures SameFrame(p, Dispatch(p, c, false))
  {
  }

  // ---------- the execution loop ----------

  /** What one run of the loop did: the first k waiting operations were sent, in order. */
  predicate SentPrefix(p: Pool, r: Pool, k: nat) {
    && k <= |p.queue|
    && r.wire == p.wire + p.queue[..k]
    && (r.queue == p.queue[k..] || r.queue == KeptOf(p.queue[k..]))
  }

  /**
   * The loop ends, keeps the pool's invariant and the ledger, sends a prefix of the queue in order and
   * leaves the rest, but for flushed monitoring operations; it does not outgrow the pool's size.
   */
  lemma {:induction false} LoopKeeps(p: Pool) returns (k: nat)
    requires Inv(p)
    ensures var r := Loop(p, {});
      && Inv(r) && SameLedger(p, r) && SameFrame(p, r) && SilentOk(p, r) && SentPrefix(p, r, k)
      && (p.Total() <= p.options.size ==> r.Total() <= p.options.size)
    decreases |p.queue|
  {
    hide Turn, Ledger, Inv;
    TurnKeeps(p);
    var (p1, goesOn) := Turn(p, {});
    if goesOn {
      var j := LoopKeeps(p1);
      k := j + 1;
      assert p.queue[..k] == [p.queue[0]] + p1.queue[..j];
      assert p.queue[k..] == p1.queue[j..];
      assert p.wire + p.queue[..k] == p.wire + [p.queue[0]] + p1.queue[..j];
    } else {
      k := 0;
      assert p.queue[0..] == p.queue && p.queue[..0] == [] && p.wire + [] == p.wire;
    }
  }

  lemma ExecuteKeeps(p: Pool) returns (k: nat)
    requires Inv(p)
    ensures var r := Execute(p, {});
      && Inv(r) && SameLedger(p, r) && SameFrame(p, r) && SilentOk(p, r) && SentPrefix(p, r, k)
      && (p.Total() <= p.options.size ==> r.Total() <= p.options.size)
  {
    if p.phase == Destroyed || p.connecting > 0 {
      k := 0;
      assert p.queue[0..] == p.queue && p.queue[..0] == [] && p.wire + [] == p.wire;
    } else {
      k := LoopKeeps(p);
    }
  }

  // ---------- the other steps ----------

  /** The ordinary operations sent and waiting, in order. */
  function Order(p: Pool): seq<Item> {
    Ordinary(p.wire) + Ordinary(p.queue)
  }

  /** What every step that takes nothing new keeps. */
  ghost predicate Keeps(p: Pool, r: Pool) {
    && Inv(r) && SameLedger(p, r) && SilentOk(p, r)
    && Order(r) == Order(p) && r.accepted == p.accepted
  }

  lemma KeepsReflexive(p: Pool)
    requires Inv(p)
    ensures Keeps(p, p)
  {
  }

  lemma KeepsTransitive(p: Pool, q: Pool, r: Pool)
    requires Keeps(p, q) && Keeps(q, r)
    ensures Keeps(p, r)
  {
  }

  lemma ExecuteOrder(p: Pool)
    requires Inv(p)
    ensures Keeps(p, Execute(p, {}))
  {
    hide Execute, Inv, SameLedger;
    var k := ExecuteKeeps(p);
    OrdinaryAppend(p.wire, p.queue[..k]);
    OrdinaryAppend(p.queue[..k], p.queue[k..]);
    assert p.queue == p.queue[..k] + p.queue[k..];
    KeptOrdinary(p.queue[k..]);
  }

  lemma FlushOrder(p: Pool)
    requires Inv(p)
    ensures Keeps(p, FlushMonitoring(p))
  {
    hide FlushMonitoring, Inv, SameLedger;
    FlushKeeps(p);
    KeptOrdinary(p.queue);
  }

  /** A reply moves work from the connection to the ended operations. */
  lemma ReplyLedger(p: Pool, c: Conn, id: int)
    requires Inv(p)
    ensures SameLedger(p, Reply(p, c, id))
  {
    hide Matches, Unmatched, Inv;
    var found := Matches(p.WorkOf(c), id);
    if found != [] {
      MatchMembers(p.WorkOf(c), id);
      assert found[0] in p.WorkOf(c);
      KnownWork(p, c);
      forall y ensures Ledger(Reply(p, c, id), y) == Ledger(p, y) {
        ReplyCount(p, c, id, y);
      }
    }
  }

  lemma KnownWork(p: Pool, c: Conn)
    requires Inv(p)
    ensures Distinct(p.conns) && (p.WorkOf(c) != [] ==> c in p.work && c in p.conns)
  {
  }

  lemma ReplyCount(p: Pool, c: Conn, id: int, y: Item)
    requires Distinct(p.conns) && c in p.conns && c in p.work && Matches(p.WorkOf(c), id) != []
    ensures Ledger(Reply(p, c, id), y) == Ledger(p, y)
  {
    hide Matches, Unmatched, Without;
    var found := Matches(p.WorkOf(c), id);
    var lost, x := found[..|found| - 1], found[|found| - 1];
    assert found == lost + [x];
    CountAppend(lost, [x], y);
    CountAppend(p.silent, lost, y);
    CountAppend(p.silent + lost, [x], y);
    CountAppend(p.called, [x], y);
    MatchSplits(p.WorkOf(c), id, y);
    FlyingUpdate(p.work, p.conns, c, Unmatched(p.WorkOf(c), id), y);
  }

  lemma AvailableAgain(p: Pool, c: Conn)
    requires Inv(p) && c in p.inUse
    ensures Inv(p.(work := p.work[c := []], inUse := Without(p.inUse, c), available := p.available + [c]))
  {
    hide Without;
    WithoutMembers(p.inUse, c);
    DistinctAppend(p.available, c);
  }

  /** The monitoring operation of a connection in use is answered: the connection is available again. */
  lemma ReplyInUse(p: Pool, c: Conn, id: int)
    requires Inv(p) && c in p.inUse
    ensures Inv(Reply(p, c, id))
  {
    hide Without, Matches, Unmatched, Distinct;
    var w := p.WorkOf(c);
    if Matches(w, id) != [] {
      SingleMatch(w, id);
      AvailableAgain(p, c);
    }
  }

  lemma ReplyElsewhere(p: Pool, c: Conn, id: int)
    requires Inv(p) && c !in p.inUse
    ensures Inv(Reply(p, c, id))
  {
    hide Without, Matches, Unmatched, Distinct;
    var w := p.WorkOf(c);
    MatchMembers(w, id);
    if Matches(w, id) != [] {
      assert Matches(w, id)[0] in Matches(w, id) && c in p.work;
    }
  }

  lemma SingleMatch(w: seq<Item>, id: int)
    requires |w| == 1 && Matches(w, id) != []
    ensures Unmatched(w, id) == [] && Matches(w, id) == w
  {
    assert w == [w[0]] && w[1..] == [];
  }

  /** No two operations in flight on the connection share the id. */
  predicate OneMatch(w: seq<Item>, id: int) {
    forall i, j | 0 <= i < j < |w| :: !(w[i].requestId == id && w[j].requestId == id)
  }

  lemma {:induction false} OneMatchFound(w: seq<Item>, id: int)
    requires OneMatch(w, id)
    ensures |Matches(w, id)| <= 1
    ensures (forall x <- w :: x.requestId != id) ==> Matches(w, id) == []
    decreases |w|
  {
    if w == [] {
    } else {
      var rest := if w[0].requestId == id then (if |w| > 1 then w[2..] else []) else w[1..];
      assert forall i | 0 <= i < |rest| :: rest[i] == w[i + |w| - |rest|];
      OneMatchFound(rest, id);
    }
  }

  lemma ReplyKeeps(p: Pool, c: Conn, id: int)
    requires Inv(p) && OneMatch(p.WorkOf(c), id)
    ensures Keeps(p, Reply(p, c, id))
  {
    hide Inv, SameLedger, Matches, Unmatched;
    if c in p.inUse {
      ReplyInUse(p, c, id);
    } else {
      ReplyElsewhere(p, c, id);
    }
    ReplyLedger(p, c, id);
    OneMatchFound(p.WorkOf(c), id);
  }

  /** A failure ends exactly the operations in flight on the connection, each with its callback. */
  lemma FailedConnection(p: Pool, c: Conn)
    requires Inv(p)
    ensures var p1 := Removed(p.(failed := p.failed + {c}, up := p.up - {c}), c);
      Keeps(p, FinishAll(p1.(work := p1.work - {c}), p1.WorkOf(c)))
  {
    hide Removed, FinishAll, Ledger, Inv;
    var p0 := p.(failed := p.failed + {c}, up := p.up - {c});
    CountersKeep(p, p0);
    RemovedKeeps(p0, c);
    RemovedFrame(p0, c);
    var p1 := Removed(p0, c);
    var p2 := p1.(work := p1.work - {c});
    WorkDropped(p1, c);
    FinishAllEffect(p2, p1.WorkOf(c));
    FinishAllHeard(p2, p1.WorkOf(c));
    EndedElsewhere(p2, FinishAll(p2, p1.WorkOf(c)));
    forall x ensures Ledger(FinishAll(p2, p1.WorkOf(c)), x) == Ledger(p, x) {
      EndedWork(p1, c, x);
      assert Ledger(p0, x) == Ledger(p, x);
    }
  }

  lemma WorkDropped(p: Pool, c: Conn)
    requires Inv(p) && c !in p.available && c !in p.inUse
    ensures Inv(p.(work := p.work - {c})) && Distinct(p.conns) && (c in p.work ==> c in p.conns)
    ensures forall x <- p.WorkOf(c) :: x.hasCallback
  {
  }

  lemma EndedElsewhere(p: Pool, r: Pool)
    requires Inv(p) && r == p.(called := r.called, silent := r.silent)
    ensures Inv(r)
  {
  }

  /** Ending the work of a connection moves it from in flight to ended. */
  lemma EndedWork(p: Pool, c: Conn, x: Item)
    requires Distinct(p.conns) && (c in p.work ==> c in p.conns)
    ensures Ledger(FinishAll(p.(work := p.work - {c}), p.WorkOf(c)), x) == Ledger(p, x)
  {
    var p1, w := p.(work := p.work - {c}), p.WorkOf(c);
    FinishAllEffect(p1, w);
    FinishAllEnds(p1, w, x);
    if c in p.work {
      FlyingRemove(p.work, p.conns, c, x);
    } else {
      assert p.work - {c} == p.work;
    }
  }

  lemma {:induction false} CreateManyKeeps(p: Pool, n: nat)
    requires Inv(p)
    ensures var r := CreateMany(p, n); Keeps(p, r) && r == p.(connecting := r.connecting, pending := r.pending)
    decreases n
  {
    if n == 0 {
    } else {
      CreateManyKeeps(p, n - 1);
    }
  }

  lemma AnsweredKeeps(p: Pool, c: Conn)
    requires Inv(p) && p.pending > 0 && c !in p.conns
    ensures Keeps(p, Answered(p, c))
  {
    hide Distinct;
    DistinctAppend(p.available, c);
    DistinctAppend(p.conns, c);
    forall x ensures Ledger(Answered(p, c), x) == Ledger(p, x) {
      FlyingNew(p.work, p.conns, c, x);
    }
  }

  lemma {:induction false} FlyingNew(work: map<Conn, seq<Item>>, cs: seq<Conn>, c: Conn, x: Item)
    requires c !in work
    ensures Flying(work, cs + [c], x) == Flying(work, cs, x)
  {
    if cs == [] {
      assert [c][1..] == [];
    } else {
      assert (cs + [c])[1..] == cs[1..] + [c];
      FlyingNew(work, cs[1..], c, x);
    }
  }

  /** Closing the pool's connections: what is in flight on them ends in silence. */
  lemma ClearedKeeps(p: Pool)
    requires Inv(p)
    ensures Inv(Cleared(p)) && SameLedger(p, Cleared(p)) && Order(Cleared(p)) == Order(p)
    ensures Drained(p) ==> Keeps(p, Cleared(p))
  {
    var all := p.available + p.inUse;
    DistinctConcat(p.available, p.inUse);
    assert Cleared(p).work == WithoutWork(p.work, all);
    forall x ensures Ledger(Cleared(p), x) == Ledger(p, x) {
      FlyingClear(p.work, p.conns, all, x);
      InFlightCount(p, all, x);
      CountAppend(p.silent, InFlight(p, all), x);
    }
    if Drained(p) {
      NothingInFlight(p, all);
    }
  }

  lemma {:induction false} DistinctConcat(a: seq<Conn>, b: seq<Conn>)
    requires Distinct(a) && Distinct(b) && forall c <- a :: c !in b
    ensures Distinct(a + b)
  {
    if a == [] {
      assert a + b == b;
    } else {
      assert a == [a[0]] + a[1..] && (a + b)[1..] == a[1..] + b;
      DistinctConcat(a[1..], b);
    }
  }

  lemma {:induction false} NothingInFlight(p: Pool, cs: seq<Conn>)
    requires forall c <- cs :: p.WorkOf(c) == []
    ensures InFlight(p, cs) == []
  {
    if cs == [] {
    } else {
      assert cs == [cs[0]] + cs[1..];
      NothingInFlight(p, cs[1..]);
    }
  }

  lemma ForceDestroyKeeps(p: Pool)
    requires Inv(p)
    ensures Inv(ForceDestroy(p)) && SameLedger(p, ForceDestroy(p)) && ForceDestroy(p).accepted == p.accepted
  {
    hide Cleared;
    if !p.IsDestroyed() {
      var p0 := p.(queue := [], phase := Destroying);
      var p1 := FinishAll(p0, p.queue);
      FinishAllEffect(p0, p.queue);
      forall x ensures Ledger(p1, x) == Ledger(p, x) {
        FinishAllEnds(p0, p.queue, x);
      }
      ClearedKeeps(p1);
      ClearedAccepted(p1);
      SameLedgerTransitive(p, p1, Cleared(p1));
    }
  }

  lemma ClearedAccepted(p: Pool)
    ensures Cleared(p).accepted == p.accepted
  {
  }

  /** Whether a step destroys the pool by force: asked to, or one timeout too many. */
  predicate Forces(p: Pool, e: Event) {
    e == OnForceDestroy || (e.OnFail? && e.timeout && e.c !in p.failed && p.timeouts + 1 > p.options.reconnectTries)
  }

  /** Counters, the phase and the set of connected sockets play no part in who owns what. */
  lemma CountersKeep(p: Pool, r: Pool)
    requires Inv(p)
    requires r == p.(phase := r.phase, connecting := r.connecting, pending := r.pending, up := r.up,
                     index := r.index, timeouts := r.timeouts, failed := r.failed)
    ensures Keeps(p, r)
  {
  }

  lemma AfterFailureKeeps(p: Pool, timeout: bool)
    requires Inv(p)
    ensures var r := AfterFailure(p, timeout); Inv(r) && SameLedger(p, r) && r.accepted == p.accepted
    ensures !(timeout && p.timeouts + 1 > p.options.reconnectTries) ==> Keeps(p, AfterFailure(p, timeout))
  {
    hide ForceDestroy, Inv, SameLedger, SilentOk, Order;
    CountersKeep(p, p.(timeouts := 0));
    if timeout && p.timeouts + 1 > p.options.reconnectTries {
      ForceDestroyKeeps(p.(timeouts := 0));
      SameLedgerTransitive(p, p.(timeouts := 0), AfterFailure(p, timeout));
    } else {
      CountersKeep(p, AfterFailure(p, timeout));
    }
  }

  lemma FailKeeps(p: Pool, c: Conn, timeout: bool)
    requires Inv(p)
    ensures Inv(Fail(p, c, timeout)) && SameLedger(p, Fail(p, c, timeout)) && Fail(p, c, timeout).accepted == p.accepted
    ensures !Forces(p, OnFail(c, timeout)) ==> Keeps(p, Fail(p, c, timeout))
  {
    hide FinishAll, Removed, AfterFailure, Inv, SameLedger, SilentOk, Order;
    if c in p.failed {
      CountersKeep(p, p);
    } else {
      FailedConnection(p, c);
      var p0 := p.(failed := p.failed + {c}, up := p.up - {c});
      var p1 := Removed(p0, c);
      RemovedFrame(p0, c);
      FinishAllEffect(p1.(work := p1.work - {c}), p1.WorkOf(c));
      var p2 := FinishAll(p1.(work := p1.work - {c}), p1.WorkOf(c));
      AfterFailureKeeps(p2, timeout);
      SameLedgerTransitive(p, p2, AfterFailure(p2, timeout));
      if !(timeout && p2.timeouts + 1 > p2.options.reconnectTries) {
        KeepsTransitive(p, p2, AfterFailure(p2, timeout));
      }
    }
  }

  lemma CheckStatusKeeps(p: Pool)
    requires Inv(p)
    ensures Keeps(p, CheckStatus(p, {}))
  {
    hide FlushMonitoring, Execute, Cleared;
    var p0 := p.(phase := Destroying);
    FlushOrder(p0);
    var p1 := FlushMonitoring(p0);
    ClearedKeeps(p1);
    ExecuteOrder(p1);
    KeepsReflexive(p1);
    assert Keeps(p, p1);
    if Drained(p1) {
      KeepsTransitive(p, p1, Cleared(p1));
    } else if p1.queue != [] {
      KeepsTransitive(p, p1, Execute(p1, {}));
    }
  }

  // ---------- every run ----------

  /** Connections are new, operations are new and as write demands, and ids in flight are distinct. */
  predicate Legal(p: Pool, e: Event) {
    match e
    case OnWrite(x) => Sendable(x) && x !in p.accepted
    case OnReply(c, id) => OneMatch(p.WorkOf(c), id)
    case OnConnect(c) => c !in p.conns
    case OnOpened(c) => c !in p.conns
    case _ => true
  }

  /** Every accepted operation is in exactly one place, once. */
  ghost predicate Balanced(p: Pool) {
    && (forall x :: Ledger(p, x) == Count(p.accepted, x))
    && (forall x :: Count(p.accepted, x) <= 1)
  }

  /** Ordinary operations are sent in the order in which write took them. */
  predicate InOrder(p: Pool) {
    Order(p) == Ordinary(p.accepted)
  }

  /** Every operation that ended without a callback was one nobody waits for. */
  ghost predicate Heard(p: Pool) {
    forall x <- p.silent :: Muted(x)
  }

  lemma OrdinaryOne(x: Item, q: seq<Item>)
    ensures Ordinary([x]) == (if x.monitoring then [] else [x])
    ensures Ordinary([x] + q) == Ordinary([x]) + Ordinary(q)
  {
    assert [x][1..] == [];
    OrdinaryAppend([x], q);
  }

  lemma WriteOrder(p: Pool, x: Item)
    requires InOrder(p)
    ensures InOrder(Write(p, x))
  {
    if !p.IsDestroyed() {
      OrdinaryOne(x, p.queue);
      OrdinaryAppend(p.accepted, [x]);
      if x.monitoring {
        assert Ordinary(p.accepted) + [] == Ordinary(p.accepted) && [] + Ordinary(p.queue) == Ordinary(p.queue);
      } else {
        OrdinaryAppend(p.queue, [x]);
        assert Ordinary(p.wire) + (Ordinary(p.queue) + [x]) == Order(p) + [x];
      }
    }
  }

  lemma WriteKeeps(p: Pool, x: Item)
    requires Inv(p) && Balanced(p) && Sendable(x) && x !in p.accepted
    ensures Inv(Write(p, x)) && Balanced(Write(p, x)) && Write(p, x).silent == p.silent
  {
    var r := Write(p, x);
    forall y ensures Ledger(r, y) == Count(r.accepted, y) && Count(r.accepted, y) <= 1 {
      CountAppend(p.queue, [x], y);
      CountAppend([x], p.queue, y);
      CountAppend(p.accepted, [x], y);
      CountIn(p.accepted, x);
      assert Ledger(p, y) == Count(p.accepted, y);
    }
  }

  lemma StepKeeps(p: Pool, e: Event)
    requires Inv(p) && Legal(p, e) && !e.OnWrite?
    ensures Inv(Step(p, e)) && SameLedger(p, Step(p, e)) && Step(p, e).accepted == p.accepted
    ensures !Forces(p, e) ==> Keeps(p, Step(p, e))
  {
    hide Execute, Reply, Fail, ForceDestroy, CheckStatus, Connect, Opened, Inv, SameLedger, SilentOk, Order;
    CountersKeep(p, p);
    match e
    case OnExecute => ExecuteOrder(p);
    case OnReply(c, id) => ReplyKeeps(p, c, id);
    case OnFail(c, timeout) => FailKeeps(p, c, timeout);
    case OnDown(c) => CountersKeep(p, Step(p, e));
    case OnConnect(c) =>
      if p.pending > 0 {
        ConnectKeeps(p, c);
      }
    case OnOpened(c) =>
      if p.pending > 0 {
        OpenedKeeps(p, c);
      }
    case OnConnectFails => CountersKeep(p, Step(p, e));
    case OnOpen => CountersKeep(p, Step(p, e));
    case OnReconnect => CountersKeep(p, Step(p, e));
    case OnForceDestroy => ForceDestroyKeeps(p);
    case OnCheckStatus => CheckStatusKeeps(p);
  }

  lemma ConnectKeeps(p: Pool, c: Conn)
    requires Inv(p) && p.pending > 0 && c !in p.conns
    ensures Keeps(p, Connect(p, c, {}))
  {
    hide Execute, Answered, Inv, SameLedger, SilentOk, Order;
    AnsweredKeeps(p, c);
    ExecuteOrder(Answered(p, c));
    KeepsTransitive(p, Answered(p, c), Execute(Answered(p, c), {}));
  }

  lemma OpenedKeeps(p: Pool, c: Conn)
    requires Inv(p) && p.pending > 0 && c !in p.conns
    ensures Keeps(p, Opened(p, c))
  {
    hide CreateMany, Answered, Inv, SameLedger, SilentOk, Order;
    AnsweredKeeps(p, c);
    var p1 := Answered(p, c).(phase := Connected);
    CountersKeep(Answered(p, c), p1);
    var n := if p.options.inTopology then 0 else p.options.minSize;
    CreateManyKeeps(p1, n);
    KeepsTransitive(p, Answered(p, c), p1);
    KeepsTransitive(p, p1, CreateMany(p1, n));
  }

  /** The pool after a run of steps. */
  function Run(p: Pool, es: seq<Event>): Pool {
    if es == [] then p else Step(Run(p, es[..|es| - 1]), es[|es| - 1])
  }

  ghost predicate LegalRun(p: Pool, es: seq<Event>) {
    forall k | 0 <= k < |es| :: Legal(Run(p, es[..k]), es[k])
  }

  ghost predicate Unforced(p: Pool, es: seq<Event>) {
    forall k | 0 <= k < |es| :: !Forces(Run(p, es[..k]), es[k])
  }

  /**
   * In every interleaving of legal steps no connection is owned twice and every accepted operation is
   * waiting, in flight or ended, exactly once. Unless the pool is destroyed by force, ordinary
   * operations are sent in order and every operation with a callback ends with it.
   */
  lemma {:induction false} RunsKeep(options: Options, es: seq<Event>)
    requires LegalRun(Fresh(options), es)
    ensures var p := Run(Fresh(options), es);
      && Inv(p) && Balanced(p)
      && (Unforced(Fresh(options), es) ==> InOrder(p) && Heard(p))
    decreases |es|
  {
    hide Step, Inv, Balanced, Legal, Forces;
    var start := Fresh(options);
    if es == [] {
      FreshGood(options);
    } else {
      var before, e := es[..|es| - 1], es[|es| - 1];
      assert forall k | 0 <= k < |before| :: before[..k] == es[..k];
      RunsKeep(options, before);
      var p := Run(start, before);
      assert Legal(p, e);
      OneStep(p, e);
    }
  }

  lemma FreshGood(options: Options)
    ensures var p := Fresh(options); Inv(p) && Balanced(p) && InOrder(p) && Heard(p)
  {
  }

  lemma OneStep(p: Pool, e: Event)
    requires Inv(p) && Balanced(p) && Legal(p, e)
    ensures Inv(Step(p, e)) && Balanced(Step(p, e))
    ensures !Forces(p, e) && InOrder(p) && Heard(p) ==> InOrder(Step(p, e)) && Heard(Step(p, e))
  {
    hide Inv, Order, Muted;
    if e.OnWrite? {
      WriteKeeps(p, e.x);
      if InOrder(p) {
        WriteOrder(p, e.x);
      }
    } else {
      StepKeeps(p, e);
    }
  }

  /** What the ledger means: a callback is called at most once, and never while the operation is elsewhere. */
  lemma CalledOnce(p: Pool, x: Item)
    requires Balanced(p)
    ensures Count(p.called, x) <= 1
    ensures x in p.called ==> x !in p.queue && x !in p.silent && Flying(p.work, p.conns, x) == 0
    ensures x in p.queue ==> Flying(p.work, p.conns, x) == 0
  {
    CountIn(p.called, x);
    CountIn(p.queue, x);
    CountIn(p.silent, x);
    assert Ledger(p, x) == Count(p.accepted, x) <= 1;
  }

  /** A graceful destroy ends only with nothing waiting and nothing in flight on the pool's connections. */
  lemma DestroyedOnlyDrained(p: Pool)
    requires Inv(p) && p.phase != Destroyed && CheckStatus(p, {}).phase == Destroyed
    ensures KeptOf(p.queue) == [] && forall c <- p.available + p.inUse :: p.WorkOf(c) == []
  {
    hide Execute, Cleared;
    var p0 := p.(phase := Destroying);
    FlushKeeps(p0);
    var k := ExecuteKeeps(FlushMonitoring(p0));
  }
}
