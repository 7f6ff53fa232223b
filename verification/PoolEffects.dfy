/** What the pool's handlers bring about: no live connection is mislaid, no operation waits without a reason. */
module PoolEffects {
  import opened Bytes
  import opened Lists
  import opened Pools
  import opened PoolProofs
  import opened PoolFailures
  import opened PoolRuns
  import opened Rounds

  // ---------- a reply ----------

  /** The search of work items around its last match x, which it does not step over. */
  lemma {:induction false} LastFound(a: seq<Item>, x: Item, b: seq<Item>, id: int)
    requires x.requestId == id && forall y <- b :: y.requestId != id
    requires a == [] || a[|a| - 1].requestId != id
    ensures Matches(a + [x] + b, id) == Matches(a, id) + [x]
    ensures Unmatched(a + [x] + b, id) == Unmatched(a, id) + b
    decreases |a|
  {
    hide Matches, Unmatched;
    var w := a + [x] + b;
    if a == [] {
      assert w == [x] + b;
      FoundFirst(x, b, id);
      NoneFound(a, id);
    } else {
      var step := if a[0].requestId == id then 2 else 1;
      assert w[0] == a[0] && |a| >= step && (step == 2 ==> w[1] == a[1]);
      assert w[step..] == a[step..] + [x] + b;
      SearchStep(w, id);
      SearchStep(a, id);
      LastFound(a[step..], x, b, id);
      var front := if step == 2 then [a[1]] else [a[0]];
      assert front + (Unmatched(a[step..], id) + b) == front + Unmatched(a[step..], id) + b;
      assert [a[0]] + (Matches(a[step..], id) + [x]) == [a[0]] + Matches(a[step..], id) + [x];
    }
  }

  /** One turn of the search. */
  lemma SearchStep(w: seq<Item>, id: int)
    requires w != []
    ensures w[0].requestId == id && |w| > 1 ==>
      Matches(w, id) == [w[0]] + Matches(w[2..], id) && Unmatched(w, id) == [w[1]] + Unmatched(w[2..], id)
    ensures w[0].requestId != id ==>
      Matches(w, id) == Matches(w[1..], id) && Unmatched(w, id) == [w[0]] + Unmatched(w[1..], id)
  {
  }

  lemma FoundFirst(x: Item, b: seq<Item>, id: int)
    requires x.requestId == id && forall y <- b :: y.requestId != id
    ensures Matches([x] + b, id) == [x] && Unmatched([x] + b, id) == b
  {
    var w := [x] + b;
    if b != [] {
      assert w[1] == b[0] && w[2..] == b[1..] && b == [b[0]] + b[1..];
      NoneFound(b[1..], id);
    } else {
      assert w == [x];
    }
  }

  lemma {:induction false} NoneFound(w: seq<Item>, id: int)
    requires forall y <- w :: y.requestId != id
    ensures Matches(w, id) == [] && Unmatched(w, id) == w
  {
    if w == [] {
    } else {
      assert w == [w[0]] + w[1..];
      NoneFound(w[1..], id);
    }
  }

  /**
   * The last operation that the search finds leaves its connection and is called back, unless it was marked
   * immediateRelease; those found before it leave in silence. A connection in use becomes available again, any other
   * stays where it is.
   */
  lemma ReplyAnswers(p: Pool, c: Conn, id: int, a: seq<Item>, x: Item, b: seq<Item>)
    requires Inv(p) && p.WorkOf(c) == a + [x] + b && x.requestId == id
    requires (forall y <- b :: y.requestId != id) && (a == [] || a[|a| - 1].requestId != id)
    ensures var r := Reply(p, c, id);
      && r.WorkOf(c) == Unmatched(a, id) + b && (forall d | d != c :: r.WorkOf(d) == p.WorkOf(d))
      && r.called == p.called + (if x.immediateRelease then [] else [x])
      && r.silent == p.silent + Matches(a, id) + (if x.immediateRelease then [x] else [])
      && (if c in p.inUse then
            r.available == p.available + [c] && (forall d :: d in r.inUse <==> d in p.inUse && d != c)
          else r.available == p.available && r.inUse == p.inUse)
      && r == p.(work := r.work, available := r.available, inUse := r.inUse, called := r.called, silent := r.silent,
                 timeouts := 0)
    ensures (forall y <- a :: y.requestId != id) ==> Unmatched(a, id) == a && Matches(a, id) == []
  {
    hide Matches, Unmatched, Without, Reply, Distinct;
    LastFound(a, x, b, id);
    if forall y <- a :: y.requestId != id {
      NoneFound(a, id);
    }
    assert x in p.WorkOf(c) && c in p.work && x.hasCallback;
    ReplyWith(p, c, id, Matches(a, id), x);
    if c in p.inUse {
      assert x == p.WorkOf(c)[0];
      WithoutMembers(p.inUse, c);
    }
  }

  /** A reply in terms of what the search finds and leaves. */
  lemma ReplyWith(p: Pool, c: Conn, id: int, lost: seq<Item>, x: Item)
    requires Matches(p.WorkOf(c), id) == lost + [x] && x.hasCallback
    ensures var back := x.monitoring && c in p.inUse;
      Reply(p, c, id) == p.(
        work := p.work[c := Unmatched(p.WorkOf(c), id)], timeouts := 0,
        available := if back then p.available + [c] else p.available,
        inUse := if back then Without(p.inUse, c) else p.inUse,
        called := p.called + (if x.immediateRelease then [] else [x]),
        silent := p.silent + lost + (if x.immediateRelease then [x] else []))
  {
    hide Matches, Unmatched, Without;
    var found := Matches(p.WorkOf(c), id);
    assert found[..|found| - 1] == lost && found[|found| - 1] == x;
    assert p.silent + lost + [] == p.silent + lost && p.called + [] == p.called;
  }

  /** A reply that names nothing in flight on the connection changes nothing but the count of timeouts. */
  lemma ReplyStray(p: Pool, c: Conn, id: int)
    requires forall y <- p.WorkOf(c) :: y.requestId != id
    ensures Reply(p, c, id) == p.(timeouts := 0)
  {
    NoneFound(p.WorkOf(c), id);
  }

  // ---------- no live connection is mislaid ----------

  /** Until the pool is destroyed, attempts are counted, and every live connection not lost stands in a list. */
  ghost predicate Placed(p: Pool, lost: set<Conn>) {
    p.phase != Destroyed ==>
      && p.connecting == p.pending
      && forall c <- p.conns | c in p.up && c !in lost :: c in p.available || c in p.inUse
  }

  lemma {:induction false} WithoutOthers(xs: seq<Conn>, c: Conn)
    ensures forall d | d != c :: d in Without(xs, c) <==> d in xs
  {
    if xs == [] {
    } else {
      assert xs == [xs[0]] + xs[1..];
      WithoutOthers(xs[1..], c);
    }
  }

  /** The parts of the pool that Placed speaks of. */
  predicate SamePlaces(p: Pool, r: Pool) {
    && r.phase == p.phase && r.connecting == p.connecting && r.pending == p.pending
    && r.conns == p.conns && r.up == p.up && r.available == p.available && r.inUse == p.inUse
  }

  lemma FinishPlaces(p: Pool, xs: seq<Item>)
    ensures SamePlaces(p, FinishAll(p, xs))
  {
    FinishAllEffect(p, xs);
  }

  lemma FlushPlaces(p: Pool)
    ensures SamePlaces(p, FlushMonitoring(p))
  {
    FinishPlaces(p.(queue := KeptOf(p.queue)), FlushedOf(p.queue));
  }

  /** A connection taken out is down or lost. */
  lemma RemovedPlaced(p: Pool, c: Conn, lost: set<Conn>)
    requires Placed(p, lost) && (c !in p.up || c in lost)
    ensures Placed(Removed(p, c), lost)
  {
    hide Without;
    WithoutOthers(p.available, c);
    WithoutOthers(p.inUse, c);
  }

  lemma DispatchPlaced(p: Pool, c: Conn, breaks: bool, lost: set<Conn>)
    requires Placed(p, lost) && p.queue != [] && (breaks ==> c in lost)
    ensures Placed(Dispatch(p, c, breaks), lost)
  {
    if breaks {
      hide Dispatch, Removed, FlushMonitoring;
      DispatchPlaced(p, c, false, lost);
      BrokenDispatch(p, c);
      RemovedPlaced(PutBack(p, c), c, lost);
      FlushPlaces(Removed(PutBack(p, c), c));
    } else {
      hide Without;
      WithoutOthers(p.available, c);
    }
  }

  lemma TurnPlaced(p: Pool, broken: set<Conn>, lost: set<Conn>)
    requires Placed(p, lost) && broken <= lost
    ensures Placed(Turn(p, broken).0, lost)
  {
    hide Dispatch, FlushMonitoring, Removed;
    FlushPlaces(p);
    if p.available != [] && p.queue != [] {
      var p1, first := p.(index := p.index + 1), Picked(p);
      if first !in p.up {
        RemovedPlaced(p1, first, lost);
        FlushPlaces(Removed(p1, first));
      } else {
        forall c ensures Placed(Dispatch(p1, c, c in broken), lost) {
          DispatchPlaced(p1, c, c in broken, lost);
        }
      }
    }
  }

  lemma {:induction false} ExecutePlaced(p: Pool, broken: set<Conn>, lost: set<Conn>)
    requires Placed(p, lost) && broken <= lost
    ensures Placed(Loop(p, broken), lost) && Placed(Execute(p, broken), lost)
    decreases |p.queue|
  {
    hide Turn, Placed;
    TurnPlaced(p, broken, lost);
    var (r, goesOn) := Turn(p, broken);
    if goesOn {
      ExecutePlaced(r, broken, lost);
    }
  }

  lemma FailPlaced(p: Pool, c: Conn, timeout: bool, lost: set<Conn>)
    requires Placed(p, lost)
    ensures Placed(Fail(p, c, timeout), lost)
  {
    hide Removed, FinishAll, ForceDestroy;
    if c !in p.failed {
      var p0 := p.(failed := p.failed + {c}, up := p.up - {c});
      RemovedPlaced(p0, c, lost);
      var p1 := Removed(p0, c);
      FinishPlaces(p1.(work := p1.work - {c}), p1.WorkOf(c));
      var p2 := FinishAll(p1.(work := p1.work - {c}), p1.WorkOf(c));
      ForcePlaced(p2.(timeouts := 0), lost);
    }
  }

  lemma ForcePlaced(p: Pool, lost: set<Conn>)
    requires Placed(p, lost)
    ensures Placed(ForceDestroy(p), lost)
  {
  }

  lemma {:induction false} CreatePlaced(p: Pool, n: nat, lost: set<Conn>)
    requires Placed(p, lost)
    ensures Placed(CreateMany(p, n), lost)
    decreases n
  {
    if n == 0 {
    } else {
      CreatePlaced(p, n - 1, lost);
    }
  }

  lemma AnsweredPlaced(p: Pool, c: Conn, lost: set<Conn>)
    requires Placed(p, lost) && p.pending > 0
    ensures Placed(Answered(p, c), lost)
  {
  }

  lemma ReplyPlaced(p: Pool, c: Conn, id: int, lost: set<Conn>)
    requires Placed(p, lost)
    ensures Placed(Reply(p, c, id), lost)
  {
    hide Without, Matches, Unmatched;
    WithoutOthers(p.inUse, c);
  }

  lemma CheckPlaced(p: Pool, broken: set<Conn>, lost: set<Conn>)
    requires Placed(p, lost) && broken <= lost && p.phase != Destroyed
    ensures Placed(CheckStatus(p, broken), lost)
  {
    hide FlushMonitoring, Execute;
    var p0 := p.(phase := Destroying);
    FlushPlaces(p0);
    ExecutePlaced(FlushMonitoring(p0), broken, lost);
  }

  lemma StepPlaced(p: Pool, s: Step, lost: set<Conn>)
    requires Placed(p, lost) && s.broken <= lost
    ensures Placed(After(p, s), lost)
  {
    hide Execute, Reply, Fail, ForceDestroy, CheckStatus, CreateMany;
    match s.event
    case OnExecute => ExecutePlaced(p, s.broken, lost);
    case OnReply(c, id) => ReplyPlaced(p, c, id, lost);
    case OnFail(c, timeout) => FailPlaced(p, c, timeout, lost);
    case OnConnect(c) =>
      if p.pending > 0 {
        AnsweredPlaced(p, c, lost);
        ExecutePlaced(Answered(p, c), s.broken, lost);
      }
    case OnOpened(c) =>
      if p.pending > 0 && p.phase == Connecting {
        AnsweredPlaced(p, c, lost);
        CreatePlaced(Answered(p, c).(phase := Connected), if p.options.inTopology then 0 else p.options.minSize, lost);
      }
    case OnForceDestroy => ForcePlaced(p, lost);
    case OnCheckStatus =>
      if p.phase != Destroyed {
        CheckPlaced(p, s.broken, lost);
      }
    case _ =>
  }

  /** The connections whose sockets broke a write during the run. */
  function EverBroken(ss: seq<Step>): set<Conn> {
    if ss == [] then {} else EverBroken(ss[..|ss| - 1]) + ss[|ss| - 1].broken
  }

  /**
   * In every run, until the pool is destroyed, attempts not yet answered are what connectingConnections counts, and a
   * live connection whose socket never broke stands in exactly one of the two lists.
   */
  lemma {:induction false} NoneMislaid(options: Options, ss: seq<Step>)
    requires SoundRun(Fresh(options), ss)
    ensures var p := RunOf(Fresh(options), ss);
      p.phase != Destroyed ==>
        && p.connecting == p.pending
        && forall c <- p.conns | c in p.up && c !in EverBroken(ss) :: c in p.available <==> c !in p.inUse
  {
    hide Inv, Ledger, RunOf, Placed;
    RunPlaced(options, ss);
    BrokenRunsKeep(options, ss, Item(0, 0, false, false, false, false));
    if RunOf(Fresh(options), ss).phase != Destroyed {
      PlacedOnce(RunOf(Fresh(options), ss), EverBroken(ss));
    }
  }

  lemma PlacedOnce(p: Pool, lost: set<Conn>)
    requires Inv(p) && Placed(p, lost) && p.phase != Destroyed
    ensures p.connecting == p.pending
    ensures forall c <- p.conns | c in p.up && c !in lost :: c in p.available <==> c !in p.inUse
  {
  }

  lemma {:induction false} RunPlaced(options: Options, ss: seq<Step>)
    ensures Placed(RunOf(Fresh(options), ss), EverBroken(ss))
    decreases |ss|
  {
    hide After;
    if ss == [] {
    } else {
      RunPlaced(options, ss[..|ss| - 1]);
      var p := RunOf(Fresh(options), ss[..|ss| - 1]);
      assert Placed(p, EverBroken(ss));
      StepPlaced(p, ss[|ss| - 1], EverBroken(ss));
    }
  }

  // ---------- nothing waits without a reason ----------

  lemma {:induction false} IdleAll(p: Pool, cs: seq<Conn>)
    ensures forall c <- cs :: p.WorkOf(c) == [] ==> c in Idle(p, cs)
    ensures forall c <- cs :: p.WorkOf(c) == [] && c in p.up ==> ForMonitoring(p, cs) != []
  {
    if cs == [] {
    } else {
      assert cs == [cs[0]] + cs[1..];
      IdleAll(p, cs[1..]);
    }
  }

  /** An idle connection is picked if there is one. */
  lemma PickedIdle(p: Pool)
    requires p.available != []
    ensures (exists c <- p.available :: p.WorkOf(c) == []) ==> p.WorkOf(Picked(p)) == []
  {
    IdleAll(p, p.available);
  }

  /** Whom round robin goes over: the idle connections, or all if none is idle. */
  function Candidates(p: Pool): seq<Conn> {
    if Idle(p, p.available) == [] then p.available else Idle(p, p.available)
  }

  /** Nobody is passed over: every candidate is picked within as many picks as there are available connections. */
  lemma PickedInTurn(p: Pool, c: Conn) returns (j: nat)
    requires c in p.available && (p.WorkOf(c) == [] || forall d <- p.available :: p.WorkOf(d) != [])
    ensures j < |p.available| && Picked(p.(index := p.index + j)) == c
  {
    hide Candidates, Picked;
    CandidatesExact(p, c);
    var k :| 0 <= k < |Candidates(p)| && Candidates(p)[k] == c;
    j := (k - p.index) % |Candidates(p)|;
    StepsTo(p.index, k, |Candidates(p)|);
    PickedAt(p, j);
  }

  lemma CandidatesExact(p: Pool, c: Conn)
    requires c in p.available && (p.WorkOf(c) == [] || forall d <- p.available :: p.WorkOf(d) != [])
    ensures c in Candidates(p) && |Candidates(p)| <= |p.available|
  {
    hide Idle;
    IdleAll(p, p.available);
    IdleLength(p, p.available);
    var idle := Idle(p, p.available);
    if idle != [] {
      assert idle[0] in idle;
    }
  }

  lemma PickedAt(p: Pool, j: nat)
    requires p.available != []
    ensures Candidates(p) != []
    ensures Picked(p.(index := p.index + j)) == Candidates(p)[(p.index + j) % |Candidates(p)|]
  {
    hide Idle;
    IdleFrame(p, p.(index := p.index + j), p.available);
  }

  lemma {:induction false} IdleLength(p: Pool, cs: seq<Conn>)
    ensures |Idle(p, cs)| <= |cs|
  {
    if cs == [] {
    } else {
      IdleLength(p, cs[1..]);
    }
  }

  lemma {:induction false} IdleFrame(p: Pool, q: Pool, cs: seq<Conn>)
    requires p.work == q.work
    ensures Idle(p, cs) == Idle(q, cs)
  {
    if cs == [] {
    } else {
      IdleFrame(p, q, cs[1..]);
    }
  }

  /**
   * Why the loop leaves operations waiting, if it does: no connection is available; one was found dead or broke and
   * was taken out; or every live one is busy and the operation at the front is a monitoring one or the pool may still
   * grow. If it may, one more connection has been asked for.
   */
  ghost predicate Stopped(p: Pool, broken: set<Conn>, r: Pool) {
    || r.queue == [] || r.available == []
    || (exists c <- p.available :: (c !in p.up || c in broken) && c !in r.available)
    || (&& (forall c <- r.available | c in r.up :: r.WorkOf(c) != [])
        && (r.queue[0].monitoring || p.Total() < p.options.size)
        && r.connecting == p.connecting + if p.Total() < p.options.size && !p.IsDestroyed() then 1 else 0)
  }

  lemma TakenOut(p: Pool, c: Conn)
    requires Inv(p) && c in p.available
    ensures c !in FlushMonitoring(Removed(p, c)).available
  {
    hide FlushMonitoring;
    FlushPlaces(Removed(p, c));
    WithoutMembers(p.available, c);
  }

  /** The write on c fails: c is in neither list afterwards. */
  lemma BrokenTakenOut(p: Pool, c: Conn)
    requires Inv(p) && p.queue != [] && c in p.available && (p.queue[0].monitoring ==> p.WorkOf(c) == [])
    ensures c !in Dispatch(p, c, true).available
  {
    hide Dispatch, Removed, FlushMonitoring, Inv;
    DispatchKeeps(p, c);
    BackKeeps(p, c);
    RemovedKeeps(PutBack(p, c), c);
    FlushPlaces(Removed(PutBack(p, c), c));
    BrokenDispatch(p, c);
  }

  lemma BackKeeps(p: Pool, c: Conn)
    requires Inv(p) && p.queue != [] && Inv(Dispatch(p, c, false))
    ensures Inv(PutBack(p, c))
  {
    hide Dispatch;
    assert p.queue[0] in p.queue;
  }

  lemma TurnStops(p: Pool, broken: set<Conn>)
    requires Inv(p)
    ensures var (r, goesOn) := Turn(p, broken);
      if goesOn then
        && Inv(r) && r.Total() == p.Total() && r.up == p.up && r.phase == p.phase && r.options == p.options
        && r.connecting == p.connecting && (forall c <- r.available :: c in p.available)
      else Stopped(p, broken, r)
  {
    hide Dispatch, FlushMonitoring, Removed, Inv, Picked, ForMonitoring;
    FlushPlaces(p);
    IndexIrrelevant(p);
    if p.available != [] && p.queue != [] {
      var p1, first := p.(index := p.index + 1), Picked(p);
      IdleAll(p1, p.available);
      PickedIdle(p);
      assert forall c :: p1.WorkOf(c) == p.WorkOf(c);
      if first !in p.up {
        TakenOut(p1, first);
      } else {
        var found := ForMonitoring(p1, p1.available);
        if !(p.queue[0].monitoring && found == []) {
          var c := if p.queue[0].monitoring then found[0] else first;
          if !(p.Total() < p.options.size && p1.WorkOf(c) != []) {
            if c in broken {
              BrokenTakenOut(p1, c);
            } else {
              DispatchKeeps(p1, c);
              DispatchPlaces(p1, c);
            }
          }
        }
      }
    }
  }

  lemma DispatchPlaces(p: Pool, c: Conn)
    requires p.queue != []
    ensures var r := Dispatch(p, c, false);
      && r.up == p.up && r.phase == p.phase && r.options == p.options && r.connecting == p.connecting
      && (forall d <- r.available :: d in p.available)
  {
  }

  lemma {:induction false} LoopStops(p: Pool, broken: set<Conn>)
    requires Inv(p)
    ensures Stopped(p, broken, Loop(p, broken))
    decreases |p.queue|
  {
    hide Turn, Inv;
    TurnStops(p, broken);
    var (r, goesOn) := Turn(p, broken);
    if goesOn {
      LoopStops(r, broken);
    }
  }

  /** A run of the execution loop that is not put off stops only for one of these reasons. */
  lemma NothingWaitsIdly(p: Pool, broken: set<Conn>)
    requires Inv(p)
    ensures if p.phase == Destroyed || p.connecting > 0 then Execute(p, broken) == p
      else Stopped(p, broken, Execute(p, broken))
  {
    if p.phase != Destroyed && p.connecting <= 0 {
      LoopStops(p, broken);
    }
  }

  /**
   * A turn that goes on puts the operation at the front on a live connection, an idle one, unless the pool is full and
   * all its available connections are busy; then an ordinary operation joins the others.
   */
  lemma PipelinesWhenFull(p: Pool, broken: set<Conn>) returns (c: Conn)
    requires Turn(p, broken).1
    ensures p.queue != [] && c in p.available && c in p.up && c !in broken
    ensures var r, x := Turn(p, broken).0, p.queue[0];
      && r.wire == p.wire + [x] && (forall d | d != c :: r.WorkOf(d) == p.WorkOf(d))
      && r.WorkOf(c) == p.WorkOf(c) + (if x.noResponse then [] else [x])
      && (p.WorkOf(c) != [] ==>
            !x.monitoring && p.Total() >= p.options.size && forall d <- p.available :: p.WorkOf(d) != [])
  {
    hide Picked, ForMonitoring;
    PickedIdle(p);
    var p1 := p.(index := p.index + 1);
    c := if p.queue[0].monitoring then ForMonitoring(p1, p1.available)[0] else Picked(p);
    assert forall d :: p1.WorkOf(d) == p.WorkOf(d);
  }

  /** Refused just by a pool being destroyed, an operation joins the back of the queue, a monitoring one the front. */
  lemma WriteTakes(p: Pool, x: Item)
    ensures var r := Write(p, x);
      if p.phase == Destroying || p.phase == Destroyed then r == p.(refused := p.refused + [x])
      else
        && r == p.(queue := r.queue, accepted := p.accepted + [x])
        && |r.queue| == |p.queue| + 1
        && (if x.monitoring then r.queue[0] == x && r.queue[1..] == p.queue
            else r.queue[|p.queue|] == x && r.queue[..|p.queue|] == p.queue)
  {
  }

  /** Written to a pool with nothing waiting and an idle live connection, an operation is sent there and answered. */
  lemma Served(p: Pool, x: Item) returns (c: Conn)
    requires Inv(p) && p.phase == Connected && p.connecting <= 0 && p.queue == []
    requires Sendable(x) && Awaited(x)
    requires (exists d <- p.available :: p.WorkOf(d) == []) && forall d <- p.available :: d in p.up
    ensures c in p.available && p.WorkOf(c) == []
    ensures var sent := Execute(Write(p, x), {});
      && sent.wire == p.wire + [x] && sent.queue == [] && sent.WorkOf(c) == [x]
      && Reply(sent, c, x.requestId).called == p.called + [x]
  {
    hide Picked, Matches, Unmatched, Inv;
    var w := Write(p, x);
    assert Inv(w) by {
      WriteInv(p, x);
    }
    assert w.available == p.available && forall d :: w.WorkOf(d) == p.WorkOf(d);
    PickedIdle(w);
    c := Picked(w);
    var w1 := w.(index := w.index + 1);
    var r := Dispatch(w1, c, false);
    assert Turn(w, {}) == (r, true);
    NothingToSend(r, {});
    assert Execute(w, {}) == r;
    assert [] + [x] + [] == [x];
    assert Inv(r) by {
      IndexIrrelevant(w);
      DispatchKeeps(w1, c);
    }
    ReplyAnswers(r, c, x.requestId, [], x, []);
  }

  lemma WriteInv(p: Pool, x: Item)
    requires Inv(p) && Sendable(x)
    ensures Inv(Write(p, x))
  {
  }

  // ---------- a failure, a destroy, a new connection ----------

  function VoicedOne(x: Item, voiced: bool): seq<Item> {
    if x.hasCallback == voiced then [x] else []
  }

  /** The operations with a callback, or those without, in order. */
  function Voiced(xs: seq<Item>, voiced: bool): seq<Item> {
    if xs == [] then [] else VoicedOne(xs[0], voiced) + Voiced(xs[1..], voiced)
  }

  /** Every operation is ended once, in order: with its callback if it has one. */
  lemma {:induction false} FinishedInOrder(p: Pool, xs: seq<Item>)
    ensures FinishAll(p, xs) == p.(called := p.called + Voiced(xs, true), silent := p.silent + Voiced(xs, false))
    decreases |xs|
  {
    hide Finish, VoicedOne;
    if xs == [] {
      assert p.called + [] == p.called && p.silent + [] == p.silent;
    } else {
      FinishedOne(p, xs[0]);
      FinishedInOrder(Finish(p, xs[0]), xs[1..]);
      Regroup(p.called, VoicedOne(xs[0], true), Voiced(xs[1..], true));
      Regroup(p.silent, VoicedOne(xs[0], false), Voiced(xs[1..], false));
    }
  }

  lemma FinishedOne(p: Pool, x: Item)
    ensures Finish(p, x) == p.(called := p.called + VoicedOne(x, true), silent := p.silent + VoicedOne(x, false))
  {
    assert p.called + [] == p.called && p.silent + [] == p.silent;
  }

  lemma Regroup(a: seq<Item>, b: seq<Item>, c: seq<Item>)
    ensures a + b + c == a + (b + c)
  {
  }

  lemma {:induction false} AllVoiced(xs: seq<Item>)
    requires forall x <- xs :: x.hasCallback
    ensures Voiced(xs, true) == xs && Voiced(xs, false) == []
  {
    if xs == [] {
    } else {
      assert xs == [xs[0]] + xs[1..];
      AllVoiced(xs[1..]);
    }
  }

  /** What a failure takes from the pool before its aftermath. */
  lemma FailureTakes(p: Pool, c: Conn)
    requires Inv(p)
    ensures var p1 := Removed(p.(failed := p.failed + {c}, up := p.up - {c}), c);
      var r := FinishAll(p1.(work := p1.work - {c}), p1.WorkOf(c));
      && (forall d :: d in r.available <==> d in p.available && d != c)
      && (forall d :: d in r.inUse <==> d in p.inUse && d != c)
      && r == p.(available := r.available, inUse := r.inUse, failed := p.failed + {c}, up := p.up - {c},
                 work := p.work - {c}, called := p.called + p.WorkOf(c))
  {
    hide Without, Distinct;
    var p0 := p.(failed := p.failed + {c}, up := p.up - {c});
    WithoutMembers(p.available, c);
    WithoutMembers(p.inUse, c);
    RemovedFrame(p0, c);
    var p1 := Removed(p0, c);
    FinishedInOrder(p1.(work := p1.work - {c}), p1.WorkOf(c));
    AllVoiced(p.WorkOf(c));
    assert p.silent + [] == p.silent;
  }

  /**
   * A failed connection leaves both lists, and every operation in flight on it is called back in order. Unless that
   * destroys the pool: a pool without connections is disconnected, one below its minimal size asks for one more, and
   * nothing else changes.
   */
  lemma FailureEffect(p: Pool, c: Conn, timeout: bool)
    requires Inv(p) && c !in p.failed && !(timeout && p.timeouts + 1 > p.options.reconnectTries)
    ensures var r := Fail(p, c, timeout);
      var more := !p.IsDestroyed() && |r.available| + |r.inUse| + p.connecting < p.options.minSize;
      && (forall d :: d in r.available <==> d in p.available && d != c)
      && (forall d :: d in r.inUse <==> d in p.inUse && d != c)
      && r == p.(available := r.available, inUse := r.inUse, failed := p.failed + {c}, up := p.up - {c},
                 work := p.work - {c}, called := p.called + p.WorkOf(c),
                 timeouts := p.timeouts + (if timeout then 1 else 0),
                 phase := if r.available == [] && r.inUse == [] && !p.IsDestroyed() then Disconnected else p.phase,
                 connecting := p.connecting + (if more then 1 else 0), pending := p.pending + if more then 1 else 0)
  {
    hide Removed, FinishAll, AfterFailure, Inv;
    FailureTakes(p, c);
    var p1 := Removed(p.(failed := p.failed + {c}, up := p.up - {c}), c);
    AfterwardsExact(FinishAll(p1.(work := p1.work - {c}), p1.WorkOf(c)), timeout);
  }

  /** The aftermath of a failure that does not destroy the pool. */
  lemma AfterwardsExact(p: Pool, timeout: bool)
    requires !(timeout && p.timeouts + 1 > p.options.reconnectTries)
    ensures var more := !p.IsDestroyed() && |p.available| + |p.inUse| + p.connecting < p.options.minSize;
      AfterFailure(p, timeout) == p.(
        timeouts := p.timeouts + (if timeout then 1 else 0),
        phase := if p.available == [] && p.inUse == [] && !p.IsDestroyed() then Disconnected else p.phase,
        connecting := p.connecting + (if more then 1 else 0), pending := p.pending + if more then 1 else 0)
  {
  }

  /** A failure is handled once. */
  lemma FailureOnce(p: Pool, c: Conn, first: bool, second: bool)
    ensures Fail(Fail(p, c, first), c, second) == Fail(p, c, first)
  {
    hide Removed, FinishAll, AfterFailure;
    if c !in p.failed {
      var p0 := p.(failed := p.failed + {c}, up := p.up - {c});
      var p1 := Removed(p0, c);
      RemovedFrame(p0, c);
      FinishAllEffect(p1.(work := p1.work - {c}), p1.WorkOf(c));
      AfterFailureFailed(FinishAll(p1.(work := p1.work - {c}), p1.WorkOf(c)), first);
    }
  }

  lemma AfterFailureFailed(p: Pool, timeout: bool)
    ensures AfterFailure(p, timeout).failed == p.failed
  {
    FinishAllEffect(p.(timeouts := 0, queue := [], phase := Destroying), p.queue);
  }

  /**
   * A forced destroy takes every connection out, calls back whoever waits in the queue, in order, and never anyone in
   * flight.
   */
  lemma ForcedEffect(p: Pool)
    requires !p.IsDestroyed()
    ensures var r := ForceDestroy(p);
      && r.phase == Destroyed && r.queue == [] && r.available == [] && r.inUse == [] && r.connecting == 0
      && r.called == p.called + Voiced(p.queue, true)
      && r.wire == p.wire && r.accepted == p.accepted
      && forall c :: r.WorkOf(c) == if c in p.available || c in p.inUse then [] else p.WorkOf(c)
  {
    FinishedInOrder(p.(queue := [], phase := Destroying), p.queue);
  }

  /** One timeout too many in a row destroys the pool by force, after the failed connection's own operations. */
  lemma TimeoutDestroys(p: Pool, c: Conn)
    requires Inv(p) && c !in p.failed && p.timeouts + 1 > p.options.reconnectTries && !p.IsDestroyed()
    ensures var r := Fail(p, c, true);
      && r.phase == Destroyed && r.queue == [] && r.available == [] && r.inUse == [] && r.timeouts == 0
      && r.called == p.called + p.WorkOf(c) + Voiced(p.queue, true)
  {
    hide Removed, FinishAll, ForceDestroy;
    FailureTakes(p, c);
    var p1 := Removed(p.(failed := p.failed + {c}, up := p.up - {c}), c);
    var p2 := FinishAll(p1.(work := p1.work - {c}), p1.WorkOf(c));
    ForcedEffect(p2.(timeouts := 0));
    ForcedTimeouts(p2.(timeouts := 0));
  }

  lemma ForcedTimeouts(p: Pool)
    ensures ForceDestroy(p).timeouts == p.timeouts
  {
    FinishAllEffect(p.(queue := [], phase := Destroying), p.queue);
  }

  /** A graceful destroy's look ends the pool exactly when the flush leaves nothing waiting and nothing is in flight. */
  lemma DrainedExact(p: Pool)
    requires Inv(p) && p.phase != Destroyed
    ensures var r := CheckStatus(p, {});
      && (r.phase == Destroyed <==> KeptOf(p.queue) == [] && forall c <- p.available + p.inUse :: p.WorkOf(c) == [])
      && (r.phase == Destroyed ==> r.available == [] && r.inUse == [] && r.queue == [])
      && (r.phase != Destroyed ==> r.phase == Destroying)
  {
    hide Execute;
    var p0 := p.(phase := Destroying);
    FlushKeeps(p0);
    var k := ExecuteKeeps(FlushMonitoring(p0));
  }

  /** The connection that answers the attempt joins the available ones, unless the pool is gone; work is taken up. */
  lemma ConnectJoins(p: Pool, c: Conn)
    requires Inv(p) && p.pending > 0 && c !in p.conns
    ensures var r := Answered(p, c);
      && Inv(r) && r.connecting == p.connecting - 1 && r.pending == p.pending - 1
      && (if p.IsDestroyed() then r.available == p.available && r.conns == p.conns && r.up == p.up
          else r.available == p.available + [c] && r.conns == p.conns + [c] && r.up == p.up + {c})
    ensures if p.IsDestroyed() then Connect(p, c, {}) == Answered(p, c)
      else if p.connecting > 1 then Connect(p, c, {}) == Answered(p, c)
      else Stopped(Answered(p, c), {}, Connect(p, c, {}))
  {
    hide Execute, Inv;
    AnsweredKeeps(p, c);
    NothingWaitsIdly(Answered(p, c), {});
  }

  lemma {:induction false} ManyCreated(p: Pool, n: nat)
    requires !p.IsDestroyed()
    ensures CreateMany(p, n) == p.(connecting := p.connecting + n, pending := p.pending + n)
    decreases n
  {
    if n == 0 {
    } else {
      ManyCreated(p, n - 1);
    }
  }

  /** Opened and connected, a new pool has one connection; outside a topology it asks for its minimal number more. */
  lemma OpenRun(options: Options, c: Conn)
    ensures var r := RunOf(Fresh(options), [Step(OnOpen, {}), Step(OnOpened(c), {})]);
      && r.phase == Connected && r.available == [c] && r.inUse == [] && r.up == {c} && r.conns == [c]
      && r.connecting == r.pending == (if options.inTopology then 0 else options.minSize)
  {
    hide RunOf, CreateMany;
    var start, asked, joined := Fresh(options), Step(OnOpen, {}), Step(OnOpened(c), {});
    var p := Open(start);
    assert RunOf(start, [asked]) == p by {
      RunFirst(start, asked);
    }
    RunMore(start, [asked], joined);
    assert [asked] + [joined] == [asked, joined];
    ManyCreated(Answered(p, c).(phase := Connected), if options.inTopology then 0 else options.minSize);
  }

  lemma RunFirst(p: Pool, s: Step)
    ensures RunOf(p, [s]) == After(p, s)
  {
    assert [s][..0] == [];
  }

  /** The reconnect timer asks for a connection exactly if none is up and the pool is not destroyed. */
  lemma ReconnectExact(p: Pool)
    ensures Reconnect(p) != p <==> !p.IsDestroyed() && forall c <- p.up :: c !in p.available && c !in p.inUse
    ensures Reconnect(p) != p ==> Reconnect(p) == p.(connecting := p.connecting + 1, pending := p.pending + 1)
  {
    if c :| c in p.up && (c in p.available || c in p.inUse) {
      assert c in p.available + p.inUse;
    }
  }

  /** A destroyed pool stays destroyed, sends nothing and takes no operation. */
  lemma DestroyedForGood(p: Pool, s: Step)
    requires p.phase == Destroyed
    ensures var r := After(p, s); r.phase == Destroyed && r.wire == p.wire && r.accepted == p.accepted
  {
    hide FinishAll, Removed;
    if s.event.OnFail? {
      var c := s.event.c;
      var p0 := p.(failed := p.failed + {c}, up := p.up - {c});
      RemovedFrame(p0, c);
      var p1 := Removed(p0, c);
      FinishAllEffect(p1.(work := p1.work - {c}), p1.WorkOf(c));
    }
  }
}
