/** What the pool loses or doubles, and exactly when: broken writes, neighbours stepped over, a forced destroy. */
module PoolFailures {
  import opened Bytes
  import opened Lists
  import opened Pools
  import opened PoolProofs

  // ---------- a write on a broken socket ----------

  lemma FlushLedger(p: Pool, y: Item)
    ensures Ledger(FlushMonitoring(p), y) == Ledger(p, y)
  {
    var p1 := p.(queue := KeptOf(p.queue));
    FinishAllEffect(p1, FlushedOf(p.queue));
    FinishAllEnds(p1, FlushedOf(p.queue), y);
    FlushSplits(p.queue, y);
  }

  /** The pool once the operation is sent and, the write having failed, back in front of the queue. */
  function PutBack(p: Pool, c: Conn): Pool
    requires p.queue != []
  {
    var sent := Dispatch(p, c, false);
    sent.(queue := [p.queue[0]] + sent.queue)
  }

  lemma BrokenDispatch(p: Pool, c: Conn)
    requires p.queue != []
    ensures Dispatch(p, c, true) == FlushMonitoring(Removed(PutBack(p, c), c))
  {
  }

  /** Whatever its kind, exactly the operation whose write fails is counted once more. */
  lemma BrokenLedger(p: Pool, c: Conn, y: Item)
    requires Inv(p) && p.queue != [] && c in p.available
    ensures Ledger(Dispatch(p, c, true), y) == Ledger(p, y) + if y == p.queue[0] then 1 else 0
  {
    hide Inv, Dispatch, Removed, FlushMonitoring;
    var sent, back := Dispatch(p, c, false), PutBack(p, c);
    DispatchLedger(p, c);
    assert Ledger(sent, y) == Ledger(p, y);
    CountAppend([p.queue[0]], sent.queue, y);
    assert Count([p.queue[0]], y) == if y == p.queue[0] then 1 else 0 by {
      assert [p.queue[0]][1..] == [];
    }
    RemovedFrame(back, c);
    FlushLedger(Removed(back, c), y);
    BrokenDispatch(p, c);
  }

  /** Operations are conserved by a write exactly when it succeeds. */
  lemma DispatchExact(p: Pool, c: Conn, breaks: bool)
    requires Inv(p) && p.queue != [] && c in p.available
    ensures SameLedger(p, Dispatch(p, c, breaks)) <==> !breaks
  {
    hide Inv, Dispatch, Ledger;
    if breaks {
      BrokenLedger(p, c, p.queue[0]);
    } else {
      DispatchLedger(p, c);
    }
  }

  /** Ownership of connections survives a failed write. */
  lemma BrokenInv(p: Pool, c: Conn)
    requires Inv(p) && p.queue != [] && c in p.available && (p.queue[0].monitoring ==> p.WorkOf(c) == [])
    ensures Inv(Dispatch(p, c, true))
  {
    hide Dispatch, Removed, FlushMonitoring;
    var sent, x := Dispatch(p, c, false), p.queue[0];
    assert x in p.queue;
    DispatchKeeps(p, c);
    var back := sent.(queue := [x] + sent.queue);
    assert back == PutBack(p, c) && Inv(back);
    RemovedKeeps(back, c);
    FlushKeeps(Removed(back, c));
    BrokenDispatch(p, c);
  }

  // ---------- lifted to the execution loop ----------

  /** The connection on which a turn of the loop sends, if it sends. */
  function Target(p: Pool): Option<Conn> {
    if p.available == [] || p.queue == [] || Picked(p) !in p.up then None else
    var p1 := p.(index := p.index + 1);
    var found := ForMonitoring(p1, p1.available);
    if p.queue[0].monitoring && found == [] then None else
    var c := if p.queue[0].monitoring then found[0] else Picked(p);
    if p.Total() < p.options.size && p1.WorkOf(c) != [] then None else Some(c)
  }

  lemma TurnByTarget(p: Pool, broken: set<Conn>)
    ensures Target(p).None? ==> Turn(p, broken) == Turn(p, {}) && !Turn(p, {}).1
    ensures Target(p).Some? ==>
      var c, p1 := Target(p).value, p.(index := p.index + 1);
      && p.queue != [] && c in p.available && (p.queue[0].monitoring ==> p.WorkOf(c) == [])
      && Turn(p, broken) == (Dispatch(p1, c, c in broken), c !in broken)
  {
    hide Dispatch, FlushMonitoring, Removed;
  }

  /** Whether a turn's write fails. */
  predicate Breaks(p: Pool, broken: set<Conn>) {
    Target(p).Some? && Target(p).value in broken
  }

  lemma TurnLedger(p: Pool, broken: set<Conn>, y: Item)
    requires Inv(p)
    ensures var r := Turn(p, broken).0;
      && Inv(r)
      && (Breaks(p, broken) ==> p.queue != [])
      && Ledger(r, y) == Ledger(p, y) + if Breaks(p, broken) && y == p.queue[0] then 1 else 0
  {
    hide Turn, Target, Inv, Dispatch, Ledger;
    TurnByTarget(p, broken);
    TurnByTarget(p, {});
    TurnKeeps(p);
    IndexIrrelevant(p);
    var p1 := p.(index := p.index + 1);
    assert Ledger(p1, y) == Ledger(p, y);
    if Breaks(p, broken) {
      BrokenLedger(p1, Target(p).value, y);
      BrokenInv(p1, Target(p).value);
    } else {
      assert Turn(p, broken) == Turn(p, {});
    }
  }

  /** A turn conserves operations exactly when it sends on no broken connection. */
  lemma TurnExact(p: Pool, broken: set<Conn>)
    requires Inv(p)
    ensures SameLedger(p, Turn(p, broken).0) <==> !Breaks(p, broken)
  {
    hide Turn, Target, Inv, Ledger;
    forall y ensures Ledger(Turn(p, broken).0, y) ==
        Ledger(p, y) + if Breaks(p, broken) && p.queue != [] && y == p.queue[0] then 1 else 0
    {
      TurnLedger(p, broken, y);
    }
    TurnByTarget(p, broken);
    if Breaks(p, broken) {
      assert Ledger(Turn(p, broken).0, p.queue[0]) == Ledger(p, p.queue[0]) + 1;
    }
  }

  /** The operation with which the loop ends because its write fails. */
  function Resent(p: Pool, broken: set<Conn>): Option<Item>
    decreases |p.queue|
  {
    var (r, goesOn) := Turn(p, broken);
    if goesOn then Resent(r, broken)
    else if Breaks(p, broken) && p.queue != [] then Some(p.queue[0]) else None
  }

  lemma {:induction false} LoopLedger(p: Pool, broken: set<Conn>, y: Item)
    requires Inv(p)
    ensures Inv(Loop(p, broken))
    ensures Ledger(Loop(p, broken), y) == Ledger(p, y) + if Resent(p, broken) == Some(y) then 1 else 0
    decreases |p.queue|
  {
    hide Turn, Ledger, Inv, Target;
    TurnLedger(p, broken, y);
    TurnByTarget(p, broken);
    var (r, goesOn) := Turn(p, broken);
    if goesOn {
      LoopLedger(r, broken, y);
    }
  }

  /** The loop sends nothing on a connection that was not available when it began. */
  lemma {:induction false} ResentOnAvailable(p: Pool, broken: set<Conn>)
    requires Inv(p) && Resent(p, broken).Some?
    ensures exists c <- p.available :: c in broken
    decreases |p.queue|
  {
    hide Turn, Inv, Ledger, Target, Picked, ForMonitoring;
    TurnByTarget(p, broken);
    var (r, goesOn) := Turn(p, broken);
    if goesOn {
      TurnLedger(p, broken, p.queue[0]);
      DispatchShrinks(p.(index := p.index + 1), Target(p).value);
      ResentOnAvailable(r, broken);
    }
  }

  lemma DispatchShrinks(p: Pool, c: Conn)
    requires p.queue != []
    ensures forall d <- Dispatch(p, c, false).available :: d in p.available
  {
  }

  /** Whether a run of the loop ends with a write that fails. */
  function ResentBy(p: Pool, broken: set<Conn>): Option<Item> {
    if p.phase == Destroyed || p.connecting > 0 then None else Resent(p, broken)
  }

  /**
   * The execution loop keeps every connection owned once whatever sockets break. It conserves operations exactly
   * when no write fails; otherwise exactly the operation put back is counted once more.
   */
  lemma ExecuteExact(p: Pool, broken: set<Conn>)
    requires Inv(p)
    ensures Inv(Execute(p, broken))
    ensures SameLedger(p, Execute(p, broken)) <==> ResentBy(p, broken).None?
    ensures forall y ::
      Ledger(Execute(p, broken), y) == Ledger(p, y) + if ResentBy(p, broken) == Some(y) then 1 else 0
    ensures (forall c <- p.available :: c !in broken) ==> SameLedger(p, Execute(p, broken))
  {
    hide Loop, Ledger, Inv, Resent;
    if p.phase != Destroyed && p.connecting <= 0 {
      forall y
        ensures Inv(Loop(p, broken))
          && Ledger(Loop(p, broken), y) == Ledger(p, y) + if Resent(p, broken) == Some(y) then 1 else 0
      {
        LoopLedger(p, broken, y);
      }
      var x := Item(0, 0, false, false, false, false);
      LoopLedger(p, broken, x);
      if Resent(p, broken).Some? {
        var y := Resent(p, broken).value;
        assert Ledger(Execute(p, broken), y) == Ledger(p, y) + 1;
        ResentOnAvailable(p, broken);
      }
    }
  }

  // ---------- the consequence: a callback called twice ----------

  /** An operation whose caller waits for its reply. */
  predicate Awaited(x: Item) {
    !x.monitoring && !x.noResponse && x.hasCallback && !x.immediateRelease
  }

  lemma {:induction false} LastMatch(w: seq<Item>, x: Item)
    requires forall y <- w :: y.requestId != x.requestId
    ensures Matches(w + [x], x.requestId) == [x]
  {
    if w == [] {
      assert [] + [x] == [x] && [x][1..] == [];
    } else {
      assert (w + [x])[1..] == w[1..] + [x];
      LastMatch(w[1..], x);
    }
  }

  /** After the failed write the operation is both in flight on the lost connection and first in the queue. */
  lemma BrokenState(p: Pool, c: Conn, d: Conn)
    requires Inv(p) && p.queue != [] && Awaited(p.queue[0])
    requires c in p.available && d in p.available && c != d
    ensures var x, r := p.queue[0], Dispatch(p, c, true);
      && r.WorkOf(c) == p.WorkOf(c) + [x] && r.WorkOf(d) == p.WorkOf(d)
      && r.queue != [] && r.queue[0] == x && d in r.available && p.called <= r.called && r.failed == p.failed
  {
    hide Removed, Distinct, Without;
    var x, sent, back := p.queue[0], Dispatch(p, c, false), PutBack(p, c);
    assert x in p.queue;
    DispatchOrdinary(p, c);
    assert Inv(back);
    WithoutMembers(p.available, c);
    RemovedFrame(back, c);
    assert Removed(back, c).available == Without(p.available, c) by {
      OnlyAvailable(back, c);
    }
    FlushKeeps(Removed(back, c)) by {
      RemovedKeeps(back, c);
    }
    FinishAllEffect(Removed(back, c).(queue := KeptOf(back.queue)), FlushedOf(back.queue));
    BrokenDispatch(p, c);
  }

  lemma OnlyAvailable(p: Pool, c: Conn)
    requires c in p.available
    ensures Removed(p, c).available == Without(p.available, c)
  {
  }

  /** The failure of the connection calls back every operation in flight on it and leaves the queue alone. */
  lemma FailureCalls(p: Pool, c: Conn, x: Item)
    requires Inv(p) && c !in p.failed
    ensures var r := Fail(p, c, false);
      && r.queue == p.queue && Count(r.called, x) == Count(p.called, x) + Count(p.WorkOf(c), x)
      && (forall d <- p.available | d != c :: d in r.available && r.WorkOf(d) == p.WorkOf(d))
  {
    hide Removed, AfterFailure, FinishAll, Distinct;
    var p0 := p.(failed := p.failed + {c}, up := p.up - {c});
    RemovedKeepsOthers(p0, c);
    RemovedFrame(p0, c);
    var p1 := Removed(p0, c);
    var p2, w := p1.(work := p1.work - {c}), p1.WorkOf(c);
    FinishAllEffect(p2, w);
    FinishAllHeard(p2, w);
    FinishAllEnds(p2, w, x);
    AfterFailureFrame(FinishAll(p2, w));
  }

  lemma RemovedKeepsOthers(p: Pool, c: Conn)
    requires Inv(p)
    ensures forall d <- p.available | d != c :: d in Removed(p, c).available
  {
    WithoutMembers(p.available, c);
  }

  lemma AfterFailureFrame(p: Pool)
    ensures var r := AfterFailure(p, false);
      r.queue == p.queue && r.called == p.called && r.available == p.available && r.work == p.work
  {
  }

  /**
   * A write fails, the connection's failure is handled, the operation put back is sent on another connection and
   * answered: its callback has been called twice.
   */
  lemma CalledTwice(p: Pool, c: Conn, d: Conn)
    requires Inv(p) && p.queue != [] && Awaited(p.queue[0])
    requires c in p.available && d in p.available && c != d && c !in p.failed
    requires forall y <- p.WorkOf(d) :: y.requestId != p.queue[0].requestId
    ensures var x := p.queue[0];
      var failed := Fail(Dispatch(p, c, true), c, false);
      && failed.queue != [] && failed.queue[0] == x
      && Count(Reply(Dispatch(failed, d, false), d, x.requestId).called, x) >= Count(p.called, x) + 2
  {
    hide Fail, Matches, Unmatched, Inv, FinishAll, Removed, FlushMonitoring, Without;
    var x, r := p.queue[0], Dispatch(p, c, true);
    BrokenState(p, c, d);
    BrokenInv(p, c);
    FailureCalls(r, c, x);
    var failed := Fail(r, c, false);
    CountPrefix(p.called, r.called, x);
    CountAppend(p.WorkOf(c), [x], x);
    CountIn([x], x);
    CountAppend(failed.called, [x], x);
    ResentAnswered(failed, d);
  }

  /** An awaited operation sent on d and answered is called back. */
  lemma ResentAnswered(p: Pool, d: Conn)
    requires p.queue != [] && Awaited(p.queue[0])
    requires forall y <- p.WorkOf(d) :: y.requestId != p.queue[0].requestId
    ensures Reply(Dispatch(p, d, false), d, p.queue[0].requestId).called == p.called + [p.queue[0]]
  {
    hide Matches, Unmatched;
    LastMatch(p.WorkOf(d), p.queue[0]);
  }

  lemma CountPrefix(a: seq<Item>, b: seq<Item>, x: Item)
    requires a <= b
    ensures Count(a, x) <= Count(b, x)
  {
    assert b == a + b[|a|..];
    CountAppend(a, b[|a|..], x);
  }

  // ---------- the neighbours stepped over ----------

  /** A flush leaves no monitoring operation exactly when no two of them stand next to each other. */
  lemma {:induction false} FlushExact(q: seq<Item>)
    ensures Plain(KeptOf(q)) <==> forall i | 0 <= i < |q| - 1 :: !(q[i].monitoring && q[i + 1].monitoring)
    decreases |q|
  {
    if q == [] {
    } else {
      var step := if q[0].monitoring then 2 else 1;
      if |q| > step {
        var rest := q[step..];
        FlushExact(rest);
        assert forall i | 0 <= i < |rest| :: rest[i] == q[i + step];
        assert forall i | step <= i < |q| :: q[i] == rest[i - step];
      }
    }
  }

  /** A search leaves no work item with the id exactly when no two of them stand next to each other. */
  lemma {:induction false} MatchExact(w: seq<Item>, id: int)
    ensures (forall x <- Unmatched(w, id) :: x.requestId != id) <==>
      forall i | 0 <= i < |w| - 1 :: !(w[i].requestId == id && w[i + 1].requestId == id)
    decreases |w|
  {
    if w == [] {
    } else {
      var step := if w[0].requestId == id then 2 else 1;
      if |w| > step {
        var rest := w[step..];
        MatchExact(rest, id);
        assert forall i | 0 <= i < |rest| :: rest[i] == w[i + step];
        assert forall i | step <= i < |w| :: w[i] == rest[i - step];
      }
    }
  }

  /** Two monitoring operations written in a row are neighbours: a flush fails the second and leaves the first. */
  lemma TwoMonitoringWrites(p: Pool, x: Item, y: Item)
    requires !p.IsDestroyed() && x.monitoring && y.monitoring
    ensures var q := Write(Write(p, x), y).queue;
      FlushedOf(q) == [y] + FlushedOf(p.queue) && KeptOf(q) == [x] + KeptOf(p.queue)
  {
    var q := Write(Write(p, x), y).queue;
    assert q[2..] == p.queue;
  }

  // ---------- a forced destroy ----------

  lemma {:induction false} FinishAllSilent(p: Pool, xs: seq<Item>, x: Item)
    ensures Count(FinishAll(p, xs).silent, x) == Count(p.silent, x) + if x.hasCallback then 0 else Count(xs, x)
    decreases |xs|
  {
    if xs == [] {
    } else {
      FinishAllSilent(Finish(p, xs[0]), xs[1..], x);
      CountAppend(p.silent, [xs[0]], x);
      CountIn([xs[0]], x);
      assert [xs[0]][1..] == [];
    }
  }

  /** What a forced destroy ends in silence: the waiting operations without a callback and everything in flight. */
  lemma ForcedSilence(p: Pool, x: Item)
    requires Inv(p) && !p.IsDestroyed()
    ensures Count(ForceDestroy(p).silent, x) ==
      Count(p.silent, x) + (if x.hasCallback then 0 else Count(p.queue, x)) + Flying(p.work, p.available + p.inUse, x)
  {
    hide Inv;
    var p0, all := p.(queue := [], phase := Destroying), p.available + p.inUse;
    var p1 := FinishAll(p0, p.queue);
    FinishAllEffect(p0, p.queue);
    FinishAllSilent(p0, p.queue, x);
    InFlightCount(p1, all, x);
    CountAppend(p1.silent, InFlight(p1, all), x);
  }

  lemma {:induction false} FlyingIn(p: Pool, cs: seq<Conn>, x: Item)
    ensures Flying(p.work, cs, x) > 0 <==> exists c <- cs :: x in p.WorkOf(c)
  {
    if cs == [] {
    } else {
      assert cs == [cs[0]] + cs[1..];
      CountIn(p.WorkOf(cs[0]), x);
      FlyingIn(p, cs[1..], x);
    }
  }

  /** A forced destroy leaves nobody waiting exactly when nobody waits for what is in flight. */
  lemma ForcedExact(p: Pool)
    requires Inv(p) && Heard(p) && !p.IsDestroyed()
    ensures Heard(ForceDestroy(p)) <==>
      forall c <- p.available + p.inUse :: forall x <- p.WorkOf(c) :: Muted(x)
  {
    var all, r := p.available + p.inUse, ForceDestroy(p);
    forall x
      ensures x in r.silent <==>
        x in p.silent || (!x.hasCallback && x in p.queue) || exists c <- all :: x in p.WorkOf(c)
    {
      ForcedSilence(p, x);
      CountIn(r.silent, x);
      CountIn(p.silent, x);
      CountIn(p.queue, x);
      FlyingIn(p, all, x);
    }
    hide ForceDestroy, Inv;
  }
}
