/** Runs of the pool on sockets that may break, and one in which a callback is called twice. */
module PoolRuns {
  import opened Bytes
  import opened Lists
  import opened Pools
  import opened PoolProofs
  import opened PoolFailures

  /** One step during which writes on the given connections fail. */
  datatype Step = Step(event: Event, broken: set<Conn>)

  function After(p: Pool, s: Step): Pool {
    match s.event
    case OnExecute => Execute(p, s.broken)
    case OnConnect(c) => if p.pending > 0 then Connect(p, c, s.broken) else p
    case OnCheckStatus => if p.phase == Destroyed then p else CheckStatus(p, s.broken)
    case _ => Pools.Step(p, s.event)
  }

  /** The operation the step puts back because its write failed. */
  function Failed(p: Pool, s: Step): Option<Item> {
    match s.event
    case OnExecute => ResentBy(p, s.broken)
    case OnConnect(c) =>
      if p.pending > 0 && !p.IsDestroyed() then ResentBy(Answered(p, c), s.broken) else None
    case OnCheckStatus =>
      var p1 := FlushMonitoring(p.(phase := Destroying));
      if p.phase != Destroyed && p1.queue != [] then ResentBy(p1, s.broken) else None
    case _ => None
  }

  /** New connections are new, and operations are as write demands; ids in flight and broken sockets are arbitrary. */
  predicate Sound(p: Pool, s: Step) {
    match s.event
    case OnWrite(x) => Sendable(x)
    case OnConnect(c) => c !in p.conns
    case OnOpened(c) => c !in p.conns
    case _ => true
  }

  /** With every write succeeding these are the steps of the pool. */
  lemma Unbroken(p: Pool, e: Event)
    ensures After(p, Step(e, {})) == Pools.Step(p, e)
  {
  }

  // ---------- one step ----------

  lemma ReplyOwns(p: Pool, c: Conn, id: int)
    requires Inv(p)
    ensures Inv(Reply(p, c, id)) && SameLedger(p, Reply(p, c, id)) && Reply(p, c, id).accepted == p.accepted
  {
    hide Inv, SameLedger, Matches, Unmatched, Without;
    ReplyLedger(p, c, id);
    if c in p.inUse {
      ReplyInUse(p, c, id);
    } else {
      ReplyElsewhere(p, c, id);
    }
  }

  /** How often y waits, is in flight or has ended beyond the times it was accepted. */
  function Surplus(p: Pool, y: Item): int {
    Ledger(p, y) - Count(p.accepted, y)
  }

  lemma WriteSurplus(p: Pool, x: Item, y: Item)
    requires Inv(p) && Sendable(x)
    ensures Inv(Write(p, x)) && Surplus(Write(p, x), y) == Surplus(p, y)
  {
    CountAppend(p.queue, [x], y);
    CountAppend([x], p.queue, y);
    CountAppend(p.accepted, [x], y);
  }

  lemma ExecuteSurplus(p: Pool, broken: set<Conn>, y: Item)
    requires Inv(p)
    ensures var r := Execute(p, broken);
      && Inv(r) && r.accepted == p.accepted
      && Surplus(r, y) == Surplus(p, y) + if ResentBy(p, broken) == Some(y) then 1 else 0
  {
    hide Inv, Execute, ResentBy, Ledger;
    ExecuteExact(p, broken);
    ExecuteAccepts(p, broken);
  }

  lemma ExecuteAccepts(p: Pool, broken: set<Conn>)
    ensures Execute(p, broken).accepted == p.accepted
  {
    if p.phase != Destroyed && p.connecting <= 0 {
      LoopAccepts(p, broken);
    }
  }

  lemma {:induction false} LoopAccepts(p: Pool, broken: set<Conn>)
    ensures Loop(p, broken).accepted == p.accepted
    decreases |p.queue|
  {
    hide Turn;
    TurnAccepts(p, broken);
    var (r, goesOn) := Turn(p, broken);
    if goesOn {
      LoopAccepts(r, broken);
    }
  }

  lemma FlushAccepts(p: Pool)
    ensures FlushMonitoring(p).accepted == p.accepted
  {
    FinishAllEffect(p.(queue := KeptOf(p.queue)), FlushedOf(p.queue));
  }

  lemma TurnAccepts(p: Pool, broken: set<Conn>)
    ensures Turn(p, broken).0.accepted == p.accepted
  {
    hide Dispatch, FlushMonitoring, Removed;
    FlushAccepts(p);
    var p1 := p.(index := p.index + 1);
    if p.available != [] {
      RemovedFrame(p1, Picked(p));
      FlushAccepts(Removed(p1, Picked(p)));
    }
    if p.queue != [] {
      forall c ensures Dispatch(p1, c, c in broken).accepted == p.accepted {
        DispatchAccepts(p1, c, c in broken);
      }
    }
  }

  lemma DispatchAccepts(p: Pool, c: Conn, breaks: bool)
    requires p.queue != []
    ensures Dispatch(p, c, breaks).accepted == p.accepted
  {
    if breaks {
      hide Dispatch, FlushMonitoring, Removed;
      BrokenDispatch(p, c);
      RemovedFrame(PutBack(p, c), c);
      FlushAccepts(Removed(PutBack(p, c), c));
      DispatchAccepts(p, c, false);
    }
  }

  lemma ConnectSurplus(p: Pool, c: Conn, broken: set<Conn>, y: Item)
    requires Inv(p) && p.pending > 0 && c !in p.conns
    ensures var r := Connect(p, c, broken);
      && Inv(r)
      && Surplus(r, y) == Surplus(p, y) + if Failed(p, Step(OnConnect(c), broken)) == Some(y) then 1 else 0
  {
    hide Inv, Execute, ResentBy, Ledger, Answered, SilentOk, Order;
    AnsweredKeeps(p, c);
    ExecuteSurplus(Answered(p, c), broken, y);
  }

  lemma CheckSurplus(p: Pool, broken: set<Conn>, y: Item)
    requires Inv(p) && p.phase != Destroyed
    ensures var r := CheckStatus(p, broken);
      && Inv(r)
      && Surplus(r, y) == Surplus(p, y) + if Failed(p, Step(OnCheckStatus, broken)) == Some(y) then 1 else 0
  {
    hide Inv, Execute, ResentBy, Ledger, FlushMonitoring, Cleared, SilentOk, Order;
    var p0 := p.(phase := Destroying);
    CountersKeep(p, p0);
    FlushKeeps(p0);
    var p1 := FlushMonitoring(p0);
    ExecuteSurplus(p1, broken, y);
    ClearedKeeps(p1);
    ClearedAccepted(p1);
  }

  /** A step keeps every connection owned once; exactly a failed write adds one to its operation's surplus. */
  lemma StepSurplus(p: Pool, s: Step, y: Item)
    requires Inv(p) && Sound(p, s)
    ensures Inv(After(p, s))
    ensures Surplus(After(p, s), y) == Surplus(p, y) + if Failed(p, s) == Some(y) then 1 else 0
  {
    hide Inv, Ledger, Execute, Connect, CheckStatus, Reply, Fail, ForceDestroy, Opened, ResentBy, Write;
    hide SilentOk, Order;
    match s.event
    case OnWrite(x) => WriteSurplus(p, x, y);
    case OnExecute => ExecuteSurplus(p, s.broken, y);
    case OnReply(c, id) => ReplyOwns(p, c, id);
    case OnConnect(c) =>
      if p.pending > 0 {
        ConnectSurplus(p, c, s.broken, y);
      }
    case OnCheckStatus =>
      if p.phase != Destroyed {
        CheckSurplus(p, s.broken, y);
      }
    case _ =>
      assert Legal(p, s.event) && After(p, s) == Pools.Step(p, s.event);
      StepKeeps(p, s.event);
  }

  // ---------- every run ----------

  function RunOf(p: Pool, ss: seq<Step>): Pool {
    if ss == [] then p else After(RunOf(p, ss[..|ss| - 1]), ss[|ss| - 1])
  }

  predicate SoundRun(p: Pool, ss: seq<Step>) {
    ss == [] || (SoundRun(p, ss[..|ss| - 1]) && Sound(RunOf(p, ss[..|ss| - 1]), ss[|ss| - 1]))
  }

  /** How many writes of y failed in the run. */
  function Failures(p: Pool, ss: seq<Step>, y: Item): nat {
    if ss == [] then 0 else
    var before := ss[..|ss| - 1];
    Failures(p, before, y) + if Failed(RunOf(p, before), ss[|ss| - 1]) == Some(y) then 1 else 0
  }

  /**
   * Whatever sockets break in whatever interleaving, no connection is owned twice, and an operation waits, is in flight
   * or has ended exactly as often as it was accepted plus once for every write of it that failed.
   */
  lemma {:induction false} BrokenRunsKeep(options: Options, ss: seq<Step>, y: Item)
    requires SoundRun(Fresh(options), ss)
    ensures var p := RunOf(Fresh(options), ss);
      && Inv(p)
      && Ledger(p, y) == Count(p.accepted, y) + Failures(Fresh(options), ss, y)
    decreases |ss|
  {
    hide Inv, Ledger, After, Sound, Failed;
    if ss == [] {
      FreshGood(options);
    } else {
      BrokenRunsKeep(options, ss[..|ss| - 1], y);
      StepSurplus(RunOf(Fresh(options), ss[..|ss| - 1]), ss[|ss| - 1], y);
    }
  }

  // ---------- a callback called twice, from a new pool ----------

  const TWO := Options(2, 1, 3, false)
  const QUESTION := Item(0, 7, false, false, false, true)

  function OpenedTwo(): Pool {
    Fresh(TWO).(phase := Connected, available := [1, 2], up := {1, 2}, conns := [1, 2])
  }

  lemma RunMore(p: Pool, ss: seq<Step>, s: Step)
    ensures RunOf(p, ss + [s]) == After(RunOf(p, ss), s)
  {
    assert (ss + [s])[..|ss|] == ss;
  }

  lemma NothingToSend(p: Pool, broken: set<Conn>)
    requires p.queue == [] && p.available != []
    ensures Loop(p, broken) == p
  {
    assert Turn(p, broken) == (p, false);
  }

  function Opening(): Pool {
    Fresh(TWO).(phase := Connecting, connecting := 1, pending := 1)
  }

  function OpenedOne(): Pool {
    Fresh(TWO).(phase := Connected, available := [1], up := {1}, conns := [1], connecting := 1, pending := 1)
  }

  lemma FirstJoins()
    ensures Opened(Opening(), 1) == OpenedOne()
  {
    var joined := Answered(Opening(), 1).(phase := Connected);
    assert [] + [1] == [1] && {} + {1} == {1};
    assert CreateMany(joined, 1) == CreateConnection(CreateMany(joined, 0));
  }

  lemma SecondJoins()
    ensures Connect(OpenedOne(), 2, {}) == OpenedTwo()
  {
    assert [1] + [2] == [1, 2] && {1} + {2} == {1, 2};
    assert Answered(OpenedOne(), 2) == OpenedTwo();
    NothingToSend(OpenedTwo(), {});
  }

  /** A pool of two connections is opened: the first one, then the one that restores the minimal size. */
  lemma OpenTwo()
    ensures RunOf(Fresh(TWO), [Step(OnOpen, {}), Step(OnOpened(1), {}), Step(OnConnect(2), {})]) == OpenedTwo()
  {
    hide Opened, Connect;
    var start := Fresh(TWO);
    var a, b, c := Step(OnOpen, {}), Step(OnOpened(1), {}), Step(OnConnect(2), {});
    FirstJoins();
    SecondJoins();
    RunMore(start, [], a);
    RunMore(start, [a], b);
    RunMore(start, [a, b], c);
    assert [] + [a] == [a] && [a] + [b] == [a, b] && [a, b] + [c] == [a, b, c];
  }

  /** The first write of the operation, on connection 1, fails. */
  function Doubled(): Pool {
    OpenedTwo().(queue := [QUESTION], accepted := [QUESTION], available := [2], index := 1,
               wire := [QUESTION], work := map[1 := [QUESTION]])
  }

  lemma FirstSend()
    ensures Execute(Write(OpenedTwo(), QUESTION), {1}) == Doubled()
  {
    var p := Write(OpenedTwo(), QUESTION);
    assert p.queue == [QUESTION] && p.queue[1..] == [];
    assert [1, 2][1..] == [2] && [2][1..] == [];
    assert Idle(p, [2]) == [2] + Idle(p, []) == [2];
    assert Idle(p, [1, 2]) == [1] + Idle(p, [2]) == [1, 2];
    assert Picked(p) == 1;
    var p1 := p.(index := 1);
    assert Turn(p, {1}) == (Dispatch(p1, 1, true), false);
    SendAndBreak(p1);
  }

  lemma SendAndBreak(p: Pool)
    requires p == OpenedTwo().(queue := [QUESTION], accepted := [QUESTION], index := 1)
    ensures Dispatch(p, 1, true) == Doubled()
  {
    var back := PutBack(p, 1);
    assert back.queue == [QUESTION] && back.wire == [QUESTION] && back.work == map[1 := [QUESTION]];
    BrokenDispatch(p, 1);
    assert Without([1, 2], 1) == [2];
    var r := Removed(back, 1);
    assert [QUESTION][1..] == [];
    assert KeptOf(r.queue) == [QUESTION] && FlushedOf(r.queue) == [];
  }

  /** The failure of connection 1 calls the operation back; it still waits. */
  function FailedOnce(): Pool {
    Doubled().(up := {2}, failed := {1}, work := map[], called := [QUESTION])
  }

  lemma Failing()
    ensures Fail(Doubled(), 1, false) == FailedOnce()
  {
    var p0 := Doubled().(failed := {1}, up := {2});
    assert Doubled().failed + {1} == {1} && Doubled().up - {1} == {2};
    assert Removed(p0, 1) == p0 && p0.work - {1} == map[];
    assert [QUESTION][1..] == [];
    assert FinishAll(p0.(work := map[]), [QUESTION]) == FailedOnce();
  }

  /** It is sent again, on connection 2. */
  function SentAgain(): Pool {
    FailedOnce().(queue := [], index := 2, wire := [QUESTION, QUESTION], work := map[2 := [QUESTION]])
  }

  lemma SecondSend()
    ensures Execute(FailedOnce(), {}) == SentAgain()
  {
    var p := FailedOnce();
    assert p.queue[1..] == [] && [2][1..] == [];
    assert Idle(p, [2]) == [2] + Idle(p, []) == [2];
    assert Picked(p) == 2;
    var p1 := p.(index := 2);
    assert [QUESTION] + [QUESTION] == [QUESTION, QUESTION] && p1.WorkOf(2) + [QUESTION] == [QUESTION];
    assert p1.work[2 := [QUESTION]] == map[2 := [QUESTION]];
    assert Dispatch(p1, 2, false) == SentAgain();
    assert Turn(p, {}) == (SentAgain(), true);
    NothingToSend(SentAgain(), {});
  }

  /** From a new pool: opened, written, sent on a broken socket, failed, sent again and answered. */
  lemma CalledTwiceRun()
    ensures var ss := [Step(OnOpen, {}), Step(OnOpened(1), {}), Step(OnConnect(2), {}), Step(OnWrite(QUESTION), {}),
                       Step(OnExecute, {1}), Step(OnFail(1, false), {}), Step(OnExecute, {}), Step(OnReply(2, 7), {})];
      RunOf(Fresh(TWO), ss).called == [QUESTION, QUESTION]
  {
    hide Execute, Write, Fail;
    var start, connected := Fresh(TWO), [Step(OnOpen, {}), Step(OnOpened(1), {}), Step(OnConnect(2), {})];
    OpenTwo();
    FirstSend();
    Failing();
    SecondSend();
    var w, x, f, y, r := Step(OnWrite(QUESTION), {}), Step(OnExecute, {1}), Step(OnFail(1, false), {}),
      Step(OnExecute, {}), Step(OnReply(2, 7), {});
    RunMore(start, connected, w);
    RunMore(start, connected + [w], x);
    RunMore(start, connected + [w] + [x], f);
    RunMore(start, connected + [w] + [x] + [f], y);
    RunMore(start, connected + [w] + [x] + [f] + [y], r);
    assert connected + [w] + [x] + [f] + [y] + [r]
      == [connected[0], connected[1], connected[2], w, x, f, y, r];
    AnsweredAgain();
  }

  lemma AnsweredAgain()
    ensures Reply(SentAgain(), 2, 7).called == [QUESTION, QUESTION]
  {
    hide Matches, Unmatched, Without;
    var p := SentAgain();
    assert p.WorkOf(2) == [QUESTION] && p.called == [QUESTION];
    assert [] + [QUESTION] == [QUESTION];
    LastMatch([], QUESTION);
    assert [QUESTION] + [QUESTION] == [QUESTION, QUESTION];
  }
}
