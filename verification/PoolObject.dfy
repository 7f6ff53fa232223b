/** The pool as the code runs it: lists spliced in place, loops over them, one method per handler. */
module PoolObject {
  import opened Lists
  import opened Pools

  class ConnectionPool {
    const options: Options
    var phase: Phase
    var queue: seq<Item>
    var availableConnections: seq<Conn>
    var inUseConnections: seq<Conn>
    var connectingConnections: int
    var workItems: map<Conn, seq<Item>>
    var conns: seq<Conn>
    var up: set<Conn>
    var failHandled: set<Conn>
    var connectionIndex: nat
    var numberOfConsecutiveTimeouts: nat
    var pending: nat
    var accepted: seq<Item>
    var refused: seq<Item>
    var wire: seq<Item>
    var called: seq<Item>
    var silent: seq<Item>

    function View(): Pool
      reads this
    {
      Pool(phase, queue, availableConnections, inUseConnections, connectingConnections, workItems, conns, up,
           failHandled, connectionIndex, numberOfConsecutiveTimeouts, pending, options,
           accepted, refused, wire, called, silent)
    }

    constructor (options: Options)
      ensures View() == Fresh(options)
    {
      this.options := options;
      phase, queue, availableConnections, inUseConnections := Disconnected, [], [], [];
      connectingConnections, workItems, conns, up, failHandled := 0, map[], [], {}, {};
      connectionIndex, numberOfConsecutiveTimeouts, pending := 0, 0, 0;
      accepted, refused, wire, called, silent := [], [], [], [], [];
    }

    /** The work items of a connection. */
    function ItemsOf(c: Conn): (r: seq<Item>)
      reads this
      ensures r == View().WorkOf(c)
    {
      if c in workItems then workItems[c] else []
    }

    method Callback(x: Item)
      modifies this`called, this`silent
      ensures View() == Finish(old(View()), x)
    {
      if x.hasCallback {
        called := called + [x];
      } else {
        silent := silent + [x];
      }
    }

    /** Splices the monitoring operations out; an entry that slides into a vacated place is stepped over. */
    static method TakeOutMonitoring(q: seq<Item>) returns (queue: seq<Item>, flushed: seq<Item>)
      ensures queue == KeptOf(q) && flushed == FlushedOf(q)
    {
      var i := 0;
      queue, flushed := q, [];
      ghost var past, rest := [], q;
      while i < |queue|
        invariant queue == past + rest && i >= |past| && (i == |past| || rest == [])
        invariant KeptOf(q) == past + KeptOf(rest)
        invariant FlushedOf(q) == flushed + FlushedOf(rest)
        decreases |queue| - i
      {
        assert queue[i] == rest[0];
        if queue[i].monitoring {
          flushed := flushed + [queue[i]];
          queue := queue[..i] + queue[i + 1..];
          past, rest := past + rest[1..][..if |rest| > 1 then 1 else 0], if |rest| > 1 then rest[2..] else [];
        } else {
          past, rest := past + [rest[0]], rest[1..];
        }
        i := i + 1;
      }
    }

    /** Fails the monitoring operations taken out; their callbacks do not call back into the pool. */
    method FlushMonitoringOperations()
      modifies this`queue, this`called, this`silent
      ensures View() == FlushMonitoring(old(View()))
    {
      var flushed;
      queue, flushed := TakeOutMonitoring(queue);
      CallbackAll(flushed);
    }

    method RemoveConnection(c: Conn)
      modifies this`availableConnections, this`inUseConnections
      ensures View() == Removed(old(View()), c)
    {
      var found;
      availableConnections, found := RemoveFirst(availableConnections, c);
      if found {
        return;
      }
      inUseConnections, found := RemoveFirst(inUseConnections, c);
    }

    /** `moveConnectionBetween` from in use to available. */
    method MakeAvailable(c: Conn)
      modifies this`availableConnections, this`inUseConnections
      ensures View() == if c !in old(inUseConnections) then old(View())
        else old(View()).(inUse := Without(old(inUseConnections), c), available := old(availableConnections) + [c])
    {
      var rest, moved := RemoveFirst(inUseConnections, c);
      if moved {
        inUseConnections := rest;
        availableConnections := availableConnections + [c];
      }
    }

    method CreateOne()
      modifies this`connectingConnections, this`pending
      ensures View() == CreateConnection(old(View()))
    {
      if phase == Destroyed || phase == Destroying {
        return;
      }
      connectingConnections, pending := connectingConnections + 1, pending + 1;
    }

    /** One turn of the loop; `goesOn` is false where the code breaks out of it. */
    method ExecuteTurn(broken: set<Conn>) returns (goesOn: bool)
      modifies this
      ensures (View(), goesOn) == Turn(old(View()), broken)
    {
      hide Dispatch, Removed, FlushMonitoring, Picked, ForMonitoring;
      ghost var p := View();
      var totalConnections := |availableConnections| + |inUseConnections| + connectingConnections;
      if |availableConnections| == 0 {
        FlushMonitoringOperations();
        return false;
      }
      if |queue| == 0 {
        return false;
      }
      var connection := PickConnection();
      if connection !in up {
        RemoveConnection(connection);
        FlushMonitoringOperations();
        return false;
      }
      ghost var q := queue;
      var workItem := queue[0];
      queue := queue[1..];
      if workItem.monitoring {
        var foundValidConnection, valid := FindIdle();
        ForMonitoringFrame(View(), p.(index := p.index + 1), availableConnections);
        if !foundValidConnection {
          queue := [workItem] + queue;
          assert queue == q;
          if totalConnections < options.size && |queue| > 0 {
            CreateOne();
          }
          return false;
        }
        connection := valid;
      }
      if totalConnections < options.size {
        if |ItemsOf(connection)| > 0 {
          queue := [workItem] + queue;
          assert queue == q;
          CreateOne();
          return false;
        }
      }
      Send(connection, workItem);
      DispatchBreaks(p.(index := p.index + 1), connection);
      assert [workItem] + q[1..] == q;
      if connection in broken {
        queue := [workItem] + queue;
        RemoveConnection(connection);
        FlushMonitoringOperations();
        return false;
      }
      goesOn := true;
    }

    /** Which connections are idle does not depend on the queue or the round-robin counter. */
    static lemma {:induction false} ForMonitoringFrame(p: Pool, q: Pool, cs: seq<Conn>)
      requires p.up == q.up && p.work == q.work
      ensures ForMonitoring(p, cs) == ForMonitoring(q, cs)
    {
      if cs != [] {
        ForMonitoringFrame(p, q, cs[1..]);
      }
    }

    static lemma DispatchBreaks(p: Pool, c: Conn)
      requires p.queue != []
      ensures var sent := Dispatch(p, c, false);
        Dispatch(p, c, true) == FlushMonitoring(Removed(sent.(queue := [p.queue[0]] + sent.queue), c))
    {
    }

    /** Round robin over the idle connections, or over all available ones. */
    method PickConnection() returns (c: Conn)
      requires availableConnections != []
      modifies this`connectionIndex
      ensures c == Picked(old(View())) && View() == old(View()).(index := old(connectionIndex) + 1)
    {
      var idle := Idle(View(), availableConnections);
      if |idle| == 0 {
        c := availableConnections[connectionIndex % |availableConnections|];
      } else {
        c := idle[connectionIndex % |idle|];
      }
      connectionIndex := connectionIndex + 1;
    }

    /** The first connected available connection without work. */
    method FindIdle() returns (found: bool, c: Conn)
      ensures found <==> ForMonitoring(View(), availableConnections) != []
      ensures found ==> c == ForMonitoring(View(), availableConnections)[0]
    {
      c := 0;
      for i := 0 to |availableConnections|
        invariant ForMonitoring(View(), availableConnections) == ForMonitoring(View(), availableConnections[i..])
      {
        assert availableConnections[i..][1..] == availableConnections[i + 1..];
        if availableConnections[i] in up && |ItemsOf(availableConnections[i])| == 0 {
          return true, availableConnections[i];
        }
      }
      assert availableConnections[|availableConnections|..] == [];
      found := false;
    }

    /** Puts the operation on the wire: a monitoring one takes its connection into use. */
    method Send(c: Conn, workItem: Item)
      modifies this
      ensures View() == Dispatch(old(View()).(queue := [workItem] + old(queue)), c, false)
    {
      hide Without, Finish;
      assert ([workItem] + queue)[1..] == queue;
      wire := wire + [workItem];
      if workItem.monitoring {
        TakeIntoUse(c);
      }
      if workItem.noResponse {
        Callback(workItem);
      } else {
        Track(c, workItem);
      }
    }

    /** `moveConnectionBetween` from available to in use. */
    method TakeIntoUse(c: Conn)
      modifies this`availableConnections, this`inUseConnections
      ensures View() == if c !in old(availableConnections) then old(View())
        else old(View()).(available := Without(old(availableConnections), c), inUse := old(inUseConnections) + [c])
    {
      hide Without;
      var rest, found := RemoveFirst(availableConnections, c);
      if found {
        availableConnections := rest;
        inUseConnections := inUseConnections + [c];
      }
    }

    method Track(c: Conn, workItem: Item)
      modifies this`workItems
      ensures View() == old(View()).(work := old(workItems)[c := old(ItemsOf(c)) + [workItem]])
    {
      workItems := workItems[c := ItemsOf(c) + [workItem]];
    }

    /** `_execute`. */
    method ExecuteQueue(broken: set<Conn>)
      modifies this
      ensures View() == Execute(old(View()), broken)
    {
      if phase == Destroyed || connectingConnections > 0 {
        return;
      }
      var goesOn := true;
      while goesOn
        invariant if goesOn then Loop(View(), broken) == Loop(old(View()), broken)
                  else View() == Loop(old(View()), broken)
        decreases goesOn, |queue|
      {
        goesOn := ExecuteTurn(broken);
      }
    }

    method WriteOperation(x: Item)
      modifies this
      ensures View() == Write(old(View()), x)
    {
      if phase == Destroyed || phase == Destroying {
        refused := refused + [x];
        return;
      }
      accepted := accepted + [x];
      if x.monitoring {
        queue := [x] + queue;
      } else {
        queue := queue + [x];
      }
    }

    /** Splices out the work items with the id; the one after each is stepped over. */
    static method TakeMatching(w: seq<Item>, id: int) returns (found: seq<Item>, items: seq<Item>)
      ensures found == Matches(w, id) && items == Unmatched(w, id)
    {
      var i := 0;
      found, items := [], w;
      ghost var past, rest := [], w;
      while i < |items|
        invariant items == past + rest && i >= |past| && (i == |past| || rest == [])
        invariant Unmatched(w, id) == past + Unmatched(rest, id)
        invariant Matches(w, id) == found + Matches(rest, id)
        decreases |items| - i
      {
        assert items[i] == rest[0];
        if items[i].requestId == id {
          found := found + [items[i]];
          items := items[..i] + items[i + 1..];
          past, rest := past + rest[1..][..if |rest| > 1 then 1 else 0], if |rest| > 1 then rest[2..] else [];
        } else {
          past, rest := past + [rest[0]], rest[1..];
        }
        i := i + 1;
      }
    }

    /** `messageHandler`: finds the work item the reply names, frees a monitoring connection, calls back. */
    method MessageHandler(c: Conn, responseTo: int)
      modifies this
      ensures View() == Reply(old(View()), c, responseTo)
    {
      hide Matches, Unmatched, Without;
      var found, items := TakeMatching(ItemsOf(c), responseTo);
      numberOfConsecutiveTimeouts := 0;
      if |found| == 0 {
        return;
      }
      workItems := workItems[c := items];
      var workItem := found[|found| - 1];
      silent := silent + found[..|found| - 1];
      if workItem.monitoring {
        MakeAvailable(c);
      }
      if workItem.immediateRelease {
        silent := silent + [workItem];
      } else {
        Callback(workItem);
      }
    }

    /** Calls back every given operation in turn. */
    method CallbackAll(xs: seq<Item>)
      modifies this`called, this`silent
      ensures View() == FinishAll(old(View()), xs)
    {
      for i := 0 to |xs|
        invariant FinishAll(View(), xs[i..]) == old(FinishAll(View(), xs))
      {
        assert xs[i..][1..] == xs[i + 1..];
        Callback(xs[i]);
      }
      assert xs[|xs|..] == [];
    }

    method DestroyByForce()
      modifies this
      ensures View() == ForceDestroy(old(View()))
    {
      if phase == Destroyed || phase == Destroying {
        return;
      }
      phase := Destroying;
      var waiting := queue;
      queue := [];
      CallbackAll(waiting);
      CloseConnections();
    }

    method CloseConnections()
      modifies this
      ensures View() == Cleared(old(View()))
    {
      hide InFlight, WithoutWork;
      var all := availableConnections + inUseConnections;
      var lost := InFlight(View(), all);
      silent := silent + lost;
      workItems := WithoutWork(workItems, all);
      availableConnections, inUseConnections, connectingConnections, phase := [], [], 0, Destroyed;
    }

    method ConnectionFailureHandler(c: Conn, timeout: bool)
      modifies this
      ensures View() == Fail(old(View()), c, timeout)
    {
      hide Removed, AfterFailure, FinishAll;
      if c in failHandled {
        return;
      }
      failHandled, up := failHandled + {c}, up - {c};
      RemoveConnection(c);
      var items := ItemsOf(c);
      workItems := workItems - {c};
      CallbackAll(items);
      Aftermath(timeout);
    }

    method Aftermath(timeout: bool)
      modifies this
      ensures View() == AfterFailure(old(View()), timeout)
    {
      hide ForceDestroy;
      if timeout {
        numberOfConsecutiveTimeouts := numberOfConsecutiveTimeouts + 1;
        if numberOfConsecutiveTimeouts > options.reconnectTries {
          numberOfConsecutiveTimeouts := 0;
          DestroyByForce();
          return;
        }
      }
      if |availableConnections| + |inUseConnections| == 0 {
        if phase != Destroyed && phase != Destroying {
          phase := Disconnected;
        }
      }
      if |availableConnections| + |inUseConnections| + connectingConnections < options.minSize {
        CreateOne();
      }
    }

    method CheckDrained(broken: set<Conn>)
      modifies this
      ensures View() == CheckStatus(old(View()), broken)
    {
      phase := Destroying;
      FlushMonitoringOperations();
      if |queue| == 0 {
        var connections := availableConnections + inUseConnections;
        for i := 0 to |connections|
          invariant forall c <- connections[..i] :: View().WorkOf(c) == []
        {
          assert connections[..i + 1] == connections[..i] + [connections[i]];
          if |ItemsOf(connections[i])| > 0 {
            assert connections[i] in connections;
            return;
          }
        }
        assert connections[..|connections|] == connections;
        CloseConnections();
      } else {
        ExecuteQueue(broken);
      }
    }

    /** A pooled or reconnecting connection is established. */
    method OnConnected(c: Conn, broken: set<Conn>)
      requires pending > 0
      modifies this
      ensures View() == Connect(old(View()), c, broken)
    {
      hide Execute, Answered;
      var gone := phase == Destroyed || phase == Destroying;
      Join(c);
      if gone {
        return;
      }
      ExecuteQueue(broken);
    }

    /** An attempt is answered with a connection, which a destroyed pool does not take. */
    method Join(c: Conn)
      requires pending > 0
      modifies this`connectingConnections, this`pending, this`availableConnections, this`up, this`conns
      ensures View() == Answered(old(View()), c)
    {
      connectingConnections, pending := connectingConnections - 1, pending - 1;
      if phase == Destroyed || phase == Destroying {
        return;
      }
      availableConnections, up, conns := availableConnections + [c], up + {c}, conns + [c];
    }

    method OnConnectionFailed()
      requires pending > 0
      modifies this`connectingConnections, this`pending
      ensures View() == ConnectFails(old(View()))
    {
      connectingConnections, pending := connectingConnections - 1, pending - 1;
    }

    /** `connect`. */
    method OpenPool()
      modifies this
      ensures View() == Open(old(View()))
    {
      if phase != Disconnected {
        return;
      }
      phase := Connecting;
      connectingConnections, pending := connectingConnections + 1, pending + 1;
    }

    /** The first connection is established; outside a topology the rest of the minimal size follows. */
    method OnFirstConnected(c: Conn)
      requires pending > 0
      modifies this
      ensures View() == Opened(old(View()), c)
    {
      hide CreateMany, Answered;
      ghost var p := View();
      var gone := phase == Destroyed || phase == Destroying;
      Join(c);
      if gone {
        return;
      }
      phase := Connected;
      assert View() == Answered(p, c).(phase := Connected);
      CreateSeveral(if options.inTopology then 0 else options.minSize);
    }

    method CreateSeveral(n: nat)
      modifies this
      ensures View() == CreateMany(old(View()), n)
    {
      hide CreateConnection;
      for i := 0 to n
        invariant View() == CreateMany(old(View()), i)
      {
        CreateOne();
      }
    }

    /** The reconnect timer: one attempt more while no connection is up. */
    method AttemptReconnect()
      modifies this
      ensures View() == Reconnect(old(View()))
    {
      if phase == Destroyed || phase == Destroying {
        return;
      }
      var all := availableConnections + inUseConnections;
      for i := 0 to |all|
        invariant forall c <- all[..i] :: c !in up
      {
        assert all[..i + 1] == all[..i] + [all[i]];
        if all[i] in up {
          assert all[i] in all;
          return;
        }
      }
      assert all[..|all|] == all;
      connectingConnections, pending := connectingConnections + 1, pending + 1;
    }
  }
}
