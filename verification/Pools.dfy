/** The connection pool as atomic steps: write, execute, reply, failure, connect and destroy (pool.js). */
module Pools {
  import opened Lists

  type Conn = nat

  /** One operation. `op` is its identity, `requestId` what a reply names. */
  datatype Item = Item(
    op: nat, requestId: int, monitoring: bool, noResponse: bool, immediateRelease: bool, hasCallback: bool)

  datatype Phase = Disconnected | Connecting | Connected | Destroying | Destroyed

  /** `inTopology` says that a topology connects the pool and authenticates it. */
  datatype Options = Options(size: nat, minSize: nat, reconnectTries: nat, inTopology: bool)

  datatype Pool = Pool(
    phase: Phase, queue: seq<Item>,
    available: seq<Conn>, inUse: seq<Conn>, connecting: int,
    work: map<Conn, seq<Item>>,  // workItems of every connection that has any
    conns: seq<Conn>,            // every connection ever added, in order
    up: set<Conn>,               // the connections whose sockets are connected
    failed: set<Conn>,           // the connections whose failure has been handled
    index: nat, timeouts: nat,
    pending: nat,                // connection attempts not yet answered
    options: Options,
    accepted: seq<Item>,         // every operation write has taken, in order
    refused: seq<Item>,          // the operations write has refused with an error
    wire: seq<Item>,             // what was put on a socket, in order
    called: seq<Item>,           // the operations whose callback was called
    silent: seq<Item>)           // the operations that ended without a callback
  {
    function WorkOf(c: Conn): seq<Item> {
      if c in work then work[c] else []
    }

    function Total(): int {
      |available| + |inUse| + connecting
    }

    predicate IsDestroyed() {
      phase == Destroyed || phase == Destroying
    }
  }

  function Fresh(options: Options): Pool {
    Pool(Disconnected, [], [], [], 0, map[], [], {}, {}, 0, 0, 0, options, [], [], [], [], [])
  }

  /** removeConnection: the first list that holds it loses it. */
  function Removed(p: Pool, c: Conn): Pool {
    if c in p.available then p.(available := Without(p.available, c))
    else p.(inUse := Without(p.inUse, c))
  }

  /** A callback is called, if there is one. */
  function Finish(p: Pool, x: Item): Pool {
    if x.hasCallback then p.(called := p.called + [x]) else p.(silent := p.silent + [x])
  }

  function FinishAll(p: Pool, xs: seq<Item>): Pool
    decreases |xs|
  {
    if xs == [] then p else FinishAll(Finish(p, xs[0]), xs[1..])
  }

  // ---------- flushing the monitoring operations ----------

  /** The loop steps over the operation that moves into the place of one it took out. */
  function FlushedOf(q: seq<Item>): seq<Item>
    decreases |q|
  {
    if q == [] then []
    else if q[0].monitoring then [q[0]] + FlushedOf(if |q| > 1 then q[2..] else [])
    else FlushedOf(q[1..])
  }

  function KeptOf(q: seq<Item>): seq<Item>
    decreases |q|
  {
    if q == [] then []
    else if q[0].monitoring then (if |q| > 1 then [q[1]] + KeptOf(q[2..]) else [])
    else [q[0]] + KeptOf(q[1..])
  }

  function FlushMonitoring(p: Pool): Pool {
    FinishAll(p.(queue := KeptOf(p.queue)), FlushedOf(p.queue))
  }

  // ---------- one turn of the execution loop ----------

  function CreateConnection(p: Pool): Pool {
    if p.IsDestroyed() then p else p.(connecting := p.connecting + 1, pending := p.pending + 1)
  }

  function Idle(p: Pool, cs: seq<Conn>): (r: seq<Conn>)
    ensures forall c <- r :: c in cs && p.WorkOf(c) == []
  {
    if cs == [] then []
    else (if p.WorkOf(cs[0]) == [] then [cs[0]] else []) + Idle(p, cs[1..])
  }

  /** The round-robin choice: an idle connection if there is one. */
  function Picked(p: Pool): (c: Conn)
    requires p.available != []
    ensures c in p.available
  {
    var idle := Idle(p, p.available);
    if idle == [] then p.available[p.index % |p.available|] else idle[p.index % |idle|]
  }

  /** The first connected connection without work. */
  function ForMonitoring(p: Pool, cs: seq<Conn>): (r: seq<Conn>)
    ensures |r| <= 1 && forall c <- r :: c in cs && c in p.up && p.WorkOf(c) == []
  {
    if cs == [] then []
    else if cs[0] in p.up && p.WorkOf(cs[0]) == [] then [cs[0]]
    else ForMonitoring(p, cs[1..])
  }

  /** The operation at the front goes out on c; `breaks` says that the write fails. */
  function Dispatch(p: Pool, c: Conn, breaks: bool): Pool
    requires p.queue != []
  {
    var x := p.queue[0];
    var p1 := p.(queue := p.queue[1..], wire := p.wire + [x]);
    var p2 := if x.monitoring && c in p.available
              then p1.(available := Without(p.available, c), inUse := p.inUse + [c]) else p1;
    var p3 := if x.noResponse then Finish(p2, x) else p2.(work := p2.work[c := p2.WorkOf(c) + [x]]);
    if breaks then FlushMonitoring(Removed(p3.(queue := [x] + p3.queue), c)) else p3
  }

  /** One turn and whether the loop goes on; `broken` are the connections whose writes fail. */
  function Turn(p: Pool, broken: set<Conn>): (r: (Pool, bool))
    ensures r.1 ==> |r.0.queue| < |p.queue|
  {
    if p.available == [] then (FlushMonitoring(p), false)
    else if p.queue == [] then (p, false)
    else
      var total := p.Total();
      var first := Picked(p);
      var p1 := p.(index := p.index + 1);
      if first !in p.up then (FlushMonitoring(Removed(p1, first)), false)
      else
        var found := ForMonitoring(p1, p1.available);
        if p.queue[0].monitoring && found == [] then
          (if total < p.options.size then CreateConnection(p1) else p1, false)
        else
          var c := if p.queue[0].monitoring then found[0] else first;
          if total < p.options.size && p1.WorkOf(c) != [] then (CreateConnection(p1), false)
          else (Dispatch(p1, c, c in broken), c !in broken)
  }

  /** The loop: every turn that does not end it sends one operation, so the queue bounds it. */
  function Loop(p: Pool, broken: set<Conn>): Pool
    decreases |p.queue|
  {
    var (p1, goesOn) := Turn(p, broken);
    if goesOn then Loop(p1, broken) else p1
  }

  function Execute(p: Pool, broken: set<Conn>): Pool {
    if p.phase == Destroyed || p.connecting > 0 then p else Loop(p, broken)
  }

  // ---------- the other steps ----------

  function Write(p: Pool, x: Item): Pool {
    if p.IsDestroyed() then p.(refused := p.refused + [x])
    else
      p.(queue := if x.monitoring then [x] + p.queue else p.queue + [x], accepted := p.accepted + [x])
  }

  /** Work items named by a reply; the search steps over the one after each it takes out. */
  function Matches(w: seq<Item>, id: int): seq<Item>
    decreases |w|
  {
    if w == [] then []
    else if w[0].requestId == id then [w[0]] + Matches(if |w| > 1 then w[2..] else [], id)
    else Matches(w[1..], id)
  }

  function Unmatched(w: seq<Item>, id: int): seq<Item>
    decreases |w|
  {
    if w == [] then []
    else if w[0].requestId == id then (if |w| > 1 then [w[1]] + Unmatched(w[2..], id) else [])
    else [w[0]] + Unmatched(w[1..], id)
  }

  /** Only the last match is answered; a match marked immediateRelease is not answered at all. */
  function Reply(p: Pool, c: Conn, id: int): Pool {
    var found := Matches(p.WorkOf(c), id);
    if found == [] then p.(timeouts := 0) else
    var x := found[|found| - 1];
    var p1 := p.(work := p.work[c := Unmatched(p.WorkOf(c), id)], timeouts := 0,
                 silent := p.silent + found[..|found| - 1]);
    var p2 := if x.monitoring && c in p1.inUse
              then p1.(inUse := Without(p1.inUse, c), available := p1.available + [c]) else p1;
    if x.immediateRelease then p2.(silent := p2.silent + [x]) else Finish(p2, x)
  }

  function ForceDestroy(p: Pool): Pool {
    if p.IsDestroyed() then p else
    var p1 := FinishAll(p.(queue := [], phase := Destroying), p.queue);
    Cleared(p1)
  }

  /** Every connection of the pool is closed; what was in flight on them is never answered. */
  function Cleared(p: Pool): Pool {
    var all := p.available + p.inUse;
    p.(available := [], inUse := [], connecting := 0, phase := Destroyed,
       silent := p.silent + InFlight(p, all),
       work := WithoutWork(p.work, all))
  }

  function WithoutWork(work: map<Conn, seq<Item>>, gone: seq<Conn>): map<Conn, seq<Item>> {
    map c | c in work && c !in gone :: work[c]
  }

  function InFlight(p: Pool, cs: seq<Conn>): seq<Item> {
    if cs == [] then [] else p.WorkOf(cs[0]) + InFlight(p, cs[1..])
  }

  /** A close, error, parse error or timeout of a connection. */
  function Fail(p: Pool, c: Conn, timeout: bool): Pool {
    if c in p.failed then p else
    var p1 := Removed(p.(failed := p.failed + {c}, up := p.up - {c}), c);
    AfterFailure(FinishAll(p1.(work := p1.work - {c}), p1.WorkOf(c)), timeout)
  }

  /** Too many timeouts in a row destroy the pool; otherwise its minimal size is restored. */
  function AfterFailure(p: Pool, timeout: bool): Pool {
    if timeout && p.timeouts + 1 > p.options.reconnectTries then ForceDestroy(p.(timeouts := 0)) else
    var p1 := if timeout then p.(timeouts := p.timeouts + 1) else p;
    var p2 := if |p1.available| + |p1.inUse| == 0 && !p1.IsDestroyed() then p1.(phase := Disconnected) else p1;
    if p2.Total() < p2.options.minSize then CreateConnection(p2) else p2
  }

  /** A connection attempt is answered; a new connection c joins unless the pool is gone. */
  function Answered(p: Pool, c: Conn): Pool
    requires p.pending > 0
  {
    var p1 := p.(connecting := p.connecting - 1, pending := p.pending - 1);
    if p1.IsDestroyed() then p1
    else p1.(available := p1.available + [c], up := p1.up + {c}, conns := p1.conns + [c])
  }

  /** A pooled or reconnecting attempt succeeds: waiting work is taken up. */
  function Connect(p: Pool, c: Conn, broken: set<Conn>): Pool
    requires p.pending > 0
  {
    if p.IsDestroyed() then Answered(p, c) else Execute(Answered(p, c), broken)
  }

  function ConnectFails(p: Pool): Pool
    requires p.pending > 0
  {
    p.(connecting := p.connecting - 1, pending := p.pending - 1)
  }

  function CreateMany(p: Pool, n: nat): Pool {
    if n == 0 then p else CreateConnection(CreateMany(p, n - 1))
  }

  /** `connect`, which may be called once. */
  function Open(p: Pool): Pool {
    if p.phase != Disconnected then p
    else p.(phase := Connecting, connecting := p.connecting + 1, pending := p.pending + 1)
  }

  /** The first connection of the pool: outside a topology the minimal number of others follows. */
  function Opened(p: Pool, c: Conn): Pool
    requires p.pending > 0
  {
    if p.IsDestroyed() then Answered(p, c)
    else CreateMany(Answered(p, c).(phase := Connected), if p.options.inTopology then 0 else p.options.minSize)
  }

  /** The reconnect timer: another attempt if nothing is connected. */
  function Reconnect(p: Pool): Pool {
    if p.IsDestroyed() || (exists c <- p.available + p.inUse :: c in p.up) then p
    else p.(connecting := p.connecting + 1, pending := p.pending + 1)
  }

  predicate Drained(p: Pool) {
    p.queue == [] && forall c <- p.available + p.inUse :: p.WorkOf(c) == []
  }

  /** One look of a graceful destroy at whether everything has drained. */
  function CheckStatus(p: Pool, broken: set<Conn>): Pool {
    var p1 := FlushMonitoring(p.(phase := Destroying));
    if Drained(p1) then Cleared(p1)
    else if p1.queue == [] then p1
    else Execute(p1, broken)
  }

  datatype Event =
    | OnWrite(x: Item)
    | OnExecute
    | OnReply(c: Conn, id: int)
    | OnFail(c: Conn, timeout: bool)
    | OnDown(c: Conn)
    | OnConnect(c: Conn)
    | OnConnectFails
    | OnOpen
    | OnOpened(c: Conn)
    | OnReconnect
    | OnForceDestroy
    | OnCheckStatus

  /** One step with every socket write succeeding. */
  function Step(p: Pool, e: Event): Pool {
    match e
    case OnWrite(x) => Write(p, x)
    case OnExecute => Execute(p, {})
    case OnReply(c, id) => Reply(p, c, id)
    case OnFail(c, timeout) => Fail(p, c, timeout)
    case OnDown(c) => p.(up := p.up - {c})
    case OnConnect(c) => if p.pending > 0 then Connect(p, c, {}) else p
    case OnConnectFails => if p.pending > 0 then ConnectFails(p) else p
    case OnOpen => Open(p)
    case OnOpened(c) => if p.pending > 0 && p.phase == Connecting then Opened(p, c) else p
    case OnReconnect => Reconnect(p)
    case OnForceDestroy => ForceDestroy(p)
    case OnCheckStatus => if p.phase == Destroyed then p else CheckStatus(p, {})
  }
}
