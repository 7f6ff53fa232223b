/** A cursor is a bounded list: whatever is asked of it, it delivers a prefix of the server's documents. */
module CursorProofs {
  import opened Bytes
  import opened Cursors

  /** The documents of the batches still to come. */
  function Rest(server: seq<Answer>): seq<Document> {
    if server == [] then []
    else (if server[0].Batch? then server[0].documents else []) + Rest(server[1..])
  }

  /** The list the user is promised: all documents, or the first `limit` of them. */
  function Bounded(limit: int, all: seq<Document>): seq<Document> {
    if 0 < limit < |all| then all[..limit] else all
  }

  /** A finite list of answers: only the last batch closes the cursor, and no document is an error. */
  predicate Script(server: seq<Answer>) {
    && server != []
    && if !server[0].Batch? then Script(server[1..])
       else
         && (forall d <- server[0].documents :: !d.isError)
         && (if server[0].id == 0 then server[1..] == [] else Script(server[1..]))
  }

  /** The requests that fail, sent or not. */
  function Failures(server: seq<Answer>): nat {
    if server == [] then 0 else (if server[0].Batch? then 0 else 1) + Failures(server[1..])
  }

  /** The initial query, once it can be sent, is answered by a batch. */
  predicate Opens(server: seq<Answer>) {
    server != [] && (server[0].Batch? || (server[0].Unavailable? && Opens(server[1..])))
  }

  predicate Over(c: State) {
    c.dead || c.killed || c.notified
  }

  /** Nothing asked yet. */
  predicate Unopened(c: State) {
    Clear(c) && Script(c.server)
  }

  /** Without a cursor id nothing is buffered or counted. */
  predicate Clear(c: State) {
    c.cursorId.None? && c.documents == [] && c.cursorIndex == 0 && c.currentLimit == 0
  }

  /** The initial query failed after it was sent, and nobody has said so to the cursor since. */
  predicate Broken(c: State) {
    c.init && c.cursorId.None? && !Over(c)
  }

  /** The initial query has succeeded or still may. */
  predicate Healthy(c: State) {
    if c.init then c.cursorId.Some? || Over(c) else Over(c) || Opens(c.server)
  }

  /** The query has been answered; more answers come exactly while the server keeps a cursor. */
  predicate Open(c: State) {
    && c.cursorId.Some? && c.cursorIndex <= |c.documents|
    && (forall d <- c.documents :: !d.isError)
    && (if c.cursorId == Some(0) then c.server == [] else Script(c.server))
  }

  /**
   * `delivered` has been handed out of `all`. While the cursor lives, what is delivered, buffered and
   * still to come is everything; once it is over, what was delivered lies within the bounded list.
   */
  predicate Track(c: State, delivered: seq<Document>, all: seq<Document>) {
    if Over(c) then delivered <= Bounded(c.limit, all) && c.documents == []
    else if Broken(c) then delivered == [] && Clear(c) else
    && (if c.init then Open(c) else Unopened(c) && delivered == [])
    && delivered + (c.documents[c.cursorIndex..] + Rest(c.server)) == all
    && |delivered| == c.currentLimit
    && (c.limit > 0 ==> c.currentLimit <= c.limit)
  }

  lemma WithinBound(limit: int, delivered: seq<Document>, more: seq<Document>, all: seq<Document>)
    requires delivered + more == all && (limit > 0 ==> |delivered| <= limit)
    ensures delivered <= Bounded(limit, all)
    ensures more == [] || (limit > 0 && |delivered| == limit) ==> delivered == Bounded(limit, all)
  {
    assert all[..|delivered|] == delivered;
  }

  /** How one call of next moves along the list. */
  predicate Moves(c: State, r: Result, c': State, delivered: seq<Document>, all: seq<Document>) {
    && Track(c', if r.Delivered? then delivered + [r.document] else delivered, all)
    && c'.limit == c.limit
    && (r == Exhausted <==> c.notified)
    && (r == Null || r == Exhausted <==> c'.notified)
    && (r.Delivered? || r == CallFailed || r == Thrown ==> !Over(c) && !Over(c'))
    && (r.Delivered? || r == Null || r == Exhausted || r == CallFailed || r == Thrown)
    && (r == Null && !Over(c) ==> delivered == Bounded(c.limit, all))
    && (r == Thrown <==> Broken(c))
    && (Healthy(c) ==> Healthy(c'))
    && Failures(c.server) == Failures(c'.server) + if r == CallFailed then 1 else 0
  }

  lemma LocalMoves(c: State, delivered: seq<Document>, all: seq<Document>)
    requires Track(c, delivered, all) && !Over(c) && !Broken(c) && c.init && (AtLimit(c) || !NeedsMore(c))
    ensures Moves(c, Local(c).1, Local(c).0, delivered, all)
  {
    hide Rest, Bounded, Script;
    var more := c.documents[c.cursorIndex..] + Rest(c.server);
    WithinBound(c.limit, delivered, more, all);
    if !AtLimit(c) && c.cursorIndex < |c.documents| {
      var d := c.documents[c.cursorIndex];
      assert d in c.documents;
      assert c.documents[c.cursorIndex..] == [d] + c.documents[c.cursorIndex + 1..];
      assert delivered + more == delivered + [d] + (c.documents[c.cursorIndex + 1..] + Rest(c.server));
    } else if !AtLimit(c) {
      NothingLeft(c);
    }
  }

  lemma NothingLeft(c: State)
    requires c.init && Open(c) && c.cursorIndex == |c.documents| && !NeedsMore(c)
    ensures c.documents[c.cursorIndex..] + Rest(c.server) == []
  {
  }

  lemma ReceivedTracks(c: State, delivered: seq<Document>, all: seq<Document>)
    requires !Over(c) && c.init && c.cursorIndex == 0 && Script(c.server) && c.server[0].Batch?
    requires delivered + Rest(c.server) == all && |delivered| == c.currentLimit
    requires c.limit > 0 ==> c.currentLimit <= c.limit
    ensures Track(Received(c), delivered, all)
  {
    var c1 := Received(c);
    assert c1.documents[0..] == c1.documents;
    if c1.cursorId == Some(0) {
      assert Rest(c1.server) == [];
    }
  }

  /** A getMore delivers nothing by itself; it fails or stores the next batch. */
  lemma FetchedMoves(c: State, delivered: seq<Document>, all: seq<Document>)
    requires Track(c, delivered, all) && !Over(c) && !Broken(c) && c.init && !AtLimit(c) && NeedsMore(c)
    ensures var (c1, failure) := Fetched(c);
      && Track(c1, delivered, all) && !Over(c1) && !Broken(c1) && c1.init && Healthy(c1)
      && c1.limit == c.limit && c1.batchSize == c.batchSize && c1.currentLimit == c.currentLimit
      && (failure.None? || failure == Some(CallFailed))
      && Failures(c.server) == Failures(c1.server) + (if failure.Some? then 1 else 0)
      && (c1.asked == c.asked || c1.asked == c.asked + [GetMoreSize(c)])
  {
    var c1 := Asking(c);
    assert c.documents[c.cursorIndex..] == [];
    assert [] + Rest(c.server) == Rest(c.server);
    if c.server[0].Batch? {
      assert Failures(c.server) == Failures(c.server[1..]);
      ReceivedTracks(c1, delivered, all);
    } else {
      assert [] + Rest(c.server[1..]) == Rest(c.server);
    }
  }

  /** Every call of next keeps to the list, whatever the server's batches and failures. */
  lemma {:induction false} NextMoves(c: State, delivered: seq<Document>, all: seq<Document>)
    requires Track(c, delivered, all)
    ensures Moves(c, NextOf(c).1, NextOf(c).0, delivered, all)
    decreases |c.server|, 1
  {
    hide Fetched, Local, Rest, Script, Failures, Bounded, Opens;
    if Over(c) || Broken(c) {
    } else if !c.init {
      InitializeMoves(c, delivered, all);
    } else if AtLimit(c) || !NeedsMore(c) {
      LocalMoves(c, delivered, all);
    } else {
      FetchedMoves(c, delivered, all);
      var (c1, failure) := Fetched(c);
      if failure.None? {
        NextMoves(c1, delivered, all);
      }
    }
  }

  lemma {:induction false} InitializeMoves(c: State, delivered: seq<Document>, all: seq<Document>)
    requires Track(c, delivered, all) && !Over(c) && !c.init
    ensures Moves(c, Initialize(c).1, Initialize(c).0, delivered, all)
    decreases |c.server|, 0
  {
    var c0 := c.(init := true);
    assert c.documents[c.cursorIndex..] == [] && [] + Rest(c.server) == Rest(c.server);
    if !c.server[0].Batch? {
      assert [] + Rest(c.server[1..]) == Rest(c.server);
      return;
    }
    ReceivedTracks(c0, delivered, all);
    var c1 := Received(c0);
    if c1.documents == [] && c1.cursorId == Some(0) {
      WithinBound(c.limit, delivered, [], all);
    } else {
      NextMoves(c1, delivered, all);
    }
  }

  /** Reading the buffer hands out the next documents in order and stays within the bound. */
  lemma ReadMoves(c: State, number: nat, delivered: seq<Document>, all: seq<Document>)
    requires Track(c, delivered, all)
    ensures var (c', elements) := ReadBuffered(c, number);
      Track(c', delivered + elements, all) && c'.limit == c.limit && (Over(c) ==> elements == [])
      && c'.notified == c.notified
  {
    hide Rest, Script, Bounded;
    var (c', elements) := ReadBuffered(c, number);
    if Over(c) || Broken(c) {
      assert delivered + [] == delivered;
    } else {
      var k := c.cursorIndex + |elements|;
      assert c.documents[c.cursorIndex..] == elements + c.documents[k..];
      var later := c.documents[k..] + Rest(c.server);
      assert delivered + elements + later == all;
      WithinBound(c.limit, delivered + elements, later, all);
    }
  }

  lemma KillMoves(c: State, delivered: seq<Document>, all: seq<Document>)
    requires Track(c, delivered, all)
    ensures Track(Kill(c), delivered, all) && Kill(c).limit == c.limit
  {
    if !Over(c) && !Broken(c) {
      WithinBound(c.limit, delivered, c.documents[c.cursorIndex..] + Rest(c.server), all);
    }
  }

  // ---------- any mix of calls ----------

  datatype Call = CallNext | CallRead(number: nat) | CallKill

  /** The cursor after one call, and what the call handed out. */
  function Perform(c: State, call: Call): (State, seq<Document>) {
    match call
    case CallNext =>
      var (c', r) := NextOf(c);
      (c', if r.Delivered? then [r.document] else [])
    case CallRead(number) => ReadBuffered(c, number)
    case CallKill => (Kill(c), [])
  }

  /** The cursor after the calls, and everything handed out. */
  function Calls(c: State, calls: seq<Call>): (State, seq<Document>) {
    if calls == [] then (c, []) else
    var (c1, delivered) := Calls(c, calls[..|calls| - 1]);
    var (c2, more) := Perform(c1, calls[|calls| - 1]);
    (c2, delivered + more)
  }

  lemma FreshTracks(limit: int, batchSize: int, server: seq<Answer>)
    requires Script(server)
    ensures Track(Fresh(limit, batchSize, server), [], Rest(server))
  {
    assert [] + ([] + Rest(server)) == Rest(server);
  }

  /** Whatever is called in whatever order, the documents handed out are a prefix of the bounded list. */
  lemma {:induction false} CallsDeliverPrefix(limit: int, batchSize: int, server: seq<Answer>, calls: seq<Call>)
    requires Script(server)
    ensures var (c, delivered) := Calls(Fresh(limit, batchSize, server), calls);
      && Track(c, delivered, Rest(server)) && c.limit == limit
      && delivered <= Bounded(limit, Rest(server))
      && (limit > 0 ==> |delivered| <= limit)
    decreases |calls|
  {
    hide NextOf, ReadBuffered, Script, Rest;
    var start, all := Fresh(limit, batchSize, server), Rest(server);
    if calls == [] {
      FreshTracks(limit, batchSize, server);
    } else {
      var (c, delivered) := Calls(start, calls[..|calls| - 1]);
      CallsDeliverPrefix(limit, batchSize, server, calls[..|calls| - 1]);
      match calls[|calls| - 1]
      case CallNext =>
        NextMoves(c, delivered, all);
        assert delivered + [] == delivered;
      case CallRead(number) => ReadMoves(c, number, delivered, all);
      case CallKill =>
        KillMoves(c, delivered, all);
        assert delivered + [] == delivered;
    }
    var (c', delivered') := Calls(start, calls);
    TrackedPrefix(c', delivered', all);
  }

  lemma TrackedPrefix(c: State, delivered: seq<Document>, all: seq<Document>)
    requires Track(c, delivered, all)
    ensures delivered <= Bounded(c.limit, all)
  {
    if !Over(c) && !Broken(c) {
      WithinBound(c.limit, delivered, c.documents[c.cursorIndex..] + Rest(c.server), all);
    }
  }

  /** Once next has said null, it answers "exhausted" and nothing is handed out, whatever is called. */
  lemma {:induction false} NothingAfterNull(c: State, delivered: seq<Document>, all: seq<Document>, calls: seq<Call>)
    requires Track(c, delivered, all) && c.notified
    ensures var (c', more) := Calls(c, calls);
      more == [] && c'.notified && Track(c', delivered, all) && NextOf(c').1 == Exhausted
    decreases |calls|
  {
    if calls == [] {
    } else {
      NothingAfterNull(c, delivered, all, calls[..|calls| - 1]);
      var (c1, more) := Calls(c, calls[..|calls| - 1]);
      if calls[|calls| - 1].CallRead? {
        ReadMoves(c1, calls[|calls| - 1].number, delivered, all);
      }
      assert delivered + [] == delivered;
    }
  }

  // ---------- draining with next ----------

  /** What the i-th answered call of next is to return. */
  function Expected(list: seq<Document>, i: nat): Result {
    if i < |list| then Delivered(list[i]) else if i == |list| then Null else Exhausted
  }

  /** The cursor after n calls of next, and the results of those that did not fail. */
  function Drain(c: State, n: nat): (State, seq<Result>) {
    if n == 0 then (c, []) else
    var (c1, results) := Drain(c, n - 1);
    var (c2, r) := NextOf(c1);
    (c2, if r == CallFailed then results else results + [r])
  }

  /**
   * Unless the initial query itself fails, draining gives exactly the bounded list in order, then null once, then only
   * "exhausted"; each call gives one of these or uses up one failure, which neither loses nor repeats a document.
   */
  lemma {:induction false} DrainIsTheList(limit: int, batchSize: int, server: seq<Answer>, n: nat)
    requires Script(server) && Opens(server)
    ensures var (c, results) := Drain(Fresh(limit, batchSize, server), n);
      var list := Bounded(limit, Rest(server));
      && c.limit == limit
      && Track(c, list[..if |results| < |list| then |results| else |list|], Rest(server))
      && (c.notified <==> |results| > |list|) && (Over(c) ==> c.notified) && Healthy(c)
      && |results| + Failures(server) == n + Failures(c.server)
      && forall i | 0 <= i < |results| :: results[i] == Expected(list, i)
    decreases n
  {
    hide NextOf, Script, Rest, Bounded, Track, Failures, Opens;
    var list, all := Bounded(limit, Rest(server)), Rest(server);
    if n == 0 {
      FreshTracks(limit, batchSize, server);
      assert list[..0] == [];
    } else {
      DrainIsTheList(limit, batchSize, server, n - 1);
      var (c, results) := Drain(Fresh(limit, batchSize, server), n - 1);
      var delivered := list[..if |results| < |list| then |results| else |list|];
      NextMoves(c, delivered, all);
      var (c', r) := NextOf(c);
      if r.Delivered? {
        TrackedPrefix(c', delivered + [r.document], all);
        assert (delivered + [r.document])[|delivered|] == list[|delivered|];
        assert list[..|delivered| + 1] == delivered + [r.document];
      } else if r == Null {
        assert |results| == |list|;
      }
    }
  }

  // ---------- batch sizes, rewinding, a failed query ----------

  /** With a limit, every getMore asks for at least one document and for no more than are still wanted. */
  lemma {:induction false} AskedWithin(c: State, delivered: seq<Document>, all: seq<Document>)
    requires Track(c, delivered, all) && c.limit > 0 && c.batchSize >= 1
    ensures var c' := NextOf(c).0;
      && c.asked <= c'.asked
      && forall i | |c.asked| <= i < |c'.asked| :: 1 <= c'.asked[i] <= c.limit - c.currentLimit
    decreases |c.server|, if c.init then 0 else 1
  {
    hide Fetched, Rest, Script, Bounded;
    if Over(c) || Broken(c) || AtLimit(c) {
    } else if !c.init {
      AskedFirst(c, delivered, all);
      if c.server[0].Batch? {
        AskedWithin(Received(c.(init := true)), delivered, all);
      }
    } else if NeedsMore(c) {
      FetchedMoves(c, delivered, all);
      var (c1, failure) := Fetched(c);
      if failure.None? {
        AskedWithin(c1, delivered, all);
      }
    }
  }

  lemma AskedFirst(c: State, delivered: seq<Document>, all: seq<Document>)
    requires Track(c, delivered, all) && !Over(c) && !c.init
    ensures c.server != []
    ensures c.server[0].Batch? ==>
      Track(Received(c.(init := true)), delivered, all) && !Over(Received(c.(init := true)))
  {
    assert c.documents[c.cursorIndex..] == [] && [] + Rest(c.server) == Rest(c.server);
    if c.server[0].Batch? {
      ReceivedTracks(c.(init := true), delivered, all);
    }
  }

  /** A rewound cursor is a new one; the server's cursor is killed exactly if it was still alive. */
  lemma RewoundIsFresh(c: State, server: seq<Answer>)
    requires c.init
    ensures Rewound(c, server) == Fresh(c.limit, c.batchSize, server).(asked := c.asked,
      kills := c.kills + if !c.dead && c.cursorId.Some? && c.cursorId != Some(0) then 1 else 0)
  {
  }

  /** What a user does with a cursor; a rewound one meets new answers. */
  datatype Use = Use(call: Call) | Rewinding(server: seq<Answer>)

  function After(c: State, uses: seq<Use>): State {
    if uses == [] then c else
    var c1, use := After(c, uses[..|uses| - 1]), uses[|uses| - 1];
    if use.Use? then Perform(c1, use.call).0 else Rewound(c1, use.server)
  }

  /** By its history alone: the initial query was sent and failed, with neither a kill nor a rewind since. */
  predicate QueryFailed(c: State, uses: seq<Use>) {
    if uses == [] then false else
    var before, use := uses[..|uses| - 1], uses[|uses| - 1];
    var c1 := After(c, before);
    match use
    case Rewinding(_) => false
    case Use(CallKill) => false
    case Use(CallRead(_)) => QueryFailed(c, before)
    case Use(CallNext) =>
      QueryFailed(c, before) || (!c1.init && !Over(c1) && c1.server != [] && c1.server[0].Failure?)
  }

  /** What next keeps to, whatever the server answers. */
  predicate Sound(c: State) {
    c.cursorId.None? || !c.init ==> Clear(c)
  }

  /** A call of next throws exactly in a broken state, and only a failing initial query leads into one. */
  lemma {:induction false} NextSound(c: State)
    requires Sound(c)
    ensures var (c', r) := NextOf(c);
      && Sound(c') && (r == Thrown <==> Broken(c)) && (r == Thrown ==> c' == c)
      && (Broken(c') <==> Broken(c) || (!c.init && !Over(c) && c.server != [] && c.server[0].Failure?))
    decreases |c.server|, if c.init then 0 else 1
  {
    if !Over(c) && c.server != [] && c.server[0].Batch? {
      if !c.init {
        NextSound(Received(c.(init := true)));
      } else if !AtLimit(c) && !Idless(c) && NeedsMore(c) {
        NextSound(Received(Asking(c)));
      }
    }
  }

  /**
   * A call of next raises a TypeError exactly while the initial query has failed and the cursor has been neither killed
   * nor rewound since, whatever the answers and the calls.
   */
  lemma {:induction false} ThrownExact(limit: int, batchSize: int, server: seq<Answer>, uses: seq<Use>)
    ensures var start := Fresh(limit, batchSize, server);
      var c := After(start, uses);
      && Sound(c) && (Broken(c) <==> QueryFailed(start, uses))
      && (NextOf(c).1 == Thrown <==> QueryFailed(start, uses))
    decreases |uses|
  {
    hide NextOf;
    var start := Fresh(limit, batchSize, server);
    if uses == [] {
    } else {
      var before, use := uses[..|uses| - 1], uses[|uses| - 1];
      ThrownExact(limit, batchSize, server, before);
      if use == Use(CallNext) {
        NextSound(After(start, before));
      }
    }
    NextSound(After(start, uses));
  }
}
