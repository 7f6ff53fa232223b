/** A cursor over the batches a server returns: `nextFunction`, limits, kill and rewind (cursor.js). */
module Cursors {
  import opened Bytes

  /** A result document; one with `$err` makes next fail. */
  datatype Document = Document(body: int, isError: bool)

  /**
   * How the initial query or a getMore goes: a batch with the cursor id it leaves, an error once it was sent, or
   * nothing is sent because no server can be selected or the topology is destroyed.
   */
  datatype Answer = Batch(documents: seq<Document>, id: int) | Failure | Unavailable

  datatype State = State(
    cursorId: Option<int>, documents: seq<Document>, cursorIndex: nat,
    dead: bool, killed: bool, init: bool, notified: bool,
    limit: int, batchSize: int, currentLimit: int,
    server: seq<Answer>,  // the answers still to come
    asked: seq<int>,      // the batch sizes of the getMores sent
    kills: nat)           // the killCursors sent

  datatype Result =
    | Delivered(document: Document)
    | Null
    | Exhausted
    | ServerError
    | CallFailed
    | Waiting
    | Thrown  // the TypeError of comparing a cursor id that is still null

  function Fresh(limit: int, batchSize: int, server: seq<Answer>): State {
    State(None, [], 0, false, false, false, false, limit, batchSize, 0, server, [], 0)
  }

  function Kill(c: State): State {
    c.(dead := true, killed := true, documents := [],
       kills := c.kills + if c.cursorId.None? || c.cursorId == Some(0) || !c.init then 0 else 1)
  }

  function Notified(c: State): State {
    c.(notified := true, documents := [], cursorIndex := 0)
  }

  function DeadAndNotified(c: State): State {
    Notified(c.(dead := true))
  }

  predicate AtLimit(c: State) {
    c.limit > 0 && c.currentLimit >= c.limit
  }

  /** The batch size of the next getMore. */
  function GetMoreSize(c: State): int {
    if c.limit > 0 && c.currentLimit + c.batchSize > c.limit then c.limit - c.currentLimit else c.batchSize
  }

  predicate NeedsMore(c: State) {
    c.cursorIndex == |c.documents| && c.cursorId != Some(0)
  }

  /** The buffer is used up and there is no cursor id to compare with zero. */
  predicate Idless(c: State) {
    c.cursorIndex == |c.documents| && c.cursorId.None?
  }

  function Emptied(c: State): State {
    c.(documents := [], cursorIndex := 0)
  }

  /** The state in which a getMore is sent. */
  function Asking(c: State): State {
    Emptied(c).(asked := c.asked + [GetMoreSize(c)])
  }

  /** The next answer of the server is stored. */
  function Received(c: State): State
    requires c.server != [] && c.server[0].Batch?
  {
    c.(documents := c.server[0].documents, cursorId := Some(c.server[0].id), server := c.server[1..])
  }

  /** The local part of next: everything that needs no further answer. */
  function Local(c: State): (State, Result) {
    if AtLimit(c) then (DeadAndNotified(Kill(c)), Null)
    else if c.cursorIndex == |c.documents| then (DeadAndNotified(c), Null)
    else
      var c1 := c.(currentLimit := c.currentLimit + 1, cursorIndex := c.cursorIndex + 1);
      if c.cursorIndex > |c.documents| || c.documents[c.cursorIndex].isError
      then (DeadAndNotified(Kill(c1)), ServerError)
      else (c1, Delivered(c.documents[c.cursorIndex]))
  }

  /** The cursor after a getMore, and how it failed if it did. */
  function Fetched(c: State): (r: (State, Option<Result>))
    ensures r.1.None? ==> |r.0.server| < |c.server|
  {
    if c.server != [] && c.server[0].Unavailable? then (Emptied(c).(server := c.server[1..]), Some(CallFailed)) else
    var c1 := Asking(c);
    if c1.server == [] then (c1, Some(Waiting))
    else if c1.server[0].Failure? then (c1.(server := c1.server[1..]), Some(CallFailed))
    else (Received(c1), None)
  }

  function NextOf(c: State): (State, Result)
    decreases |c.server|, 1
  {
    if c.notified then (c, Exhausted)
    else if c.killed then (Notified(c), Null)
    else if c.dead then (Notified(c.(killed := true)), Null)
    else if !c.init then Initialize(c)
    else if !AtLimit(c) && Idless(c) then (c, Thrown)
    else if AtLimit(c) || !NeedsMore(c) then Local(c)
    else
      var (c1, failure) := Fetched(c);
      if failure.Some? then (c1, failure.value) else NextOf(c1)
  }

  function Initialize(c: State): (State, Result)
    requires !c.init
    decreases |c.server|, 0
  {
    if c.server == [] then (c, Waiting)
    else if c.server[0].Unavailable? then (c.(server := c.server[1..]), CallFailed)
    else if c.server[0].Failure? then (c.(init := true, server := c.server[1..]), CallFailed)
    else
      var c1 := Received(c.(init := true));
      if c1.documents == [] && c1.cursorId == Some(0) then (Notified(c1), Null) else NextOf(c1)
  }

  /** Where `slice(0, end)` of n elements stops: a negative end counts from the back. */
  function SliceEnd(n: nat, end: int): (k: nat)
    ensures k <= n
  {
    var e := if end < 0 then end + n else end;
    if e < 0 then 0 else if e > n then n else e
  }

  function ReadBuffered(c: State, number: nat): (State, seq<Document>) {
    var unread := |c.documents| - c.cursorIndex;
    var length := if number < unread then number else unread;
    var elements := if length <= 0 then [] else c.documents[c.cursorIndex..c.cursorIndex + length];
    var cut := c.limit > 0 && c.currentLimit + |elements| > c.limit;
    var kept := if cut then elements[..SliceEnd(|elements|, c.limit - c.currentLimit)] else elements;
    var c1 := if cut then Kill(c) else c;
    (c1.(currentLimit := c.currentLimit + |kept|, cursorIndex := c.cursorIndex + |kept|), kept)
  }

  /** A rewound cursor asks again; `server` is what it will be answered. */
  function Rewound(c: State, server: seq<Answer>): State {
    if !c.init then c.(server := server) else
    var c1 := if c.dead then c else Kill(c);
    Reset(c1).(server := server)
  }

  function Reset(c: State): State {
    c.(currentLimit := 0, init := false, dead := false, killed := false, notified := false,
       documents := [], cursorId := None, cursorIndex := 0)
  }

  // ---------- the cursor object ----------

  class Cursor {
    var cursorId: Option<int>
    var documents: seq<Document>
    var cursorIndex: nat
    var dead: bool
    var killed: bool
    var init: bool
    var notified: bool
    var limit: int
    var batchSize: int
    var currentLimit: int
    var server: seq<Answer>
    var asked: seq<int>
    var kills: nat

    ghost function View(): State
      reads this
    {
      State(cursorId, documents, cursorIndex, dead, killed, init, notified, limit, batchSize, currentLimit,
            server, asked, kills)
    }

    constructor (limit: int, batchSize: int, server: seq<Answer>)
      ensures View() == Fresh(limit, batchSize, server)
    {
      cursorId, documents, cursorIndex := None, [], 0;
      dead, killed, init, notified := false, false, false, false;
      this.limit, this.batchSize, currentLimit := limit, batchSize, 0;
      this.server, asked, kills := server, [], 0;
    }

    method KillCursor()
      modifies this
      ensures View() == Kill(old(View()))
    {
      dead, killed, documents := true, true, [];
      if cursorId.None? || cursorId == Some(0) || !init {
        return;
      }
      kills := kills + 1;
    }

    method SetNotified()
      modifies this
      ensures View() == Notified(old(View()))
    {
      notified, documents, cursorIndex := true, [], 0;
    }

    /** The next request cannot be sent: no server is selected, or the topology is destroyed. */
    method Refused() returns (refused: bool)
      modifies this`server
      ensures refused <==> old(server) != [] && old(server)[0].Unavailable?
      ensures server == if refused then old(server)[1..] else old(server)
    {
      refused := server != [] && server[0].Unavailable?;
      if refused {
        server := server[1..];
      }
    }

    /** Waits for the next answer; `answered` is false if none ever comes. */
    method Ask() returns (answered: bool, failed: bool)
      requires server == [] || !server[0].Unavailable?
      modifies this
      ensures answered <==> old(server) != []
      ensures failed ==> answered
      ensures !answered ==> View() == old(View())
      ensures failed <==> old(server) != [] && old(server)[0].Failure?
      ensures failed ==> View() == old(View()).(server := old(server)[1..])
      ensures answered && !failed ==> View() == Received(old(View()))
    {
      answered, failed := server != [], false;
      if answered {
        var answer := server[0];
        server := server[1..];
        if answer.Failure? {
          failed := true;
        } else {
          documents, cursorId := answer.documents, Some(answer.id);
        }
      }
    }

    method Next() returns (r: Result)
      modifies this
      ensures (View(), r) == NextOf(old(View()))
      decreases |server|, 1
    {
      if notified {
        return Exhausted;
      }
      if killed {
        SetNotified();
        return Null;
      }
      if dead {
        killed := true;
        SetNotified();
        return Null;
      }
      if !init {
        r := InitializeCursor();
        return;
      }
      if limit > 0 && currentLimit >= limit {
        r := NextBuffered();
        return;
      }
      if cursorIndex == |documents| && cursorId.None? {
        return Thrown;
      }
      if cursorIndex == |documents| && cursorId != Some(0) {
        var failure := GetMore();
        if failure.Some? {
          return failure.value;
        }
        r := Next();
      } else {
        r := NextBuffered();
      }
    }

    /** Sends a getMore and takes its answer over, unless it fails. */
    method GetMore() returns (failure: Option<Result>)
      modifies this
      ensures (View(), failure) == Fetched(old(View()))
    {
      var refused := Refused();
      if refused {
        documents, cursorIndex := [], 0;
        return Some(CallFailed);
      }
      var size := batchSize;
      if limit > 0 && currentLimit + batchSize > limit {
        size := limit - currentLimit;
      }
      documents, cursorIndex, asked := [], 0, asked + [size];
      var answered, failed := Ask();
      if !answered {
        return Some(Waiting);
      }
      if failed {
        return Some(CallFailed);
      }
      failure := None;
    }

    /** The part of next that needs no further answer. */
    method NextBuffered() returns (r: Result)
      modifies this
      ensures (View(), r) == Local(old(View()))
    {
      if limit > 0 && currentLimit >= limit {
        KillCursor();
        dead := true;
        SetNotified();
        return Null;
      }
      if cursorIndex == |documents| {
        dead := true;
        SetNotified();
        return Null;
      }
      currentLimit := currentLimit + 1;
      var index := cursorIndex;
      cursorIndex := cursorIndex + 1;
      if index > |documents| || documents[index].isError {
        KillCursor();
        dead := true;
        SetNotified();
        return ServerError;
      }
      r := Delivered(documents[index]);
    }

    method InitializeCursor() returns (r: Result)
      requires !init
      modifies this
      ensures (View(), r) == Initialize(old(View()))
      decreases |server|, 0
    {
      if server == [] {
        return Waiting;
      }
      var refused := Refused();
      if refused {
        return CallFailed;
      }
      init := true;
      var answered, failed := Ask();
      if failed {
        return CallFailed;
      }
      if documents == [] && cursorId == Some(0) {
        SetNotified();
        return Null;
      }
      r := Next();
    }

    method ReadBufferedDocuments(number: nat) returns (elements: seq<Document>)
      modifies this
      ensures (View(), elements) == ReadBuffered(old(View()), number)
    {
      var unread := |documents| - cursorIndex;
      var length := if number < unread then number else unread;
      elements := if length <= 0 then [] else documents[cursorIndex..cursorIndex + length];
      if limit > 0 && currentLimit + |elements| > limit {
        elements := elements[..SliceEnd(|elements|, limit - currentLimit)];
        KillCursor();
      }
      currentLimit := currentLimit + |elements|;
      cursorIndex := cursorIndex + |elements|;
    }

    method Rewind(server: seq<Answer>)
      modifies this
      ensures View() == Rewound(old(View()), server)
    {
      if init {
        if !dead {
          KillCursor();
        }
        ResetState();
      }
      this.server := server;
    }

    method ResetState()
      modifies this
      ensures View() == Reset(old(View()))
    {
      currentLimit, init, dead, killed, notified := 0, false, false, false, false;
      documents, cursorId, cursorIndex := [], None, 0;
    }
  }
}
