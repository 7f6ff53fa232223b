/** Cutting the byte stream of one socket into wire messages: `dataHandler` of a connection. */
module Framing {
  import opened Bytes

  /**
   * What the framing loop does to the outside world: a complete buffer handed to processMessage, a
   * `parseError`, or a buffer on which processMessage raised an exception out of the socket listener.
   */
  datatype Event = Frame(bytes: seq<byte>) | ParseError(size: int) | Thrown(bytes: seq<byte>)

  /** What a connection has produced so far and the bytes it still holds. */
  datatype Feed = Feed(events: seq<Event>, pending: seq<byte>)

  /** First w, then r, which read on from what w left pending. */
  function Then(w: Feed, r: Feed): Feed {
    Feed(w.events + r.events, r.pending)
  }

  lemma ThenAssociates(a: Feed, b: Feed, c: Feed)
    ensures Then(Then(a, b), c) == Then(a, Then(b, c))
  {
  }

  // ---------- what processMessage may throw on ----------

  /** The response constructors read fixed offsets and allocate numberReturned slots. */
  predicate ConstructorThrows(opCode: int, body: seq<byte>) {
    if opCode == OP_MSG then |body| < 4 else |body| < 20 || Int32At(body, 16) < 0
  }

  /** 1 and 2 are snappy and zlib, which answer later; any other id hands the bytes back at once. */
  predicate DecompressesLater(message: seq<byte>)
    requires |message| >= 24
  {
    |message| > 24 && message[24] in {1, 2}
  }

  predicate ProcessThrows(message: seq<byte>) {
    || |message| < HEADER_SIZE
    || (if Int32At(message, 12) != OP_COMPRESSED then
          ConstructorThrows(Int32At(message, 12), message[HEADER_SIZE..])
        else
          || |message| < 24
          || (&& !DecompressesLater(message)
              && var body := if |message| > 24 then message[25..] else [];
              && |body| == Int32At(message, 20)
              && ConstructorThrows(Int32At(message, 16), body)))
  }

  // ---------- the code's answer to one stretch of bytes ----------

  /** How the loop reads the front of the bytes it has: wait for more, reject, or cut off n bytes. */
  datatype Front = Wait | Reject(size: int) | Cut(n: nat)

  function FrontOf(s: seq<byte>, max: int): (f: Front)
    ensures f.Cut? ==> 4 < f.n <= |s|
    ensures f == Cut(|s|) || !f.Cut? || f.n == Int32At(s, 0)
  {
    if |s| <= 4 then Wait else
    var size := Int32At(s, 0);
    if size <= 4 || size > max then Reject(size)
    else if size <= |s| then Cut(size)
    else if size < max then Wait
    else Cut(|s|)  // a size equal to max is taken to be complete whatever has arrived
  }

  /** Everything the loop does with the bytes s when no partial message is held. */
  function Parse(s: seq<byte>, max: int): Feed
    decreases |s|
  {
    match FrontOf(s, max)
    case Wait => Feed([], s)
    case Reject(size) => Feed([ParseError(size)], [])
    case Cut(n) =>
      if ProcessThrows(s[..n]) then Feed([Thrown(s[..n])], [])
      else Then(Feed([Frame(s[..n])], []), Parse(s[n..], max))
  }

  /** A chunk that would leave a held stub at four bytes or fewer is dropped. */
  predicate StubDrops(pending: seq<byte>, chunk: seq<byte>) {
    chunk != [] && 0 < |pending| <= 4 && |pending| + |chunk| <= 4
  }

  /** One message cut off the front: what is left is as if it had arrived by itself. */
  lemma OutcomeCut(w: Feed, data: seq<byte>, max: int, n: nat, w': Feed, rest: seq<byte>)
    requires FrontOf(w.pending + data, max) == Cut(n)
    requires var m := (w.pending + data)[..n];
      && w' == Feed(w.events + [if ProcessThrows(m) then Thrown(m) else Frame(m)], [])
      && rest == if ProcessThrows(m) then [] else (w.pending + data)[n..]
    ensures Outcome(w', rest, max) == Outcome(w, data, max)
  {
    var s := w.pending + data;
    assert w'.pending + rest == rest;
    if ProcessThrows(s[..n]) {
      assert Parse(s, max) == Feed([Thrown(s[..n])], []);
    } else {
      var m := Feed([Frame(s[..n])], []);
      assert Parse(s, max) == Then(m, Parse(rest, max));
      ThenAssociates(w, m, Parse(rest, max));
    }
  }

  lemma OutcomeReject(w: Feed, data: seq<byte>, max: int, w': Feed)
    requires FrontOf(w.pending + data, max).Reject?
    requires w' == Feed(w.events + [ParseError(Int32At(w.pending + data, 0))], [])
    ensures Outcome(w', [], max) == Outcome(w, data, max)
  {
    assert w'.pending + [] == [];
  }

  lemma OutcomeWait(w: Feed, data: seq<byte>, max: int, w': Feed)
    requires w' == Feed(w.events, w.pending + data)
    ensures Outcome(w', [], max) == Outcome(w, data, max)
  {
    assert w'.pending + [] == w.pending + data;
  }

  /** What becomes of `data` arriving at w once the loop has run dry. */
  function Outcome(w: Feed, data: seq<byte>, max: int): Feed {
    Then(w, Parse(w.pending + data, max))
  }

  /** A held stub and the bytes after it are read as one. */
  lemma OutcomeMerge(w: Feed, data: seq<byte>, max: int)
    ensures Outcome(Feed(w.events, []), w.pending + data, max) == Outcome(w, data, max)
  {
    assert [] + (w.pending + data) == w.pending + data;
  }

  /** Part of `chunk` has been consumed since w; `data` is still to be read. */
  ghost predicate OnTrack(w: Feed, chunk: seq<byte>, now: Feed, data: seq<byte>, max: int) {
    || (now == w && data == chunk)
    || (StubDrops(w.pending, chunk) && now == w && data == [])
    || (!StubDrops(w.pending, chunk) && chunk != [] && Outcome(now, data, max) == Outcome(w, chunk, max))
  }

  function Receive(w: Feed, chunk: seq<byte>, max: int): Feed {
    if chunk == [] || StubDrops(w.pending, chunk) then w else Outcome(w, chunk, max)
  }

  method Copy(source: seq<byte>, target: array<byte>, start: nat)
    requires start + |source| <= target.Length
    modifies target
    ensures target[..] == old(target[..start]) + source + old(target[start + |source|..])
  {
    forall i | 0 <= i < |source| {
      target[start + i] := source[i];
    }
  }

  class Connection {
    const maxBsonMessageSize: int
    var buffer: array?<byte>
    var bytesRead: nat
    var sizeOfMessage: int
    var stubBuffer: seq<byte>  // [] stands for null
    var events: seq<Event>

    ghost predicate Valid()
      reads this, buffer
    {
      && |stubBuffer| <= 4
      && if bytesRead == 0 then sizeOfMessage == 0 else
         && stubBuffer == []
         && buffer != null && buffer.Length == sizeOfMessage
         && 4 < bytesRead < sizeOfMessage < maxBsonMessageSize
         && Int32At(buffer[..bytesRead], 0) == sizeOfMessage
    }

    /** The bytes received that no message has accounted for yet. */
    ghost function Pending(): seq<byte>
      requires Valid()
      reads this, buffer
    {
      if bytesRead > 0 then buffer[..bytesRead] else stubBuffer
    }

    ghost function View(): Feed
      requires Valid()
      reads this, buffer
    {
      Feed(events, Pending())
    }

    constructor (maxBsonMessageSize: int)
      ensures Valid() && View() == Feed([], []) && buffer == null
      ensures this.maxBsonMessageSize == maxBsonMessageSize
    {
      this.maxBsonMessageSize := maxBsonMessageSize;
      buffer, bytesRead, sizeOfMessage, stubBuffer, events := null, 0, 0, [], [];
    }

    /**
     * Resets the state and hands a complete buffer to processMessage; `thrown` when the exception
     * leaves the socket listener.
     */
    method Emit(message: seq<byte>) returns (thrown: bool)
      modifies this
      ensures Valid() && buffer == null && stubBuffer == []
      ensures thrown == ProcessThrows(message)
      ensures View() == Feed(old(events) + [if thrown then Thrown(message) else Frame(message)], [])
    {
      buffer, sizeOfMessage, bytesRead, stubBuffer := null, 0, 0, [];
      thrown := ProcessThrows(message);
      events := events + [if thrown then Thrown(message) else Frame(message)];
    }

    /** Allocates room for a whole message and keeps the part that has arrived. */
    method Hold(data: seq<byte>, size: int)
      requires 4 < |data| < size < maxBsonMessageSize && Int32At(data, 0) == size
      modifies this
      ensures Valid() && fresh(buffer) && View() == Feed(old(events), data)
    {
      buffer := new byte[size];
      Copy(data, buffer, 0);
      bytesRead, sizeOfMessage, stubBuffer := |data|, size, [];
      assert buffer[..bytesRead] == data;
    }

    /** Bytes arriving while a message is partly buffered. */
    method ContinueMessage(data: seq<byte>) returns (rest: seq<byte>, thrown: bool)
      requires Valid() && bytesRead > 0 && data != []
      modifies this, buffer
      ensures Valid() && (buffer == null || buffer == old(buffer)) && stubBuffer == []
      ensures rest == [] || |Pending()| + |rest| < old(|Pending()|) + |data|
      ensures Outcome(View(), rest, maxBsonMessageSize) == Outcome(old(View()), data, maxBsonMessageSize)
      ensures thrown ==> rest == []
    {
      ghost var w, all := View(), Pending() + data;
      var remainingBytesToRead := sizeOfMessage - bytesRead;
      Int32AtPrefix(Pending(), all, 0);
      if remainingBytesToRead > |data| {
        Copy(data, buffer, bytesRead);
        bytesRead := bytesRead + |data|;
        assert buffer[..bytesRead] == all;
        rest, thrown := [], false;
        OutcomeWait(w, data, maxBsonMessageSize, View());
      } else {
        Copy(data[..remainingBytesToRead], buffer, bytesRead);
        rest := data[remainingBytesToRead..];
        var emitBuffer := buffer[..];
        assert emitBuffer == all[..sizeOfMessage] && rest == all[sizeOfMessage..];
        ghost var n := sizeOfMessage;
        thrown := Emit(emitBuffer);
        rest := if thrown then [] else rest;
        OutcomeCut(w, data, maxBsonMessageSize, n, View(), rest);
      }
    }

    /** Bytes arriving with nothing held: the start of a message. */
    method StartMessage(data: seq<byte>) returns (rest: seq<byte>, stop: bool)
      requires Valid() && bytesRead == 0 && stubBuffer == [] && data != []
      modifies this
      ensures Valid() && (buffer == null || buffer == old(buffer) || fresh(buffer))
      ensures rest == [] || (stubBuffer == [] && |Pending()| + |rest| < |data|)
      ensures Outcome(View(), rest, maxBsonMessageSize) == Outcome(old(View()), data, maxBsonMessageSize)
      ensures stop ==> rest == []
    {
      ghost var w := View();
      assert w.pending + data == data;
      rest, stop := [], false;
      if |data| > 4 {
        var size := Int32At(data, 0);
        if size < 0 || size > maxBsonMessageSize {
          events := events + [ParseError(size)];
          stop := true;
          OutcomeReject(w, data, maxBsonMessageSize, View());
        } else if 4 < size < maxBsonMessageSize && size > |data| {
          Hold(data, size);
          OutcomeWait(w, data, maxBsonMessageSize, View());
        } else if 4 < size < maxBsonMessageSize && size == |data| {
          var emitBuffer := data;
          assert data[..size] == data && data[size..] == [];
          stop := Emit(emitBuffer);
          OutcomeCut(w, data, maxBsonMessageSize, size, View(), rest);
        } else if size <= 4 || size > maxBsonMessageSize {
          events := events + [ParseError(size)];
          buffer, sizeOfMessage, bytesRead, stubBuffer := null, 0, 0, [];
          OutcomeReject(w, data, maxBsonMessageSize, View());
        } else {
          // Buffer.slice stops at the end of the data
          var end := if size <= |data| then size else |data|;
          var emitBuffer := data[..end];
          stop := Emit(emitBuffer);
          rest := if stop then [] else data[end..];
          OutcomeCut(w, data, maxBsonMessageSize, end, View(), rest);
        }
      } else {
        stubBuffer := data;
        OutcomeWait(w, data, maxBsonMessageSize, View());
      }
    }

    method DataHandler(chunk: seq<byte>)
      requires Valid()
      modifies this, buffer
      ensures Valid() && (buffer == null || buffer == old(buffer) || fresh(buffer))
      ensures View() == Receive(old(View()), chunk, maxBsonMessageSize)
    {
      var data := chunk;
      ghost var w := View();
      while |data| > 0
        invariant Valid() && (buffer == null || buffer == old(buffer) || fresh(buffer))
        invariant stubBuffer != [] && data != [] ==> data == chunk && View() == w
        invariant OnTrack(w, chunk, View(), data, maxBsonMessageSize)
        decreases data != [], |Pending()| + |data|, |stubBuffer|
      {
        if bytesRead > 0 && sizeOfMessage > 0 {
          var thrown;
          data, thrown := ContinueMessage(data);
          if thrown {
            break;
          }
        } else if |stubBuffer| > 0 {
          if |stubBuffer| + |data| > 4 {
            data := stubBuffer + data;
            buffer, sizeOfMessage, bytesRead, stubBuffer := null, 0, 0, [];
            OutcomeMerge(w, chunk, maxBsonMessageSize);
          } else {
            // the enlarged stub is built but never stored
            data := [];
          }
        } else {
          var stop;
          data, stop := StartMessage(data);
          if stop {
            break;
          }
        }
      }
      PendingStays();
    }

    /** Bytes already held produce nothing by themselves. */
    lemma PendingStays()
      requires Valid()
      ensures Outcome(View(), [], maxBsonMessageSize) == View()
    {
      assert Pending() + [] == Pending();
    }
  }
}
