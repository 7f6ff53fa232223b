/** Framing does not depend on how the network cut the stream, and exactly when it does. */
module FramingProofs {
  import opened Bytes
  import opened Framing

  /** The state of a connection after the chunks arrived in order. */
  function Run(chunks: seq<seq<byte>>, max: int): Feed {
    if chunks == [] then Feed([], []) else
    Receive(Run(chunks[..|chunks| - 1], max), chunks[|chunks| - 1], max)
  }

  // ---------- the reference: length-prefixed messages, no buffering ----------

  /** The messages wholly contained in s, and the bytes after the last of them. */
  function Split(s: seq<byte>): Feed
    decreases |s|
  {
    if |s| <= 4 || Int32At(s, 0) <= 4 || Int32At(s, 0) > |s| then Feed([], s)
    else
      var n := Int32At(s, 0);
      Then(Feed([Frame(s[..n])], []), Split(s[n..]))
  }

  /** A message as the wire protocol frames it: its first four bytes are its length. */
  predicate IsMessage(m: seq<byte>, max: int) {
    4 < |m| <= max && Int32At(m, 0) == |m|
  }

  /** s is what has arrived so far of some list of messages. */
  predicate MessagesSoFar(s: seq<byte>, max: int)
    decreases |s|
  {
    |s| > 4 ==>
      var n := Int32At(s, 0);
      4 < n <= max && (n <= |s| ==> MessagesSoFar(s[n..], max))
  }

  function Frames(ms: seq<seq<byte>>): (r: seq<Event>)
    ensures |r| == |ms|
  {
    if ms == [] then [] else [Frame(ms[0])] + Frames(ms[1..])
  }

  /** Every part of a concatenation of messages is recognised, and the whole of it splits into them. */
  lemma {:induction false} MessagesSplit(ms: seq<seq<byte>>, s: seq<byte>, max: int)
    requires forall m <- ms :: IsMessage(m, max)
    requires s <= Concat(ms)
    ensures MessagesSoFar(s, max)
    ensures s == Concat(ms) ==> Split(s) == Feed(Frames(ms), [])
    decreases |ms|
  {
    if ms == [] {
    } else {
      var m, all := ms[0], Concat(ms);
      assert m in ms && m <= all;
    }
    if ms != [] && |s| > 4 {
      var m, all := ms[0], Concat(ms);
      Int32AtPrefix(m, all, 0);
      Int32AtPrefix(s, all, 0);
      if |m| <= |s| {
        assert s[..|m|] == m;
        assert s[|m|..] <= Concat(ms[1..]);
        MessagesSplit(ms[1..], s[|m|..], max);
      }
    }
  }

  /** Splitting can be resumed from what an earlier split left pending. */
  lemma {:induction false} SplitResumes(s: seq<byte>, c: seq<byte>)
    ensures Split(s + c) == Then(Split(s), Split(Split(s).pending + c))
    decreases |s|
  {
    if |s| > 4 && 4 < Int32At(s, 0) <= |s| {
      Int32AtPrefix(s, s + c, 0);
      var n := Int32At(s, 0);
      assert (s + c)[..n] == s[..n] && (s + c)[n..] == s[n..] + c;
      SplitResumes(s[n..], c);
      var rest := Split(s[n..]);
      ThenAssociates(Feed([Frame(s[..n])], []), rest, Split(rest.pending + c));
    }
  }

  lemma {:induction false} SoFarResumes(s: seq<byte>, c: seq<byte>, max: int)
    requires MessagesSoFar(s + c, max)
    ensures MessagesSoFar(s, max) && MessagesSoFar(Split(s).pending + c, max)
    decreases |s|
  {
    if |s| > 4 {
      Int32AtPrefix(s, s + c, 0);
      var n := Int32At(s, 0);
      if 4 < n <= |s| {
        assert (s + c)[..n] == s[..n] && (s + c)[n..] == s[n..] + c;
        SoFarResumes(s[n..], c, max);
      }
    }
  }

  /** Nothing is lost and nothing invented: the messages and the rest are the stream. */
  lemma {:induction false} SplitConserves(s: seq<byte>)
    ensures Concat(Bodies(Split(s).events)) + Split(s).pending == s
    decreases |s|
  {
    if |s| > 4 && 4 < Int32At(s, 0) <= |s| {
      var n := Int32At(s, 0);
      var rest := Split(s[n..]);
      SplitConserves(s[n..]);
      BodiesFront(s[..n], rest.events);
      assert Split(s) == Feed([Frame(s[..n])] + rest.events, rest.pending);
      Rejoin(s, n, Concat(Bodies(rest.events)), rest.pending);
    }
  }

  lemma Rejoin(s: seq<byte>, n: nat, a: seq<byte>, b: seq<byte>)
    requires n <= |s| && s[n..] == a + b
    ensures s[..n] + a + b == s
  {
    assert s == s[..n] + s[n..];
  }

  function Bodies(events: seq<Event>): seq<seq<byte>> {
    if events == [] then [] else
    [if events[0].ParseError? then [] else events[0].bytes] + Bodies(events[1..])
  }

  lemma BodiesFront(m: seq<byte>, events: seq<Event>)
    ensures Concat(Bodies([Frame(m)] + events)) == m + Concat(Bodies(events))
  {
    assert ([Frame(m)] + events)[1..] == events;
    assert Bodies([Frame(m)] + events)[1..] == Bodies(events);
  }

  // ---------- where the code departs from the reference ----------

  /** A message of exactly the maximal size is pending. */
  predicate MaximalPending(pending: seq<byte>, max: int) {
    |pending| > 4 && Int32At(pending, 0) == max
  }

  /** Every message handed over is processed without an exception. */
  predicate NoneThrows(events: seq<Event>) {
    forall e <- events :: e.Frame? ==> !ProcessThrows(e.bytes)
  }

  /** What a chunk must satisfy, given what the reference holds when it arrives. */
  predicate Kept(pending: seq<byte>, chunk: seq<byte>, max: int) {
    || chunk == []
    || (&& !StubDrops(pending, chunk)
        && var read := Split(pending + chunk);
        && !MaximalPending(read.pending, max) && NoneThrows(read.events))
  }

  /** On a stream of messages the code differs from the reference exactly for a maximal message or an exception. */
  lemma {:induction false} ParseIsSplit(s: seq<byte>, max: int)
    requires MessagesSoFar(s, max)
    ensures Parse(s, max) == Split(s) <==> !MaximalPending(Split(s).pending, max) && NoneThrows(Split(s).events)
    decreases |s|
  {
    if |s| > 4 {
      var n := Int32At(s, 0);
      if n <= |s| {
        var m, rest := Frame(s[..n]), Split(s[n..]);
        assert Split(s).events == [m] + rest.events;
        assert Split(s).events[0] == m && Split(s).events[1..] == rest.events;
        assert NoneThrows([m] + rest.events) <==> !ProcessThrows(s[..n]) && NoneThrows(rest.events) by {
          assert m in [m] + rest.events;
        }
        if ProcessThrows(s[..n]) {
          assert Parse(s, max).events[0] == Thrown(s[..n]);
        } else {
          ParseIsSplit(s[n..], max);
          assert Parse(s, max).events[1..] == Parse(s[n..], max).events;
        }
      } else if n == max {
        assert Parse(s, max) != Split(s) by {
          assert Split(s).events == [];
          assert Parse(s, max).events != [];
        }
      }
    }
  }

  /** One chunk: code and reference stay together exactly when the chunk is kept. */
  lemma ChunkIsExact(s: seq<byte>, chunk: seq<byte>, max: int)
    requires MessagesSoFar(s + chunk, max)
    ensures Receive(Split(s), chunk, max) == Split(s + chunk) <==> Kept(Split(s).pending, chunk, max)
  {
    var w := Split(s);
    var t := w.pending + chunk;
    SplitResumes(s, chunk);
    SoFarResumes(s, chunk, max);
    if chunk == [] {
      assert s + chunk == s;
    } else if StubDrops(w.pending, chunk) {
      assert Split(t).pending == t;
      assert |Split(s + chunk).pending| > |w.pending|;
    } else {
      ParseIsSplit(t, max);
      var parsed, split := Parse(t, max), Split(t);
      assert (w.events + parsed.events)[|w.events|..] == parsed.events;
      assert (w.events + split.events)[|w.events|..] == split.events;
    }
  }

  /** After k chunks the code holds and has emitted what the reference says of the bytes received. */
  predicate Agrees(chunks: seq<seq<byte>>, k: nat, max: int)
    requires k <= |chunks|
  {
    Run(chunks[..k], max) == Split(Concat(chunks[..k]))
  }

  predicate KeptAt(chunks: seq<seq<byte>>, k: nat, max: int)
    requires k < |chunks|
  {
    Kept(Split(Concat(chunks[..k])).pending, chunks[k], max)
  }

  lemma LastChunk(chunks: seq<seq<byte>>, max: int)
    requires chunks != [] && MessagesSoFar(Concat(chunks), max)
    ensures MessagesSoFar(Concat(chunks[..|chunks| - 1]), max)
    ensures Agrees(chunks, |chunks| - 1, max) ==>
      (Agrees(chunks, |chunks|, max) <==> KeptAt(chunks, |chunks| - 1, max))
  {
    hide Kept, Receive, Split, MessagesSoFar;
    var n := |chunks|;
    var before, chunk := chunks[..n - 1], chunks[n - 1];
    var s := Concat(before);
    assert Concat(chunks) == s + chunk by {
      assert chunks == before + [chunk];
      ConcatAppend(before, [chunk]);
      assert Concat([chunk]) == chunk;
    }
    SoFarResumes(s, chunk, max);
    ChunkIsExact(s, chunk, max);
    assert chunks[..n] == chunks;
  }

  /**
   * Chunk invariance. However a stream of messages is cut, what has been emitted and what is held
   * agree with the reference after every chunk if and only if every chunk is kept.
   */
  lemma {:induction false} FramingIsExact(chunks: seq<seq<byte>>, max: int)
    requires MessagesSoFar(Concat(chunks), max)
    ensures (forall k | 0 <= k <= |chunks| :: Agrees(chunks, k, max))
      <==> (forall k | 0 <= k < |chunks| :: KeptAt(chunks, k, max))
    decreases |chunks|
  {
    hide Kept, Receive, StubDrops;
    var n := |chunks|;
    if n > 0 {
      var before := chunks[..n - 1];
      LastChunk(chunks, max);
      FramingIsExact(before, max);
      forall k | 0 <= k < n
        ensures Agrees(before, k, max) == Agrees(chunks, k, max)
        ensures k < n - 1 ==> KeptAt(before, k, max) == KeptAt(chunks, k, max)
      {
        assert before[..k] == chunks[..k];
      }
      if forall k | 0 <= k < n - 1 :: KeptAt(chunks, k, max) {
        assert Agrees(before, n - 1, max);
      }
    } else {
      assert chunks[..0] == [];
    }
  }

  /** In particular a list of messages comes out whole and in order, with nothing left over. */
  lemma MessagesAreDelivered(ms: seq<seq<byte>>, chunks: seq<seq<byte>>, max: int)
    requires forall m <- ms :: IsMessage(m, max)
    requires Concat(chunks) == Concat(ms)
    requires forall k | 0 <= k < |chunks| :: KeptAt(chunks, k, max)
    ensures Run(chunks, max) == Feed(Frames(ms), [])
  {
    MessagesSplit(ms, Concat(chunks), max);
    FramingIsExact(chunks, max);
    assert Agrees(chunks, |chunks|, max);
    assert chunks[..|chunks|] == chunks;
  }

  /**
   * With every message below the maximal size a chunk is lost by the stub rule or by an exception only; if no message
   * raises one, by the stub rule only.
   */
  lemma SmallMessagesKept(ms: seq<seq<byte>>, s: seq<byte>, chunk: seq<byte>, max: int)
    requires forall m <- ms :: IsMessage(m, max) && |m| < max
    requires s + chunk <= Concat(ms)
    ensures var pending := Split(s).pending;
      && (Kept(pending, chunk, max) <==>
            chunk == [] || (!StubDrops(pending, chunk) && NoneThrows(Split(pending + chunk).events)))
      && ((forall m <- ms :: !ProcessThrows(m)) ==> (Kept(pending, chunk, max) <==> !StubDrops(pending, chunk)))
  {
    SplitResumes(s, chunk);
    PendingIsSmall(ms, s + chunk, max);
    FramesAreMessages(ms, s + chunk, max);
  }

  /** What the reference cuts off a stream are messages of it. */
  lemma {:induction false} FramesAreMessages(ms: seq<seq<byte>>, s: seq<byte>, max: int)
    requires forall m <- ms :: IsMessage(m, max)
    requires s <= Concat(ms)
    ensures forall e <- Split(s).events :: e.Frame? && e.bytes in ms
    decreases |ms|
  {
    if ms == [] {
    } else if |s| > 4 {
      var m := ms[0];
      assert m in ms && m <= Concat(ms);
      Int32AtPrefix(m, Concat(ms), 0);
      Int32AtPrefix(s, Concat(ms), 0);
      if |m| <= |s| {
        assert s[..|m|] == m && s[|m|..] <= Concat(ms[1..]);
        FramesAreMessages(ms[1..], s[|m|..], max);
      }
    }
  }

  lemma {:induction false} PendingIsSmall(ms: seq<seq<byte>>, s: seq<byte>, max: int)
    requires forall m <- ms :: IsMessage(m, max) && |m| < max
    requires s <= Concat(ms)
    ensures !MaximalPending(Split(s).pending, max)
    decreases |ms|
  {
    if ms != [] && |s| > 4 {
      var m := ms[0];
      assert m in ms && m <= Concat(ms);
      Int32AtPrefix(m, Concat(ms), 0);
      Int32AtPrefix(s, Concat(ms), 0);
      if |m| <= |s| {
        assert s[|m|..] <= Concat(ms[1..]);
        PendingIsSmall(ms[1..], s[|m|..], max);
      }
    }
  }

  /** The three ways a chunk is not kept: a byte after a held byte vanishes. */
  lemma SecondByteIsLost(a: byte, b: byte, max: int)
    ensures Run([[a], [b]], max) == Feed([], [a]) && Split(Concat([[a], [b]])) == Feed([], [a, b])
  {
    assert [[a], [b]][..1] == [[a]] && [[a]][..0] == [];
    assert [] + [a] == [a];
    assert Run([[a]], max) == Feed([], [a]);
    assert Concat([[b]]) == [b] && Concat([[a], [b]]) == [a, b];
  }

  /** ... a message whose processing raises an exception takes everything after it in the chunk along. */
  lemma ExceptionLosesTheRest(m: seq<byte>, rest: seq<byte>, max: int)
    requires IsMessage(m, max) && ProcessThrows(m)
    ensures Run([m + rest], max) == Feed([Thrown(m)], [])
    ensures Split(m + rest) == Then(Feed([Frame(m)], []), Split(rest))
  {
    var s: seq<byte> := m + rest;
    Int32AtPrefix(m, s, 0);
    assert s[..|m|] == m && s[|m|..] == rest;
    assert [s][..0] == [] && [] + s == s;
    assert Run([], max) == Feed([], []);
    assert FrontOf(s, max) == Cut(|m|);
    assert Parse(s, max) == Feed([Thrown(m)], []);
  }

  /** Any message shorter than a header does: the message after it is never emitted. */
  lemma ShortMessageLosesTheNext(short: seq<byte>, next: seq<byte>, max: int)
    requires IsMessage(short, max) && |short| < HEADER_SIZE && IsMessage(next, max)
    ensures Run([short + next], max) == Feed([Thrown(short)], [])
    ensures Split(short + next) == Feed([Frame(short), Frame(next)], [])
    ensures IsMessage([5, 0, 0, 0, 0], 5)
  {
    ExceptionLosesTheRest(short, next, max);
    assert next[..|next|] == next && next[|next|..] == [];
    assert Split(next) == Feed([Frame(next)], []);
  }

  /** ... and a message of the maximal size is handed over as soon as its length is known. */
  lemma MaximalMessageIsTruncated(s: seq<byte>, max: int)
    requires 4 < |s| < max && Int32At(s, 0) == max && !ProcessThrows(s)
    ensures Run([s], max) == Feed([Frame(s)], []) && Split(s) == Feed([], s)
  {
    assert [s][..0] == [] && [] + s == s;
    assert s[..|s|] == s && s[|s|..] == [];
    assert FrontOf(s, max) == Cut(|s|);
    assert Parse(s, max) == Then(Feed([Frame(s)], []), Parse([], max));
    assert Run([], max) == Feed([], []);
  }

  /** A chunk vanishes without a trace exactly if it finds a stub and brings it to no more than four bytes. */
  lemma ChunkVanishesExact(w: Feed, chunk: seq<byte>, max: int)
    ensures Receive(w, chunk, max) == w <==> chunk == [] || (|w.pending| >= 1 && |w.pending| + |chunk| <= 4)
  {
    var s := w.pending + chunk;
    if chunk != [] && !(|w.pending| >= 1 && |w.pending| + |chunk| <= 4) {
      assert Parse(s, max).events == [] ==> Parse(s, max).pending == s;
      assert |w.events + Parse(s, max).events| == |w.events| + |Parse(s, max).events|;
    }
  }

  /**
   * A length of at most four or above the maximum is a parse error: the messages before it are emitted, and nothing
   * after it is read or kept.
   */
  lemma {:induction false} MalformedIsRejected(ms: seq<seq<byte>>, bad: seq<byte>, max: int)
    requires forall m <- ms :: IsMessage(m, max) && !ProcessThrows(m)
    requires |bad| > 4 && (Int32At(bad, 0) <= 4 || Int32At(bad, 0) > max)
    ensures Parse(Concat(ms) + bad, max) == Feed(Frames(ms) + [ParseError(Int32At(bad, 0))], [])
    decreases |ms|
  {
    if ms == [] {
      assert [] + bad == bad;
    } else {
      var m, s := ms[0], Concat(ms) + bad;
      assert m in ms && s == m + (Concat(ms[1..]) + bad);
      Int32AtPrefix(m, s, 0);
      assert s[..|m|] == m && s[|m|..] == Concat(ms[1..]) + bad;
      MalformedIsRejected(ms[1..], bad, max);
      assert Frames(ms) + [ParseError(Int32At(bad, 0))]
        == [Frame(m)] + (Frames(ms[1..]) + [ParseError(Int32At(bad, 0))]);
    }
  }

  /** The same for a chunk arriving on a connection that holds the start of those bytes. */
  lemma MalformedChunk(w: Feed, chunk: seq<byte>, ms: seq<seq<byte>>, bad: seq<byte>, max: int)
    requires chunk != [] && !StubDrops(w.pending, chunk) && w.pending + chunk == Concat(ms) + bad
    requires forall m <- ms :: IsMessage(m, max) && !ProcessThrows(m)
    requires |bad| > 4 && (Int32At(bad, 0) <= 4 || Int32At(bad, 0) > max)
    ensures Receive(w, chunk, max) == Feed(w.events + Frames(ms) + [ParseError(Int32At(bad, 0))], [])
  {
    MalformedIsRejected(ms, bad, max);
    assert w.events + (Frames(ms) + [ParseError(Int32At(bad, 0))])
      == w.events + Frames(ms) + [ParseError(Int32At(bad, 0))];
  }

  /** Framing by length prefix alone, whatever the messages contain. */
  lemma {:induction false} PrefixedSplit(ms: seq<seq<byte>>)
    requires forall m <- ms :: 4 < |m| && Int32At(m, 0) == |m|
    ensures Split(Concat(ms)) == Feed(Frames(ms), [])
  {
    if ms == [] {
    } else {
      var m := ms[0];
      assert m in ms;
      Int32AtPrefix(m, Concat(ms), 0);
      assert Concat(ms)[..|m|] == m && Concat(ms)[|m|..] == Concat(ms[1..]);
      PrefixedSplit(ms[1..]);
    }
  }
}
