/** What the calls of a cursor ask of the server, hand out and leave behind. */
module CursorEffects {
  import opened Bytes
  import opened Cursors
  import opened CursorProofs

  /** The server keeps a cursor for this one. */
  predicate Live(c: State) {
    c.init && c.cursorId.Some? && c.cursorId.value != 0
  }

  function Least(a: int, b: int): int {
    if a < b then a else b
  }

  /** How many documents reading the buffer can hand out: those unread, and no more than the limit leaves. */
  function Readable(c: State, number: nat): int {
    var unread := if c.cursorIndex < |c.documents| then |c.documents| - c.cursorIndex else 0;
    var length := Least(number, unread);
    if c.limit > 0 then Least(length, c.limit - c.currentLimit) else length
  }

  /**
   * Reading the buffer hands out its next documents, as many as asked for, unread and allowed by the limit, and counts
   * them. Exactly when the limit withholds one, the cursor dies, and the server is told if it keeps one.
   */
  lemma ReadExact(c: State, number: nat)
    requires c.limit > 0 ==> c.currentLimit <= c.limit
    ensures var (r, elements) := ReadBuffered(c, number);
      var withheld :=
        c.cursorIndex < |c.documents| && Readable(c, number) < Least(number, |c.documents| - c.cursorIndex);
      && |elements| == Readable(c, number)
      && (forall i | 0 <= i < |elements| :: elements[i] == c.documents[c.cursorIndex + i])
      && r.currentLimit == c.currentLimit + |elements| && r.cursorIndex == c.cursorIndex + |elements|
      && (if withheld then
            r == c.(dead := true, killed := true, documents := [], kills := c.kills + (if Live(c) then 1 else 0),
                    currentLimit := r.currentLimit, cursorIndex := r.cursorIndex)
          else r == c.(currentLimit := r.currentLimit, cursorIndex := r.cursorIndex))
  {
  }

  /** Where a slice stops: at its end, or as far from the back as a negative end says, within the list. */
  lemma SliceEndExact(n: nat, end: int)
    ensures end >= 0 ==> SliceEnd(n, end) == Least(end, n)
    ensures end < 0 ==> SliceEnd(n, end) == if -end < n then n + end else 0
  {
  }

  // ---------- what is asked of the server ----------

  /** The number a getMore asks for: a batch, or what is still wanted if that is less. */
  function Wanted(c: State): int {
    if c.limit > 0 then Least(c.batchSize, c.limit - c.currentLimit) else c.batchSize
  }

  /** How many answers one call of next has taken. */
  function Taken(c: State, r: State): int {
    |c.server| - |r.server|
  }

  /** Whether the last of the answers taken was that nothing could be sent. */
  predicate Unsent(c: State, r: State)
    requires Taken(c, r) <= |c.server|
  {
    Taken(c, r) > 0 && c.server[Taken(c, r) - 1].Unavailable?
  }

  ghost predicate AsksFor(c: State, c': State, r: Result) {
    && c.asked <= c'.asked && 0 <= Taken(c, c') <= |c.server| && c'.server == c.server[Taken(c, c')..]
    && |c'.asked| == |c.asked| + Taken(c, c') - (if Unsent(c, c') then 1 else 0) + (if r == Waiting then 1 else 0)
    && (forall i | |c.asked| <= i < |c'.asked| :: c'.asked[i] == Wanted(c))
  }

  /** Whether a call of next needs the server. */
  predicate Fetches(c: State) {
    !Over(c) && !AtLimit(c) && !Idless(c) && NeedsMore(c)
  }

  lemma AsksNothing(c: State)
    requires c.init && !Fetches(c)
    ensures AsksFor(c, NextOf(c).0, NextOf(c).1)
  {
    hide NextOf, Fetches, AsksFor;
    TakesNothing(c);
    NothingTaken(c, NextOf(c).0, NextOf(c).1);
  }

  lemma TakesNothing(c: State)
    requires c.init && !Fetches(c)
    ensures var (c', r) := NextOf(c); c'.server == c.server && c'.asked == c.asked && r != Waiting
  {
  }

  lemma NothingTaken(c: State, c': State, r: Result)
    requires c'.server == c.server && c'.asked == c.asked && r != Waiting
    ensures AsksFor(c, c', r)
  {
    assert c.server[0..] == c.server;
  }

  lemma FetchFails(c: State)
    requires c.init && Fetches(c) && (c.server == [] || !c.server[0].Batch?)
    ensures Fetched(c).1.Some? && NextOf(c) == (Fetched(c).0, Fetched(c).1.value)
  {
    hide Local;
  }

  /** One getMore fails, cannot be sent, or is never answered. */
  lemma AsksInVain(c: State)
    requires c.init && Fetches(c) && (c.server == [] || !c.server[0].Batch?)
    ensures AsksFor(c, NextOf(c).0, NextOf(c).1)
  {
    hide NextOf, Fetches, AsksFor;
    FetchFails(c);
    VainlyFetched(c);
  }

  lemma VainlyFetched(c: State)
    requires c.server == [] || !c.server[0].Batch?
    ensures Fetched(c).1.Some? && AsksFor(c, Fetched(c).0, Fetched(c).1.value)
  {
    hide AsksFor;
    var (c', r) := Fetched(c);
    if c.server == [] {
      assert c.server[0..] == c.server;
      AskedAndTaken(c, c', r.value, 0, 1);
    } else if c.server[0].Unavailable? {
      assert c.asked + [] == c.asked;
      AskedAndTaken(c, c', r.value, 1, 0);
    } else {
      AskedAndTaken(c, c', r.value, 1, 1);
    }
  }

  /** At most one answer is taken and at most one getMore sent. */
  lemma AskedAndTaken(c: State, c': State, r: Result, taken: nat, sent: nat)
    requires taken <= |c.server| && taken <= 1 && c'.server == c.server[taken..]
    requires sent <= 1 && c'.asked == c.asked + if sent == 1 then [Wanted(c)] else []
    requires sent == taken - (if taken == 1 && c.server[0].Unavailable? then 1 else 0) + if r == Waiting then 1 else 0
    ensures AsksFor(c, c', r)
  {
    assert Taken(c, c') == taken;
  }

  lemma AsksFurther(c: State)
    requires c.init && Fetches(c) && c.server != [] && c.server[0].Batch?
    ensures NextOf(c) == NextOf(Received(Asking(c)))
  {
  }

  /**
   * A call of next on an answered cursor sends one getMore for each answer it takes, and one for an answer that never
   * comes; each asks for what is wanted.
   */
  lemma {:induction false} AsksExact(c: State)
    requires c.init
    ensures AsksFor(c, NextOf(c).0, NextOf(c).1)
    decreases |c.server|
  {
    hide NextOf, Local;
    if !Fetches(c) {
      AsksNothing(c);
    } else if c.server != [] && c.server[0].Batch? {
      var c1 := Received(Asking(c));
      AsksExact(c1);
      AsksFurther(c);
      AsksOneMore(c, NextOf(c).0, NextOf(c).1);
    } else {
      AsksInVain(c);
    }
  }

  lemma AsksOneMore(c: State, c': State, r: Result)
    requires c.server != [] && c.server[0].Batch? && AsksFor(Received(Asking(c)), c', r)
    ensures AsksFor(c, c', r)
  {
    var c1 := Received(Asking(c));
    assert c.server[1..][Taken(c1, c')..] == c.server[Taken(c, c')..];
    assert c'.asked[|c.asked|] == c1.asked[|c.asked|];
  }

  /** At its limit a cursor answers null, asks nothing and is killed. */
  lemma NextAtLimit(c: State)
    requires c.init && !Over(c) && c.limit > 0 && c.currentLimit >= c.limit
    ensures var (c', r) := NextOf(c);
      && r == Null && c'.dead && c'.killed && c'.notified && c'.documents == []
      && c'.server == c.server && c'.asked == c.asked && c'.kills == c.kills + if Live(c) then 1 else 0
  {
  }

  /** Once its first answer is in, a cursor that says null is dead and empty; one that was dead is killed besides. */
  lemma {:induction false} NullIsDead(c: State)
    requires c.init && !c.notified && (c.killed ==> c.dead)
    ensures var (c', r) := NextOf(c);
      && (r == Null ==> c'.dead && c'.notified && c'.documents == [] && c'.cursorIndex == 0)
      && (c.dead ==> r == Null && c'.killed && c'.kills == c.kills)
    decreases |c.server|
  {
    if !Over(c) && c.server != [] && c.server[0].Batch? && !AtLimit(c) && !Idless(c) && NeedsMore(c) {
      NullIsDead(Received(Asking(c)));
    }
  }

  /** A query without results ends the cursor at once: null, notified, but not marked dead. */
  lemma EmptyResult(c: State)
    requires !c.init && !Over(c) && c.server != [] && c.server[0] == Batch([], 0)
    ensures var (c', r) := NextOf(c);
      r == Null && c'.init && c'.notified && !c'.dead && c'.documents == [] && c'.kills == c.kills
  {
  }

  /** A cursor that was never asked anything is not reset by a rewind: one killed before stays killed. */
  lemma UnopenedRewind(c: State, server: seq<Answer>)
    requires !c.init
    ensures Rewound(c, server) == c.(server := server)
  {
  }

  // ---------- no cursor is left behind ----------

  /** Nobody was killed while the cursor lives; once it is over the server keeps nothing it was not told to kill. */
  predicate Tidy(c: State, kills: nat) {
    if Over(c) then c.kills >= kills && (Live(c) ==> c.kills > kills) else c.kills == kills
  }

  lemma {:induction false} NextTidy(c: State, kills: nat)
    requires Tidy(c, kills)
    ensures Tidy(NextOf(c).0, kills)
    decreases |c.server|, if c.init then 0 else 1
  {
    if !Over(c) && c.server != [] && c.server[0].Batch? {
      if !c.init {
        NextTidy(Received(c.(init := true)), kills);
      } else if !AtLimit(c) && !Idless(c) && NeedsMore(c) {
        NextTidy(Received(Asking(c)), kills);
      }
    }
  }

  /**
   * From a new or rewound cursor, whatever is called and whatever the server answers: nothing is killed while the
   * cursor lives, and once it is over, a cursor the server still keeps has been killed.
   */
  lemma {:induction false} NoCursorIsLeft(c: State, calls: seq<Call>)
    requires !Over(c)
    ensures Tidy(Calls(c, calls).0, c.kills)
    decreases |calls|
  {
    hide NextOf;
    if calls == [] {
    } else {
      NoCursorIsLeft(c, calls[..|calls| - 1]);
      NextTidy(Calls(c, calls[..|calls| - 1]).0, c.kills);
    }
  }
}
