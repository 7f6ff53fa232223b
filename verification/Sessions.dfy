/** Server sessions and their pool, and client sessions (sessions.js). */
module Sessions {
  import opened Bytes
  import opened Transactions

  // ---------- idle time ----------

  const MINUTE := 60_000
  const HOUR := 3_600_000
  const DAY := 86_400_000

  /** The JavaScript remainder: it has the sign of the dividend. */
  function Rem(a: int, b: nat): int
    requires b > 0
  {
    if a >= 0 then a % b else -((-a) % b)
  }

  /** Math.round of idle minutes, days and whole hours taken off first. A missing timeout counts as 0. */
  predicate TimedOut(lastUse: int, now: int, timeoutMinutes: Option<int>) {
    var idleTimeMinutes := (Rem(Rem(now - lastUse, DAY), HOUR) + MINUTE / 2) / MINUTE;
    idleTimeMinutes > (if timeoutMinutes.Some? then timeoutMinutes.value else 0) - 1
  }

  /** Idle less than an hour, a session passes exactly while it has half a minute more than a minute left. */
  lemma PassesExactly(lastUse: int, now: int, timeoutMinutes: int)
    requires 0 <= now - lastUse < HOUR
    ensures !TimedOut(lastUse, now, Some(timeoutMinutes)) <==>
      now - lastUse < (timeoutMinutes - 1) * MINUTE + MINUTE / 2
  {
    var idle := now - lastUse;
    assert idle % DAY == idle && idle % HOUR == idle;
  }

  /** Whole hours of idling are forgotten: an hour makes no difference to the test. */
  lemma HoursForgotten(lastUse: int, now: int, hours: nat, timeoutMinutes: Option<int>)
    requires now >= lastUse
    ensures TimedOut(lastUse, now + hours * HOUR, timeoutMinutes) == TimedOut(lastUse, now, timeoutMinutes)
  {
    var idle := now - lastUse;
    DayOfHours(idle);
    DayOfHours(idle + hours * HOUR);
    HourRemainder(idle + hours * HOUR, idle / HOUR + hours, idle % HOUR);
  }

  lemma DayOfHours(x: nat)
    ensures x % DAY % HOUR == x % HOUR
  {
    var r := x % DAY;
    var d, h := x / DAY, r / HOUR;
    HourRemainder(x, 24 * d + h, r % HOUR);
  }

  lemma HourRemainder(x: int, k: int, q: nat)
    requires x == k * HOUR + q && q < HOUR
    ensures x % HOUR == q
  {
  }

  /** The test errs exactly on sessions idle too long whose idle time past the last whole hour is not. */
  lemma TimedOutExact(lastUse: int, now: int, timeoutMinutes: int)
    requires now >= lastUse && 1 <= timeoutMinutes
    ensures (TimedOut(lastUse, now, Some(timeoutMinutes)) <==>
        now - lastUse >= (timeoutMinutes - 1) * MINUTE + MINUTE / 2)
      <==> (now - lastUse < (timeoutMinutes - 1) * MINUTE + MINUTE / 2
            || (now - lastUse) % HOUR >= (timeoutMinutes - 1) * MINUTE + MINUTE / 2)
  {
    var idle := now - lastUse;
    DayOfHours(idle);
    assert idle % HOUR <= idle;
  }

  // ---------- server sessions ----------

  class ServerSession {
    var lastUse: int
    var txnNumber: nat

    constructor (now: int)
      ensures lastUse == now && txnNumber == 0
    {
      lastUse, txnNumber := now, 0;
    }
  }

  class ServerSessionPool {
    var sessions: seq<ServerSession>
    var timeoutMinutes: Option<int>  // the topology's logicalSessionTimeoutMinutes

    constructor (timeoutMinutes: Option<int>)
      ensures sessions == [] && this.timeoutMinutes == timeoutMinutes
    {
      sessions, this.timeoutMinutes := [], timeoutMinutes;
    }

    predicate Stale(s: ServerSession, now: int)
      reads this, s
    {
      TimedOut(s.lastUse, now, timeoutMinutes)
    }

    /** The first session that has not timed out leaves the pool, and the k stale ones before it are dropped. */
    method Acquire(now: int) returns (session: ServerSession, ghost k: nat)
      modifies this`sessions
      ensures k <= |old(sessions)| && forall i | 0 <= i < k :: Stale(old(sessions)[i], now)
      ensures k < |old(sessions)| ==>
        session == old(sessions)[k] && !Stale(session, now) && sessions == old(sessions)[k + 1..]
      ensures k == |old(sessions)| ==> fresh(session) && session.txnNumber == 0 && sessions == []
    {
      k := 0;
      while |sessions| > 0
        invariant k <= |old(sessions)| && sessions == old(sessions)[k..]
        invariant forall i | 0 <= i < k :: Stale(old(sessions)[i], now)
        decreases |sessions|
      {
        session := sessions[0];
        sessions := sessions[1..];
        if !TimedOut(session.lastUse, now, timeoutMinutes) {
          return;
        }
        k := k + 1;
      }
      session := new ServerSession(now);
    }

    /** Stale sessions leave the back of the pool; a session still good goes to the front. */
    method Release(session: ServerSession, now: int) returns (ghost k: nat)
      modifies this`sessions
      ensures k <= |old(sessions)| && forall i | k <= i < |old(sessions)| :: Stale(old(sessions)[i], now)
      ensures k > 0 ==> !Stale(old(sessions)[k - 1], now)
      ensures sessions == (if Stale(session, now) then [] else [session]) + old(sessions)[..k]
    {
      k := |sessions|;
      while |sessions| > 0
        invariant k <= |old(sessions)| && sessions == old(sessions)[..k]
        invariant forall i | k <= i < |old(sessions)| :: Stale(old(sessions)[i], now)
        decreases |sessions|
      {
        var last := sessions[|sessions| - 1];
        if TimedOut(last.lastUse, now, timeoutMinutes) {
          sessions := sessions[..|sessions| - 1];
          k := k - 1;
        } else {
          break;
        }
      }
      assert [] + old(sessions)[..k] == old(sessions)[..k];
      if !TimedOut(session.lastUse, now, timeoutMinutes) {
        sessions := [session] + sessions;
      }
    }
  }

  // ---------- client sessions ----------

  class ClientSession {
    const clientConcern: Option<WriteConcern>
    var serverSession: ServerSession?
    var hasEnded: bool
    var state: TxnState
    var writeConcern: Option<WriteConcern>
    var pinned: bool
    var log: seq<Sent>
    var illegal: bool

    /** The session as the rules of Transactions see it. */
    ghost function View(): Session
      requires serverSession != null
      reads this, serverSession
    {
      Session(serverSession.txnNumber, state, writeConcern, pinned, clientConcern, log, illegal)
    }

    constructor (acquired: ServerSession, clientConcern: Option<WriteConcern>)
      ensures serverSession == acquired && !hasEnded && View() == Fresh(acquired.txnNumber, clientConcern)
    {
      this.clientConcern := clientConcern;
      serverSession, hasEnded, state, writeConcern, pinned := acquired, false, NoTransaction, None, false;
      log, illegal := [], false;
    }

    method IncrementTransactionNumber()
      requires serverSession != null
      modifies serverSession`txnNumber
      ensures View() == old(View()).(txnNumber := old(View()).txnNumber + 1)
    {
      serverSession.txnNumber := serverSession.txnNumber + 1;
    }

    method TransitionTo(next: TxnState)
      modifies this`state, this`pinned, this`illegal
      ensures serverSession != null ==> View() == Transition(old(View()), next)
    {
      if next in NextStates(state) {
        state := next;
        if state == NoTransaction || state == Starting {
          pinned := false;
        }
      } else {
        illegal := true;
      }
    }

    method StartTransaction(concern: Option<WriteConcern>) returns (o: Outcome)
      modifies this, serverSession
      ensures serverSession == old(serverSession) && hasEnded == old(hasEnded)
      ensures serverSession == null ==> o == Refused(SessionEnded) && unchanged(this)
      ensures serverSession != null ==> (View(), o) == Transactions.StartTransaction(old(View()), concern)
    {
      if serverSession == null {
        return Refused(SessionEnded);
      }
      if state == Starting || state == InProgress {
        return Refused(AlreadyInProgress);
      }
      IncrementTransactionNumber();
      if Unacknowledged(concern) {
        return Refused(UnacknowledgedConcern);
      }
      state, writeConcern, pinned := NoTransaction, concern, false;
      TransitionTo(Starting);
      o := Done;
    }

    method ApplySession(kind: Kind, willRetryWrite: bool, primary: bool, concern: Option<WriteConcern>, now: int)
      returns (o: Outcome)
      modifies this, serverSession
      ensures serverSession == old(serverSession) && hasEnded == old(hasEnded)
      ensures serverSession == null ==> o == Refused(SessionEnded) && unchanged(this)
      ensures serverSession != null ==>
        && (View(), o) == Transactions.ApplySession(old(View()), kind, willRetryWrite, primary, concern)
        && serverSession.lastUse == now
    {
      if serverSession == null {
        return Refused(SessionEnded);
      }
      serverSession.lastUse := now;
      var inTransaction := state == Starting || state == InProgress || kind != Ordinary;
      var number: Option<nat> := None;
      if serverSession.txnNumber != 0 && (willRetryWrite || inTransaction) {
        number := Some(serverSession.txnNumber);
      }
      if !inTransaction {
        if state != NoTransaction {
          TransitionTo(NoTransaction);
        }
        log := log + [Sent(kind, number, false, false, concern)];
        return Done;
      }
      if !primary {
        return Refused(NotPrimary);
      }
      var starts := state == Starting;
      if starts {
        TransitionTo(InProgress);
      }
      log := log + [Sent(kind, number, true, starts, concern)];
      o := Done;
    }

    method SendEnd(kind: Kind, concern: Option<WriteConcern>, r: Reply, now: int)
      requires serverSession != null
      modifies this, serverSession
      ensures serverSession == old(serverSession) && hasEnded == old(hasEnded)
      ensures View() == Transactions.SendEnd(old(View()), kind, concern, r)
    {
      if r.Answered? {
        var o := ApplySession(kind, false, true, concern, now);
      }
    }

    method CommitHandler(error: Option<Err>) returns (o: Outcome)
      requires serverSession != null
      modifies this`state, this`pinned, this`illegal
      ensures (View(), o) == Transactions.CommitHandler(old(View()), error)
    {
      TransitionTo(Committed);
      if error.None? {
        return Done;
      }
      if InDoubt(error.value) && !error.value.settled {
        pinned := false;
      }
      o := Failed(Relabelled(error.value));
    }

    method CommitTransaction(first: Reply, second: Reply, now: int) returns (o: Outcome)
      modifies this, serverSession
      ensures serverSession == old(serverSession) && hasEnded == old(hasEnded)
      ensures serverSession == null ==> o == Refused(SessionEnded) && unchanged(this)
      ensures serverSession != null ==> (View(), o) == Transactions.CommitTransaction(old(View()), first, second)
    {
      hide Transactions.SendEnd, Transactions.CommitHandler, WithMajority;
      if serverSession == null {
        return Refused(SessionEnded);
      }
      if state == NoTransaction {
        return Refused(NotStarted);
      }
      if state == Starting || state == CommittedEmpty {
        TransitionTo(CommittedEmpty);
        return Done;
      }
      if state == Aborted {
        return Refused(CommitAfterAbort);
      }
      var concern := if writeConcern.Some? then writeConcern else clientConcern;
      if state == Committed {
        concern := Some(WithMajority(concern));
      }
      SendEnd(CommitCommand, concern, first, now);
      var error := ErrorOf(first);
      if error.Some? && error.value.retryable {
        pinned := false;
        SendEnd(CommitCommand, Some(WithMajority(concern)), second, now);
        o := CommitHandler(ErrorOf(second));
      } else {
        o := CommitHandler(error);
      }
    }

    method AbortTransaction(first: Reply, second: Reply, now: int) returns (o: Outcome)
      modifies this, serverSession
      ensures serverSession == old(serverSession) && hasEnded == old(hasEnded)
      ensures serverSession == null ==> o == Refused(SessionEnded) && unchanged(this)
      ensures serverSession != null ==> (View(), o) == Transactions.AbortTransaction(old(View()), first, second)
    {
      if serverSession == null {
        return Refused(SessionEnded);
      }
      if state == NoTransaction {
        return Refused(NotStarted);
      }
      if state == Starting {
        TransitionTo(Aborted);
        return Done;
      }
      if state == Aborted {
        return Refused(AbortTwice);
      }
      if state == Committed || state == CommittedEmpty {
        return Refused(AbortAfterCommit);
      }
      var concern := if writeConcern.Some? then writeConcern else clientConcern;
      SendEnd(AbortCommand, concern, first, now);
      var error := ErrorOf(first);
      if error.Some? && error.value.retryable {
        SendEnd(AbortCommand, concern, second, now);
      }
      TransitionTo(Aborted);
      o := Done;
    }

    /** What ending a session does first. */
    method AbortIfActive(first: Reply, second: Reply, now: int)
      requires serverSession != null
      modifies this, serverSession
      ensures serverSession == old(serverSession) && hasEnded == old(hasEnded)
      ensures old(IsActive(state)) ==>
        state == Aborted && log == Transactions.AbortTransaction(old(View()), first, second).0.log
      ensures !old(IsActive(state)) ==> state == old(state) && log == old(log)
    {
      if state == Starting || state == InProgress {
        var o := AbortTransaction(first, second, now);
      }
    }

    /** One step of a sequential user. */
    method Perform(e: Event, now: int)
      requires serverSession != null
      modifies this, serverSession
      ensures serverSession == old(serverSession) && hasEnded == old(hasEnded)
      ensures View() == Step(old(View()), e)
    {
      var o;
      match e
      case Start(concern) => o := StartTransaction(concern);
      case Command(primary) => o := ApplySession(Ordinary, false, primary, None, now);
      case RetryableWrite(sends) =>
        if state != Starting && state != InProgress {
          IncrementTransactionNumber();
        }
        ghost var s := View();
        for i := 0 to sends
          invariant serverSession == old(serverSession) && hasEnded == old(hasEnded)
          invariant View() == Sends(s, i)
        {
          o := ApplySession(Ordinary, true, true, None, now);
        }
      case Commit(first, second) => o := CommitTransaction(first, second, now);
      case Abort(first, second) => o := AbortTransaction(first, second, now);
      case Pin =>
        if state == Starting || state == InProgress {
          pinned := true;
        }
    }
  }

  // ---------- who owns which server session ----------

  ghost predicate Distinct<T>(s: seq<T>) {
    forall i, j | 0 <= i < j < |s| :: s[i] != s[j]
  }

  /** The sessions of one deployment: those in use by clients and those waiting in the pool. */
  class SessionRegistry {
    const pool: ServerSessionPool
    var sessions: seq<ClientSession>

    /** No server session is held twice: not by two clients, not by a client and the pool, not twice in the pool. */
    ghost predicate Valid()
      reads this, pool, sessions
    {
      && Distinct(sessions) && Distinct(pool.sessions)
      && (forall c <- sessions :: c.serverSession != null && !c.hasEnded)
      && (forall c <- sessions, d <- sessions | c != d :: c.serverSession != d.serverSession)
      && (forall c <- sessions :: c.serverSession !in pool.sessions)
    }

    constructor (timeoutMinutes: Option<int>)
      ensures Valid() && sessions == [] && fresh(pool) && pool.sessions == []
    {
      pool := new ServerSessionPool(timeoutMinutes);
      sessions := [];
    }

    /** A new client session owns the first pooled server session still good, or a new one; it starts afresh. */
    method StartSession(clientConcern: Option<WriteConcern>, now: int) returns (c: ClientSession, ghost k: nat)
      requires Valid()
      modifies this`sessions, pool`sessions
      ensures Valid() && fresh(c) && sessions == old(sessions) + [c]
      ensures k <= |old(pool.sessions)| && forall i | 0 <= i < k :: pool.Stale(old(pool.sessions)[i], now)
      ensures if k < |old(pool.sessions)| then
          && c.serverSession == old(pool.sessions)[k] && !pool.Stale(c.serverSession, now)
          && pool.sessions == old(pool.sessions)[k + 1..]
        else fresh(c.serverSession) && c.serverSession.txnNumber == 0 && pool.sessions == []
      ensures c.View() == Fresh(c.serverSession.txnNumber, clientConcern)
    {
      var acquired;
      acquired, k := pool.Acquire(now);
      c := new ClientSession(acquired, clientConcern);
      sessions := sessions + [c];
    }

    /**
     * A transaction still active is aborted; then the server session goes to the front of the pool if it has not timed
     * out, and stale ones leave the pool's back.
     */
    method EndSession(c: ClientSession, first: Reply, second: Reply, now: int) returns (ghost k: nat)
      requires Valid() && c in sessions
      modifies this`sessions, pool`sessions, c, c.serverSession
      ensures Valid() && c.hasEnded && c.serverSession == null
      ensures forall d :: d in sessions <==> d in old(sessions) && d != c
      ensures k <= |old(pool.sessions)| && forall i | k <= i < |old(pool.sessions)| ::
        pool.Stale(old(pool.sessions)[i], now)
      ensures k > 0 ==> !pool.Stale(old(pool.sessions)[k - 1], now)
      ensures pool.sessions ==
        (if pool.Stale(old(c.serverSession), now) then [] else [old(c.serverSession)]) + old(pool.sessions)[..k]
      ensures old(IsActive(c.state)) ==>
        c.state == Aborted && c.log == Transactions.AbortTransaction(old(c.View()), first, second).0.log
      ensures !old(IsActive(c.state)) ==> c.state == old(c.state) && c.log == old(c.log)
    {
      hide Transactions.AbortTransaction;
      if c.hasEnded {
        return;
      }
      c.AbortIfActive(first, second, now);
      c.hasEnded := true;
      Remove(c);
      k := pool.Release(c.serverSession, now);
      c.serverSession := null;
    }

    method Remove(c: ClientSession)
      requires Distinct(sessions)
      modifies this`sessions
      ensures Distinct(sessions) && forall d :: d in sessions <==> d in old(sessions) && d != c
    {
      var kept: seq<ClientSession> := [];
      for i := 0 to |sessions|
        invariant Distinct(kept) && forall d :: d in kept <==> d in sessions[..i] && d != c
      {
        assert sessions[..i + 1] == sessions[..i] + [sessions[i]];
        assert sessions[i] !in sessions[..i];
        if sessions[i] != c {
          kept := kept + [sessions[i]];
        }
      }
      assert sessions[..|sessions|] == sessions;
      sessions := kept;
    }
  }
}
