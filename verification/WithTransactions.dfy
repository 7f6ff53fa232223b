/** `withTransaction`: what it runs, what it repeats and what it tells its caller (sessions.js). */
module WithTransactions {
  import opened Bytes
  import opened Transactions
  import TransactionProofs
  import opened Sessions

  const MAX_WITH_TRANSACTION_TIMEOUT := 120_000

  /** What one call of the user's function does to the session before its promise settles. */
  datatype FnRun = FnRun(steps: seq<Event>, error: Option<Err>)

  /** The environment: the n-th run of the function, answer to a commit or abort, and clock reading. */
  datatype World = World(fn: nat -> FnRun, replies: nat -> (Reply, Reply), clock: nat -> int)

  ghost predicate Ticks(w: World) {
    forall i: nat, j: nat | i < j :: w.clock(i) < w.clock(j)
  }

  datatype Settled = Resolved | Rejected(error: Err) | StartRefused(why: Refusal)

  // ---------- what happened, told from the outside ----------

  /** One commit: how it was answered and what the caller of commitTransaction was told. */
  datatype Try = Try(replies: (Reply, Reply), outcome: Outcome)

  /** One attempt at the transaction: a run of the function, then commits or an abort. */
  datatype Pass = Pass(run: FnRun, tries: seq<Try>, abort: Option<(Reply, Reply)>)

  /** The session, and how much of the environment has been used. */
  datatype Moment = Moment(session: Session, runs: nat, answers: nat, readings: nat)

  /** What stays fixed: the environment, the time of the call, and the transaction's write concern. */
  datatype Setting = Setting(world: World, start: int, concern: Option<WriteConcern>) {
    predicate InTime(reading: nat) {
      world.clock(reading) - start < MAX_WITH_TRANSACTION_TIMEOUT
    }
  }

  /** The function has run in a new transaction. */
  function AfterFn(s: Session, run: FnRun, concern: Option<WriteConcern>): Session {
    Run(Transactions.StartTransaction(s, concern).0, run.steps)
  }

  function AfterTries(s: Session, tries: seq<Try>): Session
    decreases |tries|
  {
    if tries == [] then s
    else AfterTries(Transactions.CommitTransaction(s, tries[0].replies.0, tries[0].replies.1).0, tries[1..])
  }

  function AfterPass(s: Session, p: Pass, concern: Option<WriteConcern>): Session {
    var s1 := AfterTries(AfterFn(s, p.run, concern), p.tries);
    if p.abort.Some? then Transactions.AbortTransaction(s1, p.abort.value.0, p.abort.value.1).0 else s1
  }

  function AfterPasses(s: Session, passes: seq<Pass>, concern: Option<WriteConcern>): Session
    decreases |passes|
  {
    if passes == [] then s else AfterPasses(AfterPass(s, passes[0], concern), passes[1..], concern)
  }

  /** The error an attempt ends with: the function's, or that of the last commit. */
  function ErrorOfPass(p: Pass): Option<Err> {
    if p.run.error.Some? then p.run.error
    else if p.tries != [] && p.tries[|p.tries| - 1].outcome.Failed? then Some(p.tries[|p.tries| - 1].outcome.error)
    else None
  }

  predicate UserEnded(s: Session) {
    s.state == NoTransaction || s.state == Committed || s.state == Aborted
  }

  predicate Unknown(o: Outcome) {
    o.Failed? && o.error.isMongoError && o.error.Has(UnknownTransactionCommitResult)
  }

  predicate Transient(e: Err) {
    e.isMongoError && e.Has(TransientTransactionError)
  }

  /**
   * Commits from the moment m, each as answered. All but the last left the outcome unknown with time left; after the
   * last, the outcome is known or the time is up.
   */
  ghost predicate Committing(at: Setting, m: Moment, tries: seq<Try>)
    decreases |tries|
  {
    && tries != []
    && tries[0].replies == at.world.replies(m.answers)
    && var (s, o) := Transactions.CommitTransaction(m.session, tries[0].replies.0, tries[0].replies.1);
    && tries[0].outcome == o
    && (|tries| > 1 <==> Unknown(o) && at.InTime(m.readings))
    && (|tries| > 1 ==> Committing(at, Moment(s, m.runs, m.answers + 1, m.readings + 1), tries[1..]))
  }

  /** The attempt p from the moment m. */
  ghost predicate Attempted(at: Setting, m: Moment, p: Pass) {
    var ran := AfterFn(m.session, p.run, at.concern);
    && p.run == at.world.fn(m.runs)
    && (p.tries != [] <==> p.run.error.None? && !UserEnded(ran))
    && (p.tries != [] ==> Committing(at, m.(session := ran, runs := m.runs + 1), p.tries))
    && p.abort == (if p.run.error.Some? && IsActive(ran.state) then Some(at.world.replies(m.answers)) else None)
  }

  /** The clock reading that decides whether an attempt that failed is made again. */
  function Decisive(m: Moment, p: Pass): nat {
    if p.tries == [] then m.readings else m.readings + |p.tries| - 1
  }

  /** The attempt failed for now only, and time is left. */
  predicate Repeated(at: Setting, m: Moment, p: Pass) {
    ErrorOfPass(p).Some? && Transient(ErrorOfPass(p).value) && at.InTime(Decisive(m, p))
  }

  /** The moment after an attempt that is made again. */
  function Later(at: Setting, m: Moment, p: Pass): Moment {
    Moment(AfterPass(m.session, p, at.concern), m.runs + 1,
           m.answers + |p.tries| + (if p.abort.Some? then 1 else 0), Decisive(m, p) + 1)
  }

  /**
   * The whole story from the moment m: an unacceptable write concern is refused at once; otherwise attempts follow one
   * another exactly as long as they fail for now only and time is left, and the result is that of the last.
   */
  ghost predicate Story(at: Setting, m: Moment, passes: seq<Pass>, r: Settled)
    decreases |passes|
  {
    if passes == [] then Unacknowledged(at.concern) && r == StartRefused(UnacknowledgedConcern)
    else
      && !Unacknowledged(at.concern)
      && Attempted(at, m, passes[0])
      && (|passes| > 1 <==> Repeated(at, m, passes[0]))
      && if |passes| > 1 then Story(at, Later(at, m, passes[0]), passes[1..], r)
         else r == (if ErrorOfPass(passes[0]).Some? then Rejected(ErrorOfPass(passes[0]).value) else Resolved)
  }

  /** What a chain of commits from the moment m, and the attempts it may lead to, come to. */
  ghost predicate Chain(
      at: Setting, m: Moment, tries: seq<Try>, later: seq<Pass>, r: Settled, end: Session, runs: nat)
  {
    && Committing(at, m, tries)
    && var s, last, n := AfterTries(m.session, tries), tries[|tries| - 1].outcome, m.readings + |tries|;
    && (later != [] <==> last.Failed? && Transient(last.error) && at.InTime(n - 1))
    && (later != [] ==> Story(at, Moment(s, m.runs, m.answers + |tries|, n), later, r))
    && (later == [] ==> r == (if last.Failed? then Rejected(last.error) else Resolved))
    && end == AfterPasses(s, later, at.concern) && runs == m.runs + |later|
  }

  /** The commit t is made at the moment m. */
  ghost predicate Tried(at: Setting, m: Moment, t: Try) {
    && t.replies == at.world.replies(m.answers)
    && t.outcome == Transactions.CommitTransaction(m.session, t.replies.0, t.replies.1).1
  }

  /** The moment after a commit that failed with a MongoError. */
  ghost function AfterTry(m: Moment, t: Try): Moment {
    Moment(Transactions.CommitTransaction(m.session, t.replies.0, t.replies.1).0, m.runs, m.answers + 1, m.readings + 1)
  }

  /** A commit that is the last of its chain, followed by another attempt or not. */
  lemma LastTry(at: Setting, m: Moment, t: Try, later: seq<Pass>, r: Settled, end: Session)
    requires Tried(at, m, t) && !(Unknown(t.outcome) && at.InTime(m.readings))
    requires later != [] <==> t.outcome.Failed? && Transient(t.outcome.error) && at.InTime(m.readings)
    requires if later == [] then r == if t.outcome.Failed? then Rejected(t.outcome.error) else Resolved
      else Story(at, AfterTry(m, t), later, r)
    requires end == AfterPasses(AfterTry(m, t).session, later, at.concern)
    ensures Chain(at, m, [t], later, r, end, m.runs + |later|)
  {
    hide Transactions.CommitTransaction, Story, AfterPasses;
    assert [t][1..] == [];
    assert AfterTries(m.session, [t]) == AfterTry(m, t).session;
  }

  /** A commit that is made again. */
  lemma TryAgain(
      at: Setting, m: Moment, t: Try, more: seq<Try>, later: seq<Pass>, r: Settled, end: Session, runs: nat)
    requires Tried(at, m, t) && Unknown(t.outcome) && at.InTime(m.readings)
    requires Chain(at, AfterTry(m, t), more, later, r, end, runs)
    ensures Chain(at, m, [t] + more, later, r, end, runs)
  {
    hide Transactions.CommitTransaction, Story, AfterPasses;
    assert more != [];
    assert ([t] + more)[1..] == more;
  }

  lemma NoMorePasses(s: Session, concern: Option<WriteConcern>)
    ensures AfterPasses(s, [], concern) == s
  {
  }

  /** An attempt and the story that follows it, if it is made again. */
  lemma PassStory(at: Setting, m: Moment, p: Pass, later: seq<Pass>, r: Settled)
    requires !Unacknowledged(at.concern) && Attempted(at, m, p) && (later != [] <==> Repeated(at, m, p))
    requires if later != [] then Story(at, Later(at, m, p), later, r)
      else r == if ErrorOfPass(p).Some? then Rejected(ErrorOfPass(p).value) else Resolved
    ensures Story(at, m, [p] + later, r)
    ensures AfterPasses(m.session, [p] + later, at.concern)
      == AfterPasses(AfterPass(m.session, p, at.concern), later, at.concern)
  {
    hide Attempted, Repeated, AfterPass, Later;
    assert ([p] + later)[1..] == later;
  }

  // ---------- what a story means ----------

  /** A commit that is not refused ends with or without an error. */
  lemma CommitAnswers(s: Session, first: Reply, second: Reply)
    requires s.state != NoTransaction && s.state != Aborted
    ensures var (r, o) := Transactions.CommitTransaction(s, first, second);
      && (o == Done || o.Failed?) && (r.state == Committed || r.state == CommittedEmpty)
  {
    hide Relabelled, WithMajority;
  }

  /** All commits but the last left the outcome unknown; the last one succeeded or failed. */
  lemma {:induction false} CommitsSettle(at: Setting, m: Moment, tries: seq<Try>)
    requires Committing(at, m, tries) && m.session.state != NoTransaction && m.session.state != Aborted
    ensures forall i | 0 <= i < |tries| :: tries[i].replies == at.world.replies(m.answers + i)
    ensures forall i | 0 <= i < |tries| - 1 :: Unknown(tries[i].outcome) && at.InTime(m.readings + i)
    ensures var last := tries[|tries| - 1].outcome;
      && (last == Done || last.Failed?)
      && !(Unknown(last) && at.InTime(m.readings + |tries| - 1))
    decreases |tries|
  {
    hide Transactions.CommitTransaction;
    CommitAnswers(m.session, tries[0].replies.0, tries[0].replies.1);
    if |tries| > 1 {
      var s := Transactions.CommitTransaction(m.session, tries[0].replies.0, tries[0].replies.1).0;
      CommitsSettle(at, Moment(s, m.runs, m.answers + 1, m.readings + 1), tries[1..]);
    }
  }

  /** An attempt ends without an error exactly if the function does and its transaction is ended or committed. */
  lemma PassSettles(at: Setting, m: Moment, p: Pass)
    requires Attempted(at, m, p)
    ensures ErrorOfPass(p).None? <==>
      && at.world.fn(m.runs).error.None?
      && (UserEnded(AfterFn(m.session, p.run, at.concern)) || p.tries[|p.tries| - 1].outcome == Done)
    ensures ErrorOfPass(p).Some? ==>
      Some(ErrorOfPass(p).value) == at.world.fn(m.runs).error
      || (p.tries != [] && p.tries[|p.tries| - 1].outcome == Failed(ErrorOfPass(p).value))
  {
    hide AfterFn, Committing;
    if p.tries != [] {
      CommitsSettle(at, m.(session := AfterFn(m.session, p.run, at.concern), runs := m.runs + 1), p.tries);
    }
  }

  /** The moment at which attempt i begins. */
  function Begins(at: Setting, m: Moment, passes: seq<Pass>, i: nat): Moment
    requires i <= |passes|
    decreases i
  {
    if i == 0 then m else Begins(at, Later(at, m, passes[0]), passes[1..], i - 1)
  }

  /**
   * The result is that of the last attempt, and every attempt before it failed with an error that is transient, with
   * time left; the last did not.
   */
  lemma {:induction false} StorySettles(at: Setting, m: Moment, passes: seq<Pass>, r: Settled)
    requires Story(at, m, passes, r)
    ensures passes == [] <==> Unacknowledged(at.concern)
    ensures r == StartRefused(UnacknowledgedConcern) <==> passes == []
    ensures r == Resolved <==> passes != [] && ErrorOfPass(passes[|passes| - 1]).None?
    ensures passes != [] && ErrorOfPass(passes[|passes| - 1]).Some? ==>
      r == Rejected(ErrorOfPass(passes[|passes| - 1]).value)
    ensures forall i | 0 <= i < |passes| ::
      var b := Begins(at, m, passes, i);
      && Attempted(at, b, passes[i]) && b.runs == m.runs + i
      && (Repeated(at, b, passes[i]) <==> i < |passes| - 1)
    decreases |passes|
  {
    hide Attempted, Repeated, Later;
    if |passes| > 1 {
      StorySettles(at, Later(at, m, passes[0]), passes[1..], r);
      LaterRuns(at, m, passes[0]);
      forall i | 0 < i < |passes|
        ensures var b := Begins(at, m, passes, i);
          && Attempted(at, b, passes[i]) && b.runs == m.runs + i
          && (Repeated(at, b, passes[i]) <==> i < |passes| - 1)
      {
        assert passes[1..][i - 1] == passes[i];
        assert Begins(at, m, passes, i) == Begins(at, Later(at, m, passes[0]), passes[1..], i - 1);
      }
    }
  }

  lemma LaterRuns(at: Setting, m: Moment, p: Pass)
    ensures Later(at, m, p).runs == m.runs + 1
  {
  }

  // ---------- the code ----------

  class TransactionRunner {
    const session: ClientSession
    const world: World
    const start: int
    const concern: Option<WriteConcern>
    var runs: nat      // calls of the user's function so far
    var answers: nat   // commits and aborts so far
    var readings: nat  // clock readings so far

    constructor (session: ClientSession, world: World, concern: Option<WriteConcern>)
      ensures this.session == session && this.world == world && start == world.clock(0)
      ensures runs == answers == 0 && readings == 1 && this.concern == concern
    {
      this.session, this.world, this.concern, start := session, world, concern, world.clock(0);
      runs, answers, readings := 0, 0, 1;
    }

    function At(): Setting {
      Setting(world, start, concern)
    }

    ghost function Now(): Moment
      requires session.serverSession != null
      reads this, session, session.serverSession
    {
      Moment(session.View(), runs, answers, readings)
    }

    /** The time left before the deadline at the next clock reading. */
    ghost function Left(): nat
      reads this
    {
      var elapsed := world.clock(readings) - start;
      if elapsed < MAX_WITH_TRANSACTION_TIMEOUT then MAX_WITH_TRANSACTION_TIMEOUT - elapsed else 0
    }

    ghost predicate Live()
      reads this, session, session.serverSession
    {
      session.serverSession != null && !session.illegal
    }

    /** An error that could be made good by another attempt is handed on only when the time is up. */
    ghost predicate GivenUp(r: Settled)
      reads this
    {
      r.Rejected? && Transient(r.error) ==> !At().InTime(readings)
    }

    method HasNotTimedOut() returns (r: bool)
      requires Ticks(world)
      modifies this`readings
      ensures r == At().InTime(old(readings)) && readings == old(readings) + 1
      ensures r ==> Left() < old(Left())
      ensures Left() <= old(Left()) && (old(Left()) == 0 ==> !r) && (!r ==> !At().InTime(readings))
    {
      r := world.clock(readings) - start < MAX_WITH_TRANSACTION_TIMEOUT;
      readings := readings + 1;
    }

    /** Runs the user's function on the session. */
    method CallFn() returns (error: Option<Err>)
      requires Live()
      modifies this`runs, session, session.serverSession
      ensures Live() && session.serverSession == old(session.serverSession) && runs == old(runs) + 1
      ensures session.View() == Run(old(session.View()), world.fn(old(runs)).steps)
      ensures error == world.fn(old(runs)).error
    {
      hide Step;
      var run := world.fn(runs);
      runs := runs + 1;
      ghost var s := session.View();
      for i := 0 to |run.steps|
        invariant Live() && session.serverSession == old(session.serverSession) && runs == old(runs) + 1
        invariant session.View() == Run(s, run.steps[..i])
      {
        assert run.steps[..i + 1][..i] == run.steps[..i];
        TransactionProofs.StepLegal(session.View(), run.steps[i]);
        session.Perform(run.steps[i], world.clock(readings));
      }
      assert run.steps[..|run.steps|] == run.steps;
      error := run.error;
    }

    lemma StoryStarts(m: Moment, passes: seq<Pass>, r: Settled)
      requires Story(At(), m, passes, r)
      ensures passes == [] <==> Unacknowledged(concern)
    {
    }

    /**
     * Commits, and as long as the outcome is unknown or transient and time is left, commits again or
     * starts over. The number of further runs of the function is bounded by the time used up.
     */
    method AttemptCommit() returns (r: Settled, ghost tries: seq<Try>, ghost later: seq<Pass>)
      requires Live() && Ticks(world) && session.state != NoTransaction && session.state != Aborted
      requires !Unacknowledged(concern)
      modifies this`runs, this`answers, this`readings, session, session.serverSession
      ensures Live() && session.serverSession == old(session.serverSession)
      ensures !IsActive(session.state)
      ensures tries != [] && Chain(At(), old(Now()), tries, later, r, session.View(), runs) && GivenUp(r)
      ensures runs + Left() <= old(runs) + old(Left()) && Left() <= old(Left())
      decreases Left(), 0
    {
      hide Transactions.CommitTransaction, Story, Chain, AfterPasses;
      ghost var m, t := Now(), Try(world.replies(answers), Done);
      TransactionProofs.CommitLeaves(session.View(), world.replies(answers).0, world.replies(answers).1);
      var o := session.CommitTransaction(world.replies(answers).0, world.replies(answers).1, world.clock(readings));
      t := t.(outcome := o);
      tries, later := [t], [];
      answers := answers + 1;
      NoMorePasses(session.View(), concern);
      if o == Done {
        r := Resolved;
        LastTry(At(), m, t, [], r, session.View());
        return;
      }
      if o.error.isMongoError {
        var inTime := HasNotTimedOut();
        if inTime && o.error.Has(UnknownTransactionCommitResult) {
          ghost var more;
          r, more, later := AttemptCommit();
          TryAgain(At(), m, t, more, later, r, session.View(), runs);
          tries := [t] + more;
          return;
        }
        if inTime && o.error.Has(TransientTransactionError) {
          ghost var m1 := Now();
          r, later := Attempt();
          StoryStarts(m1, later, r);
          LastTry(At(), m, t, later, r, session.View());
          return;
        }
      }
      r := Rejected(o.error);
      LastTry(At(), m, t, [], r, session.View());
    }

    /** A transaction still active when the function failed is aborted, whatever becomes of that. */
    method AbortIfActive() returns (ghost abort: Option<(Reply, Reply)>)
      requires Live()
      modifies this`answers, session, session.serverSession
      ensures Live() && session.serverSession == old(session.serverSession) && !IsActive(session.state)
      ensures abort == if old(IsActive(session.state)) then Some(world.replies(old(answers))) else None
      ensures answers == old(answers) + if abort.Some? then 1 else 0
      ensures session.View() ==
        if abort.None? then old(session.View())
        else Transactions.AbortTransaction(old(session.View()), abort.value.0, abort.value.1).0
    {
      hide Transactions.AbortTransaction;
      abort := None;
      if session.state == Starting || session.state == InProgress {
        TransactionProofs.AbortLeaves(session.View(), world.replies(answers).0, world.replies(answers).1);
        var (first, second) := world.replies(answers);
        abort := Some(world.replies(answers));
        var aborted := session.AbortTransaction(first, second, world.clock(readings));
        answers := answers + 1;
      }
    }

    /** A transient error starts another attempt while time is left; any other is handed on. */
    method MaybeRetryOrThrow(error: Err) returns (r: Settled, ghost later: seq<Pass>)
      requires Live() && Ticks(world) && !IsActive(session.state) && !Unacknowledged(concern)
      modifies this`runs, this`answers, this`readings, session, session.serverSession
      ensures Live() && session.serverSession == old(session.serverSession)
      ensures !IsActive(session.state) && GivenUp(r)
      ensures later != [] <==> Transient(error) && At().InTime(old(readings))
      ensures later != [] ==> Story(At(), old(Now()).(readings := old(readings) + 1), later, r)
      ensures later == [] ==> r == Rejected(error)
      ensures session.View() == AfterPasses(old(session.View()), later, concern) && runs == old(runs) + |later|
      ensures runs + Left() <= old(runs) + old(Left()) && Left() <= old(Left())
      decreases Left(), 0
    {
      hide Story;
      later := [];
      if error.isMongoError && error.Has(TransientTransactionError) {
        var inTime := HasNotTimedOut();
        if inTime {
          ghost var m := Now();
          r, later := Attempt();
          StoryStarts(m, later, r);
          return;
        }
      }
      r := Rejected(error);
    }

    /** One attempt: start, run the function, commit; on a transient error with time left, start over. */
    method Attempt() returns (r: Settled, ghost passes: seq<Pass>)
      requires Live() && Ticks(world) && !IsActive(session.state)
      modifies this`runs, this`answers, this`readings, session, session.serverSession
      ensures Live() && session.serverSession == old(session.serverSession)
      ensures !IsActive(session.state)
      ensures Story(At(), old(Now()), passes, r) && GivenUp(r)
      ensures runs == old(runs) + |passes|
      ensures passes != [] ==> session.View() == AfterPasses(old(session.View()), passes, concern)
      ensures passes == [] ==> session.View() == Transactions.StartTransaction(old(session.View()), concern).0
      ensures runs + Left() <= old(runs) + 1 + old(Left()) && Left() <= old(Left())
      decreases Left(), 2
    {
      hide Transactions.StartTransaction, Run, Attempted, Repeated, Later, AfterPasses;
      passes := [];
      TransactionProofs.StartLeaves(session.View(), concern);
      var o := session.StartTransaction(concern);
      if o != Done {
        return StartRefused(o.why), passes;
      }
      var error := CallFn();
      if error.None? {
        r, passes := Succeeded(old(Now()));
      } else {
        r, passes := Failing(old(Now()), error.value);
      }
    }

    /** The function of the attempt that began at `before` failed: its transaction is aborted, if still active. */
    method Failing(ghost before: Moment, error: Err) returns (r: Settled, ghost passes: seq<Pass>)
      requires Live() && Ticks(world) && !Unacknowledged(concern) && world.fn(before.runs).error == Some(error)
      requires before.answers == answers && before.readings == readings && before.runs + 1 == runs
      requires session.View() == AfterFn(before.session, world.fn(before.runs), concern)
      modifies this`runs, this`answers, this`readings, session, session.serverSession
      ensures Live() && session.serverSession == old(session.serverSession)
      ensures !IsActive(session.state)
      ensures Story(At(), before, passes, r) && GivenUp(r) && passes != []
      ensures runs == before.runs + |passes| && session.View() == AfterPasses(before.session, passes, concern)
      ensures runs + Left() <= old(runs) + old(Left()) && Left() <= old(Left())
      decreases Left(), 1
    {
      hide AfterFn, Committing, AfterPasses, Story, Transactions.AbortTransaction;
      ghost var abort := AbortIfActive();
      ghost var later;
      r, later := MaybeRetryOrThrow(error);
      ghost var p := Pass(world.fn(before.runs), [], abort);
      PassStory(At(), before, p, later, r);
      passes := [p] + later;
    }

    /** The function of the attempt that began at `before` did not fail: its transaction is committed, unless ended. */
    method Succeeded(ghost before: Moment) returns (r: Settled, ghost passes: seq<Pass>)
      requires Live() && Ticks(world) && !Unacknowledged(concern) && world.fn(before.runs).error.None?
      requires before.answers == answers && before.readings == readings && before.runs + 1 == runs
      requires session.View() == AfterFn(before.session, world.fn(before.runs), concern)
      modifies this`runs, this`answers, this`readings, session, session.serverSession
      ensures Live() && session.serverSession == old(session.serverSession)
      ensures !IsActive(session.state)
      ensures Story(At(), before, passes, r) && GivenUp(r) && passes != []
      ensures runs == before.runs + |passes| && session.View() == AfterPasses(before.session, passes, concern)
      ensures runs + Left() <= old(runs) + old(Left()) && Left() <= old(Left())
      decreases Left(), 1
    {
      hide AfterFn, Committing, AfterPasses, Story;
      ghost var p := Pass(world.fn(before.runs), [], None);
      if session.state == NoTransaction || session.state == Committed || session.state == Aborted {
        PassStory(At(), before, p, [], Resolved);
        NoMorePasses(AfterPass(before.session, p, concern), concern);
        return Resolved, [p] + [];
      }
      ghost var tries, later;
      r, tries, later := AttemptCommit();
      p := p.(tries := tries);
      PassStory(At(), before, p, later, r);
      passes := [p] + later;
      if r.Rejected? {
        NoMorePasses(session.View(), concern);
        ghost var more;
        r, more := MaybeRetryOrThrow(r.error);
      }
    }
  }

  /** The result, the number of times the user's function was called, and the story behind them. */
  method WithTransaction(session: ClientSession, world: World, concern: Option<WriteConcern>)
    returns (r: Settled, calls: nat, ghost passes: seq<Pass>)
    requires session.serverSession != null && !session.illegal && Ticks(world)
    modifies session, session.serverSession
    ensures session.serverSession == old(session.serverSession) && !session.illegal
    ensures r == StartRefused(AlreadyInProgress) <==> old(IsActive(session.state))
    ensures old(IsActive(session.state)) ==> session.View() == old(session.View())
    ensures !old(IsActive(session.state)) ==> !IsActive(session.state)
    ensures calls == |passes| <= 1 + MAX_WITH_TRANSACTION_TIMEOUT
    ensures !old(IsActive(session.state)) ==>
      && Story(Setting(world, world.clock(0), concern), Moment(old(session.View()), 0, 0, 1), passes, r)
      && (r == Resolved <==> passes != [] && ErrorOfPass(passes[|passes| - 1]).None?)
      && (r.Rejected? <==> passes != [] && ErrorOfPass(passes[|passes| - 1]).Some?)
      && (r.Rejected? ==> Some(r.error) == ErrorOfPass(passes[|passes| - 1]))
      && (passes != [] ==> session.View() == AfterPasses(old(session.View()), passes, concern))
  {
    hide Story, AfterPasses;
    var runner := new TransactionRunner(session, world, concern);
    if session.state == Starting || session.state == InProgress {
      return StartRefused(AlreadyInProgress), 0, [];
    }
    ghost var m := runner.Now();
    r, passes := runner.Attempt();
    calls := runner.runs;
    StorySettles(runner.At(), m, passes, r);
  }
}
