/** What holds of every sequential run of a session. */
module TransactionProofs {
  import opened Bytes
  import opened Transactions

  /** x, sent after everything in the log, is part of the picture GoodLog draws. */
  ghost predicate Fits(log: seq<Sent>, x: Sent) {
    && (x.autocommitOff ==> x.txnNumber.Some? && (x.starts <==> !InTransaction(log, x.txnNumber)))
    && (!x.autocommitOff ==> !x.starts && x.kind == Ordinary)
    && (x.kind != Ordinary ==> x.autocommitOff && !x.starts)
    && (x.txnNumber.Some? ==> forall y <- log | y.txnNumber == x.txnNumber :: y.autocommitOff == x.autocommitOff)
    && (x.kind == CommitCommand ==>
          forall y <- log | y.kind == CommitCommand && y.txnNumber == x.txnNumber ::
            x.writeConcern == Some(WithMajority(y.writeConcern)))
  }

  /** Some command of the transaction with this number has been sent. */
  ghost predicate InTransaction(log: seq<Sent>, n: Option<nat>) {
    exists y <- log :: y.autocommitOff && y.txnNumber == n
  }

  lemma FirstOfPrefix(log: seq<Sent>, x: Sent, i: nat)
    requires i <= |log|
    ensures i < |log| ==> (FirstOf(log + [x], i) <==> FirstOf(log, i))
    ensures i == |log| ==> (FirstOf(log + [x], i) <==> !InTransaction(log, x.txnNumber))
  {
    var all := log + [x];
    assert forall j | 0 <= j < |log| :: all[j] == log[j];
    if i < |log| && FirstOf(all, i) {
      forall j | 0 <= j < i ensures !(log[j].autocommitOff && log[j].txnNumber == log[i].txnNumber) {
        assert all[j] == log[j];
      }
    }
  }

  /** Appending a command that fits keeps the log good. */
  lemma Append(log: seq<Sent>, x: Sent)
    requires GoodLog(log) && Fits(log, x)
    ensures GoodLog(log + [x])
  {
    var all := log + [x];
    forall i | 0 <= i < |all|
      ensures all[i].autocommitOff ==> (all[i].starts <==> FirstOf(all, i))
    {
      FirstOfPrefix(log, x, i);
    }
  }

  lemma MajorityTwice(c: Option<WriteConcern>)
    ensures WithMajority(Some(WithMajority(c))) == WithMajority(c)
  {
  }

  lemma StartedBefore(log: seq<Sent>, n: nat)
    requires Started(log, n) && StartsFirst(log)
    ensures InTransaction(log, Some(n))
  {
    var x :| x in log && x.starts && x.txnNumber == Some(n);
    var i :| 0 <= i < |log| && log[i] == x;
    assert log[i].autocommitOff;
  }

  lemma OwnerOf(log: seq<Sent>, n: nat)
    requires GoodLog(log) && Started(log, n)
    ensures forall y <- log | y.txnNumber == Some(n) :: y.autocommitOff
  {
    StartedBefore(log, n);
    var x :| x in log && x.autocommitOff && x.txnNumber == Some(n);
    var i :| 0 <= i < |log| && log[i] == x;
    forall y | y in log && y.txnNumber == Some(n) ensures y.autocommitOff {
      var j :| 0 <= j < |log| && log[j] == y;
    }
  }

  // ---------- one command through applySession ----------

  /** One more command of a transaction that has started. */
  lemma SendStarted(log: seq<Sent>, n: nat, kind: Kind, concern: Option<WriteConcern>)
    requires GoodLog(log) && NumbersUpTo(log, n) && Started(log, n)
    requires kind == CommitCommand ==>
      forall y <- log | y.kind == CommitCommand && y.txnNumber == Some(n) ::
        concern == Some(WithMajority(y.writeConcern))
    ensures var log' := log + [Sent(kind, Some(n), true, false, concern)];
      && GoodLog(log') && NumbersUpTo(log', n) && Started(log', n)
      && (kind != CommitCommand && NoCommitYet(log, n) ==> NoCommitYet(log', n))
  {
    var x := Sent(kind, Some(n), true, false, concern);
    StartedBefore(log, n);
    OwnerOf(log, n);
    Append(log, x);
    var y :| y in log && y.txnNumber == Some(n) && y.starts;
    assert 1 <= y.txnNumber.value;
    assert y in log + [x];
  }

  /** A command inside an active transaction. */
  lemma SendInside(s: Session, willRetry: bool, primary: bool)
    requires Inv(s) && IsActive(s.state)
    ensures var s' := ApplySession(s, Ordinary, willRetry, primary, None).0;
      Inv(s') && IsActive(s'.state) && s'.txnNumber == s.txnNumber
  {
    hide GoodLog;
    if primary && s.state == InProgress {
      SendStarted(s.log, s.txnNumber, Ordinary, None);
    } else if primary {
      var x := Sent(Ordinary, Some(s.txnNumber), true, true, None);
      Append(s.log, x);
      assert x in s.log + [x];
    }
  }

  /** A plain command outside a transaction closes the finished one. */
  lemma SendOutside(s: Session, primary: bool)
    requires Inv(s) && !IsActive(s.state)
    ensures var s' := ApplySession(s, Ordinary, false, primary, None).0;
      Inv(s') && s'.state == NoTransaction && s'.txnNumber == s.txnNumber
  {
    Append(s.log, Sent(Ordinary, None, false, false, None));
  }

  /** A retryable write outside a transaction: taken is the number it has just taken. */
  lemma {:induction false} SendsOutside(s: Session, taken: nat, n: nat)
    requires !s.illegal && GoodLog(s.log) && !IsActive(s.state) && (s.state == NoTransaction ==> !s.pinned)
    requires taken >= 1 && s.txnNumber == taken && NumbersUpTo(s.log, taken)
    requires Unused(s.log, taken)
    ensures var s' := Sends(s, n);
      && !s'.illegal && GoodLog(s'.log) && NumbersUpTo(s'.log, taken) && s'.txnNumber == taken
      && (forall y <- s'.log | y.txnNumber == Some(taken) :: !y.autocommitOff)
      && (if n == 0 then s' == s else s'.state == NoTransaction && !s'.pinned)
    decreases n
  {
    if n == 0 {
    } else {
      SendsOutside(s, taken, n - 1);
      Append(Sends(s, n - 1).log, Sent(Ordinary, Some(taken), false, false, None));
    }
  }

  lemma {:induction false} SendsInside(s: Session, n: nat)
    requires Inv(s) && IsActive(s.state)
    ensures var s' := Sends(s, n); Inv(s') && IsActive(s'.state) && s'.txnNumber == s.txnNumber
    decreases n
  {
    if n == 0 {
    } else {
      SendsInside(s, n - 1);
      SendInside(Sends(s, n - 1), true, true);
    }
  }

  // ---------- commit and abort ----------

  /** Everything known once the transaction with the current number has started. */
  ghost predicate Running(s: Session) {
    !s.illegal && GoodLog(s.log) && NumbersUpTo(s.log, s.txnNumber) && Started(s.log, s.txnNumber)
  }

  /** The next commit may carry this concern. */
  ghost predicate CommitReady(s: Session, concern: Option<WriteConcern>) {
    NoCommitYet(s.log, s.txnNumber)
    || (CommitsWith(s.log, s.txnNumber, concern) && concern == Some(WithMajority(concern)))
  }

  lemma CommitSent(s: Session, concern: Option<WriteConcern>, r: Reply)
    requires Running(s) && (s.state == InProgress || s.state == Committed) && CommitReady(s, concern)
    ensures var s' := SendEnd(s, CommitCommand, concern, r);
      && Running(s') && s'.state == s.state && s'.txnNumber == s.txnNumber && s'.pinned == s.pinned
      && s'.writeConcern == s.writeConcern && s'.clientConcern == s.clientConcern
      && CommitsWith(s'.log, s'.txnNumber, concern)
  {
    var y :| y in s.log && y.starts && y.txnNumber == Some(s.txnNumber);
    assert 1 <= y.txnNumber.value;
    if r.Answered? {
      SendStarted(s.log, s.txnNumber, CommitCommand, concern);
    }
  }

  /** A commit outside the two empty cases ends in Committed with the invariant. */
  lemma CommitKeeps(s: Session, first: Reply, second: Reply)
    requires Inv(s) && (s.state == InProgress || s.state == Committed)
    ensures var s' := CommitTransaction(s, first, second).0;
      Inv(s') && s'.state == Committed && s'.txnNumber == s.txnNumber
  {
    hide GoodLog, SendEnd, CommitsWith, NoCommitYet;
    var base := BaseConcern(s);
    MajorityTwice(base);
    var concern := if s.state == Committed then Some(WithMajority(base)) else base;
    CommitsReady(s.log, s.txnNumber, base, concern);
    CommitSent(s, concern, first);
    var s1 := SendEnd(s, CommitCommand, concern, first);
    if ErrorOf(first).Some? && ErrorOf(first).value.retryable {
      MajorityTwice(concern);
      CommitsReady(s1.log, s1.txnNumber, concern, Some(WithMajority(concern)));
      CommitSent(s1.(pinned := false), Some(WithMajority(concern)), second);
      CommitsReady(SendEnd(s1.(pinned := false), CommitCommand, Some(WithMajority(concern)), second).log,
                   s1.txnNumber, Some(WithMajority(concern)), base);
    } else {
      CommitsReady(s1.log, s1.txnNumber, concern, base);
    }
  }

  lemma CommitsReady(log: seq<Sent>, n: nat, a: Option<WriteConcern>, b: Option<WriteConcern>)
    requires WithMajority(a) == WithMajority(b)
    ensures CommitsWith(log, n, a) ==> CommitsWith(log, n, b)
    ensures NoCommitYet(log, n) ==> CommitsWith(log, n, a)
  {
  }

  lemma AbortKeeps(s: Session, first: Reply, second: Reply)
    requires Inv(s) && s.state == InProgress
    ensures var s' := AbortTransaction(s, first, second).0;
      Inv(s') && s'.state == Aborted && s'.txnNumber == s.txnNumber
  {
    hide GoodLog;
    var concern := BaseConcern(s);
    var y :| y in s.log && y.starts && y.txnNumber == Some(s.txnNumber);
    assert 1 <= y.txnNumber.value;
    if first.Answered? {
      SendStarted(s.log, s.txnNumber, AbortCommand, concern);
    }
    var s1 := SendEnd(s, AbortCommand, concern, first);
    if second.Answered? {
      SendStarted(s1.log, s1.txnNumber, AbortCommand, concern);
    }
  }

  // ---------- every event, every run ----------

  /** No event of any kind makes a transition the table forbids, whatever the session went through. */
  lemma {:induction false} StepLegal(s: Session, e: Event)
    requires !s.illegal
    ensures !Step(s, e).illegal
  {
    hide CommitTransaction, AbortTransaction, Sends;
    match e
    case RetryableWrite(n) => SendsLegal(if IsActive(s.state) then s else s.(txnNumber := s.txnNumber + 1), n);
    case Commit(first, second) => EndsLegal(s, first, second);
    case Abort(first, second) => EndsLegal(s, first, second);
    case _ =>
  }

  lemma EndsLegal(s: Session, first: Reply, second: Reply)
    requires !s.illegal
    ensures !CommitTransaction(s, first, second).0.illegal && !AbortTransaction(s, first, second).0.illegal
  {
  }

  lemma {:induction false} SendsLegal(s: Session, n: nat)
    requires !s.illegal
    ensures !Sends(s, n).illegal
    decreases n
  {
    if n == 0 {
    } else {
      SendsLegal(s, n - 1);
    }
  }

  /**
   * The two ways to take a new number without opening a transaction or sending anything. They matter
   * only while a commit may still be sent again.
   */
  predicate TakesNumberSilently(e: Event) {
    e == RetryableWrite(0) || (e.Start? && Unacknowledged(e.concern))
  }

  predicate Clean(s: Session, e: Event) {
    s.state == Committed ==> !TakesNumberSilently(e)
  }

  lemma StepKeeps(s: Session, e: Event)
    requires Inv(s) && Clean(s, e)
    ensures Inv(Step(s, e))
  {
    hide GoodLog, Sends, CommitTransaction, AbortTransaction;
    match e
    case Start(concern) =>
    case Command(primary) =>
      if IsActive(s.state) {
        SendInside(s, false, primary);
      } else {
        SendOutside(s, primary);
      }
    case RetryableWrite(sends) =>
      if IsActive(s.state) {
        SendsInside(s, sends);
      } else {
        SendsOutside(s.(txnNumber := s.txnNumber + 1), s.txnNumber + 1, sends);
      }
    case Commit(first, second) =>
      if s.state == InProgress || s.state == Committed {
        CommitKeeps(s, first, second);
      } else {
        EmptyEnds(s, first, second);
      }
    case Abort(first, second) =>
      if s.state == InProgress {
        AbortKeeps(s, first, second);
      } else {
        EmptyEnds(s, first, second);
      }
    case Pin =>
  }

  lemma EmptyEnds(s: Session, first: Reply, second: Reply)
    requires Inv(s)
    ensures s.state != InProgress && s.state != Committed ==> Inv(CommitTransaction(s, first, second).0)
    ensures s.state != InProgress ==> Inv(AbortTransaction(s, first, second).0)
  {
  }

  /** Every event met the session in a state where it takes no number silently. */
  predicate CleanRun(s: Session, es: seq<Event>) {
    forall k | 0 <= k < |es| :: Clean(Run(s, es[..k]), es[k])
  }

  /** The log is good after every clean run of a new session, and nothing illegal ever happens. */
  lemma {:induction false} RunKeeps(txnNumber: nat, clientConcern: Option<WriteConcern>, es: seq<Event>)
    requires CleanRun(Fresh(txnNumber, clientConcern), es)
    ensures Inv(Run(Fresh(txnNumber, clientConcern), es))
    decreases |es|
  {
    var s := Fresh(txnNumber, clientConcern);
    if es == [] {
    } else {
      var before := es[..|es| - 1];
      assert forall k | 0 <= k < |before| :: before[..k] == es[..k];
      RunKeeps(txnNumber, clientConcern, before);
      StepKeeps(Run(s, before), es[|es| - 1]);
    }
  }

  /** No command of a transaction carries the current number or a later one, unless the log is spoilt already. */
  ghost predicate Astray(s: Session) {
    !StartsFirst(s.log) || forall n: nat | n >= s.txnNumber :: !InTransaction(s.log, Some(n))
  }

  /**
   * However often the commit is repeated and whatever fails, as long as no other command is sent: a further commit that
   * is sent names the transaction that started exactly when no number was taken silently since; otherwise a commit has
   * named, or this one names, a transaction the server never saw.
   */
  lemma {:induction false} RecommitExact(s: Session, es: seq<Event>, first: Reply, second: Reply)
    requires Inv(s) && first.Answered?
    requires forall k | 0 <= k <= |es| :: Run(s, es[..k]).state == Committed
    ensures StartsFirst(CommitTransaction(Run(s, es), first, second).0.log) <==>
      forall e <- es :: !TakesNumberSilently(e)
  {
    hide Step, StartsFirst, OneOwner, MajorityAfterFirst, CommitTransaction;
    assert es[..|es|] == es;
    CommittedRun(s, es);
    if forall e <- es :: !TakesNumberSilently(e) {
      CommitKeeps(Run(s, es), first, second);
    } else {
      AstrayCommit(Run(s, es), first, second);
    }
  }

  /** Between repeated commits the invariant holds until a number is taken silently; from then on the log is astray. */
  lemma {:induction false} CommittedRun(s: Session, es: seq<Event>)
    requires Inv(s) && forall k | 0 <= k <= |es| :: Run(s, es[..k]).state == Committed
    ensures var r := Run(s, es);
      if forall e <- es :: !TakesNumberSilently(e) then Inv(r) else Astray(r) && r.txnNumber >= 1
    decreases |es|
  {
    hide Step, Inv, Astray;
    if es == [] {
    } else {
      var before, e := es[..|es| - 1], es[|es| - 1];
      assert forall k | 0 <= k <= |before| :: before[..k] == es[..k];
      assert es[..|es|] == es && es == before + [e];
      CommittedRun(s, before);
      var r := Run(s, before);
      assert r.state == Committed by {
        assert r == Run(s, es[..|es| - 1]);
      }
      if exists x <- before :: TakesNumberSilently(x) {
        AstrayStays(r, e);
      } else if TakesNumberSilently(e) {
        SilentNumber(r, e);
        GoneAstray(r, e);
      } else {
        StepKeeps(r, e);
      }
    }
  }

  lemma GoneAstray(s: Session, e: Event)
    requires Inv(s) && s.state == Committed && TakesNumberSilently(e)
    ensures Astray(Step(s, e)) && Step(s, e).txnNumber >= 1
  {
    hide GoodLog;
    SilentNumber(s, e);
  }

  lemma AstrayStays(s: Session, e: Event)
    requires Astray(s) && s.txnNumber >= 1 && s.state == Committed && Step(s, e).state == Committed
    ensures Astray(Step(s, e)) && Step(s, e).txnNumber >= 1
  {
    hide StartsFirst;
    match e
    case Commit(first, second) => AstrayCommits(s, first, second);
    case RetryableWrite(sends) =>
      SendsEnd(s.(txnNumber := s.txnNumber + 1), sends);
    case _ =>
  }

  /** A write that is sent ends the belief that the transaction may be committed again. */
  lemma {:induction false} SendsEnd(s: Session, n: nat)
    requires !IsActive(s.state)
    ensures !IsActive(Sends(s, n).state)
    ensures if n == 0 then Sends(s, n) == s else Sends(s, n).state != Committed
    decreases n
  {
    if n == 0 {
    } else {
      SendsEnd(s, n - 1);
    }
  }

  lemma AstrayCommits(s: Session, first: Reply, second: Reply)
    requires Astray(s) && s.txnNumber >= 1 && s.state == Committed
    ensures var r := CommitTransaction(s, first, second).0; Astray(r) && r.txnNumber == s.txnNumber
  {
    hide StartsFirst;
    var concern := Some(WithMajority(BaseConcern(s)));
    AstraySend(s, concern, first);
    var s1 := SendEnd(s, CommitCommand, concern, first);
    AstraySend(s1.(pinned := false), Some(WithMajority(concern)), second);
  }

  /** One send of a commit, answered or not, leaves the log astray. */
  lemma AstraySend(s: Session, concern: Option<WriteConcern>, r: Reply)
    requires Astray(s) && s.txnNumber >= 1 && s.state == Committed
    ensures var s1 := SendEnd(s, CommitCommand, concern, r);
      && Astray(s1) && s1.txnNumber == s.txnNumber && s1.state == Committed && s.log <= s1.log
      && (r.Answered? ==> !StartsFirst(s1.log))
  {
    if r.Answered? {
      var x := Sent(CommitCommand, Some(s.txnNumber), true, false, concern);
      var s1 := SendEnd(s, CommitCommand, concern, r);
      assert s1.log == s.log + [x] && s1.log[|s.log|] == x;
      FirstOfPrefix(s.log, x, |s.log|);
      if StartsFirst(s1.log) {
        StartsFirstPrefix(s.log, s1.log);
      }
    }
  }

  lemma AstrayCommit(s: Session, first: Reply, second: Reply)
    requires Astray(s) && s.txnNumber >= 1 && s.state == Committed && first.Answered?
    ensures !StartsFirst(CommitTransaction(s, first, second).0.log)
  {
    hide StartsFirst, Astray;
    var concern := Some(WithMajority(BaseConcern(s)));
    AstraySend(s, concern, first);
    CommitExtends(s, first, second);
    if StartsFirst(CommitTransaction(s, first, second).0.log) {
      StartsFirstPrefix(SendEnd(s, CommitCommand, concern, first).log, CommitTransaction(s, first, second).0.log);
    }
  }

  lemma CommitExtends(s: Session, first: Reply, second: Reply)
    requires s.state == Committed
    ensures SendEnd(s, CommitCommand, Some(WithMajority(BaseConcern(s))), first).log
      <= CommitTransaction(s, first, second).0.log
  {
  }

  lemma SilentNumber(s: Session, e: Event)
    requires Inv(s) && s.state == Committed && TakesNumberSilently(e)
    ensures Step(s, e) == s.(txnNumber := s.txnNumber + 1)
    ensures !InTransaction(s.log, Some(s.txnNumber + 1))
  {
    assert Sends(s.(txnNumber := s.txnNumber + 1), 0) == s.(txnNumber := s.txnNumber + 1);
  }

  lemma StartsFirstPrefix(a: seq<Sent>, b: seq<Sent>)
    requires a <= b && StartsFirst(b)
    ensures StartsFirst(a)
  {
    forall i | 0 <= i < |a|
      ensures a[i] == b[i] && (FirstOf(a, i) <==> FirstOf(b, i))
    {
      assert forall j | 0 <= j < |a| :: a[j] == b[j];
    }
  }

  /** While a transaction is active the number stays; a new one takes a number above all it has sent. */
  lemma NumbersAdvance(s: Session, e: Event)
    requires Inv(s)
    ensures Step(s, e).txnNumber >= s.txnNumber
    ensures IsActive(s.state) && IsActive(Step(s, e).state) ==> Step(s, e).txnNumber == s.txnNumber
    ensures !IsActive(s.state) && IsActive(Step(s, e).state) ==>
      e.Start? && forall x <- s.log | x.txnNumber.Some? :: x.txnNumber.value < Step(s, e).txnNumber
  {
    hide GoodLog, CommitTransaction, AbortTransaction, Sends;
    match e
    case RetryableWrite(n) => SendsNumber(if IsActive(s.state) then s else s.(txnNumber := s.txnNumber + 1), n);
    case Commit(first, second) => CommitNumber(s, first, second);
    case Abort(first, second) => AbortNumber(s, first, second);
    case _ =>
  }

  lemma CommitNumber(s: Session, first: Reply, second: Reply)
    ensures CommitTransaction(s, first, second).0.txnNumber == s.txnNumber
    ensures !IsActive(s.state) ==> !IsActive(CommitTransaction(s, first, second).0.state)
  {
  }

  lemma AbortNumber(s: Session, first: Reply, second: Reply)
    ensures AbortTransaction(s, first, second).0.txnNumber == s.txnNumber
    ensures !IsActive(s.state) ==> !IsActive(AbortTransaction(s, first, second).0.state)
  {
  }

  lemma {:induction false} SendsNumber(s: Session, n: nat)
    ensures Sends(s, n).txnNumber == s.txnNumber
    ensures !IsActive(s.state) ==> !IsActive(Sends(s, n).state)
    decreases n
  {
    if n == 0 {
    } else {
      SendsNumber(s, n - 1);
    }
  }

  /** Every number sent is above n0, and so is the current one once a transaction or a retryable write took it. */
  ghost predicate Above(s: Session, n0: nat) {
    && n0 <= s.txnNumber && (s.state != NoTransaction ==> n0 < s.txnNumber)
    && forall x <- s.log | x.txnNumber.Some? :: n0 < x.txnNumber.value <= s.txnNumber
  }

  lemma {:induction false} SendsAbove(s: Session, n0: nat, n: nat)
    requires Above(s, n0) && n0 < s.txnNumber
    ensures Above(Sends(s, n), n0)
    decreases n
  {
    if n == 0 {
    } else {
      SendsAbove(s, n0, n - 1);
      SendsNumber(s, n - 1);
    }
  }

  lemma SendAbove(s: Session, n0: nat, kind: Kind, concern: Option<WriteConcern>, r: Reply)
    requires Above(s, n0) && n0 < s.txnNumber
    ensures Above(SendEnd(s, kind, concern, r), n0) && SendEnd(s, kind, concern, r).txnNumber == s.txnNumber
  {
  }

  lemma CommitAbove(s: Session, n0: nat, first: Reply, second: Reply)
    requires Above(s, n0)
    ensures Above(CommitTransaction(s, first, second).0, n0)
  {
    hide SendEnd, CommitHandler;
    if s.state == InProgress || s.state == Committed {
      var base := BaseConcern(s);
      var concern := if s.state == Committed then Some(WithMajority(base)) else base;
      SendAbove(s, n0, CommitCommand, concern, first);
      var s1 := SendEnd(s, CommitCommand, concern, first);
      SendAbove(s1.(pinned := false), n0, CommitCommand, Some(WithMajority(concern)), second);
      var s2 := SendEnd(s1.(pinned := false), CommitCommand, Some(WithMajority(concern)), second);
      HandlerAbove(s1, n0, ErrorOf(first));
      HandlerAbove(s2, n0, ErrorOf(second));
    }
  }

  lemma HandlerAbove(s: Session, n0: nat, error: Option<Err>)
    requires Above(s, n0) && n0 < s.txnNumber
    ensures Above(CommitHandler(s, error).0, n0)
  {
  }

  lemma AbortAbove(s: Session, n0: nat, first: Reply, second: Reply)
    requires Above(s, n0)
    ensures Above(AbortTransaction(s, first, second).0, n0)
  {
    hide SendEnd;
    if s.state == InProgress {
      var concern := BaseConcern(s);
      SendAbove(s, n0, AbortCommand, concern, first);
      SendAbove(SendEnd(s, AbortCommand, concern, first), n0, AbortCommand, concern, second);
    }
  }

  lemma StepAbove(s: Session, n0: nat, e: Event)
    requires Above(s, n0)
    ensures Above(Step(s, e), n0)
  {
    hide CommitTransaction, AbortTransaction, Sends, Above;
    match e
    case Commit(first, second) => CommitAbove(s, n0, first, second);
    case Abort(first, second) => AbortAbove(s, n0, first, second);
    case RetryableWrite(n) => WriteAbove(s, n0, n);
    case _ => OthersAbove(s, n0, e);
  }

  lemma WriteAbove(s: Session, n0: nat, n: nat)
    requires Above(s, n0)
    ensures Above(Step(s, RetryableWrite(n)), n0)
  {
    SendsAbove(if IsActive(s.state) then s else s.(txnNumber := s.txnNumber + 1), n0, n);
  }

  lemma OthersAbove(s: Session, n0: nat, e: Event)
    requires Above(s, n0) && (e.Start? || e.Command? || e.Pin?)
    ensures Above(Step(s, e), n0)
  {
  }

  /** Whatever the run, clean or not, a session sends only numbers above the one its server session came with. */
  lemma {:induction false} RunAbove(n0: nat, clientConcern: Option<WriteConcern>, es: seq<Event>)
    ensures Above(Run(Fresh(n0, clientConcern), es), n0)
    decreases |es|
  {
    hide Step;
    if es == [] {
    } else {
      RunAbove(n0, clientConcern, es[..|es| - 1]);
      StepAbove(Run(Fresh(n0, clientConcern), es[..|es| - 1]), n0, es[|es| - 1]);
    }
  }

  /** So numbers keep increasing when a server session is used again by another client session. */
  lemma ReuseIncreases(n0: nat, a: Option<WriteConcern>, es: seq<Event>, b: Option<WriteConcern>, later: seq<Event>)
    ensures var first := Run(Fresh(n0, a), es);
      var second := Run(Fresh(first.txnNumber, b), later);
      && first.txnNumber <= second.txnNumber
      && forall x <- first.log, y <- second.log | x.txnNumber.Some? && y.txnNumber.Some? ::
           x.txnNumber.value < y.txnNumber.value
  {
    RunAbove(n0, a, es);
    RunAbove(Run(Fresh(n0, a), es).txnNumber, b, later);
  }

  // ---------- where each call leaves the state ----------

  lemma StartLeaves(s: Session, concern: Option<WriteConcern>)
    requires !s.illegal && !IsActive(s.state)
    ensures var (s', o) := StartTransaction(s, concern);
      && !s'.illegal
      && (if Unacknowledged(concern) then o == Refused(UnacknowledgedConcern) && s'.state == s.state
          else o == Done && s'.state == Starting)
  {
  }

  lemma CommitLeaves(s: Session, first: Reply, second: Reply)
    requires !s.illegal && s.state != NoTransaction && s.state != Aborted
    ensures var (s', o) := CommitTransaction(s, first, second);
      !s'.illegal && (s'.state == Committed || s'.state == CommittedEmpty) && (o == Done || o.Failed?)
  {
  }

  lemma AbortLeaves(s: Session, first: Reply, second: Reply)
    requires !s.illegal && IsActive(s.state)
    ensures var (s', o) := AbortTransaction(s, first, second); !s'.illegal && s'.state == Aborted && o == Done
  {
  }
}
