/** What each call of a session puts on the wire, with what on it, and what its caller is told. */
module TransactionEffects {
  import opened Bytes
  import opened Lists
  import opened Transactions

  // ---------- the table of transitions, column by column ----------

  /** From where a state can be reached. */
  predicate MayReach(s: TxnState, next: TxnState) {
    match next
    case NoTransaction => !IsActive(s)
    case Starting => s == NoTransaction || s == Committed || s == Aborted
    case InProgress => IsActive(s)
    case Committed => IsActive(s) || s == Committed
    case CommittedEmpty => s == Starting || s == Committed || s == CommittedEmpty
    case Aborted => IsActive(s)
  }

  /** A transition is made exactly if the table allows it; leaving or starting a transaction gives up its server. */
  lemma TransitionExact(s: Session, next: TxnState)
    ensures Transition(s, next) ==
      if !MayReach(s.state, next) then s.(illegal := true)
      else s.(state := next, pinned := if next == NoTransaction || next == Starting then false else s.pinned)
  {
  }

  /** Only an active transaction is pinned to a server. */
  lemma PinEffect(s: Session)
    ensures Step(s, Pin) == s.(pinned := s.pinned || IsActive(s.state))
  {
  }

  // ---------- starting, and commands ----------

  /** A start takes the next number and sends nothing; one refused for its write concern takes the number too. */
  lemma StartEffect(s: Session, concern: Option<WriteConcern>)
    ensures var (r, o) := StartTransaction(s, concern);
      if IsActive(s.state) then r == s && o == Refused(AlreadyInProgress)
      else if concern.Some? && concern.value.w.Nodes? && concern.value.w.count <= 0 then
        r == s.(txnNumber := s.txnNumber + 1) && o == Refused(UnacknowledgedConcern)
      else
        && o == Done
        && r == s.(txnNumber := s.txnNumber + 1, state := Starting, writeConcern := concern, pinned := false)
  {
  }

  /**
   * A command in a transaction is sent under its number, the first one starting it; one that may not read from the
   * primary is refused. Outside, it is sent plainly, and a finished transaction is forgotten.
   */
  lemma CommandEffect(s: Session, willRetryWrite: bool, primary: bool, concern: Option<WriteConcern>)
    requires s.txnNumber >= 1 || !IsActive(s.state)
    ensures var (r, o) := ApplySession(s, Ordinary, willRetryWrite, primary, concern);
      if IsActive(s.state) && !primary then r == s && o == Refused(NotPrimary)
      else if IsActive(s.state) then
        && o == Done
        && r == s.(state := InProgress,
                   log := s.log + [Sent(Ordinary, Some(s.txnNumber), true, s.state == Starting, concern)])
      else
        && o == Done && (!s.illegal ==> !r.illegal)
        && (var number := if willRetryWrite && s.txnNumber >= 1 then Some(s.txnNumber) else None;
            r.log == s.log + [Sent(Ordinary, number, false, false, concern)])
        && (s.state == Committed || s.state == CommittedEmpty || s.state == Aborted || s.state == NoTransaction)
        && r.state == NoTransaction && r.txnNumber == s.txnNumber && r.writeConcern == s.writeConcern
  {
  }

  /** A retryable write outside a transaction: each of its sends carries the one number it took. */
  lemma {:induction false} WriteEffect(s: Session, n: nat)
    requires !IsActive(s.state)
    ensures var r := Step(s, RetryableWrite(n));
      && r.txnNumber == s.txnNumber + 1 && !IsActive(r.state)
      && r.log == s.log + seq(n, i => Sent(Ordinary, Some(s.txnNumber + 1), false, false, None))
  {
    hide ApplySession;
    SentOften(s.(txnNumber := s.txnNumber + 1), n);
  }

  lemma {:induction false} SentOften(s: Session, n: nat)
    requires !IsActive(s.state) && s.txnNumber >= 1
    ensures var r := Sends(s, n);
      && r.txnNumber == s.txnNumber && !IsActive(r.state)
      && r.log == s.log + seq(n, i => Sent(Ordinary, Some(s.txnNumber), false, false, None))
    decreases n
  {
    hide ApplySession;
    var x := Sent(Ordinary, Some(s.txnNumber), false, false, None);
    if n == 0 {
      assert s.log + seq(0, i => x) == s.log;
    } else {
      SentOften(s, n - 1);
      CommandEffect(Sends(s, n - 1), true, true, None);
      assert seq(n, i => x) == seq(n - 1, i => x) + [x];
      assert Sends(s, n).log == s.log + seq(n - 1, i => x) + [x];
    }
  }

  // ---------- committing ----------

  predicate Again(r: Reply) {
    ErrorOf(r).Some? && ErrorOf(r).value.retryable
  }

  /** The sends of a commit or abort: one for each of the two attempts made that reaches the wire. */
  function EndSends(kind: Kind, number: nat, first: Reply, concern: Option<WriteConcern>,
                    second: Reply, later: Option<WriteConcern>): seq<Sent>
  {
    (if first.Answered? then [Sent(kind, Some(number), true, false, concern)] else [])
    + if Again(first) && second.Answered? then [Sent(kind, Some(number), true, false, later)] else []
  }

  /** w: majority, the given wtimeout or ten seconds, the given journal flag. */
  predicate AsksForMajority(c: Option<WriteConcern>, base: Option<WriteConcern>) {
    && c.Some? && c.value.w == Majority
    && c.value.wtimeout == Some(if base.Some? && base.value.wtimeout.Some? then base.value.wtimeout.value else 10000)
    && c.value.journal == if base.Some? then base.value.journal else None
  }

  function LabelsOf(e: Err): seq<Label> {
    if e.labels.Some? then e.labels.value else []
  }

  /** How often an error in doubt gains a label: one Transient is taken off, and Unknown put on unless it is settled. */
  function Gained(e: Err, l: Label): int {
    if l == UnknownTransactionCommitResult && !e.settled then 1
    else if l == TransientTransactionError && l in LabelsOf(e) then -1
    else 0
  }

  /** The error a commit leaves with: relabelled if it leaves the outcome in doubt, and passed on as it is otherwise. */
  ghost predicate LabelledFor(e: Err, r: Err) {
    if e.network || e.writeConcernError || e.retryable then
      && r == e.(labels := r.labels) && r.labels.Some?
      && forall l: Label :: Count(r.labels.value, l) == Count(LabelsOf(e), l) + Gained(e, l)
    else r == e
  }

  lemma {:induction false} WithoutCounts(xs: seq<Label>, x: Label, y: Label)
    ensures Count(Without(xs, x), y) == Count(xs, y) - if x == y && x in xs then 1 else 0
  {
    if xs == [] {
    } else if xs[0] != x {
      assert xs == [xs[0]] + xs[1..];
      WithoutCounts(xs[1..], x, y);
      assert ([xs[0]] + Without(xs[1..], x))[1..] == Without(xs[1..], x);
    }
  }

  lemma RelabelledExact(e: Err)
    ensures LabelledFor(e, Relabelled(e))
  {
    hide Count, Without;
    var kept, unknown := Without(LabelsOf(e), TransientTransactionError), [UnknownTransactionCommitResult];
    forall l: Label
      ensures Count(kept, l) ==
        Count(LabelsOf(e), l) - if l == TransientTransactionError && l in LabelsOf(e) then 1 else 0
      ensures Count(kept + unknown, l) == Count(kept, l) + if l == UnknownTransactionCommitResult then 1 else 0
    {
      WithoutCounts(LabelsOf(e), TransientTransactionError, l);
      CountAppend(kept, unknown, l);
      OneUnknown(l);
    }
  }

  lemma OneUnknown(l: Label)
    ensures Count([UnknownTransactionCommitResult], l) == if l == UnknownTransactionCommitResult then 1 else 0
  {
    assert [UnknownTransactionCommitResult][1..] == [];
  }

  /** A commit's caller knows it is unknown exactly if the error left it in doubt or was so labelled already. */
  lemma UnknownExact(e: Err)
    ensures Relabelled(e).Has(UnknownTransactionCommitResult) <==>
      (InDoubt(e) && !e.settled) || e.Has(UnknownTransactionCommitResult)
  {
    RelabelledExact(e);
    CountIn(LabelsOf(e), UnknownTransactionCommitResult);
    CountIn(LabelsOf(Relabelled(e)), UnknownTransactionCommitResult);
  }

  /** One attempt to send a commit or an abort of a transaction. */
  lemma EndSent(s: Session, kind: Kind, concern: Option<WriteConcern>, r: Reply)
    requires kind != Ordinary && s.txnNumber >= 1 && s.state != Starting
    ensures SendEnd(s, kind, concern, r) ==
      if r.Answered? then s.(log := s.log + [Sent(kind, Some(s.txnNumber), true, false, concern)]) else s
  {
  }

  /**
   * Committing a transaction in progress, or committing again, sends one commit for each attempt that reaches the
   * wire: the first with the transaction's concern, a majority if it was committed before, the second, made exactly
   * after a retryable error, with a majority. The caller is told the last error, if any.
   */
  lemma CommitEffect(s: Session, first: Reply, second: Reply)
    returns (concern: Option<WriteConcern>, later: WriteConcern)
    requires (s.state == InProgress || s.state == Committed) && s.txnNumber >= 1
    ensures if s.state == Committed then AsksForMajority(concern, BaseConcern(s)) else concern == BaseConcern(s)
    ensures AsksForMajority(Some(later), concern)
    ensures var (r, o) := CommitTransaction(s, first, second);
      var error := ErrorOf(if Again(first) then second else first);
      && r.log == s.log + EndSends(CommitCommand, s.txnNumber, first, concern, second, Some(later))
      && r == s.(state := Committed, log := r.log, pinned := r.pinned)
      && (r.pinned <==> s.pinned && !Again(first) && !(error.Some? && InDoubt(error.value) && !error.value.settled))
      && (error.None? ==> o == Done)
      && (error.Some? ==> o.Failed? && LabelledFor(error.value, o.error))
  {
    hide SendEnd, CommitHandler, LabelledFor, InDoubt;
    concern := if s.state == Committed then Some(WithMajority(BaseConcern(s))) else BaseConcern(s);
    later := WithMajority(concern);
    EndSent(s, CommitCommand, concern, first);
    var s1 := SendEnd(s, CommitCommand, concern, first);
    assert s.log + [] == s.log && s1.log + [] == s1.log;
    if Again(first) {
      EndSent(s1.(pinned := false), CommitCommand, Some(later), second);
      HandlerEffect(SendEnd(s1.(pinned := false), CommitCommand, Some(later), second), ErrorOf(second));
    } else {
      HandlerEffect(s1, ErrorOf(first));
    }
  }

  /** How a commit ends once its last answer is in. */
  lemma HandlerEffect(s: Session, error: Option<Err>)
    requires s.state == InProgress || s.state == Committed
    ensures var (r, o) := CommitHandler(s, error);
      && r == s.(state := Committed, pinned := r.pinned)
      && (r.pinned <==> s.pinned && !(error.Some? && InDoubt(error.value) && !error.value.settled))
      && (error.None? ==> o == Done)
      && (error.Some? ==> o.Failed? && LabelledFor(error.value, o.error))
  {
    hide LabelledFor, Relabelled;
    if error.Some? {
      RelabelledExact(error.value);
    }
  }

  /** A commit sends nothing if nothing was sent in the transaction, and is refused without one or after an abort. */
  lemma EmptyCommitEffect(s: Session, first: Reply, second: Reply)
    requires s.state != InProgress && s.state != Committed
    ensures var (r, o) := CommitTransaction(s, first, second);
      && r.log == s.log && r.txnNumber == s.txnNumber
      && (s.state == Starting || s.state == CommittedEmpty ==>
            o == Done && r.state == CommittedEmpty && (r.illegal <==> s.illegal))
      && (s.state == NoTransaction ==> o == Refused(NotStarted) && r == s)
      && (s.state == Aborted ==> o == Refused(CommitAfterAbort) && r == s)
  {
  }

  /**
   * Aborting a transaction in progress sends one abort for each attempt that reaches the wire, the second after a
   * retryable error; whatever the answers, the transaction is aborted and the caller told nothing. Otherwise nothing
   * is sent.
   */
  lemma AbortEffect(s: Session, first: Reply, second: Reply)
    requires s.txnNumber >= 1 || s.state != InProgress
    ensures var (r, o) := AbortTransaction(s, first, second);
      match s.state
      case InProgress =>
        && o == Done
        && r == s.(state := Aborted, log := r.log)
        && r.log == s.log + EndSends(AbortCommand, s.txnNumber, first, BaseConcern(s), second, BaseConcern(s))
      case Starting => o == Done && r == s.(state := Aborted)
      case NoTransaction => o == Refused(NotStarted) && r == s
      case Aborted => o == Refused(AbortTwice) && r == s
      case _ => o == Refused(AbortAfterCommit) && r == s
  {
    if s.state == InProgress {
      AbortInProgress(s, first, second);
    }
  }

  lemma AbortInProgress(s: Session, first: Reply, second: Reply)
    requires s.txnNumber >= 1 && s.state == InProgress
    ensures var (r, o) := AbortTransaction(s, first, second);
      && o == Done
      && r == s.(state := Aborted, log := r.log)
      && r.log == s.log + EndSends(AbortCommand, s.txnNumber, first, BaseConcern(s), second, BaseConcern(s))
  {
    hide SendEnd, BaseConcern, ErrorOf;
    EndSent(s, AbortCommand, BaseConcern(s), first);
    var s1 := SendEnd(s, AbortCommand, BaseConcern(s), first);
    assert s.log + [] == s.log && s1.log + [] == s1.log;
    if Again(first) {
      EndSent(s1, AbortCommand, BaseConcern(s), second);
    }
  }

  // ---------- a whole transaction ----------

  /** n commands of the transaction with this number, the first of which starts it. */
  function InOne(number: nat, n: nat): (r: seq<Sent>)
    ensures |r| == n && forall i | 0 <= i < n :: r[i] == Sent(Ordinary, Some(number), true, i == 0, None)
  {
    seq(n, i => Sent(Ordinary, Some(number), true, i == 0, None))
  }

  function Commands(n: nat): seq<Event> {
    seq(n, i => Command(true))
  }

  lemma {:induction false} CommandsSent(s: Session, concern: Option<WriteConcern>, n: nat)
    requires !IsActive(s.state) && !Unacknowledged(concern)
    ensures var r := Run(s, [Start(concern)] + Commands(n));
      && r.state == (if n == 0 then Starting else InProgress) && r.txnNumber == s.txnNumber + 1
      && r.writeConcern == concern && r.clientConcern == s.clientConcern
      && r.log == s.log + InOne(s.txnNumber + 1, n)
    decreases n
  {
    hide ApplySession, StartTransaction;
    var es := [Start(concern)] + Commands(n);
    if n == 0 {
      assert es == [Start(concern)] && es[..0] == [];
      StartEffect(s, concern);
      assert s.log + InOne(s.txnNumber + 1, 0) == s.log;
    } else {
      CommandsSent(s, concern, n - 1);
      assert es[..|es| - 1] == [Start(concern)] + Commands(n - 1);
      var before := Run(s, es[..|es| - 1]);
      CommandEffect(before, false, true, None);
      assert InOne(s.txnNumber + 1, n) == InOne(s.txnNumber + 1, n - 1)
        + [Sent(Ordinary, Some(s.txnNumber + 1), true, n == 1, None)];
      assert Run(s, es).log == s.log + InOne(s.txnNumber + 1, n - 1)
        + [Sent(Ordinary, Some(s.txnNumber + 1), true, n == 1, None)];
    }
  }

  /**
   * A whole transaction without failures: its commands go out under one new number, the first starting it, followed by
   * one commit, or one abort, with its write concern; one without commands puts nothing on the wire.
   */
  lemma WholeTransaction(s: Session, concern: Option<WriteConcern>, n: nat, commit: bool)
    requires !IsActive(s.state) && !Unacknowledged(concern)
    ensures var fine, number := Answered(None), s.txnNumber + 1;
      var end := if commit then Commit(fine, fine) else Abort(fine, fine);
      var r := Run(s, [Start(concern)] + Commands(n) + [end]);
      && r.txnNumber == number
      && r.log == s.log + InOne(number, n)
        + (if n == 0 then []
           else [Sent(if commit then CommitCommand else AbortCommand, Some(number), true, false,
                      if concern.Some? then concern else s.clientConcern)])
      && r.state == if !commit then Aborted else if n == 0 then CommittedEmpty else Committed
  {
    hide CommitTransaction, AbortTransaction, LabelledFor;
    var fine := Answered(None);
    var end := if commit then Commit(fine, fine) else Abort(fine, fine);
    var before := [Start(concern)] + Commands(n);
    assert (before + [end])[..|before|] == before;
    CommandsSent(s, concern, n);
    var s1 := Run(s, before);
    assert s1.log + [] == s1.log;
    if !commit {
      AbortEffect(s1, fine, fine);
    } else if n == 0 {
      EmptyCommitEffect(s1, fine, fine);
    } else {
      var now, later := CommitEffect(s1, fine, fine);
    }
  }
}
