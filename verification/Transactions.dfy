/** The transaction state machine of a session and what it puts on commands (sessions.js, transactions.js). */
module Transactions {
  import opened Bytes
  import opened Lists

  datatype TxnState =
    | NoTransaction | Starting | InProgress | Committed | CommittedEmpty | Aborted

  /** The table of legal transitions. */
  function NextStates(s: TxnState): set<TxnState> {
    match s
    case NoTransaction => {NoTransaction, Starting}
    case Starting => {InProgress, Committed, CommittedEmpty, Aborted}
    case InProgress => {InProgress, Committed, Aborted}
    case Committed => {Committed, CommittedEmpty, Starting, NoTransaction}
    case Aborted => {Starting, NoTransaction}
    case CommittedEmpty => {CommittedEmpty, NoTransaction}
  }

  predicate IsActive(s: TxnState) {
    s == Starting || s == InProgress
  }

  datatype Acknowledgement = Majority | Tagged(name: string) | Nodes(count: int)

  datatype WriteConcern = WriteConcern(w: Acknowledgement, wtimeout: Option<int>, journal: Option<bool>)

  /** `w <= 0`, which no transaction accepts. */
  predicate Unacknowledged(c: Option<WriteConcern>) {
    c.Some? && c.value.w.Nodes? && c.value.w.count <= 0
  }

  /** Object.assign({wtimeout: 10000}, c, {w: 'majority'}). */
  function WithMajority(c: Option<WriteConcern>): WriteConcern {
    WriteConcern(Majority,
                 if c.Some? && c.value.wtimeout.Some? then c.value.wtimeout else Some(10000),
                 if c.Some? then c.value.journal else None)
  }

  datatype Label = TransientTransactionError | UnknownTransactionCommitResult | OtherLabel

  /**
   * An error as the code inspects it. `retryable` is isRetryableError, `settled` is membership in the
   * write concern errors that leave no doubt about the commit.
   */
  datatype Err = Err(
    isMongoError: bool, network: bool, writeConcernError: bool, retryable: bool, settled: bool,
    labels: Option<seq<Label>>)
  {
    predicate Has(l: Label) { labels.Some? && l in labels.value }
  }

  /** A command that never reached applySession, or one that was sent and its answer. */
  datatype Reply = Unreached(error: Err) | Answered(answer: Option<Err>)

  function ErrorOf(r: Reply): Option<Err> {
    if r.Unreached? then Some(r.error) else r.answer
  }

  datatype Kind = Ordinary | CommitCommand | AbortCommand

  /** A command as applySession left it when it was handed to the wire. */
  datatype Sent = Sent(
    kind: Kind, txnNumber: Option<nat>, autocommitOff: bool, starts: bool, writeConcern: Option<WriteConcern>)

  /** A client session on a live server session. `illegal` records an illegal transition. */
  datatype Session = Session(
    txnNumber: nat, state: TxnState, writeConcern: Option<WriteConcern>, pinned: bool,
    clientConcern: Option<WriteConcern>, log: seq<Sent>, illegal: bool)

  datatype Refusal =
    | AlreadyInProgress | UnacknowledgedConcern | NotStarted | CommitAfterAbort | AbortTwice | AbortAfterCommit
    | NotPrimary | SessionEnded

  datatype Outcome = Done | Refused(why: Refusal) | Failed(error: Err)

  // ---------- the operations ----------

  function Transition(s: Session, next: TxnState): Session {
    if next !in NextStates(s.state) then s.(illegal := true)
    else s.(state := next, pinned := s.pinned && next != NoTransaction && next != Starting)
  }

  function StartTransaction(s: Session, concern: Option<WriteConcern>): (Session, Outcome) {
    if IsActive(s.state) then (s, Refused(AlreadyInProgress)) else
    var s1 := s.(txnNumber := s.txnNumber + 1);
    if Unacknowledged(concern) then (s1, Refused(UnacknowledgedConcern)) else
    (Transition(s1.(state := NoTransaction, writeConcern := concern, pinned := false), Starting), Done)
  }

  /** Stamps a command and sends it; the only refusal is a read preference other than primary. */
  function ApplySession(s: Session, kind: Kind, willRetryWrite: bool, primary: bool, concern: Option<WriteConcern>)
    : (Session, Outcome)
  {
    var inTransaction := IsActive(s.state) || kind != Ordinary;
    var number := if s.txnNumber != 0 && (willRetryWrite || inTransaction) then Some(s.txnNumber) else None;
    if !inTransaction then
      var s1 := if s.state != NoTransaction then Transition(s, NoTransaction) else s;
      (s1.(log := s.log + [Sent(kind, number, false, false, concern)]), Done)
    else if !primary then (s, Refused(NotPrimary))
    else
      var s1 := if s.state == Starting then Transition(s, InProgress) else s;
      (s1.(log := s.log + [Sent(kind, number, true, s.state == Starting, concern)]), Done)
  }

  /** One send of a commit or abort command. */
  function SendEnd(s: Session, kind: Kind, concern: Option<WriteConcern>, r: Reply): Session {
    if r.Unreached? then s else ApplySession(s, kind, false, true, concern).0
  }

  predicate InDoubt(e: Err) {
    e.network || e.writeConcernError || e.retryable
  }

  /** The labels a commit error leaves with. */
  function Relabelled(e: Err): Err {
    if !InDoubt(e) then e else
    var kept := if e.labels.Some? then Without(e.labels.value, TransientTransactionError) else [];
    e.(labels := Some(if e.settled then kept else kept + [UnknownTransactionCommitResult]))
  }

  function CommitHandler(s: Session, error: Option<Err>): (Session, Outcome) {
    var s1 := Transition(s, Committed);
    if error.None? then (s1, Done)
    else (s1.(pinned := s1.pinned && !(InDoubt(error.value) && !error.value.settled)), Failed(Relabelled(error.value)))
  }

  function BaseConcern(s: Session): Option<WriteConcern> {
    if s.writeConcern.Some? then s.writeConcern else s.clientConcern
  }

  function CommitTransaction(s: Session, first: Reply, second: Reply): (Session, Outcome) {
    if s.state == NoTransaction then (s, Refused(NotStarted))
    else if s.state == Starting || s.state == CommittedEmpty then (Transition(s, CommittedEmpty), Done)
    else if s.state == Aborted then (s, Refused(CommitAfterAbort))
    else
      var concern := if s.state == Committed then Some(WithMajority(BaseConcern(s))) else BaseConcern(s);
      var s1 := SendEnd(s, CommitCommand, concern, first);
      var error := ErrorOf(first);
      if error.Some? && error.value.retryable then
        var s2 := SendEnd(s1.(pinned := false), CommitCommand, Some(WithMajority(concern)), second);
        CommitHandler(s2, ErrorOf(second))
      else CommitHandler(s1, error)
  }

  function AbortTransaction(s: Session, first: Reply, second: Reply): (Session, Outcome) {
    if s.state == NoTransaction then (s, Refused(NotStarted))
    else if s.state == Starting then (Transition(s, Aborted), Done)
    else if s.state == Aborted then (s, Refused(AbortTwice))
    else if s.state == Committed || s.state == CommittedEmpty then (s, Refused(AbortAfterCommit))
    else
      var concern := BaseConcern(s);
      var s1 := SendEnd(s, AbortCommand, concern, first);
      var error := ErrorOf(first);
      var s2 := if error.Some? && error.value.retryable then SendEnd(s1, AbortCommand, concern, second) else s1;
      (Transition(s2, Aborted), Done)
  }

  // ---------- runs ----------

  /**
   * One step of a sequential user. A retryable write outside a transaction takes a new number and
   * then reaches applySession `sends` times: not at all if it fails earlier, twice if it is retried.
   */
  datatype Event =
    | Start(concern: Option<WriteConcern>)
    | Command(primary: bool)
    | RetryableWrite(sends: nat)
    | Commit(first: Reply, second: Reply)
    | Abort(first: Reply, second: Reply)
    | Pin

  function Sends(s: Session, n: nat): Session
    decreases n
  {
    if n == 0 then s else ApplySession(Sends(s, n - 1), Ordinary, true, true, None).0
  }

  function Step(s: Session, e: Event): Session {
    match e
    case Start(concern) => StartTransaction(s, concern).0
    case Command(primary) => ApplySession(s, Ordinary, false, primary, None).0
    case RetryableWrite(sends) =>
      if IsActive(s.state) then Sends(s, sends) else Sends(s.(txnNumber := s.txnNumber + 1), sends)
    case Commit(first, second) => CommitTransaction(s, first, second).0
    case Abort(first, second) => AbortTransaction(s, first, second).0
    case Pin => if IsActive(s.state) then s.(pinned := true) else s
  }

  function Run(s: Session, es: seq<Event>): Session {
    if es == [] then s else Step(Run(s, es[..|es| - 1]), es[|es| - 1])
  }

  function Fresh(txnNumber: nat, clientConcern: Option<WriteConcern>): Session {
    Session(txnNumber, NoTransaction, None, false, clientConcern, [], false)
  }

  // ---------- what the log of a session always looks like ----------

  /** No earlier command of the same transaction. */
  ghost predicate FirstOf(log: seq<Sent>, i: nat)
    requires i < |log|
  {
    forall j | 0 <= j < i :: !(log[j].autocommitOff && log[j].txnNumber == log[i].txnNumber)
  }

  /** Exactly the first command of each transaction starts it; commits and aborts never do. */
  ghost predicate StartsFirst(log: seq<Sent>) {
    forall i | 0 <= i < |log| ::
      && (log[i].autocommitOff ==> log[i].txnNumber.Some? && (log[i].starts <==> FirstOf(log, i)))
      && (!log[i].autocommitOff ==> !log[i].starts && log[i].kind == Ordinary)
      && (log[i].kind != Ordinary ==> log[i].autocommitOff && !log[i].starts)
  }

  /** A number belongs to one transaction or to one retryable write. */
  ghost predicate OneOwner(log: seq<Sent>) {
    forall i, j | 0 <= i < |log| && 0 <= j < |log| && log[i].txnNumber.Some? && log[i].txnNumber == log[j].txnNumber ::
      log[i].autocommitOff == log[j].autocommitOff
  }

  /** Every commit of a transaction after the first asks for a majority, keeping the user's wtimeout. */
  ghost predicate MajorityAfterFirst(log: seq<Sent>) {
    forall i, j | 0 <= i < j < |log| && log[i].kind == CommitCommand && log[j].kind == CommitCommand
      && log[i].txnNumber == log[j].txnNumber ::
      log[j].writeConcern == Some(WithMajority(log[i].writeConcern))
  }

  ghost predicate NumbersUpTo(log: seq<Sent>, n: nat) {
    forall x <- log | x.txnNumber.Some? :: 1 <= x.txnNumber.value <= n
  }

  ghost predicate Unused(log: seq<Sent>, n: nat) {
    forall x <- log :: x.txnNumber != Some(n)
  }

  ghost predicate Started(log: seq<Sent>, n: nat) {
    exists x <- log :: x.starts && x.txnNumber == Some(n)
  }

  ghost predicate CommitsWith(log: seq<Sent>, n: nat, concern: Option<WriteConcern>) {
    forall x <- log | x.kind == CommitCommand && x.txnNumber == Some(n) ::
      WithMajority(x.writeConcern) == WithMajority(concern)
  }

  ghost predicate NoCommitYet(log: seq<Sent>, n: nat) {
    forall x <- log | x.txnNumber == Some(n) :: x.kind != CommitCommand
  }

  ghost predicate GoodLog(log: seq<Sent>) {
    StartsFirst(log) && OneOwner(log) && MajorityAfterFirst(log)
  }

  ghost predicate Inv(s: Session) {
    && !s.illegal
    && GoodLog(s.log) && NumbersUpTo(s.log, s.txnNumber)
    && (s.state == NoTransaction ==> !s.pinned)
    && (s.state == Starting ==> s.txnNumber >= 1 && Unused(s.log, s.txnNumber))
    && (s.state == InProgress ==> Started(s.log, s.txnNumber) && NoCommitYet(s.log, s.txnNumber))
    && (s.state == Committed ==> Started(s.log, s.txnNumber) && CommitsWith(s.log, s.txnNumber, BaseConcern(s)))
  }
}
