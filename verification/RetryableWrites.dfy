/** A write operation of the unified topology and its single retry (`executeWriteOperation`). */
module RetryableWrites {
  import opened Bytes
  import opened Transactions
  import opened Sessions

  /** The options object of the caller; the first attempt sets the flag and nobody clears it. */
  class WriteOptions {
    const retryWrites: bool
    const session: ClientSession?
    var willRetryWrite: bool

    constructor (retryWrites: bool, session: ClientSession?)
      ensures this.retryWrites == retryWrites && this.session == session && !willRetryWrite
    {
      this.retryWrites, this.session, willRetryWrite := retryWrites, session, false;
    }
  }

  /**
   * How one attempt goes: no server is selected, the server object refuses before anything is sent,
   * or the command is sent, decorated by applySession if the server knows sessions, and answered.
   */
  datatype Attempt =
    | NoServer(error: Err)
    | NotSent(error: Err)
    | Answered(sessionSupport: bool, answer: Option<Err>)

  function ErrorOfAttempt(a: Attempt): Option<Err> {
    match a
    case NoServer(e) => Some(e)
    case NotSent(e) => Some(e)
    case Answered(_, answer) => answer
  }

  /** The failures after which the operation may be tried again. */
  predicate WorthRetrying(a: Attempt) {
    !a.NoServer? && ErrorOfAttempt(a).Some? && ErrorOfAttempt(a).value.retryable
  }

  /** What an attempt puts on the wire, under the given transaction number. */
  function Stamped(a: Attempt, number: nat): seq<Option<nat>> {
    if !a.Answered? then [] else [if a.sessionSupport then Some(number) else None]
  }

  class WriteOperation {
    const options: WriteOptions
    const supported: bool  // isRetryableWritesSupported
    var sends: seq<Option<nat>>         // the transaction number on each command sent
    var callbacks: seq<Option<Err>>     // each call of the caller's callback

    constructor (options: WriteOptions, supported: bool)
      ensures this.options == options && this.supported == supported && sends == [] && callbacks == []
    {
      this.options, this.supported, sends, callbacks := options, supported, [], [];
    }

    ghost predicate Usable()
      reads this, options, options.session
    {
      options.session != null ==> options.session.serverSession != null
    }

    /** Whether the first attempt is one that may be repeated. */
    predicate MayRetry()
      reads options.session
    {
      options.retryWrites && options.session != null && supported && !IsActive(options.session.state)
    }

    ghost function Number(): nat
      requires Usable() && options.session != null
      reads this, options, options.session, options.session.serverSession
    {
      options.session.serverSession.txnNumber
    }

    /** The number on a command sent now: a session's, if it is to be retried or belongs to a transaction. */
    ghost function StampNow(a: Attempt): seq<Option<nat>>
      requires Usable()
      reads this, options, options.session, if options.session != null then {options.session.serverSession} else {}
    {
      if !a.Answered? then []
      else if options.session == null || !a.sessionSupport || Number() == 0 then [None]
      else if options.willRetryWrite || IsActive(options.session.state) then [Some(Number())]
      else [None]
    }

    /** server[op]: sends the command, through applySession where it applies. */
    method Perform(a: Attempt, now: int)
      requires Usable()
      modifies this`sends, options.session, if options.session != null then options.session.serverSession else null
      ensures Usable()
      ensures options.session != null ==>
        && options.session.serverSession == old(options.session.serverSession)
        && Number() == old(Number())
        && (!old(IsActive(options.session.state)) ==> !IsActive(options.session.state))
      ensures sends == old(sends) + old(StampNow(a))
    {
      if a.Answered? {
        var number: Option<nat> := None;
        if options.session != null && a.sessionSupport {
          var o := options.session.ApplySession(Ordinary, options.willRetryWrite, true, None, now);
          var sent := options.session.log[|options.session.log| - 1];
          number := sent.txnNumber;
        }
        sends := sends + [number];
      }
    }

    /**
     * One attempt, and on a retryable error the second. The callback is called exactly once; the number
     * is raised exactly once, and only if the write may be retried; both sends carry that number.
     */
    method Execute(retrying: bool, first: Attempt, second: Attempt, now: int)
      requires Usable()
      modifies this, options, options.session, if options.session != null then options.session.serverSession else null
      ensures Usable()
      ensures |callbacks| == |old(callbacks)| + 1 && callbacks[..|callbacks| - 1] == old(callbacks)
      ensures var will := !retrying && old(MayRetry());
        var again := will && WorthRetrying(first);
        && (callbacks[|callbacks| - 1] == ErrorOfAttempt(if again then second else first))
        && (options.session != null ==>
              Number() == old(Number()) + if will && !first.NoServer? then 1 else 0)
        && (will ==> sends == old(sends) + Stamped(first, Number()) + if again then Stamped(second, Number()) else [])
        && (!will ==> sends == old(sends) + old(StampNow(first)))
      decreases !retrying
    {
      var will := !retrying && options.retryWrites && options.session != null && supported
        && options.session.state != Starting && options.session.state != InProgress;
      if first.NoServer? {
        callbacks := callbacks + [Some(first.error)];
        return;
      }
      if will {
        options.session.IncrementTransactionNumber();
        options.willRetryWrite := true;
      }
      Perform(first, now);
      var error := ErrorOfAttempt(first);
      if error.None? || !error.value.retryable || !will {
        callbacks := callbacks + [error];
      } else {
        Execute(true, second, first, now);
      }
    }
  }
}
