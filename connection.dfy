// Connection-level helpers of the session: the reconnect question and
// retry loop (DoQueryReopen, QueryReopen), the choice of a local port for
// the tunnel (OpenTunnel) and the callback guard (TCallbackGuard).
//
// Reopening the connection, the reconnect timeout clock, the user's
// replies and the test whether a port is free are inputs.

module Connection {
  import opened Policies

  // ----- DoQueryReopen / QueryReopen ---------------------------------------

  /** The answer, whether the user was asked, the new retry count, and
      whether the error is marked as asked about afterwards. */
  datatype ReopenQuery = ReopenQuery(result: bool, asked: bool, retries: nat, queried: bool)

  /** Whether to reconnect after a fatal error: not when this error was
      already asked about, not when the retries are used up, otherwise as
      the user replies (a timed-out question counts as "retry").  Once the
      error has been looked at, it is marked as asked about, so a second
      call with the same error neither asks nor reconnects. */
  function DoQueryReopen(reopenQueried: bool, retries: nat, maxRetries: nat, reply: QueryAnswer): (q: ReopenQuery)
    ensures q.asked <==> !reopenQueried && retries < maxRetries
    ensures q.result <==> q.asked && reply == QaRetry
    ensures q.retries == if q.asked then retries + 1 else retries
    ensures q.queried
  {
    if reopenQueried then ReopenQuery(false, false, retries, reopenQueried)
    else if retries >= maxRetries then ReopenQuery(false, false, retries, true)
    else ReopenQuery(reply == QaRetry, true, retries + 1, true)
  }

  /** Asking twice about the same error: the second call sees the mark the
      first one left and neither asks nor reconnects. */
  lemma SecondQueryIsSilent(reopenQueried: bool, retries: nat, maxRetries: nat, reply1: QueryAnswer, reply2: QueryAnswer)
    ensures var q1 := DoQueryReopen(reopenQueried, retries, maxRetries, reply1);
            var q2 := DoQueryReopen(q1.queried, q1.retries, maxRetries, reply2);
            !q2.asked && !q2.result && q2.retries == q1.retries
  {
  }

  /** How one Reopen ended: connected, failed with the session closed, or
      failed with the session still active (then the error propagates). */
  datatype ReopenAttempt = Reopened | ClosedAgain | FailedActive

  datatype ReopenOutcome = ReopenOutcome(result: bool, raised: bool, retries: nat, questions: nat)

  /** The reconnect loop from attempt k on. */
  function ReopenLoop(k: nat, retries: nat, maxRetries: nat, attempt: nat -> ReopenAttempt,
                      withinTimeout: nat -> bool, reply: nat -> QueryAnswer, questions: nat): ReopenOutcome
    requires retries <= maxRetries
    decreases maxRetries - retries
  {
    match attempt(k)
    case Reopened => ReopenOutcome(true, false, 0, questions)
    case FailedActive => ReopenOutcome(false, true, retries, questions)
    case ClosedAgain =>
      if !withinTimeout(k) then ReopenOutcome(false, false, retries, questions)
      else
        var q := DoQueryReopen(false, retries, maxRetries, reply(k + 1));
        var asked := questions + (if q.asked then 1 else 0);
        if q.result then ReopenLoop(k + 1, q.retries, maxRetries, attempt, withinTimeout, reply, asked)
        else ReopenOutcome(false, false, q.retries, asked)
  }

  function QueryReopenSpec(reopenQueried: bool, retries: nat, maxRetries: nat, attempt: nat -> ReopenAttempt,
                           withinTimeout: nat -> bool, reply: nat -> QueryAnswer): ReopenOutcome
  {
    var q := DoQueryReopen(reopenQueried, retries, maxRetries, reply(0));
    if !q.result then ReopenOutcome(false, false, q.retries, if q.asked then 1 else 0)
    else ReopenLoop(0, q.retries, maxRetries, attempt, withinTimeout, reply, 1)
  }

  method QueryReopen(reopenQueried: bool, retries0: nat, maxRetries: nat, attempt: nat -> ReopenAttempt,
                     withinTimeout: nat -> bool, reply: nat -> QueryAnswer)
    returns (outcome: ReopenOutcome)
    ensures outcome == QueryReopenSpec(reopenQueried, retries0, maxRetries, attempt, withinTimeout, reply)
  {
    var q := DoQueryReopen(reopenQueried, retries0, maxRetries, reply(0));
    var retries: nat := q.retries;
    var questions: nat := if q.asked then 1 else 0;
    var result := q.result;
    if !result {
      return ReopenOutcome(false, false, retries, questions);
    }
    ghost var target := QueryReopenSpec(reopenQueried, retries0, maxRetries, attempt, withinTimeout, reply);
    var active := false;
    var k := 0;
    while !active && result
      invariant result && !active ==>
                  retries <= maxRetries && target == ReopenLoop(k, retries, maxRetries, attempt, withinTimeout, reply, questions)
      invariant active ==> result && target == ReopenOutcome(true, false, retries, questions)
      invariant !result ==> target == ReopenOutcome(false, false, retries, questions)
      decreases if active || !result then 0 else 1, maxRetries - retries
    {
      match attempt(k) {
        case Reopened =>
          active := true;
          retries := 0;
        case FailedActive =>
          return ReopenOutcome(false, true, retries, questions);
        case ClosedAgain =>
          if withinTimeout(k) {
            var q' := DoQueryReopen(false, retries, maxRetries, reply(k + 1));
            retries := q'.retries;
            questions := questions + (if q'.asked then 1 else 0);
            result := q'.result;
          } else {
            result := false;
          }
      }
      k := k + 1;
    }
    return ReopenOutcome(result, false, retries, questions);
  }

  lemma {:induction false} ReopenLoopBounded(k: nat, retries: nat, maxRetries: nat, attempt: nat -> ReopenAttempt,
                                             withinTimeout: nat -> bool, reply: nat -> QueryAnswer, questions: nat)
    requires retries <= maxRetries
    ensures var o := ReopenLoop(k, retries, maxRetries, attempt, withinTimeout, reply, questions);
            o.questions <= questions + (maxRetries - retries)
            && o.retries <= maxRetries
            && (o.result ==> o.retries == 0 && !o.raised)
    decreases maxRetries - retries
  {
    if attempt(k) == ClosedAgain && withinTimeout(k) {
      var q := DoQueryReopen(false, retries, maxRetries, reply(k + 1));
      if q.result {
        ReopenLoopBounded(k + 1, q.retries, maxRetries, attempt, withinTimeout, reply, questions + 1);
      }
    }
  }

  /** Reconnecting asks the user at most as many times as retries remain,
      never counts beyond the maximum, and a success resets the count. */
  lemma QueryReopenBounded(reopenQueried: bool, retries: nat, maxRetries: nat, attempt: nat -> ReopenAttempt,
                           withinTimeout: nat -> bool, reply: nat -> QueryAnswer)
    requires retries <= maxRetries
    ensures var o := QueryReopenSpec(reopenQueried, retries, maxRetries, attempt, withinTimeout, reply);
            o.questions <= maxRetries - retries
            && o.retries <= maxRetries
            && (o.result ==> o.retries == 0 && !o.raised)
  {
    var q := DoQueryReopen(reopenQueried, retries, maxRetries, reply(0));
    if q.result {
      ReopenLoopBounded(0, q.retries, maxRetries, attempt, withinTimeout, reply, 1);
    }
  }

  /** An error that was already asked about, or retries used up: no
      question and no reconnect. */
  lemma NoReopenWithoutQuestion(reopenQueried: bool, retries: nat, maxRetries: nat, attempt: nat -> ReopenAttempt,
                                withinTimeout: nat -> bool, reply: nat -> QueryAnswer)
    requires reopenQueried || retries >= maxRetries
    ensures QueryReopenSpec(reopenQueried, retries, maxRetries, attempt, withinTimeout, reply)
         == ReopenOutcome(false, false, retries, 0)
  {
  }

  // ----- OpenTunnel: the local port ----------------------------------------

  /** The local port of the tunnel: the configured one, or else the first
      free port from `low` on, giving up after `high` (then the port is 0
      and a fatal error is raised). */
  method SelectTunnelPort(configured: nat, low: nat, high: nat, isListenerFree: nat -> bool)
    returns (port: nat, found: bool)
    ensures configured != 0 ==> found && port == configured
    ensures configured == 0 && found ==>
              (isListenerFree(port) && low <= port && (port == low || port <= high)
               && forall p :: low <= p < port ==> !isListenerFree(p))
    ensures !found ==>
              (configured == 0 && port == 0
               && forall p :: low <= p <= (if high < low then low else high) ==> !isListenerFree(p))
  {
    if configured != 0 {
      return configured, true;
    }
    port := low;
    while !isListenerFree(port)
      invariant low <= port && (port == low || port <= high)
      invariant forall p :: low <= p < port ==> !isListenerFree(p)
      decreases if port <= high then high - port + 1 else 0
    {
      port := port + 1;
      if port > high {
        return 0, false;
      }
    }
    return port, true;
  }

  // ----- TCallbackGuard -----------------------------------------------------

  /** The terminal's slot for the guard now in force. */
  class GuardSlot {
    var current: CallbackGuard?

    constructor()
      ensures current == null
    {
      current := null;
    }
  }

  class CallbackGuard {
    const slot: GuardSlot
    var guarding: bool
    var fatalError: seq<string>

    /** Only a guard created while no other guard is in force registers. */
    constructor(slot: GuardSlot)
      modifies slot
      ensures this.slot == slot
      ensures guarding <==> old(slot.current) == null
      ensures slot.current == if guarding then this else old(slot.current)
      ensures fatalError == []
    {
      this.slot := slot;
      guarding := slot.current == null;
      fatalError := [];
      new;
      if guarding {
        slot.current := this;
      }
    }

    /** A fatal error during a callback: remembered (replacing an earlier
        one) unless it is the guard's own silent abort.  Every call then
        ends by raising the silent abort (ECallbackGuardAbort); that raise
        is not a state change and is left to the caller. */
    method FatalError(isGuardAbort: bool, message: string)
      modifies this
      ensures guarding == old(guarding)
      ensures fatalError == if isGuardAbort then old(fatalError) else [message]
    {
      if !isGuardAbort {
        fatalError := [message];
      }
    }

    method Dismiss()
      modifies this
      ensures !guarding && fatalError == old(fatalError)
    {
      guarding := false;
    }

    /** The end of the callback: a registered guard unregisters and raises
        the remembered error, if any. */
    method Verify() returns (raised: seq<string>)
      modifies this, slot
      ensures raised == if old(guarding) then old(fatalError) else []
      ensures !guarding
      ensures slot.current == if old(guarding) then null else old(slot.current)
    {
      raised := [];
      if guarding {
        guarding := false;
        slot.current := null;
        raised := fatalError;
      }
    }

    /** The destructor. */
    method Release()
      modifies slot
      ensures slot.current == if guarding then null else old(slot.current)
    {
      if guarding {
        slot.current := null;
      }
    }
  }
}
