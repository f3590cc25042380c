/**
 * The token lifecycle that `StartPolling` drives, as a state machine over
 * values. Each event is one thing that can happen to the daemon: a caller
 * submits a code, or the polling goroutine takes its next step given the
 * clock and the provider's reply. `TokenDaemon.Daemon` implements the same
 * transitions on mutable fields.
 */
module Lifecycle {
  import opened Wrappers
  import opened Tokens
  import opened Requests

  /** Where the polling goroutine is in `StartPolling`, with the locals it holds. */
  datatype Phase =
    | AwaitingCode                   // blocked on `<-d.authCodeChan`
    | Exchanging(request: Form)      // `resolveToken` has sent this body
    | Installed(token: Token)        // token installed, timer not yet created
    | TimerArmed(deadline: int)      // in the `select`, the timer pending
    | Refreshing(request: Form)      // `refreshToken` passed `Get` and sent this body
    | TimerSpent                     // the timer has fired; the `select` waits forever

  /**
   * The daemon's fields and the loop's position. `clock` is the latest
   * instant the daemon has observed; `time.Now` never goes back.
   */
  datatype State = State(
    clientID: string,
    clientSecret: string,
    authCode: string,
    slot: Option<string>,            // the capacity-1 `authCodeChan`
    current: Option<Token>,          // `currentToken`, nil as None
    phase: Phase,
    clock: int)

  datatype Event =
    | SubmitCode(code: string)                 // `SetAuthCode` from another goroutine
    | TakeCode                                 // the receive from the channel
    | ExchangeDone(now: int, reply: Reply)     // `resolveToken` returns
    | ArmTimer(now: int)                       // `time.NewTimer`
    | TimerFires(now: int)                     // `<-timer.C`, then `Get` inside `refreshToken`
    | RefreshDone(now: int, reply: Reply)      // the refresh POST returns

  /** `NewDaemon`, with the polling loop at its first wait: no token, so a read says "not ready". */
  function Initial(clientID: string, clientSecret: string): (s: State)
    ensures Inv(s)
    ensures s.slot.None? && s.phase == AwaitingCode
    ensures ReadCurrent(s.current, s.clock) == Failure(NotReady)
  {
    State(clientID, clientSecret, "", None, None, AwaitingCode, 0)
  }

  /** When an event can happen: a send needs room, a receive a value, a step the loop at that point, and time only moves forward. */
  ghost predicate Enabled(s: State, e: Event)
    ensures Enabled(s, e) && e.SubmitCode? ==> s.slot.None?
    ensures Enabled(s, e) && e.TakeCode? ==> s.slot.Some? && s.phase == AwaitingCode
    ensures Enabled(s, e) && e.TimerFires? ==> s.phase.TimerArmed? && s.phase.deadline <= e.now
    ensures Enabled(s, e) && !e.SubmitCode? && !e.TakeCode? ==> s.clock <= e.now
  {
    match e
    case SubmitCode(_) => s.slot.None?
    case TakeCode => s.phase.AwaitingCode? && s.slot.Some?
    case ExchangeDone(now, _) => s.phase.Exchanging? && s.clock <= now
    case ArmTimer(now) => s.phase.Installed? && s.clock <= now
    case TimerFires(now) => s.phase.TimerArmed? && s.clock <= now && s.phase.deadline <= now
    case RefreshDone(now, _) => s.phase.Refreshing? && s.clock <= now
  }

  /**
   * One step. The credentials never change, time never runs backwards, a
   * code submission leaves the loop and the token alone, and the token
   * changes only on a grant.
   */
  function Next(s: State, e: Event): (r: State)
    requires Enabled(s, e)
    ensures r.clientID == s.clientID && r.clientSecret == s.clientSecret
    ensures s.clock <= r.clock
    ensures e.SubmitCode? ==> r.phase == s.phase && r.current == s.current
    ensures r.current != s.current ==> IsGrant(e)
  {
    match e
    case SubmitCode(code) => s.(slot := Some(code))
    case TakeCode =>
      s.(authCode := s.slot.value, slot := None,
         phase := Exchanging(ExchangeForm(s.clientID, s.clientSecret, s.slot.value)))
    case ExchangeDone(now, reply) =>
      (match Resolve(reply, now)
       case Success(tok) => s.(current := Some(tok), phase := Installed(tok), clock := now)
       case Failure(_) => s.(phase := AwaitingCode, clock := now))
    case ArmTimer(now) =>
      s.(phase := TimerArmed(now + Lifetime(s.phase.token.expiresIn) as int), clock := now)
    case TimerFires(now) =>
      (match ReadCurrent(s.current, now)
       case Success(tok) =>
         s.(phase := Refreshing(RefreshForm(s.clientID, s.clientSecret, tok.refreshToken)), clock := now)
       case Failure(_) => s.(phase := TimerSpent, clock := now))
    case RefreshDone(now, reply) =>
      match Resolve(reply, now)
      case Success(tok) => s.(current := Some(tok), phase := TimerSpent, clock := now)
      case Failure(_) => s.(phase := TimerSpent, clock := now)
  }

  /** A schedule of events each of which can happen in turn. */
  ghost predicate Feasible(s: State, es: seq<Event>)
    decreases |es|
  {
    es == [] || (Enabled(s, es[0]) && Feasible(Next(s, es[0]), es[1..]))
  }

  function Run(s: State, es: seq<Event>): State
    requires Feasible(s, es)
    decreases |es|
  {
    if es == [] then s else Run(Next(s, es[0]), es[1..])
  }

  /** Whether the loop has got past its first successful exchange. */
  predicate Started(p: Phase) {
    p.Installed? || p.TimerArmed? || p.Refreshing? || p.TimerSpent?
  }

  /**
   * What holds in every reachable state: no token before the first
   * install; a request in flight is built from the state it was built
   * from; an installed token was stamped no later than now; the timer's
   * deadline is no earlier than the current token's expiry.
   */
  ghost predicate Inv(s: State) {
    && (Started(s.phase) <==> s.current.Some?)
    && (s.phase.Exchanging? ==>
          s.phase.request == ExchangeForm(s.clientID, s.clientSecret, s.authCode))
    && (s.phase.Installed? ==>
          s.current == Some(s.phase.token) && s.phase.token.IssuedAt() <= s.clock)
    && (s.phase.TimerArmed? ==>
          s.current.Some? && s.current.value.validBefore <= s.phase.deadline)
    && (s.phase.Refreshing? ==>
          s.current.Some? &&
          s.phase.request == RefreshForm(s.clientID, s.clientSecret, s.current.value.refreshToken))
  }

  /** A grant: a reply that `Resolve` turns into a token. */
  predicate IsGrant(e: Event) {
    (e.ExchangeDone? || e.RefreshDone?) && e.reply.Response? && e.reply.status == StatusOK && e.reply.body.Some?
  }

  /** The number of times the refresh timer fires in a schedule. */
  function FireCount(es: seq<Event>): nat {
    if es == [] then 0 else (if es[0].TimerFires? then 1 else 0) + FireCount(es[1..])
  }

  /** How many more times the timer can fire from a phase. */
  function FiresLeft(p: Phase): nat {
    if p.Refreshing? || p.TimerSpent? then 0 else 1
  }

  // ---- single steps ----

  lemma NextPreservesInv(s: State, e: Event)
    requires Inv(s) && Enabled(s, e)
    ensures Inv(Next(s, e))
  {
  }

  /** Taking a code records it and sends exactly the exchange body for it; the slot is emptied. */
  lemma TakeCodeSendsExchange(s: State)
    requires Enabled(s, TakeCode)
    ensures Next(s, TakeCode).authCode == s.slot.value
    ensures Next(s, TakeCode).slot == None
    ensures Next(s, TakeCode).phase == Exchanging(ExchangeForm(s.clientID, s.clientSecret, s.slot.value))
    ensures Next(s, TakeCode).current == s.current
  {
  }

  /**
   * A failed exchange installs nothing and sends the loop back to wait for
   * a code; a successful one replaces the current token with the stamped
   * payload and changes nothing else.
   */
  lemma ExchangeOutcome(s: State, now: int, reply: Reply)
    requires Enabled(s, ExchangeDone(now, reply))
    ensures !IsGrant(ExchangeDone(now, reply)) ==>
              Next(s, ExchangeDone(now, reply)) == s.(phase := AwaitingCode, clock := now)
    ensures IsGrant(ExchangeDone(now, reply)) ==>
              Next(s, ExchangeDone(now, reply))
                == s.(current := Some(Stamp(reply.body.value, now)),
                      phase := Installed(Stamp(reply.body.value, now)), clock := now)
  {
  }

  /**
   * The timer fires at or after its deadline, which is no earlier than the
   * token's expiry, and `refreshToken` first asks `Get`: a refresh request
   * is sent only when the timer fires at exactly the expiry instant.
   * Otherwise no request is sent and the token is left as it was.
   */
  lemma RefreshSentOnlyAtExpiry(s: State, now: int)
    requires Inv(s) && Enabled(s, TimerFires(now))
    ensures s.current.Some?
    ensures Next(s, TimerFires(now)).phase.Refreshing? <==> now == s.current.value.validBefore
    ensures Next(s, TimerFires(now)).current == s.current
  {
  }

  /** The timer is armed no sooner than the token was stamped, so it fires when the token is no longer fresh. */
  lemma TimerFiresNoSoonerThanExpiry(s: State, armedAt: int)
    requires Inv(s) && Enabled(s, ArmTimer(armedAt))
    ensures Next(s, ArmTimer(armedAt)).phase.deadline >= s.current.value.validBefore
  {
  }

  /** A failed refresh leaves the token; a successful one installs the stamped payload. Either way the timer is spent. */
  lemma RefreshOutcome(s: State, now: int, reply: Reply)
    requires Enabled(s, RefreshDone(now, reply))
    ensures Next(s, RefreshDone(now, reply)).phase == TimerSpent
    ensures !IsGrant(RefreshDone(now, reply)) ==> Next(s, RefreshDone(now, reply)).current == s.current
    ensures IsGrant(RefreshDone(now, reply)) ==>
              Next(s, RefreshDone(now, reply)).current == Some(Stamp(reply.body.value, now))
  {
  }

  // ---- schedules ----

  lemma {:induction false} RunPreservesInv(s: State, es: seq<Event>)
    requires Inv(s) && Feasible(s, es)
    ensures Inv(Run(s, es))
    decreases |es|
  {
    if es != [] {
      NextPreservesInv(s, es[0]);
      RunPreservesInv(Next(s, es[0]), es[1..]);
    }
  }

  /** The token changes only on a grant: with no grant in a schedule, it ends as it began. */
  lemma {:induction false} TokenChangesOnlyOnGrant(s: State, es: seq<Event>)
    requires Feasible(s, es)
    requires forall i :: 0 <= i < |es| ==> !IsGrant(es[i])
    ensures Run(s, es).current == s.current
    decreases |es|
  {
    if es != [] {
      TokenChangesOnlyOnGrant(Next(s, es[0]), es[1..]);
    }
  }

  /** Until an exchange succeeds, `Get` reports "token not ready yet". */
  lemma NotReadyUntilGranted(clientID: string, clientSecret: string, es: seq<Event>, now: int)
    requires Feasible(Initial(clientID, clientSecret), es)
    requires forall i :: 0 <= i < |es| ==> !IsGrant(es[i])
    ensures ReadCurrent(Run(Initial(clientID, clientSecret), es).current, now) == Failure(NotReady)
  {
    TokenChangesOnlyOnGrant(Initial(clientID, clientSecret), es);
  }

  /** The timer fires at most as often as the phase allows: it is armed once and never re-armed. */
  lemma {:induction false} FiresBounded(s: State, es: seq<Event>)
    requires Feasible(s, es)
    ensures FireCount(es) <= FiresLeft(s.phase)
    ensures FiresLeft(Run(s, es).phase) + FireCount(es) <= FiresLeft(s.phase)
    decreases |es|
  {
    if es != [] {
      FiresBounded(Next(s, es[0]), es[1..]);
    }
  }

  /** Over the whole life of a daemon, at most one refresh is attempted. */
  lemma AtMostOneRefresh(clientID: string, clientSecret: string, es: seq<Event>)
    requires Feasible(Initial(clientID, clientSecret), es)
    ensures FireCount(es) <= 1
  {
    FiresBounded(Initial(clientID, clientSecret), es);
  }

  /**
   * Once a token is installed the loop never waits for a code again and a
   * token stays installed; a code submitted from then on stays in the
   * slot for good.
   */
  lemma {:induction false} NeverAwaitsCodeAgain(s: State, es: seq<Event>)
    requires Feasible(s, es) && Started(s.phase)
    ensures Started(Run(s, es).phase)
    ensures !Enabled(Run(s, es), TakeCode)
    ensures s.slot.Some? ==> Run(s, es).slot == s.slot
    decreases |es|
  {
    if es != [] {
      NeverAwaitsCodeAgain(Next(s, es[0]), es[1..]);
    }
  }

  /**
   * After the timer is spent nothing changes the token: once past its
   * expiry, `Get` reports "token expired" at every later instant.
   */
  lemma {:induction false} SpentIsFinal(s: State, es: seq<Event>)
    requires Feasible(s, es) && s.phase.TimerSpent?
    ensures Run(s, es).phase == TimerSpent
    ensures Run(s, es).current == s.current
    decreases |es|
  {
    if es != [] {
      SpentIsFinal(Next(s, es[0]), es[1..]);
    }
  }

  lemma ExpiredForever(s: State, es: seq<Event>, now: int)
    requires Feasible(s, es) && s.phase.TimerSpent? && s.current.Some?
    requires now > s.current.value.validBefore
    ensures ReadCurrent(Run(s, es).current, now) == Failure(Expired)
  {
    SpentIsFinal(s, es);
  }
}
