/**
 * The `Daemon` object of daemon.go. Its fields are updated in place by
 * `SetAuthCode` (from callers) and by the steps of the polling goroutine;
 * `Get` only reads them. Every step is one atomic transition of
 * `Lifecycle.Next` on the abstract `State()`.
 */
module TokenDaemon {
  import opened Wrappers
  import opened Tokens
  import opened Requests
  import opened Lifecycle

  class Daemon {
    const clientID: string
    const clientSecret: string
    var authCode: string
    /** `authCodeChan`, a channel of capacity 1. */
    var slot: Option<string>
    var currentToken: Option<Token>
    /** Where `StartPolling` is, with the locals it carries between steps. */
    var phase: Phase
    /** The latest instant observed; time never runs backwards. */
    ghost var clock: int

    ghost function State(): State
      reads this
    {
      Lifecycle.State(clientID, clientSecret, authCode, slot, currentToken, phase, clock)
    }

    ghost predicate Valid()
      reads this
    {
      Inv(State())
    }

    /** `NewDaemon`: no code, no token, the loop about to wait for a code. */
    constructor (clientID: string, clientSecret: string)
      ensures Valid()
      ensures State() == Initial(clientID, clientSecret)
    {
      this.clientID := clientID;
      this.clientSecret := clientSecret;
      authCode := "";
      slot := None;
      currentToken := None;
      phase := AwaitingCode;
      clock := 0;
    }

    /** `Get`: reads the current token under the read lock; changes nothing. */
    function Get(now: int): (r: Result<Token, GetError>)
      reads this
      ensures r.Success? <==> currentToken.Some? && now <= currentToken.value.validBefore
      ensures r.Success? ==> currentToken == Some(r.value)
      ensures r == Failure(NotReady) <==> currentToken.None?
    {
      ReadCurrent(currentToken, now)
    }

    /** `SetAuthCode`: the send on the channel; the sender waits while the slot is full. */
    method SetAuthCode(code: string)
      requires Valid()
      requires slot.None?
      modifies this
      ensures Valid()
      ensures State() == Next(old(State()), SubmitCode(code))
      ensures slot == Some(code) && currentToken == old(currentToken) && phase == old(phase)
    {
      slot := Some(code);
    }

    /** The receive at the `polling:` label: the code becomes `authCode` and the exchange body is built. */
    method TakeCode() returns (request: Form)
      requires Valid()
      requires phase.AwaitingCode? && slot.Some?
      modifies this
      ensures Valid()
      ensures State() == Next(old(State()), Event.TakeCode)
      ensures authCode == old(slot.value) && slot.None?
      ensures request == ExchangeForm(clientID, clientSecret, authCode)
    {
      authCode := slot.value;
      slot := None;
      request := BuildExchangeForm(clientID, clientSecret, authCode);
      phase := Exchanging(request);
    }

    /**
     * `resolveToken` returns: on a grant the token is stamped at `now` and
     * installed; on any failure nothing is installed and the loop goes back
     * to wait for a code.
     */
    method FinishExchange(now: int, reply: Reply)
      requires Valid()
      requires phase.Exchanging? && clock <= now
      modifies this
      ensures Valid()
      ensures State() == Next(old(State()), ExchangeDone(now, reply))
      ensures Resolve(reply, now).Failure? ==> currentToken == old(currentToken) && phase == AwaitingCode
      ensures Resolve(reply, now).Success? ==> currentToken == Some(Resolve(reply, now).value)
    {
      var result := Resolve(reply, now);
      if result.Success? {
        currentToken := Some(result.value);
        phase := Installed(result.value);
      } else {
        phase := AwaitingCode;
      }
      clock := now;
      NextPreservesInv(old(State()), ExchangeDone(now, reply));
    }

    /** `time.NewTimer` for the installed token's lifetime, at `now`. */
    method ArmTimer(now: int)
      requires Valid()
      requires phase.Installed? && clock <= now
      modifies this
      ensures Valid()
      ensures State() == Next(old(State()), Event.ArmTimer(now))
      ensures phase == TimerArmed(now + Lifetime(old(phase).token.expiresIn) as int)
      ensures currentToken == old(currentToken)
    {
      phase := TimerArmed(now + Lifetime(phase.token.expiresIn) as int);
      clock := now;
      NextPreservesInv(old(State()), Event.ArmTimer(now));
    }

    /**
     * The timer fires and `refreshToken` calls `Get` at `now`. If `Get`
     * fails its error is returned, no request is sent and the timer is
     * spent; otherwise the refresh body is built from the token's refresh
     * token and sent.
     */
    method FireTimer(now: int) returns (sent: Result<Form, GetError>)
      requires Valid()
      requires phase.TimerArmed? && clock <= now && phase.deadline <= now
      modifies this
      ensures Valid()
      ensures State() == Next(old(State()), TimerFires(now))
      ensures currentToken == old(currentToken)
      ensures sent.Failure? <==> Get(now).Failure?
      ensures sent.Failure? ==> sent.error == Get(now).error && phase == TimerSpent
      ensures sent.Success? ==>
                sent.value == RefreshForm(clientID, clientSecret, currentToken.value.refreshToken) &&
                phase == Refreshing(sent.value)
    {
      var tok := Get(now);
      if tok.Success? {
        var request := BuildRefreshForm(clientID, clientSecret, tok.value.refreshToken);
        sent := Success(request);
        phase := Refreshing(request);
      } else {
        sent := Failure(tok.error);
        phase := TimerSpent;
      }
      clock := now;
      NextPreservesInv(old(State()), TimerFires(now));
    }

    /** The refresh POST returns: a grant is installed, a failure leaves the token; the timer is never re-armed. */
    method FinishRefresh(now: int, reply: Reply)
      requires Valid()
      requires phase.Refreshing? && clock <= now
      modifies this
      ensures Valid()
      ensures State() == Next(old(State()), RefreshDone(now, reply))
      ensures phase == TimerSpent
      ensures Resolve(reply, now).Failure? ==> currentToken == old(currentToken)
      ensures Resolve(reply, now).Success? ==> currentToken == Some(Resolve(reply, now).value)
    {
      var result := Resolve(reply, now);
      if result.Success? {
        currentToken := Some(result.value);
      }
      phase := TimerSpent;
      clock := now;
      NextPreservesInv(old(State()), RefreshDone(now, reply));
    }

    /**
     * `StartPolling` together with the callers of `SetAuthCode`, over a
     * finite schedule of what happens around it: each event is carried out
     * by the step it names, in order.
     */
    method StartPolling(schedule: seq<Event>)
      requires Valid()
      requires Feasible(State(), schedule)
      modifies this
      ensures Valid()
      ensures State() == Run(old(State()), schedule)
    {
      var i := 0;
      while i < |schedule|
        invariant 0 <= i <= |schedule|
        invariant Valid()
        invariant Feasible(State(), schedule[i..])
        invariant Run(State(), schedule[i..]) == Run(old(State()), schedule)
      {
        assert schedule[i..][0] == schedule[i] && schedule[i..][1..] == schedule[i + 1..];
        match schedule[i] {
          case SubmitCode(code) => SetAuthCode(code);
          case TakeCode => var _ := TakeCode();
          case ExchangeDone(now, reply) => FinishExchange(now, reply);
          case ArmTimer(now) => ArmTimer(now);
          case TimerFires(now) => var _ := FireTimer(now);
          case RefreshDone(now, reply) => FinishRefresh(now, reply);
        }
        i := i + 1;
      }
    }
  }
}
