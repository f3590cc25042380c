/**
 * The token record of daemon.go, its expiry stamp, the read rule of
 * `Daemon.Get`, and the decision an exchange or refresh makes on the
 * provider's reply.
 *
 * Instants are integers counting nanoseconds (the resolution of Go's
 * `time.Time`) from the moment the daemon was created.
 */
module Tokens {
  import opened Wrappers

  /** Go's `int` on a 64-bit platform, and `time.Duration`. */
  newtype int64 = x: int | -0x8000_0000_0000_0000 <= x < 0x8000_0000_0000_0000

  const NanosPerSecond: int := 1_000_000_000

  /** The largest `expires_in` whose lifetime in nanoseconds still fits an int64. */
  const MaxLifetimeSeconds: int := 9_223_372_036

  /** Two's-complement truncation of an integer to 64 bits, as Go's int64 arithmetic does. */
  function Wrap64(x: int): (r: int64)
    ensures -0x8000_0000_0000_0000 <= x < 0x8000_0000_0000_0000 ==> r as int == x
    ensures (r as int - x) % 0x1_0000_0000_0000_0000 == 0
  {
    ((x + 0x8000_0000_0000_0000) % 0x1_0000_0000_0000_0000 - 0x8000_0000_0000_0000) as int64
  }

  /** `time.Duration(expiresIn) * time.Second`: the product wraps on overflow. */
  function Lifetime(expiresIn: int64): (d: int64)
    ensures 0 <= expiresIn as int <= MaxLifetimeSeconds ==> d as int == expiresIn as int * NanosPerSecond
    ensures (d as int - expiresIn as int * NanosPerSecond) % 0x1_0000_0000_0000_0000 == 0
  {
    Wrap64(expiresIn as int * NanosPerSecond)
  }

  /** The JSON body of a 200 reply: the exported fields of `Token`. */
  datatype Payload = Payload(
    accessToken: string,
    refreshToken: string,
    tokenType: string,
    expiresIn: int64,
    host: string)

  /** `Token`: the provider's fields plus the locally derived `validBefore`. */
  datatype Token = Token(
    accessToken: string,
    refreshToken: string,
    tokenType: string,
    expiresIn: int64,
    host: string,
    validBefore: int)
  {
    /** The fields that travel on the wire. */
    function Wire(): Payload {
      Payload(accessToken, refreshToken, tokenType, expiresIn, host)
    }

    /** The instant the token was stamped, recovered from its expiry. */
    function IssuedAt(): int {
      validBefore - Lifetime(expiresIn) as int
    }
  }

  /**
   * The expiry stamp `resolveToken` and `refreshToken` put on a decoded
   * token: the issuance instant plus the wrapped lifetime. Every wire field
   * passes through unchanged; only `validBefore` is derived.
   */
  function Stamp(p: Payload, issuedAt: int): (t: Token)
    ensures t.Wire() == p
    ensures t.IssuedAt() == issuedAt
  {
    Token(p.accessToken, p.refreshToken, p.tokenType, p.expiresIn, p.host,
          issuedAt + Lifetime(p.expiresIn) as int)
  }

  /** The two errors `Get` returns: "token not ready yet" and "token expired". */
  datatype GetError = NotReady | Expired

  /**
   * The decision rule of `Daemon.Get`: no token, then strictly after its
   * expiry (`time.Time.After` is strict), then the token itself.
   */
  function ReadCurrent(current: Option<Token>, now: int): (r: Result<Token, GetError>)
    ensures r == Failure(NotReady) <==> current.None?
    ensures r == Failure(Expired) <==> current.Some? && now > current.value.validBefore
    ensures r.Success? <==> current.Some? && now <= current.value.validBefore
    ensures r.Success? ==> current == Some(r.value)
  {
    if current.None? then Failure(NotReady)
    else if now > current.value.validBefore then Failure(Expired)
    else Success(current.value)
  }

  /**
   * What the provider's token endpoint did: the POST failed in transport,
   * or a response came back with a status and a body that did or did not
   * decode into a payload.
   */
  datatype Reply = TransportFailure | Response(status: int, body: Option<Payload>)

  /** Why `resolveToken` / `refreshToken` returned an error after sending. */
  datatype ExchangeError = Transport | Non200 | Undecodable

  const StatusOK: int := 200

  /**
   * The reply handling shared by `resolveToken` and `refreshToken`:
   * transport error, then non-200 status, then decode error, then the
   * decoded token stamped at `issuedAt`.
   */
  function Resolve(reply: Reply, issuedAt: int): (r: Result<Token, ExchangeError>)
    ensures r.Success? <==> reply.Response? && reply.status == StatusOK && reply.body.Some?
    ensures r == Failure(Transport) <==> reply.TransportFailure?
    ensures r == Failure(Non200) <==> reply.Response? && reply.status != StatusOK
    ensures r == Failure(Undecodable) <==> reply.Response? && reply.status == StatusOK && reply.body.None?
    ensures r.Success? ==> r.value.Wire() == reply.body.value && r.value.IssuedAt() == issuedAt
  {
    match reply
    case TransportFailure => Failure(Transport)
    case Response(status, body) =>
      if status != StatusOK then Failure(Non200)
      else if body.None? then Failure(Undecodable)
      else Success(Stamp(body.value, issuedAt))
  }

  /** For a lifetime that fits, `validBefore` is issuance time plus `expires_in` seconds. */
  lemma StampedExpiry(p: Payload, issuedAt: int)
    requires 0 <= p.expiresIn as int <= MaxLifetimeSeconds
    ensures Stamp(p, issuedAt).validBefore == issuedAt + p.expiresIn as int * NanosPerSecond
  {
  }

  /**
   * A freshly stamped token with a lifetime that fits is served from its
   * issuance instant through its expiry instant inclusive, and reported
   * expired at every later instant.
   */
  lemma ServedUntilExpiry(p: Payload, issuedAt: int, now: int)
    requires 0 <= p.expiresIn as int <= MaxLifetimeSeconds
    requires issuedAt <= now
    ensures ReadCurrent(Some(Stamp(p, issuedAt)), now).Success?
            <==> now <= issuedAt + p.expiresIn as int * NanosPerSecond
    ensures ReadCurrent(Some(Stamp(p, issuedAt)), now) == Failure(Expired)
            <==> now > issuedAt + p.expiresIn as int * NanosPerSecond
  {
    StampedExpiry(p, issuedAt);
  }

  /**
   * An `expires_in` one second beyond the int64 range of durations wraps to
   * a negative lifetime: the token is already expired when it is stamped.
   */
  lemma OverlongLifetimeExpiredAtIssue(p: Payload, issuedAt: int)
    requires p.expiresIn as int == MaxLifetimeSeconds + 1
    ensures Lifetime(p.expiresIn) < 0
    ensures ReadCurrent(Some(Stamp(p, issuedAt)), issuedAt) == Failure(Expired)
  {
  }
}
