# wrike-token-daemon: the token lifecycle, in Dafny

This project models the core of the Wrike token daemon (`daemon.go`): the
`Daemon` object that keeps one OAuth2 access token for the Wrike API, the
`StartPolling` loop that waits for an authorization code, exchanges it,
installs the token and arms a one-shot refresh timer, and the `Get` read
that other local processes use.

Layout:

- `wrappers.dfy` — `Option` and `Result`.
- `tokens.dfy` — module `Tokens`: the `Token` record, the int64 lifetime
  arithmetic of `time.Duration(ExpiresIn) * time.Second`, the `validBefore`
  stamp, the read rule of `Get` (`ReadCurrent`), and the reply handling
  shared by `resolveToken` and `refreshToken` (`Resolve`).
- `requests.dfy` — module `Requests`: the form bodies POSTed to the token
  endpoint, as `url.Values` maps filled one key at a time.
- `lifecycle.dfy` — module `Lifecycle`: the loop as a state machine over
  values (`State`, `Event`, `Next`, `Run`), its invariant, and the
  properties of whole schedules.
- `daemon.dfy` — module `TokenDaemon`: class `Daemon` with the source's
  fields, `Get` as a function of the fields and the time, and one method
  per step of the loop; every method is proved to perform exactly the
  `Lifecycle.Next` transition of its event and to keep the invariant.

Time is an integer count of nanoseconds since the daemon was created; each
step that reads the clock takes the instant as a parameter and requires it
to be no earlier than the last one observed. The provider's reply is a
parameter too: a transport failure, or a status code with a body that did
or did not decode into the token's JSON fields.

What the model shows about the code as written: the timer is created once,
after the first successful exchange, and never re-armed, so the loop makes
at most one refresh attempt over the life of the process and never waits
for a code again. The token is stamped before the timer is created, so the
timer fires no earlier than the token's expiry; since `refreshToken` first
calls `Get`, the refresh request is sent only when the timer fires at
exactly the expiry instant. In every other case `Get` answers "token
expired" from then on. Nothing in `daemon.go` re-arms the timer after a
refresh, and a failed refresh (`continue`, daemon.go:90) leaves the loop
blocked in its `select` for good.

## Model

| member | source | states |
|---|---|---|
| `Tokens.Lifetime` | daemon.go:136 | an `expires_in` of 0 to 9223372036 seconds gives exactly that many seconds in nanoseconds; beyond, the int64 product wraps |
| `Tokens.ReadCurrent` | daemon.go:45-58 | "not ready" exactly when there is no token; "expired" exactly when now is strictly after `validBefore`; otherwise success with exactly the current token |
| `Tokens.Resolve` | daemon.go:108-137 | transport error, non-200 status and undecodable body each fail with their own error; success exactly on a decoded 200 reply, giving its fields with `validBefore` derived from the issuance instant |
| `Tokens.Stamp` | daemon.go:136 | the stamped token keeps every decoded field and only derives `validBefore`, from which the issuance instant is recovered |
| `Tokens.StampedExpiry` | daemon.go:136 | `validBefore` is the issuance instant plus `expires_in` seconds whenever the lifetime fits an int64 |
| `Tokens.ServedUntilExpiry` | daemon.go:54-58 | a freshly stamped token is served at every instant up to and including its expiry and reported expired at every later one |
| `Tokens.OverlongLifetimeExpiredAtIssue` | daemon.go:136 | an `expires_in` of 9223372037 seconds wraps to a negative lifetime, so the token is expired at the instant it is stamped |
| `Requests.ExchangeForm` | daemon.go:102-106 | the exchange body has exactly the keys `client_id`, `client_secret`, `grant_type`, `code`, with the credentials, `authorization_code` and the code |
| `Requests.RefreshForm` | daemon.go:147-151 | the refresh body has exactly the keys `client_id`, `client_secret`, `grant_type`, `refresh_token`, with the credentials, `refresh_token` and the refresh token |
| `Requests.Set` | daemon.go:103 | `url.Values.Set` leaves the key with exactly the one given value and every other key as it was |
| `Requests.BuildExchangeForm` | daemon.go:102-106 | filling the values key by key yields exactly the exchange body |
| `Requests.BuildRefreshForm` | daemon.go:147-151 | filling the values key by key yields exactly the refresh body |
| `Lifecycle.Initial` | daemon.go:36-43 | a new daemon satisfies the invariant, has an empty slot, waits for a code, and its read fails with "not ready" |
| `Lifecycle.Enabled` | daemon.go:62-86 | a code submission needs an empty slot (the send blocks otherwise); taking a code needs a code and the loop waiting for one; the timer fires only at or after its deadline; every step that reads the clock sees a time no earlier than the last |
| `Lifecycle.Next` | daemon.go:65-98 | a step of the loop or a code submission never changes the credentials and never moves time back; a submission leaves the loop and the token alone; the token changes only on a reply that grants one |
| `Lifecycle.NextPreservesInv` | daemon.go:65-98 | every step of the loop and every code submission keeps the invariant |
| `Lifecycle.TakeCodeSendsExchange` | daemon.go:69-70 | taking a code empties the slot, records the code and sends the exchange body carrying that code; the token is untouched |
| `Lifecycle.ExchangeOutcome` | daemon.go:73-81 | a failed exchange changes only the loop position (back to waiting for a code) and the clock; a successful one also installs the stamped token, and nothing else changes |
| `Lifecycle.TimerFiresNoSoonerThanExpiry` | daemon.go:83 | the timer's deadline is no earlier than the current token's expiry, because the token was stamped before the timer was created |
| `Lifecycle.RefreshSentOnlyAtExpiry` | daemon.go:86-91 | when the timer fires a refresh request is sent exactly when the instant equals the token's expiry; the token is not changed by the firing |
| `Lifecycle.RefreshOutcome` | daemon.go:87-95 | after a refresh reply the timer is spent; a failure leaves the token, a grant installs the stamped token |
| `Lifecycle.RunPreservesInv` | daemon.go:65-98 | every feasible schedule keeps the invariant |
| `Lifecycle.TokenChangesOnlyOnGrant` | daemon.go:65-98 | over a schedule without a successful reply the current token ends as it began |
| `Lifecycle.NotReadyUntilGranted` | daemon.go:50-52 | from a new daemon, until some reply grants a token, every read fails with "not ready" |
| `Lifecycle.FiresBounded` | daemon.go:83-97 | the timer fires at most once from a phase before the firing and never after it |
| `Lifecycle.AtMostOneRefresh` | daemon.go:83-97 | over the whole life of a daemon the timer fires, and a refresh is attempted, at most once |
| `Lifecycle.NeverAwaitsCodeAgain` | daemon.go:76-97 | once a token is installed the loop never again takes a code, and a code left in the slot stays there |
| `Lifecycle.SpentIsFinal` | daemon.go:84-97 | once the timer is spent no schedule changes the loop position or the token |
| `Lifecycle.ExpiredForever` | daemon.go:84-97 | once the timer is spent, every read after the token's expiry fails with "expired" |
| `TokenDaemon.Daemon.constructor` | daemon.go:36-43 | a new daemon is the initial state: no code, empty slot, no token, waiting for a code |
| `TokenDaemon.Daemon.Get` | daemon.go:45-58 | succeeds exactly when a token is installed and now is not after its expiry, returning that token; "not ready" exactly when none is installed |
| `TokenDaemon.Daemon.SetAuthCode` | daemon.go:61-63 | with the slot empty, the code is put in the slot and nothing else changes |
| `TokenDaemon.Daemon.TakeCode` | daemon.go:67-70 | the code moves from the slot to `authCode`, and the exchange body for it is returned and recorded as in flight |
| `TokenDaemon.Daemon.FinishExchange` | daemon.go:72-81 | a failed exchange leaves the token and returns to waiting for a code; a successful one installs the resolved token |
| `TokenDaemon.Daemon.ArmTimer` | daemon.go:83 | the timer deadline is now plus the installed token's lifetime; the token is unchanged |
| `TokenDaemon.Daemon.FireTimer` | daemon.go:86-91 | returns the error of `Get` at now, sending nothing and spending the timer, exactly when `Get` fails; otherwise returns and records the refresh body built from the current refresh token |
| `TokenDaemon.Daemon.FinishRefresh` | daemon.go:87-95 | the timer is spent; a failure leaves the token, a grant installs the resolved token |
| `TokenDaemon.Daemon.StartPolling` | daemon.go:65-98 | carrying out a feasible schedule step by step ends in the state the state machine prescribes and keeps the invariant |

## Left out

- HTTP transport: `PostForm`, reading, logging and closing the response body. The reply is a parameter (`Tokens.Reply`).
- JSON decoding of the response body into `Token`: library behaviour; the decoded fields (or a decode failure) are part of the reply.
- `sync.RWMutex`, the goroutine and blocking channel operations: each install is one atomic assignment, the channel is a one-value slot, a blocked send or receive is a step whose precondition does not hold yet.
- `time.Now`, `time.Timer` and real durations: instants are parameters; the timer firing is an event allowed at or after its deadline. Go's clamping of timer deadlines that overflow is not modelled.
- `log.Printf` calls: side effects only.
- `Get` returns the daemon's own `*Token` (daemon.go:58), so callers share the installed token; the model returns the token as a value, and aliasing through that pointer is not modelled (no caller in the source writes through it).
- Go's `int` is taken to be 64 bits wide.
- `TokenDaemon.Daemon.StartPolling`: runs a finite schedule; the Go loop runs for the life of the process.
- The command-line wiring in cmd/wriked/main.go is not part of this model (it binds the `--client-secret` flag into the client identifier variable, a flag-plumbing slip outside the core).
- The HTTP handlers and server in internal/wrikedhttp are not part of this model: routing, the constant back-off retry around `Get`, and the rejection of an empty code before `SetAuthCode`. `SetAuthCode` itself accepts any string, and so does the model.
