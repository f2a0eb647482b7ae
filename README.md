# eBay OAuth token lifecycle, modelled in Dafny

This project models the core of `ebay-oauth`, a small Python library that keeps
an eBay OAuth2 refresh token and hands out short-lived access tokens.

- **`EbayOAuthClient`** (module `Auth`, class `OAuthClient`). It holds a refresh token and an
  in-memory cache: an access token and its absolute expiry. `get_access_token` serves the
  cached token while it is truthy and the clock is more than 60 s before its expiry.
  Otherwise it runs the refresh-token exchange of section 6 of RFC 6749. `force_refresh`
  empties the cache and always runs the exchange. The exchange checks the HTTP status first
  (anything outside 200-299 raises). It then reads the JSON body and requires a truthy
  `access_token`. It stores that token, and only then computes `int(expires_in)`
  (default 7200) and writes the expiry as the clock reading plus that many seconds.
- **The `Authorization` header** (`Auth.BasicAuthHeader`). It uses the Basic scheme of
  section 2 of RFC 7617: `"Basic "` followed by the base 64 encoding (section 4 of RFC 4648,
  module `Base64`) of the UTF-8 bytes (module `Utf8`) of `client_id:client_secret`. Both
  encodings come with decoders and round-trip proofs.
- **The environment registry** (module `Config`). It holds the two fixed environments,
  `sandbox` and `production`, and the callback listener's port range and timeout.
- **The callback listener** (module `Server`). `do_GET` classifies a redirect in a fixed order:
  wrong path, nonce mismatch, provider error, missing refresh token, success. It records the
  outcome in three server fields. `wait_for_callback` polls until one of these is recorded or
  the deadline passes, always closes the server, and then raises or returns. `_find_available_port`
  is a first-fit scan of the port range.

How the outside world appears in the model:

- **Network.** A token exchange is answered by a `Response` (a status, plus the body as
  `response.json()` parses it, or None when the body is not JSON). Every POST is appended to the
  ghost log `Sent` of the client. So "a network call happens" means the log grows by one request.
- **Clock.** Time is an integer argument. The source reads the clock twice: once for the cache
  check (`now`) and once after the response, to compute the expiry (`replyTime`). The wait loop's
  clock readings come with its polls.
- **Listener input.** Requests reach the handler already split by `urlparse` and `parse_qs`. Each
  turn of the wait loop is a `Poll`: the clock reading, plus the request served in that turn, if any.
- **Free ports.** The ports that can be bound are a set.

Where the code does something other than one might expect, the model follows the code:

- One might expect the cache to change only on a successful exchange. In the code the token is
  stored before `int(expires_in)` is evaluated (src/ebay_oauth/auth.py:88-90). So an `expires_in`
  that `int()` rejects raises after the new token is stored, and the old expiry is kept.
  `Auth.Exchange` states this case exactly. For the callers the effect is harmless. The exchange
  only runs once the old expiry is within 60 s of the check, so the half-updated cache is a miss
  again at the next check unless the clock goes back.
- The docstring of `get_access_token` speaks of a response that "doesn't contain an access token".
  The code also rejects a present but falsy one (`""`, `null`, `0`, empty containers). The cache
  check likewise ignores a falsy cached token.
- httpx's `raise_for_status` raises for every status outside 200-299, including 1xx and 3xx.

## Model

| member | source | states |
|---|---|---|
| `Config.Lookup` | src/ebay_oauth/config.py:15-18 | the registry answers for exactly `sandbox` and `production`, with the sandbox and production descriptors respectively |
| `Config.RegistryKeys` | src/ebay_oauth/config.py:15-18 | the registry has exactly the two keys `sandbox` and `production` |
| `Config.PortRangeWellFormed` | src/ebay_oauth/config.py:33-34 | the callback port range [8880, 8899] is non-empty and holds the default port 8881 |
| `Config.SandboxTokenUrlMarked` | src/ebay_oauth/config.py:5 | the sandbox token endpoint contains "sandbox" |
| `Config.ProductionTokenUrlUnmarked` | src/ebay_oauth/config.py:11 | the production token endpoint does not contain "sandbox" |
| `Config.TokenUrlsDistinguishable` | tests/test_auth.py:23-36 | of the two registered descriptors, only the sandbox token URL contains "sandbox" |
| `Auth.UnknownEnvironmentMessage` | src/ebay_oauth/auth.py:38 | the constructor's error message starts with "Unknown environment" |
| `Auth.OAuthClient.New` | src/ebay_oauth/auth.py:24-43 | construction fails with UnknownEnvironment exactly for names the registry lacks, carrying a message that starts with "Unknown environment"; on success the client has the given credentials, the registry's `token_url` and `api_base`, an empty cache (None, 0) and has sent nothing |
| `Auth.OAuthClient.NewDefault` | src/ebay_oauth/auth.py:24-30 | leaving out the environment argument always succeeds and gives a sandbox client: the sandbox token URL and API base, an empty cache, nothing sent |
| `Auth.OAuthClient.Resolved` | src/ebay_oauth/auth.py:31-43 | the fields a resolved construction sets: credentials, endpoints from the registry, cache (None, 0) |
| `Auth.BasicAuthHeader` | src/ebay_oauth/auth.py:45-49 | the header starts with "Basic " |
| `Auth.BasicAuthHeaderDecodes` | tests/test_auth.py:47-53 | the payload after "Basic " has no space, base 64 decodes to the UTF-8 bytes of `client_id:client_secret`, and those bytes decode to exactly that string |
| `Auth.Exchange` | src/ebay_oauth/auth.py:67-92 | the checks run in the source's order, each failure naming its cause: a non-2xx status fails with that status; a 2xx body that is not JSON fails with BodyNotJson; JSON that is not an object fails with BodyNotObject; an object whose `access_token` is missing or falsy fails with NoAccessToken; each of these leaves the cache alone. BadExpiresIn happens exactly for an object with a truthy `access_token` and an `expires_in` that `int()` rejects; it carries that value and leaves the new token stored with the old expiry. Success happens exactly for a 2xx JSON object with a truthy `access_token` and an `int()`-able `expires_in`, and then returns that token and caches it with expiry `replyTime + int(expires_in)`, 7200 when absent; a cache holding only truthy tokens keeps that property |
| `Auth.MissingAccessTokenRejected` | tests/test_auth.py:135-148 | a 200 answer whose object has no `access_token` (such as `{"error": "invalid_grant"}`) raises NoAccessToken and leaves the cache as it was |
| `Auth.Serve` | src/ebay_oauth/auth.py:51-65 | on a cache hit (truthy token, `now < expiry - 60`) the cached token is returned and the cache is unchanged; otherwise the outcome is that of one exchange; a returned token is always truthy |
| `Auth.FreshTokenServedUntilMargin` | src/ebay_oauth/auth.py:61-63 | after a successful exchange, a later check is a hit exactly while it is more than 60 s before the new expiry, and it then returns the new token whatever the endpoint would answer |
| `Auth.ForcedRefreshFailureEmptiesCache` | src/ebay_oauth/auth.py:94-98 | a failed forced refresh leaves expiry 0, and no token unless the failure came after the token was stored |
| `Auth.OAuthClient.RefreshAccessToken` | src/ebay_oauth/auth.py:67-92 | sends exactly one request, to the client's token URL with the form content type, the Basic header, `grant_type=refresh_token` and the stored refresh token; its answer and the new cache are those of `Exchange` on the old cache |
| `Auth.OAuthClient.GetAccessToken` | src/ebay_oauth/auth.py:51-65 | sends nothing on a cache hit and exactly one request otherwise; its answer and the new cache are those of `Serve` |
| `Auth.OAuthClient.ForceRefresh` | src/ebay_oauth/auth.py:94-98 | sends exactly one request whatever the cache held; its answer and the new cache are those of `Exchange` from the empty cache |
| `Auth.SandboxRefreshThenCacheHit` | tests/test_auth.py:56-89 | a fresh sandbox client returns the new token after one POST to the sandbox token URL with `grant_type=refresh_token`, and an immediate second call returns the same token without another POST |
| `Auth.RejectedRefreshKeepsCache` | src/ebay_oauth/auth.py:81 | a 401 raises HttpStatus(401) and leaves the previous cache exactly as it was |
| `Utf8.Encode` | src/ebay_oauth/auth.py:48 | `str.encode()` takes one to four bytes per character |
| `Utf8.DecodeEncode` | tests/test_auth.py:52-53 | decoding the UTF-8 encoding of any string gives that string back |
| `Base64.Encode` | src/ebay_oauth/auth.py:48 | `b64encode` output has length 4 * ceil(n / 3) and uses only alphabet and padding characters |
| `Base64.DecodeEncode` | tests/test_auth.py:52 | decoding the base 64 encoding of any byte string gives those bytes back |
| `Base64.Rfc4648VectorFoobar` | src/ebay_oauth/auth.py:48 | "foobar" encodes to "Zm9vYmFy", the test vector of section 10 of RFC 4648 |
| `Base64.Rfc4648VectorFoo` | src/ebay_oauth/auth.py:48 | "foo" encodes to "Zm9v" (RFC 4648, section 10) |
| `Base64.Rfc4648VectorFo` | src/ebay_oauth/auth.py:48 | "fo" encodes to "Zm8=", one pad character (RFC 4648, section 10) |
| `Base64.Rfc4648VectorF` | src/ebay_oauth/auth.py:48 | "f" encodes to "Zg==", two pad characters (RFC 4648, section 10) |
| `Base64.NoSpace` | tests/test_auth.py:52 | an encoding contains no space, so splitting the header on " " isolates the payload |
| `Json.ParseIntNumeral` | src/ebay_oauth/auth.py:90 | `int()` of the decimal numeral of any integer is that integer |
| `Json.ParseIntRejectsNonDigit` | src/ebay_oauth/auth.py:90 | `int()` of a string raises as soon as any character other than a leading sign is not a digit |
| `Json.ToIntNumeralString` | src/ebay_oauth/auth.py:89-90 | an `expires_in` given as an integer or as the string of its numeral yields the same number of seconds |
| `Server.Classify` | src/ebay_oauth/server.py:71-119 | 404 exactly off `/callback`; a missing or wrong nonce gives "Nonce mismatch" whatever else is present; with the right nonce, an `error` gives its `error_description` or else itself; with no error and no refresh token, "Missing refresh token"; success exactly when the nonce matches, there is no error and there is a refresh token, and then the result holds the first values of the four token parameters |
| `Server.Record` | src/ebay_oauth/server.py:72-119 | a 404 writes nothing; a rejection sets the error and `done` and leaves the result; an acceptance sets the result and `done` and leaves the error |
| `Server.RecordKeepsValid` | src/ebay_oauth/server.py:84-119 | recording an outcome keeps the listener invariant: nothing recorded before `done`, no blank error, an error or a result once done |
| `Server.Settle` | src/ebay_oauth/server.py:178-181 | once done, the wait raises exactly when an error was recorded, carrying that error, and otherwise returns the recorded result |
| `Server.Run` | src/ebay_oauth/server.py:168-176 | the wait loop keeps the listener invariant and changes nothing once done |
| `Server.AwaitDecidedByFirstCallback` | src/ebay_oauth/server.py:168-181 | the wait times out exactly when no request before the deadline reached `/callback`; otherwise the first such request decides the result or the error |
| `Server.CallbackServer.constructor` | src/ebay_oauth/server.py:142-146 | a new server expects the nonce, has nothing recorded, `done` unset, and is open |
| `Server.CallbackServer.HandleGet` | src/ebay_oauth/server.py:71-119 | answers with the status of `Classify` and writes exactly what `Record` says |
| `Server.CallbackServer.WaitForCallback` | src/ebay_oauth/server.py:151-181 | the server is closed on every exit; the fields and the result or error are those of `Run` and `Await` |
| `Server.CallbackServer.WaitForCallbackDefault` | src/ebay_oauth/server.py:151 | the wait with the default timeout is the wait with `CALLBACK_TIMEOUT_SECONDS` (300 s): same fields, same result or error, server closed |
| `Server.FindAvailablePort` | src/ebay_oauth/server.py:13-23 | returns the lowest bindable port of [8880, 8899], so the result is in range; raises NoAvailablePort exactly when no port in the range can be bound |
| `Server.StartCallbackServer` | src/ebay_oauth/server.py:132-148 | fails exactly when no port in range is in the set of bindable ports; otherwise a fresh open server on a free port in range, expecting the given nonce, with nothing recorded |
| `Server.SpoofedCallbackRejected` | src/ebay_oauth/server.py:82-87 | a `/callback` with nonce "xyz" sent to a listener expecting "abc" raises "Nonce mismatch" and leaves no result |

## Left out

- `src/ebay_oauth/cli.py` is not part of this model. It holds the click commands, browser launch,
  environment-variable reads, the one-time authorization-code exchange and `sys.exit`, all glue.
- `src/ebay_oauth/token_storage.py` is not part of this model. It is a thin wrapper over `keyring` and `json`.
- Network failures other than an HTTP status, such as a refused connection, are not modelled.
  httpx raises them before the client writes anything, so they behave like a status failure.
- Time is an integer. The source's float seconds from `time.time()` and `time.monotonic()` are not modelled.
- JSON numbers are integers. `int()` truncation of a fractional `expires_in` is not modelled.
- `Json.ToInt`: for strings it accepts only an optional sign followed by ASCII digits. Python's
  `int()` also accepts surrounding whitespace, digit-separating underscores and non-ASCII digits;
  those inputs are treated as errors here.
- `Utf8.Encode`: Dafny characters are Unicode scalar values, so the `UnicodeEncodeError` Python
  raises for a lone surrogate cannot arise.
- `Base64.DecodeEncode`: the decoder is strict. It requires a length that is a multiple of four,
  padding only at the end, and no other characters. Python's `b64decode` discards non-alphabet
  characters. The round trip only decodes encoder output, so this does not matter there.
- The nonce comes from `secrets.token_urlsafe` and is an input here. Its randomness and uniqueness cannot be stated.
- The HTML pages, the `_send_error` body, `log_message`, `SCOPES`, `RELAY_URL` and the keyring names are not modelled.
- Requests other than GET are not modelled. Neither are the one-second polling timeout of
  `handle_request` and the `threading.Event` mechanics; a `Poll` stands for one loop turn.
- `Server.CallbackServer.WaitForCallback`: requires the clock to eventually read past the deadline
  (`EndsLate`). This gives termination, which the source gets from a real clock.
- `Server.CallbackServer.WaitForCallbackDefault`: the same `EndsLate` requirement, with the deadline
  300 s after `start`.
- `Server.CallbackServer.HandleGet`: requires the listener invariant, which `start_callback_server`
  establishes and `do_GET` keeps. So the source's `return server.callback_result` returning None
  after `done` is unreachable, and the model returns the result itself.
- `Server.StartCallbackServer`: the set of bindable ports is read once. `_find_available_port` closes
  its probe socket before `HTTPServer` binds the port again, and another process that takes the port in
  between makes the source raise `OSError`. The model does not capture that gap.
- Concurrent callers of the client (the check-then-refresh race) are not modelled. The code defines no concurrency.
