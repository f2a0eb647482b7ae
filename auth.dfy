/**
 * The access-token lifecycle of `EbayOAuthClient`: the Basic authorization
 * header, the refresh-token exchange of section 6 of RFC 6749 against the
 * environment's token endpoint, and the in-memory cache of the access token
 * with its expiry.
 *
 * The network is an input: each exchange is answered by a `Response` the
 * caller supplies, and the POST it sends is appended to the ghost log `Sent`,
 * so "a network call happens" is the log growing by one request. The clock is
 * an input too: `now` is the reading taken before the cache check and
 * `replyTime` the one taken after the response, when the expiry is computed.
 */
module Auth {
  import opened Wrappers
  import opened Json
  import Config
  import Utf8
  import Base64

  /** Seconds before the recorded expiry at which a cached token stops being served. */
  const SafetyMargin := 60

  /** Lifetime assumed when the response carries no `expires_in`. */
  const DefaultExpiresIn := 7200

  /** What the token endpoint answered: the HTTP status and the body as `response.json()` sees it (None: not JSON). */
  datatype Response = Response(status: int, body: Option<Json.Value>)

  /** The POST of one refresh exchange: endpoint, headers and form fields. */
  datatype TokenRequest = TokenRequest(
    url: string, contentType: string, authorization: string, grantType: string, refreshToken: string)

  /** Everything the client raises. */
  datatype AuthError =
    | UnknownEnvironment(name: string, message: string) // ValueError from the constructor
    | HttpStatus(status: int)                           // raise_for_status on a non-2xx answer
    | BodyNotJson                                       // response.json() fails
    | BodyNotObject(body: Json.Value)                   // data.get on JSON that is not an object
    | NoAccessToken(fields: map<string, Json.Value>)    // RuntimeError "No access_token in response"
    | BadExpiresIn(expiresIn: Json.Value)               // int(expires_in) fails

  /** The cached access token (`_access_token`) and its absolute expiry (`_token_expiry`). */
  datatype Cache = Cache(token: Option<Json.Value>, expiry: int)

  /** A cache operation's answer to its caller together with the cache it leaves behind. */
  datatype Step = Step(result: Result<Json.Value, AuthError>, cache: Cache)

  const EmptyCache := Cache(None, 0)

  /** The message of the constructor's ValueError. */
  function UnknownEnvironmentMessage(name: string): (m: string)
    ensures |m| >= 19 && m[..19] == "Unknown environment"
  {
    "Unknown environment: " + name + ". Use 'sandbox' or 'production'."
  }

  /** `raise_for_status` lets exactly the 2xx statuses through. */
  predicate IsSuccessStatus(status: int) {
    200 <= status < 300
  }

  /** Every token the cache holds is truthy: an empty or null token is never committed. */
  predicate CacheWellFormed(c: Cache) {
    c.token.Some? ==> Truthy(c.token.value)
  }

  /** The cache check of `get_access_token`: a truthy token more than the margin away from its expiry. */
  predicate CacheHit(c: Cache, now: int) {
    c.token.Some? && Truthy(c.token.value) && now < c.expiry - SafetyMargin
  }

  /** `Authorization` value of the Basic scheme of RFC 7617: "Basic " and base 64 of the UTF-8 of `id:secret`. */
  function BasicAuthHeader(clientId: string, clientSecret: string): (h: string)
    ensures |h| >= 6 && h[..6] == "Basic "
  {
    "Basic " + Base64.Encode(Utf8.Encode(clientId + ":" + clientSecret))
  }

  /**
   * Splitting the header on its one space gives "Basic" and a payload that
   * decodes (base 64, then UTF-8) to exactly `client_id:client_secret`.
   */
  lemma BasicAuthHeaderDecodes(clientId: string, clientSecret: string)
    ensures var payload := BasicAuthHeader(clientId, clientSecret)[6..];
      && ' ' !in payload
      && Base64.Decode(payload) == Some(Utf8.Encode(clientId + ":" + clientSecret))
      && Utf8.Decode(Utf8.Encode(clientId + ":" + clientSecret)) == Some(clientId + ":" + clientSecret)
  {
    var bytes := Utf8.Encode(clientId + ":" + clientSecret);
    assert BasicAuthHeader(clientId, clientSecret)[6..] == Base64.Encode(bytes);
    Base64.NoSpace(bytes);
    Base64.DecodeEncode(bytes);
    Utf8.DecodeEncode(clientId + ":" + clientSecret);
  }

  /**
   * The refresh exchange as it acts on the cache, once the response is in
   * (`_refresh_access_token` after the POST). The order is the source's:
   * status, JSON body, a truthy `access_token`, then the token is committed,
   * and only then is `int(expires_in)` computed and the expiry written.
   */
  function Exchange(c: Cache, reply: Response, replyTime: int): (s: Step)
    ensures !IsSuccessStatus(reply.status) ==> s == Step(Failure(HttpStatus(reply.status)), c)
    ensures s.result.Failure? && !s.result.error.BadExpiresIn? ==> s.cache == c
    ensures IsSuccessStatus(reply.status) && reply.body.None? ==> s == Step(Failure(BodyNotJson), c)
    ensures IsSuccessStatus(reply.status) && reply.body.Some? && !reply.body.value.Object? ==>
      s == Step(Failure(BodyNotObject(reply.body.value)), c)
    ensures (&& IsSuccessStatus(reply.status) && reply.body.Some? && reply.body.value.Object?
             && !Truthy(GetOr(reply.body.value.fields, "access_token", Null))) ==>
      s == Step(Failure(NoAccessToken(reply.body.value.fields)), c)
    ensures (s.result.Failure? && s.result.error.BadExpiresIn?) <==>
      && IsSuccessStatus(reply.status)
      && reply.body.Some? && reply.body.value.Object?
      && Truthy(GetOr(reply.body.value.fields, "access_token", Null))
      && ToInt(GetOr(reply.body.value.fields, "expires_in", Number(DefaultExpiresIn))).None?
    ensures s.result.Failure? && s.result.error.BadExpiresIn? ==>
      && s.result.error.expiresIn == GetOr(reply.body.value.fields, "expires_in", Number(DefaultExpiresIn))
      && s.cache == Cache(Some(reply.body.value.fields["access_token"]), c.expiry)
      && Truthy(s.cache.token.value)
    ensures s.result.Success? <==>
      && IsSuccessStatus(reply.status)
      && reply.body.Some? && reply.body.value.Object?
      && Truthy(GetOr(reply.body.value.fields, "access_token", Null))
      && ToInt(GetOr(reply.body.value.fields, "expires_in", Number(DefaultExpiresIn))).Some?
    ensures s.result.Success? ==>
      && s.result.value == reply.body.value.fields["access_token"]
      && s.cache.token == Some(s.result.value)
      && s.cache.expiry == replyTime + ToInt(GetOr(reply.body.value.fields, "expires_in", Number(DefaultExpiresIn))).value
    ensures CacheWellFormed(c) ==> CacheWellFormed(s.cache)
  {
    if !IsSuccessStatus(reply.status) then Step(Failure(HttpStatus(reply.status)), c)
    else if reply.body.None? then Step(Failure(BodyNotJson), c)
    else if !reply.body.value.Object? then Step(Failure(BodyNotObject(reply.body.value)), c)
    else
      var fields := reply.body.value.fields;
      var token := GetOr(fields, "access_token", Null);
      if !Truthy(token) then Step(Failure(NoAccessToken(fields)), c)
      else
        var committed := Cache(Some(token), c.expiry);
        var expiresIn := GetOr(fields, "expires_in", Number(DefaultExpiresIn));
        match ToInt(expiresIn)
        case None => Step(Failure(BadExpiresIn(expiresIn)), committed)
        case Some(seconds) => Step(Success(token), Cache(Some(token), replyTime + seconds))
  }

  /** `get_access_token`: the cached token while it is a hit, otherwise one exchange. */
  function Serve(c: Cache, now: int, reply: Response, replyTime: int): (s: Step)
    ensures CacheHit(c, now) ==> s == Step(Success(c.token.value), c)
    ensures !CacheHit(c, now) ==> s == Exchange(c, reply, replyTime)
    ensures s.result.Success? ==> Truthy(s.result.value)
    ensures CacheWellFormed(c) ==> CacheWellFormed(s.cache)
  {
    if CacheHit(c, now) then Step(Success(c.token.value), c) else Exchange(c, reply, replyTime)
  }

  /**
   * A successful exchange is served from the cache, with no further POST, at
   * every later check made more than the margin before its new expiry, and
   * at no check after that.
   */
  lemma FreshTokenServedUntilMargin(c: Cache, reply: Response, replyTime: int, later: int, other: Response, otherTime: int)
    requires Exchange(c, reply, replyTime).result.Success?
    ensures var s := Exchange(c, reply, replyTime);
      && CacheHit(s.cache, later) == (later < s.cache.expiry - SafetyMargin)
      && (later < s.cache.expiry - SafetyMargin ==>
            Serve(s.cache, later, other, otherTime) == Step(s.result, s.cache))
  {
  }

  /** A 2xx answer whose object has no `access_token` at all raises and leaves the cache as it was. */
  lemma MissingAccessTokenRejected(c: Cache, fields: map<string, Json.Value>, replyTime: int)
    requires "access_token" !in fields
    ensures Exchange(c, Response(200, Some(Object(fields))), replyTime) == Step(Failure(NoAccessToken(fields)), c)
  {
  }

  /**
   * A forced refresh starts from the empty cache, so its outcome does not
   * depend on how warm the cache was, and when it fails before committing a
   * token it leaves the cache empty.
   */
  lemma ForcedRefreshFailureEmptiesCache(reply: Response, replyTime: int)
    ensures var s := Exchange(EmptyCache, reply, replyTime);
      s.result.Failure? ==> s.cache.expiry == 0 && (s.cache.token.None? <==> !s.result.error.BadExpiresIn?)
  {
  }

  /** An OAuth client for one eBay environment; holds the refresh token and caches the access token. */
  class OAuthClient {
    const clientId: string
    const clientSecret: string
    const refreshToken: string
    const environment: string
    const tokenUrl: string
    const apiBase: string
    var accessToken: Option<Json.Value>
    var tokenExpiry: int
    /** Every token request POSTed so far, oldest first. */
    ghost var Sent: seq<TokenRequest>

    /** The two cache fields as one value. */
    function Cached(): Cache
      reads this
    {
      Cache(accessToken, tokenExpiry)
    }

    /** The request every exchange POSTs: the same endpoint, headers and form fields each time. */
    function Request(): (q: TokenRequest)
      ensures q.url == tokenUrl && q.grantType == "refresh_token" && q.refreshToken == refreshToken
      ensures q.contentType == "application/x-www-form-urlencoded"
      ensures q.authorization == BasicAuthHeader(clientId, clientSecret)
    {
      TokenRequest(tokenUrl, "application/x-www-form-urlencoded", BasicAuthHeader(clientId, clientSecret),
        "refresh_token", refreshToken)
    }

    /** The part of `__init__` that runs once the environment has resolved. */
    constructor Resolved(clientId: string, clientSecret: string, refreshToken: string, environment: string)
      requires Config.Lookup(environment).Some?
      ensures this.clientId == clientId && this.clientSecret == clientSecret
      ensures this.refreshToken == refreshToken && this.environment == environment
      ensures tokenUrl == Config.Lookup(environment).value.tokenUrl
      ensures apiBase == Config.Lookup(environment).value.apiBase
      ensures Cached() == EmptyCache && Sent == []
    {
      var env := Config.Lookup(environment).value;
      this.clientId := clientId;
      this.clientSecret := clientSecret;
      this.refreshToken := refreshToken;
      this.environment := environment;
      tokenUrl := env.tokenUrl;
      apiBase := env.apiBase;
      accessToken := None;
      tokenExpiry := 0;
      Sent := [];
    }

    /** `EbayOAuthClient(...)`: fails eagerly on an environment the registry does not know. */
    static method New(clientId: string, clientSecret: string, refreshToken: string, environment: string)
      returns (r: Result<OAuthClient, AuthError>)
      ensures r.Failure? <==> Config.Lookup(environment).None?
      ensures r.Failure? ==> r.error == UnknownEnvironment(environment, UnknownEnvironmentMessage(environment))
      ensures r.Failure? ==> |r.error.message| >= 19 && r.error.message[..19] == "Unknown environment"
      ensures r.Success? ==>
        && fresh(r.value)
        && r.value.clientId == clientId && r.value.clientSecret == clientSecret
        && r.value.refreshToken == refreshToken && r.value.environment == environment
        && r.value.tokenUrl == Config.Lookup(environment).value.tokenUrl
        && r.value.apiBase == Config.Lookup(environment).value.apiBase
        && r.value.Cached() == EmptyCache && r.value.Sent == []
    {
      if Config.Lookup(environment).None? {
        return Failure(UnknownEnvironment(environment, UnknownEnvironmentMessage(environment)));
      }
      var client := new OAuthClient.Resolved(clientId, clientSecret, refreshToken, environment);
      return Success(client);
    }

    /** `EbayOAuthClient(...)` with the environment argument left at its default, `sandbox`. */
    static method NewDefault(clientId: string, clientSecret: string, refreshToken: string)
      returns (r: Result<OAuthClient, AuthError>)
      ensures r.Success?
      ensures && fresh(r.value)
        && r.value.clientId == clientId && r.value.clientSecret == clientSecret
        && r.value.refreshToken == refreshToken && r.value.environment == "sandbox"
        && r.value.tokenUrl == Config.SandboxTokenUrl && r.value.apiBase == Config.EbaySandbox.apiBase
        && r.value.Cached() == EmptyCache && r.value.Sent == []
    {
      r := New(clientId, clientSecret, refreshToken, "sandbox");
    }

    /** `_refresh_access_token`: POSTs the request once, then applies the response to the cache. */
    method RefreshAccessToken(reply: Response, replyTime: int) returns (r: Result<Json.Value, AuthError>)
      modifies this
      ensures Sent == old(Sent) + [Request()]
      ensures Step(r, Cached()) == Exchange(old(Cached()), reply, replyTime)
    {
      Sent := Sent + [Request()];
      if !IsSuccessStatus(reply.status) {
        return Failure(HttpStatus(reply.status));
      }
      if reply.body.None? {
        return Failure(BodyNotJson);
      }
      var data := reply.body.value;
      if !data.Object? {
        return Failure(BodyNotObject(data));
      }
      var token := GetOr(data.fields, "access_token", Null);
      if !Truthy(token) {
        return Failure(NoAccessToken(data.fields));
      }
      accessToken := Some(token);
      var expiresIn := GetOr(data.fields, "expires_in", Number(DefaultExpiresIn));
      var seconds := ToInt(expiresIn);
      if seconds.None? {
        return Failure(BadExpiresIn(expiresIn));
      }
      tokenExpiry := replyTime + seconds.value;
      return Success(token);
    }

    /** `get_access_token`: no POST on a cache hit, exactly one otherwise. */
    method GetAccessToken(now: int, reply: Response, replyTime: int) returns (r: Result<Json.Value, AuthError>)
      modifies this
      ensures Sent == old(Sent) + (if CacheHit(old(Cached()), now) then [] else [Request()])
      ensures Step(r, Cached()) == Serve(old(Cached()), now, reply, replyTime)
    {
      if accessToken.Some? && Truthy(accessToken.value) && now < tokenExpiry - SafetyMargin {
        return Success(accessToken.value);
      }
      r := RefreshAccessToken(reply, replyTime);
    }

    /** `force_refresh`: empties the cache, then exactly one exchange whatever the cache held. */
    method ForceRefresh(reply: Response, replyTime: int) returns (r: Result<Json.Value, AuthError>)
      modifies this
      ensures Sent == old(Sent) + [Request()]
      ensures Step(r, Cached()) == Exchange(EmptyCache, reply, replyTime)
    {
      accessToken := None;
      tokenExpiry := 0;
      r := RefreshAccessToken(reply, replyTime);
    }
  }

  /**
   * A sandbox client with an empty cache: the first call POSTs once to the
   * sandbox token endpoint and returns the new token; a call two seconds
   * later is a cache hit and POSTs nothing, whatever the endpoint would say.
   */
  method SandboxRefreshThenCacheHit() returns (first: Result<Json.Value, AuthError>, second: Result<Json.Value, AuthError>, ghost sent: seq<TokenRequest>)
    ensures first == Success(Str("tok1")) && second == first
    ensures |sent| == 1 && sent[0].url == Config.SandboxTokenUrl && sent[0].grantType == "refresh_token"
  {
    var created := OAuthClient.NewDefault("test_client_id", "test_client_secret", "test_refresh_token");
    var client := created.value;
    var reply := Response(200, Some(Object(map["access_token" := Str("tok1"), "expires_in" := Number(7200)])));
    first := client.GetAccessToken(1000, reply, 1001);
    second := client.GetAccessToken(1002, Response(401, None), 1003);
    sent := client.Sent;
  }

  /** A 401 answer raises and leaves the previous cache exactly as it was. */
  method RejectedRefreshKeepsCache(client: OAuthClient, now: int) returns (r: Result<Json.Value, AuthError>)
    requires !CacheHit(client.Cached(), now)
    modifies client
    ensures r == Failure(HttpStatus(401))
    ensures client.Cached() == old(client.Cached())
  {
    r := client.GetAccessToken(now, Response(401, None), now);
  }
}
