/**
 * The local callback listener: how `_CallbackHandler.do_GET` classifies one
 * redirect and records it in the server, how `wait_for_callback` turns the
 * recorded outcome into a result or an error and always closes the server,
 * and the first-fit port scan of `_find_available_port`.
 *
 * Sockets, the HTTP transport and the clock are inputs: a request arrives
 * already split by `urlparse`/`parse_qs`, each turn of the wait loop is a
 * `Poll` (the monotonic clock reading and the request, if any, that the
 * one-second `handle_request` served), and the ports that can be bound are a set.
 */
module Server {
  import opened Wrappers
  import Config

  /** The values of one query parameter as `parse_qs` yields them: at least one, none blank. */
  type Values = vs: seq<string> | |vs| > 0 && forall k :: 0 <= k < |vs| ==> vs[k] != "" witness ["-"]

  /** A parsed query string. */
  type Query = map<string, Values>

  /** A GET request: the path of the target and its parsed query. */
  datatype Request = Request(path: string, query: Query)

  /** The four fields of a successful callback (`callback_result`). */
  datatype CallbackResult = CallbackResult(
    accessToken: Option<string>, refreshToken: string,
    expiresIn: Option<string>, refreshTokenExpiresIn: Option<string>)

  /** How `do_GET` disposes of one request. */
  datatype Outcome = NotFound | Rejected(error: string) | Accepted(result: CallbackResult)

  /** The three fields `do_GET` writes: `callback_result`, `callback_error`, `callback_done`. */
  datatype Slots = Slots(result: Option<CallbackResult>, error: Option<string>, done: bool)

  /** The errors `wait_for_callback` raises. */
  datatype WaitError = Timeout | CallbackFailed(error: string)

  /** The errors `_find_available_port` raises. */
  datatype PortError = NoAvailablePort(first: int, last: int)

  /** One turn of the wait loop: the clock reading before it and the request handled in it, if one came. */
  datatype Poll = Poll(clock: int, arrival: Option<Request>)

  const CallbackPath := "/callback"
  const NonceMismatch := "Nonce mismatch"
  const MissingRefreshToken := "Missing refresh token"

  /** `params.get(key, [None])[0]`: the first value of the parameter, if present. */
  function First(q: Query, key: string): (r: Option<string>)
    ensures r.Some? <==> key in q
    ensures r.Some? ==> r.value == q[key][0] && r.value != ""
  {
    if key in q then Some(q[key][0]) else None
  }

  /** Python's truth value of an optional string. */
  predicate Present(v: Option<string>) {
    v.Some? && v.value != ""
  }

  /**
   * The decision of `do_GET`, strictly in the source's order: wrong path,
   * nonce mismatch, provider error, missing refresh token, success.
   */
  function Classify(expectedNonce: string, req: Request): (o: Outcome)
    ensures o.NotFound? <==> req.path != CallbackPath
    ensures req.path == CallbackPath && First(req.query, "nonce") != Some(expectedNonce) ==>
      o == Rejected(NonceMismatch)
    ensures req.path == CallbackPath && First(req.query, "nonce") == Some(expectedNonce) && "error" in req.query ==>
      o == Rejected(if "error_description" in req.query then req.query["error_description"][0] else req.query["error"][0])
    ensures (&& req.path == CallbackPath && First(req.query, "nonce") == Some(expectedNonce)
             && "error" !in req.query && "refresh_token" !in req.query) ==>
      o == Rejected(MissingRefreshToken)
    ensures o.Rejected? ==> o.error != ""
    ensures o.Accepted? <==>
      req.path == CallbackPath && First(req.query, "nonce") == Some(expectedNonce)
      && "error" !in req.query && "refresh_token" in req.query
    ensures o.Accepted? ==> o.result == CallbackResult(
      First(req.query, "access_token"), req.query["refresh_token"][0],
      First(req.query, "expires_in"), First(req.query, "refresh_token_expires_in"))
  {
    var q := req.query;
    if req.path != CallbackPath then NotFound
    else if First(q, "nonce") != Some(expectedNonce) then Rejected(NonceMismatch)
    else
      var error := First(q, "error");
      if Present(error) then
        Rejected(if "error_description" in q then q["error_description"][0] else error.value)
      else
        var refreshToken := First(q, "refresh_token");
        if !Present(refreshToken) then Rejected(MissingRefreshToken)
        else Accepted(CallbackResult(First(q, "access_token"), refreshToken.value,
          First(q, "expires_in"), First(q, "refresh_token_expires_in")))
  }

  /** The HTTP status `do_GET` answers with. */
  function StatusOf(o: Outcome): (status: int)
    ensures status == 404 <==> o.NotFound?
    ensures status == 400 <==> o.Rejected?
    ensures status == 200 <==> o.Accepted?
  {
    match o
    case NotFound => 404
    case Rejected(_) => 400
    case Accepted(_) => 200
  }

  /** What `do_GET` writes into the server for an outcome. */
  function Record(s: Slots, o: Outcome): (t: Slots)
    ensures o.NotFound? ==> t == s
    ensures o.Rejected? ==> t == s.(error := Some(o.error), done := true)
    ensures o.Accepted? ==> t == s.(result := Some(o.result), done := true)
  {
    match o
    case NotFound => s
    case Rejected(e) => s.(error := Some(e), done := true)
    case Accepted(r) => s.(result := Some(r), done := true)
  }

  /**
   * The listener's invariant: nothing is recorded before `done`, a recorded
   * error is never blank, and once done there is an error or a result.
   */
  predicate SlotsValid(s: Slots) {
    && (!s.done ==> s.result.None? && s.error.None?)
    && (s.error.Some? ==> s.error.value != "")
    && (s.done ==> s.error.Some? || s.result.Some?)
  }

  lemma RecordKeepsValid(s: Slots, o: Outcome)
    requires SlotsValid(s) && (o.Rejected? ==> o.error != "")
    ensures SlotsValid(Record(s, o))
  {
  }

  /** The end of `wait_for_callback` once done: raise on a recorded error, else return the result. */
  function Settle(s: Slots): (r: Result<CallbackResult, WaitError>)
    requires SlotsValid(s) && s.done
    ensures r.Failure? <==> s.error.Some?
    ensures r.Failure? ==> r.error == CallbackFailed(s.error.value)
    ensures r.Success? ==> s.result == Some(r.value)
  {
    if Present(s.error) then Failure(CallbackFailed(s.error.value)) else Success(s.result.value)
  }

  /** The loop eventually reads a clock past the deadline. */
  predicate EndsLate(polls: seq<Poll>, deadline: int) {
    |polls| > 0 && polls[|polls| - 1].clock > deadline
  }

  /** The state after a poll: unchanged when no request came, otherwise as `do_GET` records it. */
  function AfterPoll(expectedNonce: string, s: Slots, p: Poll): Slots {
    match p.arrival
    case None => s
    case Some(req) => Record(s, Classify(expectedNonce, req))
  }

  /**
   * The fields left by the polling loop of `wait_for_callback`, from slots
   * `s`, against an absolute deadline: it stops once done or once the clock
   * reads past the deadline.
   */
  function Run(expectedNonce: string, s: Slots, deadline: int, polls: seq<Poll>): (t: Slots)
    requires SlotsValid(s) && EndsLate(polls, deadline)
    ensures SlotsValid(t)
    ensures s.done ==> t == s
    decreases |polls|
  {
    if s.done || polls[0].clock > deadline then s
    else
      RecordKeepsValid(s, if polls[0].arrival.Some? then Classify(expectedNonce, polls[0].arrival.value) else NotFound);
      assert polls[1..][|polls| - 2] == polls[|polls| - 1];
      Run(expectedNonce, AfterPoll(expectedNonce, s, polls[0]), deadline, polls[1..])
  }

  /** What `wait_for_callback` returns or raises: a timeout when the loop ended without `done`. */
  function Await(expectedNonce: string, s: Slots, deadline: int, polls: seq<Poll>): (r: Result<CallbackResult, WaitError>)
    requires SlotsValid(s) && EndsLate(polls, deadline)
  {
    var t := Run(expectedNonce, s, deadline, polls);
    if t.done then Settle(t) else Failure(Timeout)
  }

  /** How many polls, from the first, read the clock at or before the deadline. */
  function OnTime(polls: seq<Poll>, deadline: int): (n: nat)
    ensures n <= |polls|
    ensures forall j | 0 <= j < n :: polls[j].clock <= deadline
    ensures n < |polls| ==> polls[n].clock > deadline
  {
    if polls == [] || polls[0].clock > deadline then 0 else 1 + OnTime(polls[1..], deadline)
  }

  /** A poll that carried a request `do_GET` did not answer with 404, and so set `done`. */
  predicate Decisive(expectedNonce: string, p: Poll) {
    p.arrival.Some? && !Classify(expectedNonce, p.arrival.value).NotFound?
  }

  /** What a decisive request makes `wait_for_callback` return or raise. */
  function Verdict(o: Outcome): (r: Result<CallbackResult, WaitError>)
    requires !o.NotFound?
  {
    match o
    case Rejected(e) => Failure(CallbackFailed(e))
    case Accepted(res) => Success(res)
  }

  /** One turn of the loop before the deadline, from a listener that is not yet done. */
  lemma AwaitStep(expectedNonce: string, s: Slots, deadline: int, polls: seq<Poll>)
    requires SlotsValid(s) && !s.done && EndsLate(polls, deadline) && polls[0].clock <= deadline
    ensures SlotsValid(AfterPoll(expectedNonce, s, polls[0])) && EndsLate(polls[1..], deadline)
    ensures Await(expectedNonce, s, deadline, polls) == Await(expectedNonce, AfterPoll(expectedNonce, s, polls[0]), deadline, polls[1..])
    ensures OnTime(polls, deadline) == 1 + OnTime(polls[1..], deadline)
  {
    RecordKeepsValid(s, if polls[0].arrival.Some? then Classify(expectedNonce, polls[0].arrival.value) else NotFound);
    assert polls[1..][|polls| - 2] == polls[|polls| - 1];
  }

  /** The first decisive request, on a listener that is not yet done, fixes what the wait returns. */
  lemma SettleFirstRecord(s: Slots, o: Outcome)
    requires SlotsValid(s) && !s.done && !o.NotFound? && (o.Rejected? ==> o.error != "")
    ensures SlotsValid(Record(s, o)) && Record(s, o).done
    ensures Settle(Record(s, o)) == Verdict(o)
  {
  }

  /**
   * From a listener that is not yet done: the wait times out exactly when no
   * request before the deadline reached `/callback`; otherwise the first such
   * request decides the outcome, and every later request is never handled.
   */
  lemma {:induction false} AwaitDecidedByFirstCallback(expectedNonce: string, s: Slots, deadline: int, polls: seq<Poll>)
    requires SlotsValid(s) && !s.done && EndsLate(polls, deadline)
    ensures var r := Await(expectedNonce, s, deadline, polls);
      && (r == Failure(Timeout) <==> forall j | 0 <= j < OnTime(polls, deadline) :: !Decisive(expectedNonce, polls[j]))
      && (r != Failure(Timeout) ==>
            exists j | 0 <= j < OnTime(polls, deadline) ::
              && Decisive(expectedNonce, polls[j])
              && (forall i | 0 <= i < j :: !Decisive(expectedNonce, polls[i]))
              && r == Verdict(Classify(expectedNonce, polls[j].arrival.value)))
    decreases |polls|
  {
    if polls[0].clock <= deadline {
      var r := Await(expectedNonce, s, deadline, polls);
      var n := OnTime(polls, deadline);
      AwaitStep(expectedNonce, s, deadline, polls);
      var p := polls[0];
      if Decisive(expectedNonce, p) {
        var o := Classify(expectedNonce, p.arrival.value);
        SettleFirstRecord(s, o);
        assert r == Verdict(o);
      } else {
        AwaitDecidedByFirstCallback(expectedNonce, s, deadline, polls[1..]);
        ShiftFirstCallback(expectedNonce, deadline, polls, r);
      }
    }
  }

  /** No decisive poll among the first `n` exactly when none among the `n - 1` after an indecisive first one. */
  lemma ShiftAllIndecisive(expectedNonce: string, polls: seq<Poll>, n: nat)
    requires 0 < n <= |polls| && !Decisive(expectedNonce, polls[0])
    ensures (forall j | 0 <= j < n - 1 :: !Decisive(expectedNonce, polls[1..][j])) <==>
      (forall j | 0 <= j < n :: !Decisive(expectedNonce, polls[j]))
  {
    if forall j | 0 <= j < n - 1 :: !Decisive(expectedNonce, polls[1..][j]) {
      forall j | 0 < j < n ensures !Decisive(expectedNonce, polls[j]) {
        assert polls[j] == polls[1..][j - 1];
      }
    }
  }

  /** The first decisive poll after an indecisive first one is the first decisive poll overall. */
  lemma ShiftFirstDecisive(expectedNonce: string, polls: seq<Poll>, k: nat)
    requires k + 1 < |polls| && !Decisive(expectedNonce, polls[0])
    requires forall i | 0 <= i < k :: !Decisive(expectedNonce, polls[1..][i])
    ensures polls[k + 1] == polls[1..][k]
    ensures forall i | 0 <= i < k + 1 :: !Decisive(expectedNonce, polls[i])
  {
    forall i | 0 < i < k + 1 ensures !Decisive(expectedNonce, polls[i]) {
      assert polls[i] == polls[1..][i - 1];
    }
  }

  /** Moves the first-callback characterisation of the remaining polls to the whole sequence, past a non-decisive head. */
  lemma ShiftFirstCallback(expectedNonce: string, deadline: int, polls: seq<Poll>, r: Result<CallbackResult, WaitError>)
    requires |polls| > 0 && polls[0].clock <= deadline && !Decisive(expectedNonce, polls[0])
    requires OnTime(polls, deadline) == 1 + OnTime(polls[1..], deadline)
    requires r == Failure(Timeout) <==>
      forall j | 0 <= j < OnTime(polls[1..], deadline) :: !Decisive(expectedNonce, polls[1..][j])
    requires r != Failure(Timeout) ==>
      exists j | 0 <= j < OnTime(polls[1..], deadline) ::
        && Decisive(expectedNonce, polls[1..][j])
        && (forall i | 0 <= i < j :: !Decisive(expectedNonce, polls[1..][i]))
        && r == Verdict(Classify(expectedNonce, polls[1..][j].arrival.value))
    ensures r == Failure(Timeout) <==>
      forall j | 0 <= j < OnTime(polls, deadline) :: !Decisive(expectedNonce, polls[j])
    ensures r != Failure(Timeout) ==>
      exists j | 0 <= j < OnTime(polls, deadline) ::
        && Decisive(expectedNonce, polls[j])
        && (forall i | 0 <= i < j :: !Decisive(expectedNonce, polls[i]))
        && r == Verdict(Classify(expectedNonce, polls[j].arrival.value))
  {
    var n := OnTime(polls, deadline);
    ShiftAllIndecisive(expectedNonce, polls, n);
    if r != Failure(Timeout) {
      var k :| 0 <= k < n - 1 && Decisive(expectedNonce, polls[1..][k])
        && (forall i | 0 <= i < k :: !Decisive(expectedNonce, polls[1..][i]))
        && r == Verdict(Classify(expectedNonce, polls[1..][k].arrival.value));
      ShiftFirstDecisive(expectedNonce, polls, k);
    }
  }

  /** The HTTP server of `start_callback_server` with the three callback fields it carries. */
  class CallbackServer {
    const port: int
    const expectedNonce: string
    var callbackResult: Option<CallbackResult>
    var callbackError: Option<string>
    var callbackDone: bool
    /** Whether `server_close` has released the socket. */
    var closed: bool

    function Fields(): Slots
      reads this
    {
      Slots(callbackResult, callbackError, callbackDone)
    }

    predicate Valid()
      reads this
    {
      SlotsValid(Fields())
    }

    constructor (port: int, nonce: string)
      ensures this.port == port && expectedNonce == nonce
      ensures Fields() == Slots(None, None, false) && !closed
      ensures Valid()
    {
      this.port := port;
      expectedNonce := nonce;
      callbackResult, callbackError, callbackDone := None, None, false;
      closed := false;
    }

    /** `do_GET`: answers the request and records its outcome; a 404 records nothing. */
    method HandleGet(req: Request) returns (status: int)
      requires Valid()
      modifies this`callbackResult, this`callbackError, this`callbackDone
      ensures Valid()
      ensures status == StatusOf(Classify(expectedNonce, req))
      ensures Fields() == Record(old(Fields()), Classify(expectedNonce, req))
    {
      var q := req.query;
      if req.path != CallbackPath {
        return 404;
      }
      var receivedNonce := First(q, "nonce");
      if receivedNonce != Some(expectedNonce) {
        callbackError := Some(NonceMismatch);
        callbackDone := true;
        return 400;
      }
      var error := First(q, "error");
      if Present(error) {
        var desc := if "error_description" in q then q["error_description"][0] else error.value;
        callbackError := Some(desc);
        callbackDone := true;
        return 400;
      }
      var accessToken := First(q, "access_token");
      var refreshToken := First(q, "refresh_token");
      if !Present(refreshToken) {
        callbackError := Some(MissingRefreshToken);
        callbackDone := true;
        return 400;
      }
      callbackResult := Some(CallbackResult(accessToken, refreshToken.value,
        First(q, "expires_in"), First(q, "refresh_token_expires_in")));
      callbackDone := true;
      return 200;
    }

    /**
     * `wait_for_callback(server, timeout)` started at clock reading `start`:
     * handles requests until done or past the deadline, closes the server on
     * every path, then raises a recorded error or returns the result.
     */
    method WaitForCallback(timeout: int, start: int, polls: seq<Poll>) returns (r: Result<CallbackResult, WaitError>)
      requires Valid() && EndsLate(polls, start + timeout)
      modifies this`callbackResult, this`callbackError, this`callbackDone, this`closed
      ensures closed && Valid()
      ensures Fields() == Run(expectedNonce, old(Fields()), start + timeout, polls)
      ensures r == Await(expectedNonce, old(Fields()), start + timeout, polls)
    {
      var deadline := start + timeout;
      var i := 0;
      while !callbackDone
        invariant 0 <= i < |polls|
        invariant Valid()
        invariant Run(expectedNonce, Fields(), deadline, polls[i..]) == Run(expectedNonce, old(Fields()), deadline, polls)
        decreases |polls| - i
      {
        if polls[i].clock > deadline {
          closed := true;
          return Failure(Timeout);
        }
        if polls[i].arrival.Some? {
          var _ := HandleGet(polls[i].arrival.value);
        }
        assert polls[i..][1..] == polls[i + 1..];
        i := i + 1;
      }
      closed := true;
      if Present(callbackError) {
        return Failure(CallbackFailed(callbackError.value));
      }
      return Success(callbackResult.value);
    }

    /** `wait_for_callback(server)` with the timeout left at its default, `CALLBACK_TIMEOUT_SECONDS`. */
    method WaitForCallbackDefault(start: int, polls: seq<Poll>) returns (r: Result<CallbackResult, WaitError>)
      requires Valid() && EndsLate(polls, start + Config.CallbackTimeoutSeconds)
      modifies this`callbackResult, this`callbackError, this`callbackDone, this`closed
      ensures closed && Valid()
      ensures Fields() == Run(expectedNonce, old(Fields()), start + Config.CallbackTimeoutSeconds, polls)
      ensures r == Await(expectedNonce, old(Fields()), start + Config.CallbackTimeoutSeconds, polls)
    {
      r := WaitForCallback(Config.CallbackTimeoutSeconds, start, polls);
    }
  }

  /** `_find_available_port`: the first port of the configured range that can be bound. */
  method FindAvailablePort(bindable: set<int>) returns (r: Result<int, PortError>)
    ensures r.Success? ==>
      && Config.CallbackPortRange.0 <= r.value <= Config.CallbackPortRange.1
      && r.value in bindable
      && forall p | Config.CallbackPortRange.0 <= p < r.value :: p !in bindable
    ensures r.Failure? <==> forall p | Config.CallbackPortRange.0 <= p <= Config.CallbackPortRange.1 :: p !in bindable
    ensures r.Failure? ==> r.error == NoAvailablePort(Config.CallbackPortRange.0, Config.CallbackPortRange.1)
  {
    var (first, last) := Config.CallbackPortRange;
    var port := first;
    while port <= last
      invariant first <= port <= last + 1
      invariant forall p | first <= p < port :: p !in bindable
    {
      if port in bindable {
        return Success(port);
      }
      port := port + 1;
    }
    return Failure(NoAvailablePort(first, last));
  }

  /** `start_callback_server`: picks the port, then a server expecting `nonce` with nothing recorded. */
  method StartCallbackServer(bindable: set<int>, nonce: string) returns (r: Result<CallbackServer, PortError>)
    ensures r.Failure? <==> forall p | Config.CallbackPortRange.0 <= p <= Config.CallbackPortRange.1 :: p !in bindable
    ensures r.Success? ==>
      && fresh(r.value) && r.value.Valid() && !r.value.closed
      && Config.CallbackPortRange.0 <= r.value.port <= Config.CallbackPortRange.1 && r.value.port in bindable
      && r.value.expectedNonce == nonce && r.value.Fields() == Slots(None, None, false)
  {
    var port := FindAvailablePort(bindable);
    if port.Failure? {
      return Failure(port.error);
    }
    var server := new CallbackServer(port.value, nonce);
    return Success(server);
  }

  /**
   * A listener expecting nonce "abc" that receives `/callback?nonce=xyz`
   * carrying a refresh token raises the nonce mismatch and releases no result.
   */
  method SpoofedCallbackRejected() returns (r: Result<CallbackResult, WaitError>, result: Option<CallbackResult>)
    ensures r == Failure(CallbackFailed(NonceMismatch)) && result.None?
  {
    var server := new CallbackServer(8880, "abc");
    var spoof := Request(CallbackPath, map["nonce" := ["xyz"], "refresh_token" := ["rt"]]);
    r := server.WaitForCallbackDefault(0, [Poll(0, Some(spoof)), Poll(301, None)]);
    result := server.callbackResult;
  }
}
