/** The request helper `apiRequest`: a bearer header read once from storage,
    then up to `MaxRetries` attempts with a linearly growing wait after each
    failed attempt but the last. The network is replaced by a script: attempt
    `i` meets outcome `script[i]`. Waits are recorded, not slept. */
module Requests {
  import opened Values

  const MaxRetries: nat := 5
  /** Milliseconds; the wait after failed attempt `i` (0-based) is `RetryDelay * (i + 1)`. */
  const RetryDelay: nat := 1000

  /** What one `fetch` attempt meets: a usable JSON body, a 401, another non-ok
      status with the server's `message` (`""` when it sent none or the body did
      not parse), or a rejection (network failure, or an ok body that is not JSON). */
  datatype Attempt<T> =
    | Success(body: T)
    | Unauthorized
    // Only a non-2xx status other than 401 reaches this case: a 2xx answer is
    // `Success` and a 401 is `Unauthorized`. Scripts never use other statuses.
    | HttpFailure(status: nat, serverMessage: string)
    | NetworkFailure(message: string)

  const SessionExpiredMessage: string := "Session expired. Please login again."

  /** The fallback message of a failed answer, before the status. */
  const HttpErrorPrefix: string := "HTTP error! status: "

  /** The message of the `Error` a failed attempt throws. */
  function AttemptError<T>(a: Attempt<T>): (m: string)
    requires !a.Success?
    ensures a.Unauthorized? ==> m == SessionExpiredMessage
    ensures a.HttpFailure? ==> m != "" && (a.serverMessage != "" ==> m == a.serverMessage)
    ensures a.HttpFailure? && a.serverMessage == "" ==>
      |HttpErrorPrefix| < |m| && m[..|HttpErrorPrefix|] == HttpErrorPrefix
      && (forall i :: |HttpErrorPrefix| <= i < |m| ==> IsDigit(m[i]))
      && DigitsValue(m[|HttpErrorPrefix|..]) == a.status
    ensures a.NetworkFailure? ==> m == a.message
  {
    match a
    case Unauthorized => SessionExpiredMessage
    case HttpFailure(status, m) =>
      var text := HttpErrorPrefix + NatToString(status);
      assert text[..|HttpErrorPrefix|] == HttpErrorPrefix && text[|HttpErrorPrefix|..] == NatToString(status);
      OrElse(m, text)
    case NetworkFailure(m) => m
  }

  /** The `Authorization` header: sent only when the stored token is truthy. */
  function AuthHeader(token: Option<string>): (h: Option<string>)
    ensures h.Some? <==> Truthy(token)
    ensures h.Some? ==> h.value == "Bearer " + token.value
  {
    if Truthy(token) then Some("Bearer " + token.value) else None
  }

  /** Reference reading of the loop from attempt `i` on: the first success wins,
      otherwise the last attempt's error is rethrown. */
  function ExecuteFrom<T>(script: seq<Attempt<T>>, i: nat): (r: Result<T>)
    requires i < MaxRetries <= |script|
    ensures r.Ok? <==> exists j :: i <= j < MaxRetries && script[j].Success?
    ensures r.Ok? ==> exists j :: (i <= j < MaxRetries && script[j] == Success(r.value)
                                   && forall k :: i <= k < j ==> !script[k].Success?)
    ensures r.Err? ==> r.message == AttemptError(script[MaxRetries - 1])
    decreases MaxRetries - i
  {
    if script[i].Success? then Ok(script[i].body)
    else if i == MaxRetries - 1 then Err(AttemptError(script[i]))
    else ExecuteFrom(script, i + 1)
  }

  /** The result of a whole request. */
  function Execute<T>(script: seq<Attempt<T>>): Result<T>
    requires MaxRetries <= |script|
  {
    ExecuteFrom(script, 0)
  }

  /** `apiRequest(url, options)` against the scripted server. Besides the result it
      reports the header sent on every attempt, the number of attempts, the waits
      between them and whether a 401 made it clear the stored token and redirect.
      A 401 throws inside the `try`, so it is retried like any other failure. */
  method ApiRequest<T>(token: Option<string>, script: seq<Attempt<T>>)
    returns (result: Result<T>, header: Option<string>, attempts: nat, delays: seq<nat>, sessionCleared: bool)
    requires MaxRetries <= |script|
    ensures header == AuthHeader(token)
    ensures 1 <= attempts <= MaxRetries
    ensures forall j :: 0 <= j < attempts - 1 ==> !script[j].Success?
    ensures result.Ok? ==> script[attempts - 1] == Success(result.value)
    ensures result.Err? ==> (attempts == MaxRetries && !script[MaxRetries - 1].Success?
                             && result.message == AttemptError(script[MaxRetries - 1]))
    ensures result == Execute(script)
    ensures |delays| == attempts - 1
    ensures forall k :: 0 <= k < |delays| ==> delays[k] == RetryDelay * (k + 1)
    ensures sessionCleared <==> exists j :: 0 <= j < attempts && script[j].Unauthorized?
  {
    // The token is read once, before the first attempt: a 401 removes it from
    // storage, but later attempts still send the header built here.
    header := AuthHeader(token);
    delays := [];
    sessionCleared := false;
    var i: nat := 0;
    while true
      invariant i < MaxRetries
      invariant forall j :: 0 <= j < i ==> !script[j].Success?
      invariant |delays| == i
      invariant forall k :: 0 <= k < i ==> delays[k] == RetryDelay * (k + 1)
      invariant sessionCleared <==> exists j :: 0 <= j < i && script[j].Unauthorized?
      invariant ExecuteFrom(script, i) == Execute(script)
      decreases MaxRetries - i
    {
      var outcome := script[i];
      if outcome.Unauthorized? {
        sessionCleared := true;
      }
      if outcome.Success? {
        assert ExecuteFrom(script, i) == Ok(outcome.body);
        result, attempts := Ok(outcome.body), i + 1;
        return;
      }
      if i == MaxRetries - 1 {
        assert ExecuteFrom(script, i) == Err(AttemptError(outcome));
        result, attempts := Err(AttemptError(outcome)), i + 1;
        return;
      }
      assert ExecuteFrom(script, i) == ExecuteFrom(script, i + 1);
      delays := delays + [RetryDelay * (i + 1)];
      i := i + 1;
    }
  }

  /** Four failures and then a success: the success is returned, no error. */
  lemma SuccessOnFifthAttempt<T>(script: seq<Attempt<T>>, body: T)
    requires |script| == MaxRetries
    requires forall j :: 0 <= j < 4 ==> !script[j].Success?
    requires script[4] == Success(body)
    ensures Execute(script) == Ok(body)
  {
  }

  /** A 401 does not end the request: a later success is still returned. */
  lemma UnauthorizedIsRetried<T>(body: T, rest: seq<Attempt<T>>)
    requires |rest| == MaxRetries - 2
    ensures Execute([Unauthorized, Success(body)] + rest) == Ok(body)
  {
  }

  /** Five failures surface the last one's message verbatim. */
  lemma ExhaustedSurfacesLastError<T>(script: seq<Attempt<T>>)
    requires |script| == MaxRetries
    requires forall j :: 0 <= j < MaxRetries ==> !script[j].Success?
    ensures Execute(script) == Err(AttemptError(script[MaxRetries - 1]))
  {
  }
}
