/** The resilient external-API caller, in its two generations: `async_ext_api_call`
    of libs/utils.py (a `while tries` countdown) and of libs/commons.py (a `while retry`
    flag with a `num_try` counter).

    The upstream is a script of outcomes, one per attempt; the random jitter of each
    back-off is an input sequence; every `time.sleep` is recorded, in milliseconds,
    in the `sleeps` out-parameter instead of being slept. */
module Retry {
  import opened Wrappers

  /** What one call of the HTTP client yields: a response that passed
      `raise_for_status` (its raw form and its decoded JSON), one whose body is not
      JSON, a transport failure (`httpx.RequestError`), or an error status
      (`httpx.HTTPStatusError`). */
  datatype Outcome =
    | Answer(raw: string, body: Json)
    | DecodeErr(raw: string)
    | TransportErr
    | StatusErr(code: int)

  /** What the caller returns: the decoded JSON, or the raw response when `parse_json` is False. */
  datatype Body = JsonBody(json: Json) | RawBody(raw: string)

  const InternalServerError := 500

  /** The `response = {}` both versions start from. */
  const EmptyResponse: Json := JObj(map[])

  /** `response['Error'] if 'Error' in response else None`. */
  function ErrorField(response: Json): Option<Json> {
    if response.JObj? && "Error" in response.fields then Some(response.fields["Error"]) else None
  }

  function Pow2(n: nat): (r: nat)
    ensures r >= 1
  {
    if n == 0 then 1 else 2 * Pow2(n - 1)
  }

  /** Whether an attempt ends the loop: a JSON body when parsing, any delivered response otherwise. */
  predicate Succeeds(o: Outcome, parseJson: bool) {
    o.Answer? || (!parseJson && o.DecodeErr?)
  }

  /** The index of the first succeeding attempt among the first `n`, or `n` when all fail. */
  function FirstSuccess(up: seq<Outcome>, n: nat, parseJson: bool): (k: nat)
    requires n <= |up|
    ensures k <= n
    ensures k < n ==> Succeeds(up[k], parseJson)
    ensures forall j :: 0 <= j < k ==> !Succeeds(up[j], parseJson)
  {
    if n == 0 then 0
    else
      var k := FirstSuccess(up, n - 1, parseJson);
      if k < n - 1 then k
      else if Succeeds(up[n - 1], parseJson) then n - 1
      else n
  }

  /** The number of attempts a loop with `budget` attempts makes against `up`. */
  function Attempts(up: seq<Outcome>, budget: nat, parseJson: bool): (a: nat)
    requires budget <= |up|
    ensures a <= budget
  {
    var k := FirstSuccess(up, budget, parseJson);
    if k < budget then k + 1 else budget
  }

  // ---------------------------------------------------------------- libs/utils.py

  /** The exception built from a failed attempt: a status error keeps the upstream code
      (its detail read from the response seen so far), anything else is a 500. */
  function UtilsError(o: Outcome, response: Json): HttpError
    requires !o.Answer?
  {
    if o.StatusErr? then HttpError(o.code, ErrorField(response)) else HttpError(InternalServerError, None)
  }

  /** The back-off, in ms, after the `k`-th failed attempt: `2 ** (max_retries - tries - 1) * 1000`
      with `tries` already decremented, that is 2^(k-2) seconds, 500 ms after the first. */
  function UtilsBackoff(k: nat): (ms: nat)
    requires k >= 1
  {
    500 * Pow2(k - 1)
  }

  /** The sleeps, in ms, after the first `n` failed attempts. */
  function UtilsSleeps(jitter: seq<int>, n: nat): (s: seq<int>)
    requires n <= |jitter|
    ensures |s| == n
  {
    if n == 0 then [] else UtilsSleeps(jitter, n - 1) + [UtilsBackoff(n) + jitter[n - 1]]
  }

  /** The i-th sleep is the back-off after failure i + 1 plus the i-th jitter. */
  lemma {:induction false} UtilsSleepsAt(jitter: seq<int>, n: nat)
    requires n <= |jitter|
    ensures forall i :: 0 <= i < n ==> UtilsSleeps(jitter, n)[i] == UtilsBackoff(i + 1) + jitter[i]
  {
    if n > 0 {
      UtilsSleepsAt(jitter, n - 1);
      assert UtilsSleeps(jitter, n)[..n - 1] == UtilsSleeps(jitter, n - 1);
    }
  }

  predicate JitterInRange(jitter: seq<int>) {
    forall i :: 0 <= i < |jitter| ==> 1 <= jitter[i] <= 1000
  }

  /** libs/utils.py `async_ext_api_call`: up to `max_retries + 1` attempts. */
  method UtilsCall(upstream: seq<Outcome>, jitter: seq<int>, maxRetries: int)
    returns (r: Result<Json>, attempts: nat, sleeps: seq<int>)
    requires maxRetries >= 0
    requires |upstream| >= maxRetries + 1 && |jitter| >= maxRetries
    ensures attempts == Attempts(upstream, maxRetries + 1, true)
    ensures 1 <= attempts <= maxRetries + 1
    ensures r.Ok? <==> Succeeds(upstream[attempts - 1], true)
    ensures r.Ok? ==> r.value == upstream[attempts - 1].body
    ensures r.Err? ==> attempts == maxRetries + 1
    ensures r.Err? ==> r.error == UtilsError(upstream[maxRetries], EmptyResponse)
    ensures r.Err? ==> r.error.detail == None
    ensures sleeps == UtilsSleeps(jitter, attempts - 1)
  {
    var tries: int := maxRetries + 1;
    var response := EmptyResponse;
    var exception := HttpError(InternalServerError, None);
    attempts, sleeps := 0, [];
    while tries != 0
      invariant 0 <= tries <= maxRetries + 1
      invariant attempts == maxRetries + 1 - tries
      invariant forall k :: 0 <= k < attempts ==> !Succeeds(upstream[k], true)
      invariant response == EmptyResponse
      invariant attempts > 0 ==> exception == UtilsError(upstream[attempts - 1], EmptyResponse)
      invariant sleeps == UtilsSleeps(jitter, if tries == 0 then attempts - 1 else attempts)
    {
      var outcome := upstream[attempts];
      attempts := attempts + 1;
      match outcome {
        case Answer(_, body) =>
          response := body;
          break;
        case DecodeErr(_) =>
          exception := HttpError(InternalServerError, None);
        case TransportErr =>
          exception := HttpError(InternalServerError, None);
        case StatusErr(code) =>
          exception := HttpError(code, ErrorField(response));
      }
      tries := tries - 1;
      if tries > 0 {
        var exponent := maxRetries - tries - 1;
        var base := if exponent >= 0 then Pow2(exponent) * 1000 else 500;
        assert exponent >= 0 ==> Pow2(exponent + 1) == 2 * Pow2(exponent);
        sleeps := sleeps + [base + jitter[attempts - 1]];
      }
    }
    assert FirstSuccess(upstream, attempts - 1, true) == attempts - 1;
    if tries == 0 {
      r := Err(exception);
    } else {
      r := Ok(response);
    }
  }

  // -------------------------------------------------------------- libs/commons.py

  /** `max(max_retries, 1)`: the attempts the `while retry` loop allows. */
  function CommonsBudget(maxRetries: nat): (b: nat)
    ensures b >= 1
  {
    if maxRetries >= 1 then maxRetries else 1
  }

  /** One pass of the counter update at the head of the loop:
      `num_try` grows while below `max_retries`, and the loop goes on while they differ. */
  function NextTry(numTry: int, maxRetries: int): (step: (int, bool))
  {
    var n := if numTry < maxRetries then numTry + 1 else numTry;
    (n, n != maxRetries)
  }

  /** The counter and flag after `passes` passes that all fail. */
  function TryAfter(passes: nat, maxRetries: int): (int, bool)
  {
    if passes == 0 then (0, true) else NextTry(TryAfter(passes - 1, maxRetries).0, maxRetries)
  }

  /** With a negative `max_retries` the counter never moves and `retry` stays true,
      so a persistently failing endpoint is called for ever. */
  lemma {:induction false} NegativeRetriesNeverStop(passes: nat, maxRetries: int)
    requires maxRetries < 0
    ensures TryAfter(passes, maxRetries) == (0, true)
  {
    if passes > 0 {
      NegativeRetriesNeverStop(passes - 1, maxRetries);
    }
  }

  /** With `max_retries >= 0` the flag drops exactly at pass `max(max_retries, 1)`. */
  lemma {:induction false} CounterReachesBudget(passes: nat, maxRetries: nat)
    requires 1 <= passes <= CommonsBudget(maxRetries)
    ensures TryAfter(passes, maxRetries) == (if maxRetries == 0 then 0 else passes, passes != CommonsBudget(maxRetries))
  {
    if passes > 1 {
      CounterReachesBudget(passes - 1, maxRetries);
    }
  }

  /** The exception raised on the final attempt. */
  function CommonsError(o: Outcome, parseJson: bool, response: Json): HttpError
    requires !Succeeds(o, parseJson)
  {
    if o.StatusErr? then HttpError(o.code, ErrorField(response)) else HttpError(InternalServerError, None)
  }

  /** What a succeeding attempt returns. */
  function BodyOf(o: Outcome, parseJson: bool): Body
    requires Succeeds(o, parseJson)
  {
    if parseJson then JsonBody(o.body) else RawBody(o.raw)
  }

  /** The sleeps, in ms, after the first `n` failed attempts: 2^(k-1) s plus jitter after the k-th. */
  function CommonsSleeps(jitter: seq<int>, n: nat): (s: seq<int>)
    requires n <= |jitter|
    ensures |s| == n
  {
    if n == 0 then [] else CommonsSleeps(jitter, n - 1) + [Pow2(n - 1) * 1000 + jitter[n - 1]]
  }

  /** The i-th sleep is 2^i seconds plus the i-th jitter. */
  lemma {:induction false} CommonsSleepsAt(jitter: seq<int>, n: nat)
    requires n <= |jitter|
    ensures forall i :: 0 <= i < n ==> CommonsSleeps(jitter, n)[i] == Pow2(i) * 1000 + jitter[i]
  {
    if n > 0 {
      CommonsSleepsAt(jitter, n - 1);
      assert CommonsSleeps(jitter, n)[..n - 1] == CommonsSleeps(jitter, n - 1);
    }
  }

  datatype Verb = Get | Post

  /** `http_client.get if not use_post else http_client.post`. */
  function RequestVerb(usePost: bool): (v: Verb)
    ensures v == Post <==> usePost
  {
    if usePost then Post else Get
  }

  /** The label of the log lines: fixed for the two metadata providers' domains,
      the caller's name otherwise, `TBD` without one. */
  function LogLabel(domain: string, caller: Option<string>): (tag: string)
    ensures domain == "thetvdb" ==> tag == "TVDb"
    ensures domain == "themoviedb" ==> tag == "TMDb"
    ensures domain != "thetvdb" && domain != "themoviedb" && caller.Some? && caller.value != "" ==> tag == caller.value
    ensures domain != "thetvdb" && domain != "themoviedb" && (caller.None? || caller.value == "") ==> tag == "TBD"
  {
    var infoEndpoint := if caller.Some? && caller.value != "" then caller.value else "TBD";
    if domain == "thetvdb" then "TVDb"
    else if domain == "themoviedb" then "TMDb"
    else infoEndpoint
  }

  /** libs/commons.py `async_ext_api_call`: up to `max(max_retries, 1)` attempts. */
  method CommonsCall(upstream: seq<Outcome>, jitter: seq<int>, maxRetries: int, parseJson: bool)
    returns (r: Result<Body>, attempts: nat, sleeps: seq<int>)
    requires maxRetries >= 0
    requires |upstream| >= CommonsBudget(maxRetries) && |jitter| >= CommonsBudget(maxRetries)
    ensures attempts == Attempts(upstream, CommonsBudget(maxRetries), parseJson)
    ensures 1 <= attempts <= CommonsBudget(maxRetries)
    ensures r.Ok? <==> Succeeds(upstream[attempts - 1], parseJson)
    ensures r.Ok? ==> r.value == BodyOf(upstream[attempts - 1], parseJson)
    ensures r.Err? ==> attempts == CommonsBudget(maxRetries)
    ensures r.Err? ==> r.error == CommonsError(upstream[attempts - 1], parseJson, EmptyResponse)
    ensures r.Err? ==> r.error.detail == None
    ensures sleeps == CommonsSleeps(jitter, attempts - 1)
  {
    var retry := true;
    var numTry := 0;
    var response := EmptyResponse;
    var result := JsonBody(response);
    attempts, sleeps := 0, [];
    while retry
      invariant numTry == if maxRetries == 0 then 0 else attempts
      invariant retry ==> attempts < CommonsBudget(maxRetries)
      invariant !retry ==> 1 <= attempts <= CommonsBudget(maxRetries)
      invariant forall k :: 0 <= k < attempts - 1 ==> !Succeeds(upstream[k], parseJson)
      invariant retry && attempts > 0 ==> !Succeeds(upstream[attempts - 1], parseJson)
      invariant !retry ==> Succeeds(upstream[attempts - 1], parseJson) && result == BodyOf(upstream[attempts - 1], parseJson)
      invariant retry ==> response == EmptyResponse
      invariant sleeps == CommonsSleeps(jitter, if retry then attempts else attempts - 1)
      decreases CommonsBudget(maxRetries) - attempts
    {
      var step := NextTry(numTry, maxRetries);
      numTry, retry := step.0, step.1;
      var outcome := upstream[attempts];
      attempts := attempts + 1;
      match outcome {
        case Answer(raw, body) =>
          response := body;
          result := if parseJson then JsonBody(body) else RawBody(raw);
          retry := false;
        case DecodeErr(raw) =>
          if !parseJson {
            result := RawBody(raw);
            retry := false;
          } else if !retry {
            r := Err(HttpError(InternalServerError, None));
            GiveUp(upstream, attempts, parseJson);
            return;
          }
        case TransportErr =>
          if !retry {
            r := Err(HttpError(InternalServerError, None));
            GiveUp(upstream, attempts, parseJson);
            return;
          }
        case StatusErr(code) =>
          var message := ErrorField(response);
          if !retry {
            r := Err(HttpError(code, message));
            GiveUp(upstream, attempts, parseJson);
            return;
          }
      }
      if retry {
        sleeps := sleeps + [Pow2(numTry - 1) * 1000 + jitter[attempts - 1]];
      }
    }
    StopAt(upstream, attempts, CommonsBudget(maxRetries), parseJson);
    r := Ok(result);
  }

  /** A loop that has spent its whole budget on failures has made that many attempts. */
  lemma GiveUp(up: seq<Outcome>, budget: nat, parseJson: bool)
    requires budget <= |up|
    requires forall k :: 0 <= k < budget ==> !Succeeds(up[k], parseJson)
    ensures Attempts(up, budget, parseJson) == budget
  {
  }

  /** A loop that stops at its first success has made exactly the attempts up to it. */
  lemma StopAt(up: seq<Outcome>, attempts: nat, budget: nat, parseJson: bool)
    requires 1 <= attempts <= budget <= |up|
    requires forall k :: 0 <= k < attempts - 1 ==> !Succeeds(up[k], parseJson)
    requires Succeeds(up[attempts - 1], parseJson)
    ensures Attempts(up, budget, parseJson) == attempts
  {
  }

  // ------------------------------------------------------------ properties

  /** An upstream that fails `n` times and then answers: with `n <= max_retries` the
      call makes exactly `n + 1` attempts and returns that answer; otherwise it gives
      up after `max_retries + 1` attempts. */
  lemma {:induction false} FailThenSucceed(up: seq<Outcome>, n: nat, budget: nat, parseJson: bool)
    requires n < |up| && budget <= |up|
    requires forall k :: 0 <= k < n ==> !Succeeds(up[k], parseJson)
    requires Succeeds(up[n], parseJson)
    ensures n < budget ==> Attempts(up, budget, parseJson) == n + 1
    ensures n >= budget ==> Attempts(up, budget, parseJson) == budget
  {
  }

  function Sum(s: seq<int>): int {
    if s == [] then 0 else Sum(s[..|s| - 1]) + s[|s| - 1]
  }

  /** The total time the utils caller sleeps before its `n + 1`-th attempt:
      500 * (2^n - 1) ms of back-off plus between n and 1000 n ms of jitter. */
  lemma {:induction false} UtilsTotalSleep(jitter: seq<int>, n: nat)
    requires n <= |jitter| && JitterInRange(jitter)
    ensures 500 * (Pow2(n) - 1) + n <= Sum(UtilsSleeps(jitter, n)) <= 500 * (Pow2(n) - 1) + 1000 * n
  {
    if n > 0 {
      UtilsTotalSleep(jitter, n - 1);
      var s := UtilsSleeps(jitter, n);
      assert s[..n - 1] == UtilsSleeps(jitter, n - 1);
    }
  }

  /** The same for the commons caller: 1000 * (2^n - 1) ms of back-off plus jitter. */
  lemma {:induction false} CommonsTotalSleep(jitter: seq<int>, n: nat)
    requires n <= |jitter| && JitterInRange(jitter)
    ensures 1000 * (Pow2(n) - 1) + n <= Sum(CommonsSleeps(jitter, n)) <= 1000 * (Pow2(n) - 1) + 1000 * n
  {
    if n > 0 {
      CommonsTotalSleep(jitter, n - 1);
      var s := CommonsSleeps(jitter, n);
      assert s[..n - 1] == CommonsSleeps(jitter, n - 1);
    }
  }
}
