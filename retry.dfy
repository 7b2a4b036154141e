/** Exponential backoff on HTTP 429 shared by the Gemini and Grok clients
    (`makeRequestWithRetry` in src/services/geminiService.js and
    src/services/grokService.js).  The network is an oracle: `reply(k)` is
    what the k-th request (counting from 0) gets back.  Sleeps are recorded
    as durations in milliseconds, not taken. */
module Retry {
  import opened JsText

  /** What one request gets back. */
  datatype Outcome = Ok(text: string) | RateLimited | OtherError(message: string)

  /** How the whole call ends: a trimmed answer, the rethrown error of a
      request that failed for a reason other than 429, or the
      "Max retries reached" error. */
  datatype Ending = Answered(text: string) | Rethrown(message: string) | Exhausted

  /** The ending, the number of requests sent and the waits, in order. */
  datatype RetryRun = RetryRun(ending: Ending, requests: nat, sleeps: seq<nat>)

  /** Gemini: up to 5 requests, first wait 5000 ms, one extra 60000 ms wait
      after the last 429. */
  const GeminiMaxRetries := 5
  const GeminiInitialDelay := 5000
  const FinalWait := 60000
  /** Grok: up to 3 requests, first wait 2000 ms, no extra wait. */
  const GrokMaxRetries := 3
  const GrokInitialDelay := 2000

  function Pow2(k: nat): (p: nat)
    ensures p >= 1
  {
    if k == 0 then 1 else 2 * Pow2(k - 1)
  }

  /** The first `n` waits of a backoff that starts at `d` and doubles. */
  function Delays(d: nat, n: nat): (r: seq<nat>)
    ensures |r| == n
    decreases n
  {
    if n == 0 then [] else [d] + Delays(2 * d, n - 1)
  }

  /** The k-th wait (from 0) is `d * 2^k`. */
  lemma {:induction false} DelaysClosedForm(d: nat, n: nat, k: nat)
    requires k < n
    ensures Delays(d, n)[k] == d * Pow2(k)
    decreases k
  {
    if k > 0 {
      DelaysClosedForm(2 * d, n - 1, k - 1);
      assert Delays(d, n)[k] == Delays(2 * d, n - 1)[k - 1];
      assert Pow2(k) == 2 * Pow2(k - 1);
      assert (2 * d) * Pow2(k - 1) == d * (2 * Pow2(k - 1));
    }
  }

  /** The rest of a call whose counter stands at `retries` and whose next
      wait is `delay`.  `finalWait` selects the Gemini variant. */
  function RunFrom(reply: nat -> Outcome, retries: nat, delay: nat, maxRetries: int, finalWait: bool): RetryRun
    decreases maxRetries - retries
  {
    if retries >= maxRetries then RetryRun(Exhausted, 0, [])
    else match reply(retries)
      case Ok(t) => RetryRun(Answered(Trim(t)), 1, [])
      case OtherError(m) => RetryRun(Rethrown(m), 1, [])
      case RateLimited =>
        var extra := if finalWait && retries + 1 == maxRetries then [FinalWait] else [];
        var rest := RunFrom(reply, retries + 1, 2 * delay, maxRetries, finalWait);
        RetryRun(rest.ending, rest.requests + 1, [delay] + extra + rest.sleeps)
  }

  /** Requests `j` .. `j + n - 1` were all answered with 429. */
  predicate AllLimited(reply: nat -> Outcome, j: nat, n: nat) {
    forall k :: j <= k < j + n ==> reply(k).RateLimited?
  }

  function Budget(j: nat, maxRetries: int): nat {
    if maxRetries > j then maxRetries - j else 0
  }

  /** A call that runs out of budget sent exactly the budget, every request
      got a 429, and it waited the doubling delays, one per 429, plus the
      extra final wait when there was any request at all. */
  lemma {:induction false} ExhaustedShape(reply: nat -> Outcome, j: nat, d: nat, maxRetries: int, finalWait: bool)
    requires RunFrom(reply, j, d, maxRetries, finalWait).ending.Exhausted?
    ensures var r := RunFrom(reply, j, d, maxRetries, finalWait);
      r.requests == Budget(j, maxRetries) && AllLimited(reply, j, r.requests) &&
      r.sleeps == Delays(d, r.requests) + (if finalWait && r.requests > 0 then [FinalWait] else [])
    decreases maxRetries - j
  {
    if j < maxRetries {
      var rest := RunFrom(reply, j + 1, 2 * d, maxRetries, finalWait);
      ExhaustedShape(reply, j + 1, 2 * d, maxRetries, finalWait);
      if j + 1 < maxRetries {
        assert Delays(d, rest.requests + 1) == [d] + Delays(2 * d, rest.requests);
      }
    }
  }

  /** A call that ends with an answer or a rethrown error stopped at its
      first non-429 reply, within the budget, having waited once per
      earlier 429 and never the extra final wait. */
  lemma {:induction false} EndedShape(reply: nat -> Outcome, j: nat, d: nat, maxRetries: int, finalWait: bool)
    requires !RunFrom(reply, j, d, maxRetries, finalWait).ending.Exhausted?
    ensures var r := RunFrom(reply, j, d, maxRetries, finalWait);
      1 <= r.requests <= Budget(j, maxRetries) && AllLimited(reply, j, r.requests - 1) &&
      r.sleeps == Delays(d, r.requests - 1) &&
      (r.ending.Answered? ==>
         reply(j + r.requests - 1).Ok? && r.ending.text == Trim(reply(j + r.requests - 1).text)) &&
      (r.ending.Rethrown? ==> reply(j + r.requests - 1) == OtherError(r.ending.message))
    decreases maxRetries - j
  {
    if reply(j).RateLimited? {
      var rest := RunFrom(reply, j + 1, 2 * d, maxRetries, finalWait);
      EndedShape(reply, j + 1, 2 * d, maxRetries, finalWait);
      assert j + 1 < maxRetries;
      assert Delays(d, rest.requests) == [d] + Delays(2 * d, rest.requests - 1);
    }
  }

  /** Prefixes a run with the requests and waits already made. */
  function Prepend(sleeps: seq<nat>, requests: nat, r: RetryRun): RetryRun {
    RetryRun(r.ending, r.requests + requests, sleeps + r.sleeps)
  }

  lemma PrependStep(sleeps: seq<nat>, n: nat, d: nat, extra: seq<nat>, r: RetryRun)
    ensures Prepend(sleeps + [d] + extra, n + 1, r) == Prepend(sleeps, n, RetryRun(r.ending, r.requests + 1, [d] + extra + r.sleeps))
  {
    assert sleeps + [d] + extra + r.sleeps == sleeps + ([d] + extra + r.sleeps);
  }

  /** The retry loop: request, on 429 wait and double the delay, on any
      other error rethrow, and give up once `maxRetries` requests got 429.
      With `finalWait` an extra 60000 ms wait follows the last 429. */
  method MakeRequestWithRetry(reply: nat -> Outcome, maxRetries: int, initialDelay: nat, finalWait: bool)
    returns (run: RetryRun)
    ensures run == RunFrom(reply, 0, initialDelay, maxRetries, finalWait)
  {
    var retries: nat := 0;
    var delay := initialDelay;
    var sleeps: seq<nat> := [];
    while retries < maxRetries
      invariant Prepend(sleeps, retries, RunFrom(reply, retries, delay, maxRetries, finalWait))
             == RunFrom(reply, 0, initialDelay, maxRetries, finalWait)
      decreases maxRetries - retries
    {
      match reply(retries)
      case Ok(t) =>
        return RetryRun(Answered(Trim(t)), retries + 1, sleeps);
      case OtherError(m) =>
        return RetryRun(Rethrown(m), retries + 1, sleeps);
      case RateLimited =>
        var extra: seq<nat> := if finalWait && retries + 1 == maxRetries then [FinalWait] else [];
        PrependStep(sleeps, retries, delay, extra, RunFrom(reply, retries + 1, 2 * delay, maxRetries, finalWait));
        sleeps := sleeps + [delay] + extra;
        delay := 2 * delay;
        retries := retries + 1;
    }
    return RetryRun(Exhausted, retries, sleeps);
  }

  /** `GeminiService.makeRequestWithRetry` with its default arguments. */
  method GeminiRequest(reply: nat -> Outcome) returns (run: RetryRun)
    ensures run == RunFrom(reply, 0, GeminiInitialDelay, GeminiMaxRetries, true)
    ensures run.requests <= GeminiMaxRetries
    ensures run.ending.Exhausted? ==> run.sleeps == Delays(GeminiInitialDelay, GeminiMaxRetries) + [FinalWait]
    ensures !run.ending.Exhausted? ==> run.sleeps == Delays(GeminiInitialDelay, run.requests - 1)
  {
    if RunFrom(reply, 0, GeminiInitialDelay, GeminiMaxRetries, true).ending.Exhausted? {
      ExhaustedShape(reply, 0, GeminiInitialDelay, GeminiMaxRetries, true);
    } else {
      EndedShape(reply, 0, GeminiInitialDelay, GeminiMaxRetries, true);
    }
    run := MakeRequestWithRetry(reply, GeminiMaxRetries, GeminiInitialDelay, true);
  }

  /** `GrokService.makeRequestWithRetry` with its default arguments. */
  method GrokRequest(reply: nat -> Outcome) returns (run: RetryRun)
    ensures run == RunFrom(reply, 0, GrokInitialDelay, GrokMaxRetries, false)
    ensures run.requests <= GrokMaxRetries
    ensures run.ending.Exhausted? ==> run.sleeps == Delays(GrokInitialDelay, GrokMaxRetries)
    ensures !run.ending.Exhausted? ==> run.sleeps == Delays(GrokInitialDelay, run.requests - 1)
  {
    if RunFrom(reply, 0, GrokInitialDelay, GrokMaxRetries, false).ending.Exhausted? {
      ExhaustedShape(reply, 0, GrokInitialDelay, GrokMaxRetries, false);
    } else {
      EndedShape(reply, 0, GrokInitialDelay, GrokMaxRetries, false);
    }
    run := MakeRequestWithRetry(reply, GrokMaxRetries, GrokInitialDelay, false);
  }

  /** A request that fails with anything but 429 at once ends the call after
      one request and no wait. */
  lemma FirstErrorRethrown(reply: nat -> Outcome, maxRetries: int, d: nat, finalWait: bool)
    requires maxRetries > 0 && reply(0).OtherError?
    ensures RunFrom(reply, 0, d, maxRetries, finalWait) == RetryRun(Rethrown(reply(0).message), 1, [])
  {
  }
}
