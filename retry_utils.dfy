/** retryWithExponentialBackoff (src/utils/retry.utils.ts). The retried
    function is given as the script of what its successive calls do, and the
    sleeps are recorded instead of performed. */
module RetryUtils {
  import opened Wrappers
  import opened Js

  /** What one call of the retried function does. */
  datatype Attempt = Throw(error: string) | Return(value: JsValue)

  /** An attempt counts as successful when it returns a truthy value. */
  predicate Succeeded(a: Attempt) {
    a.Return? && Truthy(a.value)
  }

  /** `expRate ?? 2`: a supplied rate is used as given, zero included. */
  function UsedExpRate(expRate: Option<real>): (r: real)
    ensures expRate.Some? ==> r == expRate.value
    ensures expRate.None? ==> r == 2.0
  {
    expRate.GetOr(2.0)
  }

  /** Number of loop iterations available: `for (i = 0; i < retries; i++)`. */
  function AttemptBudget(retries: int): nat {
    if retries <= 0 then 0 else retries
  }

  /** Index of the first successful attempt among the first n, or n. */
  function FirstSuccess(outcomes: seq<Attempt>, n: nat): (k: nat)
    requires n <= |outcomes|
    ensures k <= n
    ensures k < n ==> Succeeded(outcomes[k])
    ensures forall j :: 0 <= j < k ==> !Succeeded(outcomes[j])
  {
    if n == 0 then 0
    else
      var k := FirstSuccess(outcomes, n - 1);
      if k < n - 1 then k
      else if Succeeded(outcomes[n - 1]) then n - 1
      else n
  }

  /** How many times the retried function is called. */
  function CallCount(outcomes: seq<Attempt>, retries: int): (c: nat)
    requires retries <= |outcomes|
    ensures c <= AttemptBudget(retries)
  {
    var n := AttemptBudget(retries);
    var k := FirstSuccess(outcomes, n);
    if k < n then k + 1 else n
  }

  /** The value `result` holds after the given calls: the last value returned,
      or the initial null when every call threw. */
  function LastReturned(calls: seq<Attempt>): JsValue {
    if calls == [] then Null
    else if calls[|calls| - 1].Return? then calls[|calls| - 1].value
    else LastReturned(calls[..|calls| - 1])
  }

  /** Sleeps after failed attempts 0 .. n-1: expRate^(i+1) seconds, in ms. */
  function BackoffSchedule(rate: real, n: nat): (s: seq<real>)
    ensures |s| == n
    ensures forall i :: 0 <= i < n ==> s[i] == Pow(rate, i + 1) * 1000.0
  {
    if n == 0 then [] else BackoffSchedule(rate, n - 1) + [Pow(rate, n) * 1000.0]
  }

  /** The sleeps recorded: one per failed attempt, none when the rate is not
      positive. */
  function Sleeps(outcomes: seq<Attempt>, retries: int, expRate: Option<real>): seq<real>
    requires retries <= |outcomes|
  {
    var rate := UsedExpRate(expRate);
    if rate > 0.0 then BackoffSchedule(rate, FirstSuccess(outcomes, AttemptBudget(retries))) else []
  }

  /** The error lines logged for the calls that threw. */
  function ErrorLog(calls: seq<Attempt>, description: string, meta: Option<string>): seq<string> {
    if calls == [] then []
    else
      var earlier := ErrorLog(calls[..|calls| - 1], description, meta);
      match calls[|calls| - 1]
      case Return(_) => earlier
      case Throw(e) =>
        earlier + ["Error occurred when trying to " + description + ": " + e]
        + (if meta.Some? then ["Additional info: " + meta.value] else [])
  }

  /** retryWithExponentialBackoff. `outcomes[i]` is what the i-th call of fn
      does; `meta` is the already serialised metadata. Returns the final
      `result`, how often fn was called, the sleeps in milliseconds and the
      error lines logged. */
  method RetryWithExponentialBackoff(
    outcomes: seq<Attempt>, description: string, meta: Option<string>,
    expRate: Option<real>, retries: int)
    returns (result: JsValue, calls: nat, sleeps: seq<real>, logged: seq<string>)
    requires retries <= |outcomes|
    ensures calls == CallCount(outcomes, retries)
    ensures result == LastReturned(outcomes[..calls])
    ensures sleeps == Sleeps(outcomes, retries, expRate)
    ensures logged == ErrorLog(outcomes[..calls], description, meta)
  {
    result := Null;
    var waitTimeS: real := 1.0;
    var usedExpRate := UsedExpRate(expRate);
    calls, sleeps, logged := 0, [], [];
    ghost var n := AttemptBudget(retries);
    var i := 0;
    while i < retries
      invariant 0 <= i <= n
      invariant i <= FirstSuccess(outcomes, n)
      invariant calls == i
      invariant result == LastReturned(outcomes[..i])
      invariant !Truthy(result)
      invariant sleeps == if usedExpRate > 0.0 then BackoffSchedule(usedExpRate, i) else []
      invariant logged == ErrorLog(outcomes[..i], description, meta)
    {
      calls := calls + 1;
      assert outcomes[..i + 1][..i] == outcomes[..i];
      match outcomes[i] {
        case Throw(e) =>
          logged := logged + ["Error occurred when trying to " + description + ": " + e];
          if meta.Some? {
            logged := logged + ["Additional info: " + meta.value];
          }
        case Return(v) =>
          result := v;
      }
      assert result == LastReturned(outcomes[..i + 1]);
      assert logged == ErrorLog(outcomes[..i + 1], description, meta);
      if Truthy(result) {
        assert Succeeded(outcomes[i]) && FirstSuccess(outcomes, n) == i;
        break;
      }
      assert !Succeeded(outcomes[i]);
      waitTimeS := Pow(usedExpRate, i + 1);
      if usedExpRate > 0.0 {
        sleeps := sleeps + [waitTimeS * 1000.0];
        assert sleeps == BackoffSchedule(usedExpRate, i + 1);
      }
      i := i + 1;
    }
  }

  /** When fn succeeds at attempt k, that is the value returned and fn is
      not called again. */
  lemma ResultIsFirstSuccess(outcomes: seq<Attempt>, retries: int)
    requires retries <= |outcomes|
    requires FirstSuccess(outcomes, AttemptBudget(retries)) < AttemptBudget(retries)
    ensures var k := FirstSuccess(outcomes, AttemptBudget(retries));
      && CallCount(outcomes, retries) == k + 1
      && LastReturned(outcomes[..k + 1]) == outcomes[k].value
      && Truthy(outcomes[k].value)
  {
    var k := FirstSuccess(outcomes, AttemptBudget(retries));
    assert outcomes[..k + 1][k] == outcomes[k];
  }

  /** A call history with no successful attempt leaves a falsy result: the
      last falsy value returned, or null. */
  lemma {:induction false} NoSuccessLeavesFalsy(calls: seq<Attempt>)
    requires forall j :: 0 <= j < |calls| ==> !Succeeded(calls[j])
    ensures !Truthy(LastReturned(calls))
    ensures (forall j :: 0 <= j < |calls| ==> calls[j].Throw?) ==> LastReturned(calls) == Null
    decreases |calls|
  {
    if calls != [] && calls[|calls| - 1].Throw? {
      var front := calls[..|calls| - 1];
      assert forall j :: 0 <= j < |front| ==> front[j] == calls[j];
      NoSuccessLeavesFalsy(front);
    }
  }

  /** Exhausting the budget: fn was called `retries` times, the result is
      falsy, and there was one sleep per attempt, the last attempt included. */
  lemma ExhaustedBudget(outcomes: seq<Attempt>, retries: int, expRate: Option<real>)
    requires retries <= |outcomes|
    requires FirstSuccess(outcomes, AttemptBudget(retries)) == AttemptBudget(retries)
    ensures CallCount(outcomes, retries) == AttemptBudget(retries)
    ensures !Truthy(LastReturned(outcomes[..AttemptBudget(retries)]))
    ensures UsedExpRate(expRate) > 0.0 ==> |Sleeps(outcomes, retries, expRate)| == AttemptBudget(retries)
  {
    var n := AttemptBudget(retries);
    NoSuccessLeavesFalsy(outcomes[..n]);
  }

  /** A budget of zero or less never calls fn and returns null. */
  lemma NoBudgetNoCall(outcomes: seq<Attempt>, retries: int)
    requires retries <= 0
    ensures CallCount(outcomes, retries) == 0
    ensures LastReturned(outcomes[..CallCount(outcomes, retries)]) == Null
  {
  }

  /** fn throws k times and then returns v. */
  function FailingThenReturning(k: nat, v: JsValue): (s: seq<Attempt>)
    ensures |s| == k + 1 && s[k] == Return(v)
    ensures forall j :: 0 <= j < k ==> s[j].Throw?
  {
    seq(k, _ => Throw("Error: oopsie")) + [Return(v)]
  }

  /** A function that fails k times then succeeds, given a budget of k + 1:
      its value is returned, it is called k + 1 times, and there are k sleeps
      of expRate^1 .. expRate^k seconds (none when expRate <= 0). */
  lemma FailsThenSucceeds(k: nat, v: JsValue, expRate: Option<real>)
    requires Truthy(v)
    ensures var outcomes := FailingThenReturning(k, v);
      && FirstSuccess(outcomes, k + 1) == k
      && CallCount(outcomes, k + 1) == k + 1
      && LastReturned(outcomes[..k + 1]) == v
      && Sleeps(outcomes, k + 1, expRate)
         == if UsedExpRate(expRate) > 0.0 then BackoffSchedule(UsedExpRate(expRate), k) else []
  {
    var outcomes := FailingThenReturning(k, v);
    assert outcomes[..k + 1] == outcomes;
  }

  /** The three succeeding scenarios of the retry tests: fn throws four
      times and then returns its call count. */
  lemma RetryScenarios()
    ensures var fn := FailingThenReturning(4, Num(4.0));
      && LastReturned(fn[..CallCount(fn, 5)]) == Num(4.0)
      && Sleeps(fn, 5, None) == [2000.0, 4000.0, 8000.0, 16000.0]
      && Sleeps(fn, 5, Some(3.0)) == [3000.0, 9000.0, 27000.0, 81000.0]
      && CallCount(fn, 5) == 5 && Sleeps(fn, 5, Some(0.0)) == []
  {
    FailsThenSucceeds(4, Num(4.0), None);
    FailsThenSucceeds(4, Num(4.0), Some(3.0));
    FailsThenSucceeds(4, Num(4.0), Some(0.0));
    assert Pow(2.0, 4) == 16.0;
    assert Pow(3.0, 4) == 81.0;
  }

  /** The exhausted scenario of the retry tests: with a budget of four
      calls, the same fn never gets to return and retry yields null. */
  lemma ExhaustedRetryScenario()
    ensures var fn := FailingThenReturning(4, Num(4.0));
      && LastReturned(fn[..CallCount(fn, 4)]) == Null
      && CallCount(fn, 4) == 4 && |Sleeps(fn, 4, None)| == 4
  {
    var fn := FailingThenReturning(4, Num(4.0));
    assert forall j :: 0 <= j < 4 ==> !Succeeded(fn[j]);
    ExhaustedBudget(fn, 4, None);
    NoSuccessLeavesFalsy(fn[..4]);
  }
}
