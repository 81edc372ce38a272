/** Retrying with exponential backoff. Delays are real numbers; the environment of one call is what
    each attempt returns, when the context is found cancelled and which random numbers are drawn. */
module Retrying {
  import opened Common

  datatype RetryConfig = RetryConfig(
    maxAttempts: int, initialDelay: real, maxDelay: real, multiplier: real, jitter: bool, retryableErrors: seq<Error>)

  // Attempts are numbered from 1.
  datatype Env = Env(
    result: nat -> Option<Error>,     // what the function returns at an attempt
    doneBefore: nat -> bool,          // the context is cancelled when the attempt starts
    doneDuring: nat -> bool,          // the context is cancelled while waiting after the attempt
    random: nat -> real)

  const DEFAULT_RETRY := RetryConfig(3, 100_000_000.0, 30_000_000_000.0, 2.0, true, [])

  predicate IsRetryableError(cfg: RetryConfig, err: Error) {
    |cfg.retryableErrors| == 0 || err in cfg.retryableErrors
  }

  // ---- when Do stops ----

  // Attempt k is made, fails in a way worth retrying, and the wait after it completes.
  predicate Continues(cfg: RetryConfig, env: Env, k: nat) {
    && k < cfg.maxAttempts && !env.doneBefore(k)
    && env.result(k).Some? && IsRetryableError(cfg, env.result(k).value)
    && !env.doneDuring(k)
  }

  /** The first attempt, from k on, after which Do does not go on. */
  function StopAt(cfg: RetryConfig, env: Env, k: nat): (s: nat)
    requires k >= 1
    ensures s >= k && !Continues(cfg, env, s)
    ensures forall j :: k <= j < s ==> Continues(cfg, env, j)
    ensures k <= cfg.maxAttempts ==> s <= cfg.maxAttempts
    decreases cfg.maxAttempts - k
  {
    if Continues(cfg, env, k) then StopAt(cfg, env, k + 1) else k
  }

  predicate StopsUncalled(cfg: RetryConfig, env: Env, s: nat) {
    s > cfg.maxAttempts || env.doneBefore(s)
  }

  function Calls(cfg: RetryConfig, env: Env): nat {
    CallsAt(cfg, env, StopAt(cfg, env, 1))
  }

  function Answer(cfg: RetryConfig, env: Env): Option<Error> {
    AnswerAt(cfg, env, StopAt(cfg, env, 1))
  }

  // The calls made and the answer given when Do stops at attempt s.
  function CallsAt(cfg: RetryConfig, env: Env, s: nat): nat
    requires s >= 1
  {
    if StopsUncalled(cfg, env, s) then s - 1 else s
  }

  function AnswerAt(cfg: RetryConfig, env: Env, s: nat): Option<Error> {
    if s > cfg.maxAttempts then None
    else if env.doneBefore(s) then Some(ContextDone)
    else if env.result(s).Some? && IsRetryableError(cfg, env.result(s).value) && s < cfg.maxAttempts then Some(ContextDone)
    else env.result(s)
  }

  // How many waits were started: one between each two attempts, and one cut short by the context.
  function Waits(cfg: RetryConfig, env: Env): nat {
    var s := StopAt(cfg, env, 1);
    if !StopsUncalled(cfg, env, s) && env.result(s).Some? && IsRetryableError(cfg, env.result(s).value) && s < cfg.maxAttempts
    then s else s - 1
  }

  /** At most maxAttempts calls; every call but the last failed; nil is returned exactly when the
      last call succeeded or no call is allowed at all. */
  lemma DoOutcome(cfg: RetryConfig, env: Env)
    ensures var n := Calls(cfg, env);
      && n <= (if cfg.maxAttempts < 0 then 0 else cfg.maxAttempts)
      && (forall k :: 1 <= k < n ==> env.result(k).Some? && IsRetryableError(cfg, env.result(k).value))
      && (Answer(cfg, env).None? <==> cfg.maxAttempts < 1 || (n >= 1 && env.result(n).None?))
      && Waits(cfg, env) <= (if cfg.maxAttempts < 1 then 0 else cfg.maxAttempts - 1)
  {
    var s, n := StopAt(cfg, env, 1), Calls(cfg, env);
    forall k | 1 <= k < n ensures env.result(k).Some? && IsRetryableError(cfg, env.result(k).value) {
      assert Continues(cfg, env, k);
    }
    if 1 <= n < s {
      assert Continues(cfg, env, n);
    }
  }

  // An error the loop goes on after, if it may.
  predicate TryAgain(cfg: RetryConfig, r: Option<Error>) {
    r.Some? && (|cfg.retryableErrors| == 0 || r.value in cfg.retryableErrors)
  }

  /** What one Do comes to, told by the environment alone: m calls, the answer b and w waits. */
  predicate Outcome(cfg: RetryConfig, env: Env, m: nat, b: Option<Error>, w: nat) {
    if cfg.maxAttempts < 1 then m == 0 && b == None && w == 0
    else
      // every call but the last failed, was worth another, and was waited for
      && m <= cfg.maxAttempts
      && (forall k :: 1 <= k < m ==> TryAgain(cfg, env.result(k)) && !env.doneDuring(k))
      && (forall k :: 1 <= k <= m ==> !env.doneBefore(k))
      && if m >= 1 && !(TryAgain(cfg, env.result(m)) && m < cfg.maxAttempts) then
           b == env.result(m) && w == m - 1                  // the last call decides
         else if m >= 1 && env.doneDuring(m) then
           b == Some(ContextDone) && w == m                  // cancelled while waiting
         else
           env.doneBefore(m + 1) && b == Some(ContextDone) && w == m   // cancelled before the next
  }

  /** Do has exactly this outcome: as many calls, that answer and as many waits. */
  lemma DoIsOutcome(cfg: RetryConfig, env: Env)
    ensures Outcome(cfg, env, Calls(cfg, env), Answer(cfg, env), Waits(cfg, env))
    ensures forall m: nat, b, w: nat :: Outcome(cfg, env, m, b, w) ==>
      m == Calls(cfg, env) && b == Answer(cfg, env) && w == Waits(cfg, env)
  {
    var n := Calls(cfg, env);
    DoOutcome(cfg, env);
    forall k | 1 <= k < StopAt(cfg, env, 1)
      ensures TryAgain(cfg, env.result(k)) && !env.doneDuring(k) && !env.doneBefore(k)
    {
      assert Continues(cfg, env, k);
    }
    forall m: nat, b, w: nat | Outcome(cfg, env, m, b, w)
      ensures m == n && b == Answer(cfg, env) && w == Waits(cfg, env)
    {
      OneOutcome(cfg, env, m, b, w, n, Answer(cfg, env), Waits(cfg, env));
    }
  }

  lemma OneOutcome(cfg: RetryConfig, env: Env, m: nat, b: Option<Error>, w: nat, m': nat, b': Option<Error>, w': nat)
    requires Outcome(cfg, env, m, b, w) && Outcome(cfg, env, m', b', w')
    ensures m == m' && b == b' && w == w'
  {
  }

  /** Why Do stopped before its last attempt, and what it answers when nothing is cancelled. */
  lemma DoStopsBecause(cfg: RetryConfig, env: Env)
    requires cfg.maxAttempts >= 1
    ensures var n, b := Calls(cfg, env), Answer(cfg, env);
      && (1 <= n < cfg.maxAttempts ==>
            env.result(n).None? || !(|cfg.retryableErrors| == 0 || env.result(n).value in cfg.retryableErrors)
            || env.doneDuring(n) || env.doneBefore(n + 1))
      && (n == 0 ==> env.doneBefore(1))
      && ((forall k: nat :: !env.doneBefore(k) && !env.doneDuring(k)) ==> n >= 1 && b == env.result(n))
      && (b == Some(ContextDone) <==>
            || (n >= 1 && env.result(n) == Some(ContextDone))
            || (n == 0 && env.doneBefore(1))
            || (1 <= n < cfg.maxAttempts && TryAgain(cfg, env.result(n)) && (env.doneDuring(n) || env.doneBefore(n + 1))))
  {
    DoIsOutcome(cfg, env);
  }

  function FailedCalls(env: Env, n: nat): nat {
    if n == 0 then 0 else FailedCalls(env, n - 1) + if env.result(n).Some? then 1 else 0
  }

  lemma {:induction false} AllFailed(env: Env, n: nat)
    requires forall k :: 1 <= k <= n ==> env.result(k).Some?
    ensures FailedCalls(env, n) == n
  {
    if n > 0 {
      AllFailed(env, n - 1);
    }
  }

  /** All calls of one Do fail but the last, and that fails too unless Do returns nil. */
  lemma FailedIs(cfg: RetryConfig, env: Env)
    ensures var n := Calls(cfg, env);
      FailedCalls(env, n) == if Answer(cfg, env).None? && n > 0 then n - 1 else n
  {
    DoIsOutcome(cfg, env);
    var n := Calls(cfg, env);
    if n > 0 {
      AllFailed(env, n - 1);
    }
  }

  // ---- backoff ----

  function Pow(m: real, k: nat): real {
    if k == 0 then 1.0 else m * Pow(m, k - 1)
  }

  function Min(a: real, b: real): real { if a > b then b else a }

  function Scaled(d: real, m: real, k: nat): real { d * Pow(m, k) }

  function BaseDelay(cfg: RetryConfig, attempt: int): real {
    Min(Scaled(cfg.initialDelay, cfg.multiplier, if attempt < 1 then 0 else attempt - 1), cfg.maxDelay)
  }

  function WithJitter(d: real, random: real): real { d + d * 0.1 * random }

  function Delay(cfg: RetryConfig, attempt: int, random: real): real {
    var d := BaseDelay(cfg, attempt);
    if cfg.jitter then WithJitter(d, random) else d
  }

  predicate Sane(cfg: RetryConfig) {
    cfg.initialDelay >= 0.0 && cfg.maxDelay >= 0.0 && cfg.multiplier >= 1.0
  }

  lemma {:induction false} PowAtLeastOne(m: real, k: nat)
    requires m >= 1.0
    ensures Pow(m, k) >= 1.0 && Pow(m, k + 1) >= Pow(m, k)
  {
    if k > 0 {
      PowAtLeastOne(m, k - 1);
      Times(m, Pow(m, k - 1), Pow(m, k));
    }
  }

  lemma Times(m: real, a: real, b: real)
    requires m >= 0.0 && a <= b
    ensures m * a <= m * b
  {
  }

  /** Without jitter the delays never shrink from one attempt to the next. */
  lemma DelaysGrow(cfg: RetryConfig, attempt: int)
    requires Sane(cfg)
    ensures 0.0 <= BaseDelay(cfg, attempt) <= BaseDelay(cfg, attempt + 1) <= cfg.maxDelay
  {
    var k := if attempt < 1 then 0 else attempt - 1;
    PowAtLeastOne(cfg.multiplier, k);
    Times(cfg.initialDelay, 0.0, Pow(cfg.multiplier, k));
    Times(cfg.initialDelay, Pow(cfg.multiplier, k), Pow(cfg.multiplier, k + 1));
  }

  /** Each delay is the one before times the multiplier, up to the cap. */
  lemma DelaysMultiply(cfg: RetryConfig, k: nat)
    requires Sane(cfg) && k >= 1
    ensures BaseDelay(cfg, 1) == Min(cfg.initialDelay, cfg.maxDelay)
    ensures BaseDelay(cfg, k + 1) == Min(BaseDelay(cfg, k) * cfg.multiplier, cfg.maxDelay)
  {
    OneMorePower(cfg.initialDelay, cfg.multiplier, k);
    var d := Scaled(cfg.initialDelay, cfg.multiplier, k - 1);
    if d > cfg.maxDelay {
      Times(cfg.maxDelay, 1.0, cfg.multiplier);
      Times(cfg.multiplier, cfg.maxDelay, d);
      Commute(cfg.maxDelay, cfg.multiplier);
      Commute(d, cfg.multiplier);
    }
  }

  lemma Commute(a: real, b: real)
    ensures a * b == b * a
  {
  }

  /** Jitter adds its random part of a tenth. */
  lemma JitterIs(cfg: RetryConfig, attempt: int, random: real)
    ensures Delay(cfg, attempt, random)
         == if cfg.jitter then BaseDelay(cfg, attempt) * (1.0 + random / 10.0) else BaseDelay(cfg, attempt)
  {
    var d := BaseDelay(cfg, attempt);
    var tenth := random / 10.0;
    assert 0.1 * random == tenth;
    Distribute(d, 1.0, tenth);
    assert d * 0.1 * random == d * (0.1 * random);
  }

  lemma JitterRange(cfg: RetryConfig, attempt: int, random: real)
    requires Sane(cfg) && 0.0 <= random < 1.0
    ensures BaseDelay(cfg, attempt) <= Delay(cfg, attempt, random) <= 1.1 * BaseDelay(cfg, attempt)
  {
    DelaysGrow(cfg, attempt);
    Jittered(BaseDelay(cfg, attempt), random);
  }

  lemma Jittered(d: real, random: real)
    requires d >= 0.0 && 0.0 <= random < 1.0
    ensures d <= WithJitter(d, random) <= 1.1 * d
  {
    var tenth := d * 0.1;
    Times(tenth, 0.0, random);
    Times(tenth, random, 1.0);
    assert d * 0.1 * random == tenth * random;
  }

  function Geom(m: real, n: nat): real {
    if n == 0 then 0.0 else Geom(m, n - 1) + Pow(m, n - 1)
  }

  lemma {:induction false} GeomClosed(m: real, n: nat)
    ensures Geom(m, n) * (m - 1.0) == Pow(m, n) - 1.0
  {
    if n > 0 {
      GeomClosed(m, n - 1);
      assert Geom(m, n) * (m - 1.0) == Geom(m, n - 1) * (m - 1.0) + Pow(m, n - 1) * (m - 1.0);
    }
  }

  function Total(sleeps: seq<real>): real {
    if sleeps == [] then 0.0 else Total(sleeps[..|sleeps| - 1]) + sleeps[|sleeps| - 1]
  }

  predicate Backoff(cfg: RetryConfig, env: Env, sleeps: seq<real>) {
    forall i :: 0 <= i < |sleeps| ==> sleeps[i] == Delay(cfg, i + 1, env.random(i + 1))
  }

  function Flat(n: nat, maxDelay: real): real { n as real * maxDelay }

  function Geometric(d: real, m: real, n: nat): real { d * Geom(m, n) }

  lemma OneMoreWait(n: nat, maxDelay: real, d: real, m: real)
    ensures Flat(n + 1, maxDelay) == Flat(n, maxDelay) + maxDelay
    ensures Geometric(d, m, n + 1) == Geometric(d, m, n) + Scaled(d, m, n)
  {
    assert (n + 1) as real == n as real + 1.0;
    Distribute(d, Geom(m, n), Pow(m, n));
  }

  lemma Distribute(d: real, g: real, p: real)
    ensures d * (g + p) == d * g + d * p
  {
  }

  lemma {:induction false} SleepsBounded(cfg: RetryConfig, env: Env, sleeps: seq<real>)
    requires Sane(cfg) && Backoff(cfg, env, sleeps)
    requires forall k :: 0.0 <= env.random(k) < 1.0
    ensures Total(sleeps) <= 1.1 * Flat(|sleeps|, cfg.maxDelay)
    ensures Total(sleeps) <= 1.1 * Geometric(cfg.initialDelay, cfg.multiplier, |sleeps|)
  {
    if sleeps != [] {
      var n := |sleeps| - 1;
      SleepsBounded(cfg, env, sleeps[..n]);
      assert 0.0 <= env.random(n + 1) < 1.0;
      JitterRange(cfg, n + 1, env.random(n + 1));
      OneMoreWait(n, cfg.maxDelay, cfg.initialDelay, cfg.multiplier);
    }
  }

  lemma {:induction false} MoreWaits(cfg: RetryConfig, n: nat, k: nat)
    requires Sane(cfg) && n <= k
    ensures Flat(n, cfg.maxDelay) <= Flat(k, cfg.maxDelay)
    ensures Geometric(cfg.initialDelay, cfg.multiplier, n) <= Geometric(cfg.initialDelay, cfg.multiplier, k)
    decreases k - n
  {
    if n < k {
      OneMoreWait(n, cfg.maxDelay, cfg.initialDelay, cfg.multiplier);
      PowAtLeastOne(cfg.multiplier, n);
      Times(cfg.initialDelay, 0.0, Pow(cfg.multiplier, n));
      MoreWaits(cfg, n + 1, k);
    }
  }

  function ClosedForm(d: real, m: real, n: nat): real
    requires m != 1.0
  {
    d * ((Pow(m, n) - 1.0) / (m - 1.0))
  }

  lemma GeometricIsClosedForm(d: real, m: real, n: nat)
    requires m > 1.0
    ensures Geometric(d, m, n) == ClosedForm(d, m, n)
  {
    GeomClosed(m, n);
    Quotient(Geom(m, n), m - 1.0, Pow(m, n) - 1.0);
  }

  lemma Quotient(g: real, q: real, p: real)
    requires q > 0.0 && g * q == p
    ensures g == p / q
  {
  }

  lemma TotalWithin(cfg: RetryConfig, env: Env, sleeps: seq<real>, n: nat)
    requires Sane(cfg) && |sleeps| <= n && Backoff(cfg, env, sleeps)
    requires forall k :: 0.0 <= env.random(k) < 1.0
    ensures Total(sleeps) <= 1.1 * Flat(n, cfg.maxDelay)
    ensures Total(sleeps) <= 1.1 * Geometric(cfg.initialDelay, cfg.multiplier, n)
  {
    SleepsBounded(cfg, env, sleeps);
    MoreWaits(cfg, |sleeps|, n);
  }

  /** All the waits of one Do together, for n allowed attempts: at most 1.1 times both (n-1)*maxDelay
      and the geometric sum initialDelay*(multiplier^(n-1)-1)/(multiplier-1). */
  lemma {:induction false} TotalBackoff(cfg: RetryConfig, env: Env, sleeps: seq<real>)
    requires Sane(cfg) && cfg.multiplier > 1.0 && cfg.maxAttempts >= 1
    requires forall k :: 0.0 <= env.random(k) < 1.0
    requires |sleeps| == Waits(cfg, env) && Backoff(cfg, env, sleeps)
    ensures var n: nat := cfg.maxAttempts - 1;
      Total(sleeps) <= 1.1 * Min(Flat(n, cfg.maxDelay), ClosedForm(cfg.initialDelay, cfg.multiplier, n))
  {
    var n: nat := cfg.maxAttempts - 1;
    assert |sleeps| <= n by { DoOutcome(cfg, env); }
    TotalWithin(cfg, env, sleeps, n);
    GeometricIsClosedForm(cfg.initialDelay, cfg.multiplier, n);
  }

  // ---- the object ----

  class Retry {
    const config: RetryConfig

    constructor (config: RetryConfig)
      ensures this.config == config
    {
      this.config := config;
    }

    method IsRetryable(err: Error) returns (r: bool)
      ensures r == IsRetryableError(config, err)
      ensures r <==> |config.retryableErrors| == 0 || err in config.retryableErrors
    {
      if |config.retryableErrors| == 0 {
        return true;
      }
      for i := 0 to |config.retryableErrors|
        invariant err !in config.retryableErrors[..i]
      {
        if err == config.retryableErrors[i] {
          return true;
        }
      }
      return false;
    }

    method CalculateDelay(attempt: int, random: real) returns (delay: real)
      ensures delay == Delay(config, attempt, random)
    {
      delay := config.initialDelay;
      var i := 1;
      while i < attempt
        invariant 1 <= i && (if attempt >= 1 then i <= attempt else i == 1)
        invariant delay == Scaled(config.initialDelay, config.multiplier, i - 1)
      {
        OneMorePower(config.initialDelay, config.multiplier, i);
        delay := delay * config.multiplier;
        i := i + 1;
      }
      if delay > config.maxDelay {
        delay := config.maxDelay;
      }
      assert delay == BaseDelay(config, attempt);
      if config.jitter {
        assert WithJitter(delay, random) == delay + delay * 0.1 * random;
        delay := delay + delay * 0.1 * random;
      }
    }

    /** Runs the attempts of `env`; `calls` and `sleeps` are what the environment sees of it. */
    method Do(env: Env) returns (err: Option<Error>, calls: nat, sleeps: seq<real>)
      ensures err == Answer(config, env) && calls == Calls(config, env)
      ensures |sleeps| == Waits(config, env) && Backoff(config, env, sleeps)
      ensures Outcome(config, env, calls, err, |sleeps|)
    {
      DoIsOutcome(config, env);
      var lastErr: Option<Error> := None;
      calls, sleeps := 0, [];
      var attempt := 1;
      while attempt <= config.maxAttempts
        invariant attempt >= 1 && calls == attempt - 1 == |sleeps| && Backoff(config, env, sleeps)
        invariant StopAt(config, env, 1) == StopAt(config, env, attempt)
        invariant attempt > 1 ==> attempt <= config.maxAttempts
        invariant attempt == 1 ==> lastErr == None
        decreases config.maxAttempts - attempt
      {
        if env.doneBefore(attempt) {
          return Some(ContextDone), calls, sleeps;
        }
        var e := env.result(attempt);
        calls := calls + 1;
        if e == None {
          return None, calls, sleeps;
        }
        lastErr := e;
        var retryable := IsRetryable(e.value);
        if !retryable {
          return e, calls, sleeps;
        }
        if attempt >= config.maxAttempts {
          break;
        }
        var delay := CalculateDelay(attempt, env.random(attempt));
        sleeps := sleeps + [delay];
        if env.doneDuring(attempt) {
          return Some(ContextDone), calls, sleeps;
        }
        attempt := attempt + 1;
      }
      err := lastErr;
    }
  }

  lemma OneMorePower(d: real, m: real, i: nat)
    requires i >= 1
    ensures Scaled(d, m, i - 1) * m == Scaled(d, m, i)
  {
    assert Pow(m, i) == m * Pow(m, i - 1);
    assert d * Pow(m, i - 1) * m == d * (Pow(m, i - 1) * m);
  }
}
