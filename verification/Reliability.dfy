/** Provider errors and the retry policy; backoff is computed in exact arithmetic, in milliseconds. */
module Reliability {
  import opened Results

  datatype ProviderError =
    | Network
    | Timeout
    | RateLimited(retryAfterSecs: Option<nat>)
    | Unavailable
    | Authentication
    | ModelNotFound
    | InvalidResponse
    | ExecutionError
  {
    predicate IsTransient() { Network? || Timeout? || RateLimited? || Unavailable? }

    function RetryAfter(): Option<nat> {
      if RateLimited? && retryAfterSecs.Some? then Some(retryAfterSecs.value * 1000) else None
    }
  }

  function Power(m: real, n: nat): real {
    if n == 0 then 1.0 else m * Power(m, n - 1)
  }

  function Truncate(x: real): (n: nat)
    ensures x >= 0.0 ==> n as real <= x < n as real + 1.0
    ensures x < 0.0 ==> n == 0
  {
    if x < 0.0 then 0 else x.Floor
  }

  datatype RetryPolicy = RetryPolicy(maxRetries: nat, initialBackoff: nat, maxBackoff: nat, multiplier: real)
  {
    /** The backoff before it is cut to a whole number and capped: exponential, plus a tenth for each
        step within a cycle of three attempts. */
    function Raw(attempt: nat): real {
      var base := (initialBackoff as real) * Power(multiplier, attempt);
      base + base * 0.1 * ((attempt % 3) as real)
    }

    /** How long to wait before retrying, or nothing when the call should not be retried. */
    function ComputeDelay(attempt: nat, error: ProviderError): Option<nat> {
      if attempt >= maxRetries || !error.IsTransient() then None
      else if error.RetryAfter().Some? then Some(Min(Max(error.RetryAfter().value, initialBackoff), maxBackoff))
      else Some(Min(Truncate(Raw(attempt)), maxBackoff))
    }
  }

  // ----- backoff grows -----

  lemma {:induction false} PowerPositive(m: real, n: nat)
    requires m > 0.0
    ensures Power(m, n) > 0.0
  {
    if n > 0 {
      PowerPositive(m, n - 1);
    }
  }

  lemma RawStep(policy: RetryPolicy, attempt: nat)
    requires policy.multiplier >= 1.2
    ensures 0.0 <= policy.Raw(attempt) <= policy.Raw(attempt + 1)
  {
    PowerPositive(policy.multiplier, attempt);
    var base, m := (policy.initialBackoff as real) * Power(policy.multiplier, attempt), policy.multiplier;
    assert (policy.initialBackoff as real) * Power(m, attempt + 1) == m * base;
    assert base >= 0.0 && m * base >= 1.2 * base;
    var now, next := attempt % 3, (attempt + 1) % 3;
    assert next == if now == 2 then 0 else now + 1;
    assert policy.Raw(attempt) == base * (1.0 + 0.1 * (now as real));
    assert policy.Raw(attempt + 1) == m * base * (1.0 + 0.1 * (next as real));
  }

  lemma TruncateMonotone(x: real, y: real)
    requires x <= y
    ensures Truncate(x) <= Truncate(y)
  {
  }

  lemma {:induction false} BackoffGrows(policy: RetryPolicy, a: nat, b: nat, error: ProviderError)
    requires policy.multiplier >= 1.2 && a <= b < policy.maxRetries
    requires error.IsTransient() && error.RetryAfter() == None
    ensures policy.ComputeDelay(a, error).value <= policy.ComputeDelay(b, error).value
    decreases b
  {
    if a < b {
      BackoffGrows(policy, a, b - 1, error);
      RawStep(policy, b - 1);
      TruncateMonotone(policy.Raw(b - 1), policy.Raw(b));
    }
  }

  /** Waits never get shorter from one attempt to the next, whatever the first wait and the cap. */
  ghost predicate NeverShrinks(multiplier: real) {
    forall policy: RetryPolicy, a: nat, b: nat, error: ProviderError ::
      policy.multiplier == multiplier && a <= b < policy.maxRetries && error.IsTransient() && error.RetryAfter() == None ==>
        Shrinkless(policy, a, b, error)
  }

  predicate Shrinkless(policy: RetryPolicy, a: nat, b: nat, error: ProviderError)
    requires a <= b < policy.maxRetries && error.IsTransient()
  {
    policy.ComputeDelay(a, error).value <= policy.ComputeDelay(b, error).value
  }

  /** A multiplier of at least 1.2 is what it takes: the jitter starts over every third attempt, and
      the growth must outweigh its loss. The default multiplier is 2. */
  lemma GrowthNeeded(multiplier: real)
    ensures NeverShrinks(multiplier) <==> multiplier >= 1.2
  {
    if multiplier >= 1.2 {
      forall policy: RetryPolicy, a: nat, b: nat, error: ProviderError |
        policy.multiplier == multiplier && a <= b < policy.maxRetries && error.IsTransient() && error.RetryAfter() == None
        ensures Shrinkless(policy, a, b, error)
      {
        BackoffGrows(policy, a, b, error);
      }
    } else {
      var policy, a := ShrinkingPolicy(multiplier);
      assert !Shrinkless(policy, a, a + 1, Network);
    }
  }

  lemma ShrinkingPolicy(m: real) returns (policy: RetryPolicy, a: nat)
    requires m < 1.2
    ensures policy.multiplier == m && a + 1 < policy.maxRetries
    ensures policy.ComputeDelay(a, Network).value > policy.ComputeDelay(a + 1, Network).value
  {
    SmallPowers(m);
    if m <= 0.0 {
      policy, a := RetryPolicy(2, 1, 1, m), 0;
      assert policy.Raw(0) == 1.0 && policy.Raw(1) == m + m * 0.1 * 1.0;
    } else {
      var first, x, y := LargeGap(m);
      policy, a := RetryPolicy(4, first, Truncate(x), m), 2;
      RawAtTwo(first, m, x, y, policy);
    }
  }

  lemma SmallPowers(m: real)
    ensures Power(m, 1) == m && Power(m, 2) == m * m && Power(m, 3) == m * (m * m)
  {
    assert Power(m, 1) == m * Power(m, 0);
    assert Power(m, 2) == m * Power(m, 1);
    assert Power(m, 3) == m * Power(m, 2);
  }

  /** A first wait so long that the third and fourth raw backoffs differ by a whole millisecond. */
  lemma LargeGap(m: real) returns (first: nat, x: real, y: real)
    requires 0.0 < m < 1.2
    ensures x == (first as real) * (m * m) * 1.2 && y == (first as real) * (m * (m * m)) && 0.0 <= y <= x - 1.0
  {
    var square := m * m;
    TimesPositive(m, m, square);
    var gap := square * (1.2 - m);
    TimesPositive(square, 1.2 - m, gap);
    first := Truncate(1.0 / gap) + 1;
    var f := first as real;
    TimesGap(f, gap);
    x, y := f * square * 1.2, f * (m * square);
    assert x - y == f * gap;
    assert y >= 0.0;
  }

  lemma TimesPositive(x: real, y: real, product: real)
    requires x > 0.0 && y > 0.0 && product == x * y
    ensures product > 0.0
  {
  }

  lemma TimesGap(f: real, gap: real)
    requires gap > 0.0 && f >= 1.0 / gap
    ensures f * gap >= 1.0
  {
    assert f * gap >= (1.0 / gap) * gap;
  }

  lemma RawAtTwo(first: nat, m: real, x: real, y: real, policy: RetryPolicy)
    requires policy == RetryPolicy(4, first, Truncate(x), m)
    requires x == (first as real) * (m * m) * 1.2 && y == (first as real) * (m * (m * m)) && 0.0 <= y <= x - 1.0
    ensures policy.ComputeDelay(2, Network).value > policy.ComputeDelay(3, Network).value
  {
    SmallPowers(m);
    var base2, base3 := (first as real) * Power(m, 2), (first as real) * Power(m, 3);
    assert policy.Raw(2) == base2 + base2 * 0.1 * 2.0;
    assert policy.Raw(3) == base3 + base3 * 0.1 * 0.0;
    assert Truncate(y) + 1 <= Truncate(x);
  }
}
