/** Exponential backoff with jitter: how often a call is made and how long the sleeps between calls are. */
module Backoff {
  import opened Common

  /** What one attempt comes to. `Raised` is an error outside the caller's retryable types. */
  datatype Outcome = Returned(value: string) | RetryableError(error: string) | Raised(error: string)

  /** The constructor refuses a policy that allows fewer than one attempt. */
  datatype Policy = Policy(maxAttempts: int, base: real, jitter: real)

  /** One random number of the million-and-one the source draws from. */
  type Draw = d: nat | d <= 1_000_000

  function Pow2(n: nat): (r: nat)
    ensures r >= 1
  {
    if n == 0 then 1 else 2 * Pow2(n - 1)
  }

  /** `base` doubled `n` times. */
  function Doubled(base: real, n: nat): real {
    if n == 0 then base else 2.0 * Doubled(base, n - 1)
  }

  lemma {:induction false} DoubledIsPower(base: real, n: nat)
    ensures Doubled(base, n) == base * Pow2(n) as real
  {
    if n > 0 { DoubledIsPower(base, n - 1); }
  }

  function Offset(jitter: real, draw: Draw): real {
    draw as real / 1_000_000.0 * (jitter * 2.0) - jitter
  }

  /** The sleep after attempt `k` failed, attempts counted from 1. */
  function Delay(p: Policy, k: nat, draw: Draw): real
    requires k >= 1
  {
    var delay := Doubled(p.base, k - 1);
    if p.jitter == 0.0 then delay
    else if delay + Offset(p.jitter, draw) > 0.0 then delay + Offset(p.jitter, draw) else 0.0
  }

  /** The draws span the whole jitter, evenly from its one end to the other. */
  lemma {:induction false} JitterIsSpanned(jitter: real, draw: Draw)
    ensures Offset(jitter, 0) == -jitter && Offset(jitter, 500_000) == 0.0 && Offset(jitter, 1_000_000) == jitter
    ensures draw < 1_000_000 ==> Offset(jitter, draw + 1) - Offset(jitter, draw) == jitter * 0.000002
  {
    if draw < 1_000_000 {
      assert (draw + 1) as real / 1_000_000.0 == draw as real / 1_000_000.0 + 0.000001;
      var share := draw as real / 1_000_000.0;
      assert (share + 0.000001) * (jitter * 2.0) == share * (jitter * 2.0) + 0.000001 * (jitter * 2.0);
    }
  }

  lemma {:induction false} ScaleKeepsOrder(x: real, y: real, scale: real)
    requires x <= y && scale >= 0.0
    ensures x * scale <= y * scale
  {
    var more := y - x;
    assert more * scale >= 0.0;
    assert y * scale == x * scale + more * scale;
  }

  lemma {:induction false} OffsetGrows(jitter: real, draw: Draw, more: Draw)
    requires jitter >= 0.0 && draw <= more
    ensures Offset(jitter, draw) <= Offset(jitter, more)
  {
    ScaleKeepsOrder(draw as real / 1_000_000.0, more as real / 1_000_000.0, jitter * 2.0);
  }

  lemma {:induction false} OffsetIsWithinJitter(jitter: real, draw: Draw)
    requires jitter >= 0.0
    ensures -jitter <= Offset(jitter, draw) <= jitter
  {
    JitterIsSpanned(jitter, 0);
    OffsetGrows(jitter, 0, draw);
    OffsetGrows(jitter, draw, 1_000_000);
  }

  lemma {:induction false} DoubledIsNonNegative(base: real, n: nat)
    requires base >= 0.0
    ensures Doubled(base, n) >= 0.0
  {
    if n > 0 { DoubledIsNonNegative(base, n - 1); }
  }

  /** Sleep `k` is never negative and lies within the jitter of `base` doubled `k - 1` times. */
  lemma {:induction false} DelayIsNearDoubled(p: Policy, k: nat, draw: Draw)
    requires p.base >= 0.0 && p.jitter >= 0.0 && k >= 1
    ensures Delay(p, k, draw) >= 0.0
    ensures Doubled(p.base, k - 1) - p.jitter <= Delay(p, k, draw) <= Doubled(p.base, k - 1) + p.jitter
  {
    OffsetIsWithinJitter(p.jitter, draw);
    DoubledIsNonNegative(p.base, k - 1);
  }

  /** The sleeps of one attempt span the jitter on both sides, cut off at zero, and grow with the draw. */
  lemma {:induction false} SleepSpansJitter(p: Policy, k: nat, draw: Draw, more: Draw)
    requires p.base >= 0.0 && p.jitter >= 0.0 && k >= 1 && draw <= more
    ensures var doubled := Doubled(p.base, k - 1);
            && Delay(p, k, 0) == (if doubled <= p.jitter then 0.0 else doubled - p.jitter)
            && Delay(p, k, 1_000_000) == doubled + p.jitter
    ensures Delay(p, k, draw) <= Delay(p, k, more)
  {
    DoubledIsNonNegative(p.base, k - 1);
    JitterIsSpanned(p.jitter, 0);
    OffsetGrows(p.jitter, draw, more);
  }

  function Total(sleeps: seq<real>): real {
    if sleeps == [] then 0.0 else Total(sleeps[..|sleeps| - 1]) + sleeps[|sleeps| - 1]
  }

  /** The most `m` sleeps come to: every doubling so far, and the jitter once a sleep. */
  function Allowance(p: Policy, m: nat): real {
    if m == 0 then 0.0 else Allowance(p, m - 1) + Doubled(p.base, m - 1) + p.jitter
  }

  lemma {:induction false} OneMoreDoubling(base: real, x: real, jitter: real, n: real)
    ensures base * (2.0 * x - 1.0) + (n + 1.0) * jitter == (base * (x - 1.0) + n * jitter) + base * x + jitter
  {
    var scaled, shared := base * x, n * jitter;
    assert base * (2.0 * x - 1.0) == 2.0 * scaled - base;
    assert base * (x - 1.0) == scaled - base;
    assert (n + 1.0) * jitter == shared + jitter;
  }

  lemma {:induction false} AllowanceInClosedForm(p: Policy, m: nat)
    ensures Allowance(p, m) == p.base * (Pow2(m) as real - 1.0) + m as real * p.jitter
  {
    if m > 0 {
      AllowanceInClosedForm(p, m - 1);
      DoubledIsPower(p.base, m - 1);
      OneMoreDoubling(p.base, Pow2(m - 1) as real, p.jitter, (m - 1) as real);
    }
  }

  ghost predicate SleepsOf(p: Policy, draws: nat -> Draw, sleeps: seq<real>) {
    forall i :: 0 <= i < |sleeps| ==> sleeps[i] == Delay(p, i + 1, draws(i + 1))
  }

  lemma {:induction false} TotalIsWithinAllowance(p: Policy, draws: nat -> Draw, sleeps: seq<real>)
    requires p.base >= 0.0 && p.jitter >= 0.0 && SleepsOf(p, draws, sleeps)
    ensures 0.0 <= Total(sleeps) <= Allowance(p, |sleeps|)
  {
    if sleeps != [] {
      var m := |sleeps| - 1;
      TotalIsWithinAllowance(p, draws, sleeps[..m]);
      DelayIsNearDoubled(p, m + 1, draws(m + 1));
    }
  }

  lemma {:induction false} AllowanceGrows(p: Policy, m: nat, n: nat)
    requires p.base >= 0.0 && p.jitter >= 0.0 && m <= n
    ensures Allowance(p, m) <= Allowance(p, n)
    decreases n - m
  {
    if m < n {
      AllowanceGrows(p, m, n - 1);
      DoubledIsNonNegative(p.base, n - 1);
    }
  }

  /** However a call ends, the time slept is bounded by the policy alone. */
  lemma {:induction false} TotalSleepIsBounded(p: Policy, draws: nat -> Draw, sleeps: seq<real>)
    requires p.base >= 0.0 && p.jitter >= 0.0 && SleepsOf(p, draws, sleeps) && |sleeps| <= p.maxAttempts - 1
    ensures 0.0 <= Total(sleeps)
            <= p.base * (Pow2(p.maxAttempts - 1) as real - 1.0) + (p.maxAttempts - 1) as real * p.jitter
  {
    var m := p.maxAttempts - 1;
    TotalIsWithinAllowance(p, draws, sleeps);
    AllowanceGrows(p, |sleeps|, m);
    AllowanceInClosedForm(p, m);
    assert Total(sleeps) <= Allowance(p, m);
  }

  /**
   * `answers(k)` is what attempt `k` would come to. The result is the answer of the last attempt made:
   * the first that is not a retryable error, or the last allowed; one sleep separates two attempts.
   */
  method Execute(p: Policy, answers: nat -> Outcome, draws: nat -> Draw)
    returns (result: Outcome, calls: nat, sleeps: seq<real>)
    requires p.maxAttempts >= 1
    ensures 1 <= calls <= p.maxAttempts && |sleeps| == calls - 1
    ensures result == answers(calls)
    ensures forall k :: 1 <= k < calls ==> answers(k).RetryableError?
    ensures calls < p.maxAttempts ==> !answers(calls).RetryableError?
    ensures SleepsOf(p, draws, sleeps)
    ensures p.base >= 0.0 && p.jitter >= 0.0 ==>
              0.0 <= Total(sleeps)
              <= p.base * (Pow2(p.maxAttempts - 1) as real - 1.0) + (p.maxAttempts - 1) as real * p.jitter
  {
    calls, sleeps := 0, [];
    while true
      invariant 0 <= calls < p.maxAttempts && |sleeps| == calls
      invariant forall k :: 1 <= k <= calls ==> answers(k).RetryableError?
      invariant SleepsOf(p, draws, sleeps)
      decreases p.maxAttempts - calls
    {
      calls := calls + 1;
      result := answers(calls);
      if !result.RetryableError? || calls >= p.maxAttempts {
        break;
      }
      sleeps := sleeps + [Delay(p, calls, draws(calls))];
    }
    if p.base >= 0.0 && p.jitter >= 0.0 {
      TotalSleepIsBounded(p, draws, sleeps);
    }
  }
}
