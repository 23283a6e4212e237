/** Exponential retry backoff, with the multiplier as an exact real and the conversion
    to a duration truncating toward zero. */
module Backoff {
  import opened Wrappers

  function Truncate(x: real): int {
    if x >= 0.0 then x.Floor else -((-x).Floor)
  }

  function Scale(backoff: int, multiplier: real): int {
    Truncate(backoff as real * multiplier)
  }

  datatype RetryPolicy = RetryPolicy(
    maxRetries: int, initialBackoff: int, maxBackoff: int, multiplier: real)
  {
    /** The backoff after `n` multiplications, unless the cap was exceeded on the way. */
    function Grown(n: nat): Option<int> {
      if n == 0 then Some(initialBackoff)
      else
        match Grown(n - 1)
        case None => None
        case Some(b) => if Scale(b, multiplier) > maxBackoff then None else Some(Scale(b, multiplier))
    }

    function Delay(attempt: int): int {
      if attempt <= 0 then initialBackoff
      else
        match Grown(attempt)
        case None => maxBackoff
        case Some(b) => b
    }

    lemma {:induction false} ExceededStaysExceeded(n: nat, m: nat)
      requires n <= m && Grown(n).None?
      ensures Grown(m).None?
    {
      if n < m {
        ExceededStaysExceeded(n, m - 1);
      }
    }

    method NextBackoff(attempt: int) returns (delay: int)
      ensures delay == Delay(attempt)
    {
      if attempt <= 0 {
        return initialBackoff;
      }
      var backoff := initialBackoff;
      for i := 0 to attempt
        invariant Grown(i) == Some(backoff)
      {
        backoff := Scale(backoff, multiplier);
        if backoff > maxBackoff {
          assert Grown(i + 1).None?;
          ExceededStaysExceeded(i + 1, attempt);
          return maxBackoff;
        }
      }
      return backoff;
    }

    /** The policies the closed forms are about: growing, from a first delay below the cap. */
    predicate Growing() {
      multiplier >= 1.0 && 0 <= initialBackoff <= maxBackoff
    }
  }

  lemma ProductAtLeast(b: real, m: real)
    requires b >= 0.0 && m >= 1.0
    ensures b * m >= b
  {
  }

  lemma ScaleGrows(b: int, m: real)
    requires b >= 0 && m >= 1.0
    ensures Scale(b, m) >= b
  {
    ProductAtLeast(b as real, m);
  }

  lemma {:induction false} GrownInRange(p: RetryPolicy, n: nat)
    requires p.Growing() && p.Grown(n).Some?
    ensures p.initialBackoff <= p.Grown(n).value <= p.maxBackoff
  {
    if n > 0 {
      GrownInRange(p, n - 1);
      ScaleGrows(p.Grown(n - 1).value, p.multiplier);
    }
  }

  /** Every delay of a growing policy lies between the first delay and the cap. */
  lemma DelayInRange(p: RetryPolicy, attempt: int)
    requires p.Growing()
    ensures p.initialBackoff <= p.Delay(attempt) <= p.maxBackoff
  {
    if attempt > 0 && p.Grown(attempt).Some? {
      GrownInRange(p, attempt);
    }
  }

  /** Later attempts of a growing policy never wait less. */
  lemma {:induction false} DelayMonotone(p: RetryPolicy, attempt: int, later: int)
    requires p.Growing() && attempt <= later
    ensures p.Delay(attempt) <= p.Delay(later)
    decreases later - attempt
  {
    if attempt < later {
      DelayMonotone(p, attempt, later - 1);
      DelayInRange(p, later - 1);
      if later > 0 && p.Grown(later).Some? {
        assert p.Delay(later - 1) == p.Grown(later - 1).value;
        GrownInRange(p, later - 1);
        ScaleGrows(p.Grown(later - 1).value, p.multiplier);
      }
    }
  }

  /** For every multiplier, shrinking ones included, the cap is kept exactly when some
      multiplication took place or the first delay already respects it. */
  lemma CapKeptExactly(p: RetryPolicy, attempt: int)
    ensures p.Delay(attempt) <= p.maxBackoff <==> attempt > 0 || p.initialBackoff <= p.maxBackoff
  {
  }

  function Power(base: int, n: nat): int {
    if n == 0 then 1 else base * Power(base, n - 1)
  }

  function RealPower(base: real, n: nat): real {
    if n == 0 then 1.0 else base * RealPower(base, n - 1)
  }

  /** The sum of `base^i` for `i < n`. */
  function PowerSum(base: real, n: nat): real {
    if n == 0 then 0.0 else 1.0 + base * PowerSum(base, n - 1)
  }

  function Min(a: int, b: int): int {
    if a <= b then a else b
  }

  lemma ScaleByInteger(b: int, m: int)
    requires b >= 0 && m >= 1
    ensures Scale(b, m as real) == b * m
  {
    assert b as real * m as real == (b * m) as real;
    assert b * m >= 0;
  }

  lemma PowerStep(initial: int, m: int, n: nat)
    requires initial >= 0 && m >= 1
    ensures initial * Power(m, n + 1) == (initial * Power(m, n)) * m
    ensures initial * Power(m, n + 1) >= initial * Power(m, n) >= 0
  {
    PowerPositive(m, n);
    assert initial * (m * Power(m, n)) == (initial * Power(m, n)) * m;
    assert initial * Power(m, n) >= 0;
  }

  lemma {:induction false} PowerPositive(m: int, n: nat)
    requires m >= 1
    ensures Power(m, n) >= 1
  {
    if n > 0 {
      PowerPositive(m, n - 1);
      assert m * Power(m, n - 1) >= 1 * Power(m, n - 1);
    }
  }

  lemma {:induction false} GrownByInteger(p: RetryPolicy, m: int, n: nat)
    requires p.Growing() && p.multiplier == m as real && m >= 1
    ensures p.Grown(n) == if p.initialBackoff * Power(m, n) > p.maxBackoff then None
                          else Some(p.initialBackoff * Power(m, n))
  {
    if n == 0 {
      assert p.initialBackoff * Power(m, 0) == p.initialBackoff;
    } else {
      GrownByInteger(p, m, n - 1);
      PowerStep(p.initialBackoff, m, n - 1);
      if p.Grown(n - 1).Some? {
        ScaleByInteger(p.Grown(n - 1).value, m);
      }
    }
  }

  /** With an integer multiplier the loop computes the capped exponential exactly. */
  lemma IntegerDelayClosedForm(p: RetryPolicy, m: int, attempt: nat)
    requires p.Growing() && p.multiplier == m as real && m >= 1
    ensures p.Delay(attempt) == Min(p.maxBackoff, p.initialBackoff * Power(m, attempt))
  {
    GrownByInteger(p, m, attempt);
    assert p.initialBackoff * Power(m, 0) == p.initialBackoff;
  }

  /** One truncating multiplication, given how far the delay already fell short. */
  lemma TruncationStep(b: int, m: real, exact: real, short: real)
    requires b >= 0 && m >= 1.0
    requires exact - short <= b as real <= exact
    ensures var scaled := Scale(b, m) as real;
            exact * m - (1.0 + m * short) < scaled <= exact * m
  {
    ProductAtLeast(b as real, m);
    ScaledBounds(b as real, m, exact, short);
  }

  lemma ScaledBounds(b: real, m: real, exact: real, short: real)
    requires m >= 1.0 && exact - short <= b <= exact
    ensures exact * m - m * short <= b * m <= exact * m
  {
    assert (exact - b) * m >= 0.0;
    assert (b - (exact - short)) * m >= 0.0;
  }

  /** The exponential the delay approximates. */
  function Exact(p: RetryPolicy, n: nat): real {
    p.initialBackoff as real * RealPower(p.multiplier, n)
  }

  lemma Regroup(a: real, m: real, r: real)
    ensures a * (m * r) == (a * r) * m
  {
  }

  lemma ExactStep(p: RetryPolicy, n: nat)
    ensures Exact(p, 0) == p.initialBackoff as real
    ensures Exact(p, n + 1) == Exact(p, n) * p.multiplier
    ensures PowerSum(p.multiplier, n + 1) == 1.0 + p.multiplier * PowerSum(p.multiplier, n)
  {
    Regroup(p.initialBackoff as real, p.multiplier, RealPower(p.multiplier, n));
  }

  lemma BoundsStep(b: int, p: RetryPolicy, n: nat)
    requires p.multiplier >= 1.0 && b >= 0
    requires Exact(p, n) - PowerSum(p.multiplier, n) <= b as real <= Exact(p, n)
    ensures var scaled := Scale(b, p.multiplier) as real;
            Exact(p, n + 1) - PowerSum(p.multiplier, n + 1) < scaled <= Exact(p, n + 1)
  {
    ExactStep(p, n);
    hide Exact, PowerSum, Scale;
    TruncationStep(b, p.multiplier, Exact(p, n), PowerSum(p.multiplier, n));
  }

  lemma GrownStep(p: RetryPolicy, n: nat)
    requires p.Growing() && p.Grown(n + 1).Some?
    ensures p.Grown(n).Some? && p.Grown(n).value >= 0 && p.multiplier >= 1.0
    ensures p.Grown(n + 1).value == Scale(p.Grown(n).value, p.multiplier)
  {
    GrownInRange(p, n);
  }

  /** For any multiplier of at least 1, an uncapped delay never exceeds the exact exponential
      and falls short of it by less than the sum of the lower powers. */
  lemma {:induction false} FractionalDelayBounds(p: RetryPolicy, n: nat)
    requires p.Growing() && p.Grown(n).Some?
    ensures p.Grown(n).value as real <= Exact(p, n)
    ensures Exact(p, n) - PowerSum(p.multiplier, n) <= p.Grown(n).value as real
    ensures n >= 1 ==> Exact(p, n) - PowerSum(p.multiplier, n) < p.Grown(n).value as real
  {
    if n == 0 {
      ExactStep(p, 0);
    } else {
      hide *;
      GrownStep(p, n - 1);
      FractionalDelayBounds(p, n - 1);
      BoundsStep(p.Grown(n - 1).value, p, n - 1);
    }
  }

  // ----- when the cap applies

  /** The truncated exponential without any cap. */
  function Uncapped(p: RetryPolicy, n: nat): int {
    if n == 0 then p.initialBackoff else Scale(Uncapped(p, n - 1), p.multiplier)
  }

  /** The conversion to a duration drops the fraction, for negative values too. */
  lemma TruncatesTowardZero(x: real)
    ensures x >= 0.0 ==> Truncate(x) as real <= x < Truncate(x) as real + 1.0
    ensures x <= 0.0 ==> Truncate(x) as real - 1.0 < x <= Truncate(x) as real
  {
  }

  /** For every policy, growing or not: the delay is the cap if some value on the way is above it,
      and the truncated exponential otherwise. */
  lemma {:induction false} CappedExactly(p: RetryPolicy, n: nat)
    ensures p.Grown(n).None? <==> exists k :: 1 <= k <= n && Uncapped(p, k) > p.maxBackoff
    ensures p.Grown(n).Some? ==> p.Grown(n).value == Uncapped(p, n)
  {
    if n > 0 {
      CappedExactly(p, n - 1);
      if p.Grown(n).None? && p.Grown(n - 1).Some? {
        assert 1 <= n <= n && Uncapped(p, n) > p.maxBackoff;
      }
    }
  }

  lemma {:induction false} UncappedGrows(p: RetryPolicy, n: nat, m: nat)
    requires p.Growing() && n <= m
    ensures 0 <= Uncapped(p, n) <= Uncapped(p, m)
    decreases m
  {
    if n < m {
      UncappedGrows(p, n, m - 1);
      ScaleGrows(Uncapped(p, m - 1), p.multiplier);
    } else if n > 0 {
      UncappedGrows(p, n - 1, n - 1);
      ScaleGrows(Uncapped(p, n - 1), p.multiplier);
    }
  }

  /** Leaving the loop at the first value above the cap is the same as capping the last value. */
  lemma {:induction false} CappedAtTheEnd(p: RetryPolicy, n: nat)
    requires p.Growing()
    ensures p.Grown(n) == if Uncapped(p, n) > p.maxBackoff then None else Some(Uncapped(p, n))
    ensures p.Delay(n) == Min(p.maxBackoff, Uncapped(p, n))
  {
    if n > 0 {
      CappedAtTheEnd(p, n - 1);
      UncappedGrows(p, n - 1, n);
    }
  }

  lemma ExactGrows(p: RetryPolicy, n: nat)
    requires p.Growing() && Exact(p, n) >= 0.0
    ensures Exact(p, n + 1) >= Exact(p, n)
  {
    ExactStep(p, n);
    hide Exact;
    ProductAtLeast(Exact(p, n), p.multiplier);
  }

  /** A growing policy is capped only when the exact exponential exceeds the cap, and as soon as
      this exponential, less what truncation can have taken away, reaches it. */
  lemma {:induction false} CappedOnlyAboveTheCap(p: RetryPolicy, n: nat)
    requires p.Growing()
    ensures Exact(p, n) >= 0.0
    ensures p.Grown(n).None? ==> Exact(p, n) > p.maxBackoff as real
    ensures n >= 1 && Exact(p, n) - PowerSum(p.multiplier, n) >= p.maxBackoff as real ==> p.Grown(n).None?
  {
    if n == 0 {
      ExactStep(p, 0);
    } else {
      CappedOnlyAboveTheCap(p, n - 1);
      ExactGrows(p, n - 1);
      if p.Grown(n).Some? {
        FractionalDelayBounds(p, n);
        GrownInRange(p, n);
      } else if p.Grown(n - 1).Some? {
        FractionalDelayBounds(p, n - 1);
        GrownInRange(p, n - 1);
        BoundsStep(p.Grown(n - 1).value, p, n - 1);
      }
    }
  }
}
