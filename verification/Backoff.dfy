/** The retry schedule of `emaild/worker.py`: an exponential table with multiplicative jitter. */
module Backoff {

  const MAX_ATTEMPTS: nat := 8

  function Schedule(): seq<real> {
    [30.0, 120.0, 600.0, 1800.0, 7200.0, 21600.0, 43200.0, 86400.0]
  }

  /** The table entry for an attempt; attempts past the end of the table reuse its last entry. */
  function Base(attempt: int): real {
    if attempt > 0 then Schedule()[(if attempt < |Schedule()| then attempt else |Schedule()|) - 1] else Schedule()[0]
  }

  /** `backoff_delay`, with the random factor as a parameter. */
  function Delay(attempt: int, jitter: real): real {
    Base(attempt) * jitter
  }

  /** What the jitter can make of the table entry. */
  predicate Possible(attempt: int, delay: real) {
    0.8 * Base(attempt) <= delay <= 1.2 * Base(attempt)
  }

  lemma DelayIsPossible(attempt: int, jitter: real)
    requires 0.8 <= jitter <= 1.2
    ensures Possible(attempt, Delay(attempt, jitter))
  {
    var base := Base(attempt);
    assert base > 0.0;
    assert 0.8 * base <= jitter * base <= 1.2 * base;
  }

  /** The jitter reaches every delay in that range, and no other. */
  lemma PossibleIffJittered(attempt: int, delay: real)
    ensures Possible(attempt, delay) <==> exists jitter :: 0.8 <= jitter <= 1.2 && Delay(attempt, jitter) == delay
  {
    var base := Base(attempt);
    assert base > 0.0;
    var share := delay / base;
    assert share * base == delay;
    if Possible(attempt, delay) {
      Shares(base, share);
      assert Delay(attempt, share) == delay;
    }
    if jitter :| 0.8 <= jitter <= 1.2 && Delay(attempt, jitter) == delay {
      DelayIsPossible(attempt, jitter);
    }
  }

  lemma Shares(base: real, share: real)
    requires base > 0.0 && 0.8 * base <= share * base <= 1.2 * base
    ensures 0.8 <= share <= 1.2
  {
    if share < 0.8 {
      Grows(base, share, 0.8);
    }
    if share > 1.2 {
      Grows(base, 1.2, share);
    }
  }

  lemma Grows(base: real, a: real, b: real)
    requires base > 0.0 && a < b
    ensures a * base < b * base
  {
    assert (b - a) * base > 0.0;
  }

  /** The longest delay that the jitter can make. */
  function Longest(attempt: int): (r: real)
    ensures r > 0.0
  {
    1.2 * Base(attempt)
  }

  /** The most that the first `n` scheduled delays can add up to. */
  function Budget(n: nat): real {
    if n == 0 then 0.0 else Budget(n - 1) + Longest(n)
  }

  lemma BudgetIsMonotone(m: nat, n: nat)
    requires m <= n
    ensures Budget(m) <= Budget(n)
    decreases n
  {
    if m < n {
      BudgetIsMonotone(m, n - 1);
    }
  }

  /** However the jitter falls, a later attempt always waits strictly longer, up to the attempt limit. */
  lemma DelaysStrictlyIncrease(a: int, b: int, delayA: real, delayB: real)
    requires 1 <= a < b <= MAX_ATTEMPTS
    requires Possible(a, delayA) && Possible(b, delayB)
    ensures delayA < delayB
  {
    SpreadNeverOverlaps(a, b);
  }

  lemma {:induction false} SpreadNeverOverlaps(a: int, b: int)
    requires 1 <= a < b <= MAX_ATTEMPTS
    ensures 1.2 * Base(a) < 0.8 * Base(b)
    decreases b
  {
    if a + 1 < b {
      SpreadNeverOverlaps(a, b - 1);
    }
  }

  /** Seven deferrals are the most there can be, and together they wait at most 89,460 seconds. */
  lemma WholeSchedule()
    ensures Budget(MAX_ATTEMPTS - 1) == 89460.0
  {
    assert Budget(1) == 36.0;
    assert Budget(2) == 180.0;
    assert Budget(3) == 900.0;
    assert Budget(4) == 3060.0;
    assert Budget(5) == 11700.0;
    assert Budget(6) == 37620.0;
  }
}
