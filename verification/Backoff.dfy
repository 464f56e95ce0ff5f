/** The pause before a runner that died is started again. Durations are in nanoseconds. */
module Backoff {
  import opened Text

  const SECOND := 1_000_000_000
  const RECONCILE_INTERVAL := 30 * SECOND
  const MAX_RUNNER_BACKOFF := 600 * SECOND

  function Pow2(n: nat): (p: nat)
    ensures p >= 1
  {
    if n == 0 then 1 else 2 * Pow2(n - 1)
  }

  /** The doubling reached the ceiling. */
  predicate Capped(deaths: int, tick: int) {
    deaths > 2 && tick * Pow2(deaths - 2) >= MAX_RUNNER_BACKOFF
  }

  /** What is left to wait; `elapsed` is the time since the last recorded death. */
  function Left(deaths: int, tick: int, elapsed: Option<int>): int {
    if deaths <= 1 then 0
    else if Capped(deaths, tick) then MAX_RUNNER_BACKOFF
    else if elapsed.None? || tick * Pow2(deaths - 2) <= elapsed.value then 0
    else tick * Pow2(deaths - 2) - elapsed.value
  }

  lemma {:induction false} Pow2Monotone(tick: int, m: nat, n: nat)
    requires tick > 0 && m <= n
    ensures tick * Pow2(m) <= tick * Pow2(n)
    decreases n
  {
    if m < n {
      Pow2Monotone(tick, m, n - 1);
      Doubling(tick, n);
    }
  }

  lemma Doubling(tick: int, n: nat)
    requires n > 0
    ensures tick * Pow2(n) == 2 * (tick * Pow2(n - 1))
  {
    var p := Pow2(n - 1);
    assert tick * (2 * p) == 2 * (tick * p);
  }

  /** backoffLeftLocked: the loop doubles at most until the ceiling, and no product it
      forms exceeds twice the ceiling. */
  method BackoffLeft(deaths: int, tick: int, elapsed: Option<int>) returns (left: int)
    requires 0 < tick
    ensures left == Left(deaths, tick, elapsed)
  {
    if deaths <= 1 {
      return 0;
    }
    var b := tick;
    for i := 0 to deaths - 2
      invariant b == tick * Pow2(i) && (i > 0 ==> b < MAX_RUNNER_BACKOFF)
    {
      Doubling(tick, i + 1);
      b := b * 2;
      assert i > 0 ==> b < 2 * MAX_RUNNER_BACKOFF;
      if b >= MAX_RUNNER_BACKOFF {
        Pow2Monotone(tick, i + 1, deaths - 2);
        return MAX_RUNNER_BACKOFF;
      }
    }
    if elapsed.None? {
      return 0;
    }
    if b - elapsed.value > 0 {
      return b - elapsed.value;
    }
    return 0;
  }

  /** More deaths never shorten the pause. */
  lemma LeftMonotone(deaths: int, deaths': int, tick: int, elapsed: int)
    requires 0 < tick <= MAX_RUNNER_BACKOFF && 0 <= elapsed && deaths <= deaths'
    ensures Left(deaths, tick, Some(elapsed)) <= Left(deaths', tick, Some(elapsed))
  {
    if deaths > 1 {
      Pow2Monotone(tick, deaths - 2, deaths' - 2);
    }
  }

  /** The pause runs out if and only if the ceiling was not reached, and then within it.
      At the ceiling the elapsed time is not looked at: the pause never ends by itself. */
  lemma PauseEndsUnlessCapped(deaths: int, tick: int)
    requires 0 < tick <= MAX_RUNNER_BACKOFF
    ensures (exists elapsed: int :: Left(deaths, tick, Some(elapsed)) == 0) <==> !Capped(deaths, tick)
    ensures !Capped(deaths, tick) ==> Left(deaths, tick, Some(MAX_RUNNER_BACKOFF)) == 0
    ensures Capped(deaths, tick) ==> forall elapsed :: Left(deaths, tick, elapsed) == MAX_RUNNER_BACKOFF
  {
    if !Capped(deaths, tick) {
      assert deaths == 2 ==> Pow2(deaths - 2) == 1;
      assert Left(deaths, tick, Some(MAX_RUNNER_BACKOFF)) == 0;
    }
  }

  /** With the production interval seven deaths in a row reach the ceiling. */
  lemma SevenDeaths(deaths: int)
    ensures Capped(deaths, RECONCILE_INTERVAL) <==> deaths >= 7
  {
    assert Pow2(1) == 2 && Pow2(2) == 4 && Pow2(3) == 8;
    assert Pow2(4) == 16 && Pow2(5) == 32;
    if deaths >= 7 {
      Pow2Monotone(RECONCILE_INTERVAL, 5, deaths - 2);
    } else if deaths > 2 {
      Pow2Monotone(RECONCILE_INTERVAL, deaths - 2, 4);
    }
  }

  /** The whole pause after a death, in terms of the one before: nothing after the first
      death, a tick after the second, then twice as much each time up to ten minutes. */
  lemma PauseDoubles(deaths: int, tick: int)
    requires 0 < tick
    ensures deaths <= 1 ==> Left(deaths, tick, Some(0)) == 0
    ensures Left(2, tick, Some(0)) == tick
    ensures deaths >= 2 ==>
      var pause := Left(deaths, tick, Some(0));
      Left(deaths + 1, tick, Some(0)) ==
        if Capped(deaths, tick) || 2 * pause >= 600_000_000_000 then 600_000_000_000 else 2 * pause
  {
    assert tick * Pow2(0) == tick;
    if deaths >= 2 {
      Doubling(tick, deaths - 1);
      PowPositive(tick, deaths - 2);
      assert tick * Pow2(deaths - 1) == 2 * (tick * Pow2(deaths - 2));
    }
  }

  lemma PowPositive(tick: int, n: nat)
    requires tick > 0
    ensures tick * Pow2(n) > 0
  {
  }

  /** Below the ceiling the time since the death counts, and without a date nothing is left. */
  lemma PauseRunsOut(deaths: int, tick: int, elapsed: int)
    requires 0 < tick && !Capped(deaths, tick)
    ensures Left(deaths, tick, None) == 0
    ensures Left(deaths, tick, Some(elapsed)) ==
      if elapsed >= Left(deaths, tick, Some(0)) then 0 else if deaths <= 1 then 0 else Left(deaths, tick, Some(0)) - elapsed
  {
    if deaths >= 2 {
      PowPositive(tick, deaths - 2);
    }
  }

  /** The pauses in production: 30 s, 1, 2, 4, 8 and then 10 minutes. */
  lemma ProductionPauses()
    ensures Left(2, RECONCILE_INTERVAL, Some(0)) == 30 * 1_000_000_000
    ensures Left(3, RECONCILE_INTERVAL, Some(0)) == 60 * 1_000_000_000
    ensures Left(6, RECONCILE_INTERVAL, Some(0)) == 480 * 1_000_000_000
    ensures Left(7, RECONCILE_INTERVAL, Some(0)) == 600 * 1_000_000_000
  {
    assert Pow2(0) == 1 && Pow2(1) == 2 && Pow2(2) == 4 && Pow2(3) == 8;
    assert Pow2(4) == 16 && Pow2(5) == 32;
  }
}
