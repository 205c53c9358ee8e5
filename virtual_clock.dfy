/**
 * The timed sampling loops of the system (`while time.time() - start < duration: ...;
 * time.sleep(interval)`) run here against a virtual clock: a call made inside the loop takes
 * no virtual time and each `sleep(interval)` advances the clock by exactly `interval` seconds.
 */
module VirtualClock {

  /** The virtual time elapsed after `samples` iterations of a loop that sleeps `interval`
      per iteration, by repeated addition (`ElapsedIsProduct` relates it to the product). */
  function Elapsed(samples: nat, interval: nat): nat {
    if samples == 0 then 0 else Elapsed(samples - 1, interval) + interval
  }

  lemma {:induction false} ElapsedIsProduct(samples: nat, interval: nat)
    ensures Elapsed(samples, interval) == samples * interval
  {
    if samples > 0 {
      ElapsedIsProduct(samples - 1, interval);
      assert (samples - 1) * interval + interval == samples * interval;
    }
  }

  /** The virtual time of the k-th sample (counting from 0) of a loop started at `start`. */
  function SampleTime(start: nat, k: nat, interval: nat): nat {
    start + Elapsed(k, interval)
  }

  /** Later iterations start at least one interval later. */
  lemma {:induction false} ElapsedMonotone(a: nat, b: nat, interval: nat)
    requires a < b
    ensures Elapsed(a, interval) + interval <= Elapsed(b, interval)
    decreases b
  {
    if b > a + 1 {
      ElapsedMonotone(a, b - 1, interval);
    }
  }

  /** The number of iterations of a loop that starts at elapsed time 0, runs while the
      elapsed time is below `duration`, and advances the clock by `interval` per iteration. */
  function SampleCount(duration: nat, interval: nat): (n: nat)
    requires interval > 0
    ensures duration > 0 ==> n >= 1
    decreases duration
  {
    if duration == 0 then 0
    else if duration <= interval then 1
    else 1 + SampleCount(duration - interval, interval)
  }

  /** The loop stops at the first iteration count whose elapsed time reaches `duration`: the
      samples taken cover the duration, and one fewer would not. */
  lemma {:induction false} SampleCountBounds(duration: nat, interval: nat)
    requires interval > 0
    ensures duration <= Elapsed(SampleCount(duration, interval), interval)
    ensures SampleCount(duration, interval) == 0 || Elapsed(SampleCount(duration, interval) - 1, interval) < duration
    decreases duration
  {
    if duration > interval {
      var m := SampleCount(duration - interval, interval);
      SampleCountBounds(duration - interval, interval);
      assert SampleCount(duration, interval) == m + 1;
      assert Elapsed(m + 1, interval) == Elapsed(m, interval) + interval;
      assert Elapsed(m, interval) == Elapsed(m - 1, interval) + interval;
    }
  }

  /** Every sample of a window is taken before the window's duration has elapsed. */
  lemma SampleTimesInWindow(duration: nat, interval: nat, k: nat)
    requires interval > 0
    requires k < SampleCount(duration, interval)
    ensures Elapsed(k, interval) < duration
  {
    var n := SampleCount(duration, interval);
    SampleCountBounds(duration, interval);
    if k < n - 1 {
      ElapsedMonotone(k, n - 1, interval);
    }
  }

  /** The virtual time a sampling loop takes: its last sleep ends at this elapsed time. */
  function WindowLength(duration: nat, interval: nat): (len: nat)
    requires interval > 0
    ensures duration <= len < duration + interval
  {
    SampleCountBounds(duration, interval);
    var n := SampleCount(duration, interval);
    ElapsedIsProduct(n, interval);
    assert n > 0 ==> Elapsed(n, interval) == Elapsed(n - 1, interval) + interval;
    n * interval
  }

  /** The time a loop still has to run when `elapsed` of `duration` has passed. */
  function Remaining(elapsed: nat, duration: nat): nat {
    if elapsed < duration then duration - elapsed else 0
  }

  /** One iteration of the loop takes one sample and leaves the rest of the window. */
  lemma SampleCountStep(remaining: nat, interval: nat)
    requires interval > 0 && remaining > 0
    ensures SampleCount(remaining, interval) == 1 + SampleCount(Remaining(interval, remaining), interval)
  {
  }

  /** An interval at least as long as a positive duration gives exactly one sample. */
  lemma SampleCountOfShortWindow(duration: nat, interval: nat)
    requires interval > 0 && duration > 0
    ensures interval >= duration ==> SampleCount(duration, interval) == 1
  {
  }

  /** The loop exit condition determines the count: any `n` that satisfies both bounds of
      `SampleCountBounds` is that count. */
  lemma SampleCountUnique(duration: nat, interval: nat, n: nat)
    requires interval > 0
    requires duration <= Elapsed(n, interval)
    requires n == 0 || Elapsed(n - 1, interval) < duration
    ensures n == SampleCount(duration, interval)
  {
    var m := SampleCount(duration, interval);
    SampleCountBounds(duration, interval);
    if n < m {
      if n < m - 1 {
        ElapsedMonotone(n, m - 1, interval);
      }
    } else if m < n {
      if m < n - 1 {
        ElapsedMonotone(m, n - 1, interval);
      }
    }
  }

  /** A duration of exactly `k` intervals gives exactly `k` samples and lasts exactly that
      long. */
  lemma SampleCountOfMultiple(k: nat, interval: nat)
    requires interval > 0
    ensures SampleCount(Elapsed(k, interval), interval) == k
    ensures WindowLength(Elapsed(k, interval), interval) == Elapsed(k, interval)
  {
    SampleCountUnique(Elapsed(k, interval), interval, k);
  }

  /** The same for a duration given in seconds: `k * interval`. */
  lemma SampleCountOfProduct(k: nat, interval: nat)
    requires interval > 0
    ensures SampleCount(k * interval, interval) == k
    ensures WindowLength(k * interval, interval) == k * interval
  {
    ElapsedIsProduct(k, interval);
    SampleCountOfMultiple(k, interval);
  }
}
