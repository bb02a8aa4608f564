/**
 When the cleaner thread of lib/cache.c sweeps.  Lock waits and the duration of a
 sweep are ignored, and the two clocks advance at the same rate.
 */
module CleanerTiming {

  /** One return of sem_timedwait: at which time, and whether a notice caused it. */
  datatype Wake = Wake(at: int, notice: bool)

  /** C division of a possibly negative number. */
  function Truncated(a: int, b: nat): int
    requires b > 0
  {
    if a < 0 then -((-a) / b) else a / b
  }

  /** The time until the deadline: whole milliseconds, passed on as a 32-bit unsigned number. */
  function Timeout(maxInterval: int): int {
    Truncated(maxInterval, 1_000_000) % 0x1_0000_0000 * 1_000_000
  }

  function Begin(start: int, wakes: seq<Wake>, i: nat): int
    requires i <= |wakes|
  {
    if i == 0 then start else wakes[i - 1].at
  }

  /** Each wait starts when the loop comes round and ends by its deadline. */
  ghost predicate Timely(maxInterval: int, start: int, wakes: seq<Wake>) {
    forall i :: 0 <= i < |wakes| ==>
      Begin(start, wakes, i) <= wakes[i].at <= Begin(start, wakes, i) + Timeout(maxInterval)
  }

  /** The time of the sweep before the `i`-th one of `sweeps`, as the cleaner remembers it. */
  function Previous(wakes: seq<Wake>, sweeps: seq<nat>, i: nat): int
    requires i <= |sweeps| && (i > 0 ==> sweeps[i - 1] < |wakes|)
  {
    if i == 0 then 0 else wakes[sweeps[i - 1]].at
  }

  /** The wake after which the wait for the `i`-th sweep starts. */
  function After(sweeps: seq<nat>, i: nat): nat
    requires i <= |sweeps|
  {
    if i == 0 then 0 else sweeps[i - 1] + 1
  }

  /** The wakes between two sweeps are notices that came too early. */
  ghost predicate Ignored(minInterval: int, wakes: seq<Wake>, last: int, from: nat, to: nat)
    requires to <= |wakes|
  {
    forall j :: from <= j < to ==> wakes[j].notice && wakes[j].at - last < minInterval
  }

  /** A sweep is due at the wake `j`, and not too late. */
  ghost predicate Due(minInterval: int, maxInterval: int, start: int, wakes: seq<Wake>, last: int, from: nat, j: nat)
    requires from <= j < |wakes|
  {
    && (wakes[j].notice ==> wakes[j].at - last >= minInterval)
    && (|| wakes[j].at <= last + minInterval + Timeout(maxInterval)
        || wakes[j].at <= Begin(start, wakes, from) + Timeout(maxInterval))
  }

  /** The `i`-th sweep follows on ignored notices only, and is due. */
  ghost predicate SweepAt(minInterval: int, maxInterval: int, start: int, wakes: seq<Wake>, sweeps: seq<nat>, i: nat)
    requires i < |sweeps|
  {
    && After(sweeps, i) <= sweeps[i] < |wakes|
    && Ignored(minInterval, wakes, Previous(wakes, sweeps, i), After(sweeps, i), sweeps[i])
    && Due(minInterval, maxInterval, start, wakes, Previous(wakes, sweeps, i), After(sweeps, i), sweeps[i])
  }

  ghost predicate Sweeps(minInterval: int, maxInterval: int, start: int, wakes: seq<Wake>, sweeps: seq<nat>) {
    forall i :: 0 <= i < |sweeps| ==> SweepAt(minInterval, maxInterval, start, wakes, sweeps, i)
  }

  lemma AnotherSweep(minInterval: int, maxInterval: int, start: int, wakes: seq<Wake>, sweeps: seq<nat>, n: nat)
    requires Sweeps(minInterval, maxInterval, start, wakes, sweeps) && After(sweeps, |sweeps|) <= n < |wakes|
    requires Ignored(minInterval, wakes, Previous(wakes, sweeps, |sweeps|), After(sweeps, |sweeps|), n)
    requires Due(minInterval, maxInterval, start, wakes, Previous(wakes, sweeps, |sweeps|), After(sweeps, |sweeps|), n)
    ensures Sweeps(minInterval, maxInterval, start, wakes, sweeps + [n])
  {
    var s := sweeps + [n];
    forall i | 0 <= i < |s| ensures SweepAt(minInterval, maxInterval, start, wakes, s, i) {
      assert After(s, i) == After(sweeps, i);
      if i < |sweeps| {
        assert SweepAt(minInterval, maxInterval, start, wakes, sweeps, i);
        assert s[i] == sweeps[i];
      } else {
        assert s[i] == n;
      }
    }
  }

  /**
   The loop of cache_cleaner over any pattern of wakes: which of them lead to a sweep.
   A notice-driven sweep is at least `minInterval` after the previous one, and no
   sweep is later than `minInterval` plus the time-out after it, although every
   ignored notice restarts the timer.
   */
  method Cleaner(minInterval: int, maxInterval: int, start: int, wakes: seq<Wake>) returns (sweeps: seq<nat>)
    requires Timely(maxInterval, start, wakes)
    ensures Sweeps(minInterval, maxInterval, start, wakes, sweeps)
    ensures After(sweeps, |sweeps|) <= |wakes|
    ensures Ignored(minInterval, wakes, Previous(wakes, sweeps, |sweeps|), After(sweeps, |sweeps|), |wakes|)
  {
    var last := 0;
    sweeps := [];
    for n := 0 to |wakes|
      invariant Sweeps(minInterval, maxInterval, start, wakes, sweeps)
      invariant After(sweeps, |sweeps|) <= n && last == Previous(wakes, sweeps, |sweeps|)
      invariant Ignored(minInterval, wakes, last, After(sweeps, |sweeps|), n)
    {
      if wakes[n].notice && wakes[n].at - last < minInterval {
        continue;
      }
      InTime(minInterval, maxInterval, start, wakes, last, After(sweeps, |sweeps|), n);
      AnotherSweep(minInterval, maxInterval, start, wakes, sweeps, n);
      sweeps := sweeps + [n];
      last := wakes[n].at;
    }
  }

  /** Only notices before `last + minInterval` restart the timer. */
  lemma InTime(minInterval: int, maxInterval: int, start: int, wakes: seq<Wake>, last: int, from: nat, n: nat)
    requires Timely(maxInterval, start, wakes) && from <= n < |wakes| && Ignored(minInterval, wakes, last, from, n)
    ensures || wakes[n].at <= last + minInterval + Timeout(maxInterval)
            || wakes[n].at <= Begin(start, wakes, from) + Timeout(maxInterval)
  {
    if from < n { assert wakes[n - 1].at - last < minInterval; }
  }

  /**
   Between two consecutive sweeps of such a run there are at most `minInterval + maxInterval`
   nanoseconds, and a notice-driven one does not come before `minInterval` has passed.
   */
  lemma SweepGap(minInterval: nat, maxInterval: nat, start: int, wakes: seq<Wake>, sweeps: seq<nat>, i: nat)
    requires Sweeps(minInterval, maxInterval, start, wakes, sweeps) && 0 < i < |sweeps|
    ensures sweeps[i - 1] < sweeps[i] < |wakes|
    ensures wakes[sweeps[i]].at <= wakes[sweeps[i - 1]].at + minInterval + maxInterval
    ensures wakes[sweeps[i]].notice ==> wakes[sweeps[i]].at >= wakes[sweeps[i - 1]].at + minInterval
  {
    TimeoutBound(maxInterval);
    assert SweepAt(minInterval, maxInterval, start, wakes, sweeps, i);
    assert SweepAt(minInterval, maxInterval, start, wakes, sweeps, i - 1);
    assert Begin(start, wakes, After(sweeps, i)) == wakes[sweeps[i - 1]].at;
  }

  lemma TimeoutBound(maxInterval: nat)
    ensures 0 <= Timeout(maxInterval) <= maxInterval
    // intervals below 2^32 ms are waited for in full, up to the millisecond
    ensures maxInterval < 0x1_0000_0000 * 1_000_000 ==> maxInterval < Timeout(maxInterval) + 1_000_000
  {
    var q := maxInterval / 1_000_000;
    assert q % 0x1_0000_0000 <= q;
  }

  /**
   The time-out of any interval: its milliseconds, rounded towards zero, and out of them as
   many whole ranges of 32 bits as bring the number into one.
   */
  lemma TimeoutWraps(maxInterval: int) returns (ms: int, rounds: int)
    ensures if maxInterval < 0 then maxInterval <= ms * 1_000_000 < maxInterval + 1_000_000
            else maxInterval - 1_000_000 < ms * 1_000_000 <= maxInterval
    ensures Timeout(maxInterval) == (ms - rounds * 0x1_0000_0000) * 1_000_000
    ensures 0 <= ms - rounds * 0x1_0000_0000 < 0x1_0000_0000
  {
    ms := Truncated(maxInterval, 1_000_000);
    rounds := ms / 0x1_0000_0000;
  }
}
