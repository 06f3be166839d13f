/** The alarm rate window: a ring of the last 600 raise times, read as "raises in the last ten minutes". */
module AlarmRate {
  import opened Clock

  const SLOTS := 600
  const TEN_MINUTES := 600000

  /** How many times lie above a bound. */
  function Above(ts: seq<nat>, bound: nat): (n: nat)
    ensures n <= |ts|
  {
    if ts == [] then 0 else Above(ts[..|ts| - 1], bound) + (if ts[|ts| - 1] > bound then 1 else 0)
  }

  lemma {:induction false} AboveConcat(xs: seq<nat>, ys: seq<nat>, bound: nat)
    ensures Above(xs + ys, bound) == Above(xs, bound) + Above(ys, bound)
  {
    if ys == [] {
      assert xs + ys == xs;
    } else {
      var n := |ys| - 1;
      assert (xs + ys)[..|xs + ys| - 1] == xs + ys[..n];
      AboveConcat(xs, ys[..n], bound);
    }
  }

  lemma {:induction false} NoneAbove(ts: seq<nat>, bound: nat)
    requires forall i | 0 <= i < |ts| :: ts[i] <= bound
    ensures Above(ts, bound) == 0
  {
    if ts != [] {
      NoneAbove(ts[..|ts| - 1], bound);
    }
  }

  lemma {:induction false} AllAbove(ts: seq<nat>, bound: nat)
    requires forall i | 0 <= i < |ts| :: ts[i] > bound
    ensures Above(ts, bound) == |ts|
  {
    if ts != [] {
      AllAbove(ts[..|ts| - 1], bound);
    }
  }

  function Zeros(n: nat): (z: seq<nat>)
    ensures |z| == n
  {
    seq(n, _ => 0)
  }

  /** The ring holds the last 600 times of a log, the newest just before the write position. */
  predicate Rings(ring: seq<nat>, at: nat, log: seq<nat>) {
    && |ring| == SLOTS && at < SLOTS
    && if |log| < SLOTS then at == |log| && ring == log + Zeros(SLOTS - |log|)
       else ring[..at] == log[|log| - at..] && ring[at..] == log[|log| - SLOTS..|log| - at]
  }

  lemma RingsNext(ring: seq<nat>, at: nat, log: seq<nat>, t: nat)
    requires Rings(ring, at, log)
    ensures Rings(ring[at := t], (at + 1) % SLOTS, log + [t])
  {
    var ring', log', n := ring[at := t], log + [t], |log|;
    if n < SLOTS {
      assert ring' == log' + Zeros(SLOTS - n - 1);
    } else {
      assert ring'[..at + 1] == log'[n - at..];
      assert ring'[at + 1..] == ring[at..][1..] == log'[n + 1 - SLOTS..n - at];
      if at + 1 == SLOTS {
        assert ring' == ring'[..at + 1];
      }
    }
  }

  /** The last 600 times of a log, or all of them. */
  function Recent(log: seq<nat>): seq<nat> {
    if |log| < SLOTS then log else log[|log| - SLOTS..]
  }

  lemma RecentSplits(log: seq<nat>, k: nat)
    requires SLOTS <= |log| && |log| - SLOTS <= k <= |log|
    ensures Recent(log) == log[|log| - SLOTS..k] + log[k..]
  {
  }

  lemma AboveSwaps(xs: seq<nat>, ys: seq<nat>, bound: nat)
    ensures Above(xs + ys, bound) == Above(ys + xs, bound)
  {
    AboveConcat(xs, ys, bound);
    AboveConcat(ys, xs, bound);
  }

  lemma ShortRingCounts(ring: seq<nat>, log: seq<nat>, bound: nat)
    requires |log| < SLOTS && ring == log + Zeros(SLOTS - |log|)
    ensures Above(ring, bound) == Above(log, bound)
  {
    AboveConcat(log, Zeros(SLOTS - |log|), bound);
    NoneAbove(Zeros(SLOTS - |log|), bound);
  }

  lemma FullRingCounts(ring: seq<nat>, at: nat, log: seq<nat>, bound: nat)
    requires Rings(ring, at, log) && |log| >= SLOTS
    ensures Above(ring, bound) == Above(Recent(log), bound)
  {
    var newer, older := ring[..at], ring[at..];
    assert ring == newer + older;
    RecentSplits(log, |log| - at);
    AboveSwaps(newer, older, bound);
  }

  /** Counting in the ring is counting in the recent part of the log. */
  lemma RingCounts(ring: seq<nat>, at: nat, log: seq<nat>, bound: nat)
    requires Rings(ring, at, log)
    ensures Above(ring, bound) == Above(Recent(log), bound)
  {
    if |log| < SLOTS {
      ShortRingCounts(ring, log, bound);
    } else {
      FullRingCounts(ring, at, log, bound);
    }
  }

  predicate Ordered(ts: seq<nat>) {
    forall i, j | 0 <= i < j < |ts| :: ts[i] <= ts[j]
  }

  /** In an ordered log the recent part holds min(600, n) of the n times above any bound. */
  lemma RecentCounts(log: seq<nat>, bound: nat)
    requires Ordered(log)
    ensures Above(Recent(log), bound) == if Above(log, bound) > SLOTS then SLOTS else Above(log, bound)
  {
    var n := |log|;
    if n >= SLOTS {
      var older, recent := log[..n - SLOTS], log[n - SLOTS..];
      assert log == older + recent;
      AboveConcat(older, recent, bound);
      if older != [] && older[|older| - 1] > bound {
        AllAbove(recent, bound);
      } else {
        NoneAbove(older, bound);
      }
    }
  }

  /** The unsigned 64-bit difference the code compares with. */
  function Bound(now: nat): (b: nat)
    ensures b < WORD
  {
    (now - TEN_MINUTES) % WORD
  }

  lemma BoundForward(now: nat)
    requires 600000 <= now < WORD
    ensures Bound(now) == now - 600000
  {
  }

  /** The entries of the log above a bound. */
  function Entries(log: seq<nat>, bound: int): set<nat> {
    set i: nat | i < |log| && log[i] > bound
  }

  lemma {:induction false} AboveIsCount(log: seq<nat>, bound: nat)
    ensures Above(log, bound) == |Entries(log, bound)|
  {
    if log != [] {
      var n := |log| - 1;
      var front := Entries(log[..n], bound);
      AboveIsCount(log[..n], bound);
      assert Entries(log, bound) == if log[n] > bound then front + {n} else front;
    }
  }

  /** The number of raises less than ten minutes ago. */
  function InWindow(log: seq<nat>, now: nat): nat {
    |Entries(log, now - 600000)|
  }

  /**
   * With an ordered log and the clock past its first ten minutes, the ring's count is the number of
   * raises in the last ten minutes, capped at 600.
   */
  lemma WindowIsExact(ring: seq<nat>, at: nat, log: seq<nat>, now: nat)
    requires Rings(ring, at, log) && Ordered(log) && 600000 <= now < WORD
    ensures Above(ring, Bound(now)) == if InWindow(log, now) > 600 then 600 else InWindow(log, now)
  {
    BoundForward(now);
    AboveIsCount(log, now - 600000);
    RingCounts(ring, at, log, Bound(now));
    RecentCounts(log, Bound(now));
  }

  /** So for every limit below 600 the flood flag is exact. */
  lemma FloodIsExact(ring: seq<nat>, at: nat, log: seq<nat>, now: nat, limit: nat)
    requires Rings(ring, at, log) && Ordered(log) && 600000 <= now < WORD && limit < 600
    ensures Above(ring, Bound(now)) > limit <==> InWindow(log, now) > limit
  {
    WindowIsExact(ring, at, log, now);
  }

  /** In the first ten minutes of the clock the bound wraps around and nothing is counted. */
  lemma EarlyWindowIsEmpty(ring: seq<nat>, at: nat, log: seq<nat>, now: nat)
    requires Rings(ring, at, log) && now < TEN_MINUTES && forall i | 0 <= i < |log| :: log[i] <= now
    ensures Above(ring, Bound(now)) == 0
  {
    RingCounts(ring, at, log, Bound(now));
    NoneAbove(Recent(log), Bound(now));
  }
}
