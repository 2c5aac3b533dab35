/** Spacing of outgoing calls: `RpcPacer` in crates/gum-chain/src/lib.rs. Times are in nanoseconds. */
module Pacer {
  import opened Prelude

  const SECOND: nat := 1_000_000_000
  const MILLISECOND: nat := 1_000_000

  function MinInterval(maxPerSecond: nat): nat {
    if maxPerSecond == 0 then 0 else Max(SECOND / maxPerSecond, MILLISECOND)
  }

  /** The earliest time the call after these arrivals may have. */
  function Next(interval: nat, start: nat, arrivals: seq<nat>): nat {
    if arrivals == [] then start
    else Max(Next(interval, start, arrivals[..|arrivals| - 1]), arrivals[|arrivals| - 1]) + interval
  }

  /** The slots handed out, in arrival order. */
  function Slots(interval: nat, start: nat, arrivals: seq<nat>): (slots: seq<nat>)
    ensures |slots| == |arrivals|
  {
    if arrivals == [] then []
    else
      var n := |arrivals| - 1;
      Slots(interval, start, arrivals[..n]) + [Max(Next(interval, start, arrivals[..n]), arrivals[n])]
  }

  class RpcPacer {
    const minInterval: nat
    var nextSlot: nat
    ghost const start: nat
    ghost var arrivals: seq<nat>

    ghost predicate Valid()
      reads this
    {
      nextSlot == Next(minInterval, start, arrivals)
    }

    constructor (maxPerSecond: nat, now: nat)
      ensures Valid() && minInterval == MinInterval(maxPerSecond) && start == now && arrivals == []
    {
      minInterval := MinInterval(maxPerSecond);
      nextSlot := now;
      start := now;
      arrivals := [];
    }

    /** Take the next slot under the lock and say how long to sleep until it. */
    method Acquire(now: nat) returns (wait: nat)
      requires Valid()
      modifies this
      ensures Valid() && arrivals == old(arrivals) + [now]
      ensures Slots(minInterval, start, arrivals) == Slots(minInterval, start, old(arrivals)) + [now + wait]
    {
      var slot := Max(nextSlot, now);
      nextSlot := slot + minInterval;
      wait := slot - now;
      arrivals := arrivals + [now];
      assert arrivals[..|arrivals| - 1] == old(arrivals);
    }
  }

  // ------------------------------------------------------------ spacing

  /** Consecutive calls are an interval apart. */
  ghost predicate Spaced(slots: seq<nat>, interval: nat) {
    forall i :: 0 < i < |slots| ==> slots[i - 1] + interval <= slots[i]
  }

  /** No slot is before its arrival, or before the pacer existed. */
  ghost predicate Serves(slots: seq<nat>, start: nat, arrivals: seq<nat>) {
    |slots| == |arrivals| && forall i :: 0 <= i < |slots| ==> slots[i] >= arrivals[i] && slots[i] >= start
  }

  lemma {:induction false} SlotsSpaced(interval: nat, start: nat, arrivals: seq<nat>)
    ensures var slots := Slots(interval, start, arrivals);
            && Spaced(slots, interval) && Serves(slots, start, arrivals)
            && Next(interval, start, arrivals) == (if slots == [] then start else slots[|slots| - 1] + interval)
    decreases |arrivals|
  {
    if arrivals != [] {
      SlotsSpaced(interval, start, arrivals[..|arrivals| - 1]);
    }
  }

  lemma {:induction false} SpacedApart(slots: seq<nat>, interval: nat, i: nat, j: nat)
    requires Spaced(slots, interval) && i < j < |slots|
    ensures slots[i] + interval <= slots[j]
    decreases j
  {
    if i + 1 < j {
      SpacedApart(slots, interval, i, j - 1);
    }
  }

  /** Any two slots are at least the interval apart, and none is early. */
  lemma AtLeastIntervalApart(interval: nat, start: nat, arrivals: seq<nat>, i: nat, j: nat)
    requires i < j < |arrivals|
    ensures Slots(interval, start, arrivals)[i] + interval <= Slots(interval, start, arrivals)[j]
    ensures Slots(interval, start, arrivals)[j] >= arrivals[j]
  {
    SlotsSpaced(interval, start, arrivals);
    SpacedApart(Slots(interval, start, arrivals), interval, i, j);
  }

  /** Among all schedules that serve the arrivals in order with this spacing, each call's slot is the earliest. */
  lemma {:induction false} SlotsAreEarliest(interval: nat, start: nat, arrivals: seq<nat>, other: seq<nat>, i: nat)
    requires Serves(other, start, arrivals) && Spaced(other, interval) && i < |arrivals|
    ensures Slots(interval, start, arrivals)[i] <= other[i]
    decreases |arrivals|
  {
    var n := |arrivals| - 1;
    SlotsSpaced(interval, start, arrivals[..n]);
    if n > 0 {
      SlotsAreEarliest(interval, start, arrivals[..n], other[..n], Min(i, n - 1));
    }
  }

  /** The clock never goes back, and started before the first arrival. */
  ghost predicate Forward(start: nat, arrivals: seq<nat>) {
    && (forall i :: 0 <= i < |arrivals| ==> start <= arrivals[i])
    && (forall i, j :: 0 <= i < j < |arrivals| ==> arrivals[i] <= arrivals[j])
  }

  /** Without an interval, an arrival that is not in the past gets its own time. */
  lemma OwnTime(interval: nat, start: nat, before: seq<nat>, arrival: nat)
    requires interval == 0 && Forward(start, before + [arrival]) && Slots(interval, start, before) == before
    ensures Slots(interval, start, before + [arrival]) == before + [arrival]
  {
    var all := before + [arrival];
    SlotsSpaced(interval, start, before);
    DropLast(before, arrival);
    assert Next(interval, start, before) == if before == [] then start else all[|before| - 1];
  }

  lemma ForwardBefore(start: nat, arrivals: seq<nat>, n: nat)
    requires Forward(start, arrivals) && |arrivals| == n + 1
    ensures Forward(start, arrivals[..n]) && arrivals == arrivals[..n] + [arrivals[n]]
  {
  }

  lemma {:induction false} OwnTimes(interval: nat, start: nat, arrivals: seq<nat>)
    requires interval == 0 && Forward(start, arrivals)
    ensures Slots(interval, start, arrivals) == arrivals
    decreases |arrivals|
  {
    if arrivals != [] {
      var n := |arrivals| - 1;
      ForwardBefore(start, arrivals, n);
      OwnTimes(interval, start, arrivals[..n]);
      OwnTime(interval, start, arrivals[..n], arrivals[n]);
    }
  }

  /** On such a clock a pacer without an interval never makes anyone wait. */
  lemma DisabledNeverWaits(start: nat, arrivals: seq<nat>)
    requires Forward(start, arrivals)
    ensures Slots(MinInterval(0), start, arrivals) == arrivals
  {
    OwnTimes(MinInterval(0), start, arrivals);
  }

  // ------------------------------------------------------------ windows

  /** How many slots fall in the half-open window from `lo` to `hi`. */
  function Count(slots: seq<nat>, lo: nat, hi: nat): nat {
    if slots == [] then 0
    else Count(slots[..|slots| - 1], lo, hi) + if lo <= slots[|slots| - 1] < hi then 1 else 0
  }

  /** How many calls of a run fall in a window of this width. */
  function InWindow(interval: nat, start: nat, arrivals: seq<nat>, lo: nat, width: nat): nat {
    Count(Slots(interval, start, arrivals), lo, lo + width)
  }

  lemma OneMore(k: nat, interval: nat)
    requires k > 0
    ensures k * interval == (k - 1) * interval + interval
  {
  }

  /** The last of several slots in a window lies that many intervals in. */
  lemma {:induction false} LastInWindow(slots: seq<nat>, interval: nat, lo: nat, hi: nat) returns (j: nat)
    requires Spaced(slots, interval) && Count(slots, lo, hi) > 0
    ensures j < |slots| && lo + (Count(slots, lo, hi) - 1) * interval <= slots[j] < hi
    decreases |slots|
  {
    var n := |slots| - 1;
    var fewer := slots[..n];
    var before := Count(fewer, lo, hi);
    j := n;
    if before > 0 {
      j := LastInWindow(fewer, interval, lo, hi);
      if lo <= slots[n] < hi {
        SpacedApart(slots, interval, j, n);
        OneMore(before, interval);
        j := n;
      }
    }
  }

  function CeilDiv(a: nat, b: nat): nat
    requires b > 0
  {
    (a + b - 1) / b
  }

  /** Positions counted in intervals keep their order. */
  lemma MultiplesOrdered(a: int, b: int, interval: nat)
    requires a <= b
    ensures a * interval <= b * interval
  {
  }

  lemma CeilCovers(width: nat, interval: nat)
    requires interval > 0
    ensures var c := CeilDiv(width, interval);
            (c - 1) * interval < width <= c * interval
  {
    var sum := width + interval - 1;
    var c := CeilDiv(width, interval);
    var rest := sum % interval;
    assert sum == c * interval + rest;
    assert (c - 1) * interval == c * interval - interval;
  }

  /** The quotient rounded up is the least count whose intervals cover the window. */
  lemma CeilBound(k: nat, width: nat, interval: nat)
    requires interval > 0
    ensures k <= CeilDiv(width, interval) <==> k == 0 || (k - 1) * interval < width
  {
    var c := CeilDiv(width, interval);
    CeilCovers(width, interval);
    if 0 < k <= c {
      MultiplesOrdered(k - 1, c - 1, interval);
    } else if k > c {
      MultiplesOrdered(c, k - 1, interval);
    }
  }

  /** A window of any width holds at most width over interval slots, rounded up. */
  lemma WindowBound(interval: nat, start: nat, arrivals: seq<nat>, lo: nat, width: nat)
    requires interval > 0
    ensures InWindow(interval, start, arrivals, lo, width) <= CeilDiv(width, interval)
  {
    SlotsSpaced(interval, start, arrivals);
    SpacedBound(Slots(interval, start, arrivals), interval, lo, width);
  }

  lemma SpacedBound(slots: seq<nat>, interval: nat, lo: nat, width: nat)
    requires interval > 0 && Spaced(slots, interval)
    ensures Count(slots, lo, lo + width) <= CeilDiv(width, interval)
  {
    var k := Count(slots, lo, lo + width);
    CeilBound(k, width, interval);
    if k > 0 {
      var j := LastInWindow(slots, interval, lo, lo + width);
    }
  }

  // ------------------------------------------------------------ the configured rate

  /** No second of any run holds more calls than configured. */
  ghost predicate HonoursRate(maxPerSecond: nat) {
    forall start: nat, arrivals: seq<nat>, lo: nat :: InWindow(MinInterval(maxPerSecond), start, arrivals, lo, SECOND) <= maxPerSecond
  }

  function Burst(n: nat): seq<nat> {
    seq(n, _ => 0)
  }

  lemma BurstPrefix(n: nat)
    requires n > 0
    ensures Burst(n)[..n - 1] == Burst(n - 1) && Burst(n)[n - 1] == 0
  {
  }

  /** A burst of simultaneous calls fills a second to the last slot. */
  lemma {:induction false} BurstFills(interval: nat, n: nat)
    requires n == 0 || (n - 1) * interval < SECOND
    ensures Count(Slots(interval, 0, Burst(n)), 0, SECOND) == n && Next(interval, 0, Burst(n)) == n * interval
  {
    if n > 0 {
      BurstPrefix(n);
      assert (n - 1) * interval + interval == n * interval;
      assert n > 1 ==> (n - 2) * interval + interval == (n - 1) * interval;
      BurstFills(interval, n - 1);
      CountNext(interval, 0, Burst(n), 0, SECOND);
    }
  }

  /** One more arrival adds its own slot to the count. */
  lemma CountNext(interval: nat, start: nat, arrivals: seq<nat>, lo: nat, hi: nat)
    requires arrivals != []
    ensures var n := |arrivals| - 1;
            var slot := Max(Next(interval, start, arrivals[..n]), arrivals[n]);
            Count(Slots(interval, start, arrivals), lo, hi) == Count(Slots(interval, start, arrivals[..n]), lo, hi) + if lo <= slot < hi then 1 else 0
  {
    var n := |arrivals| - 1;
    assert Slots(interval, start, arrivals)[..n] == Slots(interval, start, arrivals[..n]);
  }

  /**
   * The configured rate is a bound on every second exactly when it divides a second evenly or
   * the one-millisecond floor applies: the interval is rounded down, so any other rate lets a
   * burst of one call more through.
   */
  lemma RateHonouredExactly(maxPerSecond: nat)
    requires maxPerSecond > 0
    ensures HonoursRate(maxPerSecond) <==> SECOND % maxPerSecond == 0 || maxPerSecond >= 1000
  {
    var interval := MinInterval(maxPerSecond);
    IntervalOf(maxPerSecond);
    if SECOND % maxPerSecond == 0 || maxPerSecond >= 1000 {
      forall start: nat, arrivals: seq<nat>, lo: nat
        ensures InWindow(interval, start, arrivals, lo, SECOND) <= maxPerSecond
      {
        WindowBound(interval, start, arrivals, lo, SECOND);
        CeilBound(maxPerSecond + 1, SECOND, interval);
      }
    } else {
      BurstFills(interval, maxPerSecond + 1);
      assert InWindow(interval, 0, Burst(maxPerSecond + 1), 0, SECOND) > maxPerSecond;
    }
  }

  lemma CancelFactor(a: nat, b: nat, c: nat)
    requires a * c < b * c
    ensures a < b
  {
    assert b <= a ==> b * c <= a * c;
  }

  /** When the rate's intervals cover a second. */
  lemma IntervalOf(maxPerSecond: nat)
    requires maxPerSecond > 0
    ensures MinInterval(maxPerSecond) > 0
    ensures maxPerSecond * MinInterval(maxPerSecond) >= SECOND <==> SECOND % maxPerSecond == 0 || maxPerSecond >= 1000
    ensures (maxPerSecond + 1) * MinInterval(maxPerSecond) >= SECOND
  {
    var q := SECOND / maxPerSecond;
    assert q * maxPerSecond + SECOND % maxPerSecond == SECOND;
    var interval := MinInterval(maxPerSecond);
    if maxPerSecond >= 1000 {
      assert maxPerSecond * interval >= 1000 * interval;
      assert (maxPerSecond + 1) * interval >= 1000 * interval;
    } else {
      assert MILLISECOND * maxPerSecond <= SECOND < (q + 1) * maxPerSecond;
      CancelFactor(MILLISECOND, q + 1, maxPerSecond);
      assert interval == q && maxPerSecond * interval == q * maxPerSecond;
      assert (maxPerSecond + 1) * interval == q * maxPerSecond + q;
    }
  }

  /** Even then, a second never holds more than one call too many. */
  lemma AtMostOneOver(maxPerSecond: nat, start: nat, arrivals: seq<nat>, lo: nat)
    requires maxPerSecond > 0
    ensures InWindow(MinInterval(maxPerSecond), start, arrivals, lo, SECOND) <= maxPerSecond + 1
  {
    IntervalOf(maxPerSecond);
    WindowBound(MinInterval(maxPerSecond), start, arrivals, lo, SECOND);
    CeilBound(maxPerSecond + 2, SECOND, MinInterval(maxPerSecond));
  }
}
