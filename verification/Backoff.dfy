/** The delay between reconnects of the topology watch (`reconnectBackoff`). */
module Backoff {

  const HALF := 0x4000_0000_0000_0000

  /** A Go duration: nanoseconds in 64 signed bits. */
  type Duration = x: int | -2 * HALF <= x < 2 * HALF

  /** `d *= 2`, wrapping around. */
  function Doubled(d: Duration): Duration {
    if d >= HALF then 2 * d - 4 * HALF else if d < -HALF then 2 * d + 4 * HALF else 2 * d
  }

  function NextDelay(initial: Duration, max: Duration, current: Duration): Duration {
    var next := if current == 0 then initial else if current < max then Doubled(current) else current;
    if max > 0 && next > max then max else next
  }

  class ReconnectBackoff {
    const initial: Duration
    const max: Duration
    var current: Duration

    constructor (initial: Duration, max: Duration)
      ensures this.initial == initial && this.max == max && current == 0
    {
      this.initial, this.max, current := initial, max, 0;
    }

    method Next() returns (delay: Duration)
      modifies this`current
      ensures delay == current == NextDelay(initial, max, old(current))
    {
      if current == 0 {
        current := initial;
      } else if current < max {
        current := Doubled(current);
      }
      if max > 0 && current > max {
        current := max;
      }
      delay := current;
    }

    method Reset()
      modifies this`current
      ensures current == 0
    {
      current := 0;
    }
  }

  /** The state after `k` calls of Next since the last Reset, which is also the last delay. */
  function After(initial: Duration, max: Duration, k: nat): Duration {
    if k == 0 then 0 else NextDelay(initial, max, After(initial, max, k - 1))
  }

  function Min(a: int, b: int): int { if a < b then a else b }

  /** The delay doubled `k` times, without a cap and without wrap-around. */
  function Doubling(initial: int, k: nat): (r: int)
    ensures initial >= 0 ==> r >= initial
  {
    if k == 0 then initial else 2 * Doubling(initial, k - 1)
  }

  function Pow2(k: nat): int { if k == 0 then 1 else 2 * Pow2(k - 1) }

  lemma {:induction false} DoublingIsPower(initial: int, k: nat)
    ensures Doubling(initial, k) == initial * Pow2(k)
  {
    if k > 0 { DoublingIsPower(initial, k - 1); }
  }

  /** The doubling of `initial` that the next doubling would overflow. */
  function Peak(initial: int): (r: int)
    requires initial > 0
    decreases HALF - initial
  {
    if initial >= HALF then initial else Peak(2 * initial)
  }

  lemma {:induction false} DoubleFirst(initial: int, k: nat)
    ensures Doubling(2 * initial, k) == Doubling(initial, k + 1)
  {
    if k > 0 { DoubleFirst(initial, k - 1); }
  }

  lemma {:induction false} PeakAt(initial: int) returns (j: nat)
    requires initial > 0
    ensures Peak(initial) == Doubling(initial, j) >= HALF
    ensures forall i: nat :: i < j ==> Doubling(initial, i) < HALF
    decreases HALF - initial
  {
    j := 0;
    if initial < HALF {
      var j' := PeakAt(2 * initial);
      j := j' + 1;
      DoubleFirst(initial, j');
      forall i: nat | i < j ensures Doubling(initial, i) < HALF {
        if i > 0 { DoubleFirst(initial, i - 1); }
      }
    }
  }

  /** The doublings grow, so those at or past the half-way mark are at least the peak. */
  lemma {:induction false} PeakLeast(initial: int, k: nat)
    requires initial > 0
    ensures Doubling(initial, k) < HALF || Doubling(initial, k) >= Peak(initial)
    decreases k
  {
    if initial < HALF && k > 0 {
      DoubleFirst(initial, k - 1);
      PeakLeast(2 * initial, k - 1);
    }
  }

  /** While no doubling has overflowed, the delays are the doublings, capped. */
  lemma {:induction false} ScheduleWhile(initial: Duration, max: Duration, k: nat)
    requires initial > 0 && max > 0
    requires forall i: nat :: i < k ==> Doubling(initial, i) < HALF || max <= Doubling(initial, i)
    ensures After(initial, max, k + 1) == Min(Doubling(initial, k), max)
  {
    if k > 0 { ScheduleWhile(initial, max, k - 1); }
  }

  /** The k-th delay without a message is min(initial * 2^k, max). */
  lemma Schedule(initial: Duration, max: Duration, k: nat)
    requires initial > 0 && 0 < max <= Peak(initial)
    ensures After(initial, max, k + 1) == Min(initial * Pow2(k), max)
  {
    forall i: nat | i < k ensures Doubling(initial, i) < HALF || max <= Doubling(initial, i) { PeakLeast(initial, i); }
    ScheduleWhile(initial, max, k);
    DoublingIsPower(initial, k);
  }

  /** A cap of at most 2^62 keeps the schedule whatever the initial delay. */
  lemma CapBelowPeak(initial: Duration, max: Duration)
    requires initial > 0 && max <= HALF
    ensures max <= Peak(initial)
  {
    var j := PeakAt(initial);
  }

  /** The delays are the capped doublings for ever exactly when the cap does not pass the peak;
      otherwise some delay is negative. */
  lemma ScheduleIff(initial: Duration, max: Duration)
    requires initial > 0 && max > 0
    ensures (forall k: nat :: After(initial, max, k + 1) == Min(initial * Pow2(k), max)) <==> max <= Peak(initial)
    ensures max > Peak(initial) ==> exists k: nat :: After(initial, max, k) < 0
  {
    if max <= Peak(initial) {
      forall k: nat ensures After(initial, max, k + 1) == Min(initial * Pow2(k), max) { Schedule(initial, max, k); }
    } else {
      var j := PeakAt(initial);
      ScheduleWhile(initial, max, j);
      DoublingIsPower(initial, j + 1);
      assert After(initial, max, j + 1 + 1) < 0;
    }
  }

  /** Without a positive cap the delay never grows. */
  lemma {:induction false} UncappedIsConstant(initial: Duration, max: Duration, k: nat)
    requires initial >= 0 >= max
    ensures After(initial, max, k + 1) == initial
  {
    if k > 0 { UncappedIsConstant(initial, max, k - 1); }
  }
}
