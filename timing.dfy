/** The timing helpers both control loops share: wrap-around `uint32_t` subtraction,
    the interval gates, the relay timer test and the scheduled inference window. */
module Timing {
  import opened Common
  import opened Rtc

  /** Sensor sampling interval of both loops, in milliseconds. */
  const SAMPLE_INTERVAL_MS: u32 := 5000
  /** Display refresh interval of both loops, in milliseconds. */
  const DISPLAY_INTERVAL_MS: u32 := 1000

  /** `a - b` on `uint32_t`: the difference modulo 2^32. */
  function Sub32(a: u32, b: u32): (r: u32)
    ensures a >= b ==> r == a - b
    ensures a < b ==> r == a - b + TWO_POW_32
  {
    (a - b) % TWO_POW_32
  }

  /** `a + k` on `uint32_t`: a counter that has advanced by `k` ticks. */
  function Add32(a: u32, k: nat): (r: u32)
    ensures a + k < TWO_POW_32 ==> r == a + k
  {
    (a + k) % TWO_POW_32
  }

  /** A counter that advanced by fewer than 2^32 ticks reads back exactly that many
      ticks through wrap-around subtraction, whether or not it wrapped. */
  lemma ElapsedAfterAdvance(start: u32, k: nat)
    requires k < TWO_POW_32
    ensures Sub32(Add32(start, k), start) == k
  {
    if start + k >= TWO_POW_32 {
      assert Add32(start, k) == start + k - TWO_POW_32;
    }
  }

  /** The `t_now - t_last >= interval` test that gates sampling and display. */
  predicate GateOpen(now: u32, last: u32, interval: u32) {
    Sub32(now, last) >= interval
  }

  /** A gate that was reset at `last` is open exactly when `interval` or more ticks have
      passed since, across the wrap of the counter too. */
  lemma GateOpensAfterInterval(last: u32, k: nat, interval: u32)
    requires k < TWO_POW_32
    ensures GateOpen(Add32(last, k), last, interval) <==> k >= interval
  {
    ElapsedAfterAdvance(last, k);
  }

  /** The relay timer test `now - start <= limit`. */
  predicate TimerOn(start: u32, now: u32, limit: u32) {
    Sub32(now, start) <= limit
  }

  /** The relay timer holds for the arming tick and the `limit` ticks after it, and
      lapses exactly at tick `limit + 1`. */
  lemma TimerLapsesAtLimit(start: u32, k: nat, limit: u32)
    requires k < TWO_POW_32
    ensures TimerOn(start, Add32(start, k), limit) <==> k <= limit
  {
    ElapsedAfterAdvance(start, k);
  }

  /** The scheduled inference window: an odd hour from 7 to 15, minute 0, and second 0 to 5
      of that minute (6 seconds), or 0 to 10 (11 seconds) once a sensor read has succeeded. */
  predicate InWindow(t: Time, statusOk: bool) {
    t.hour >= 7 && t.hour <= 15 && t.hour % 2 == 1
    && t.min <= 0
    && t.sec <= 5 + (if statusOk then 5 else 0)
  }

  /** The window opens at 07:00, 09:00, 11:00, 13:00 and 15:00 and at no other hour. */
  lemma WindowHours(t: Time, statusOk: bool)
    ensures InWindow(t, statusOk) <==>
      t.hour in {7, 9, 11, 13, 15} && t.min == 0 && t.sec <= (if statusOk then 10 else 5)
  {
    if 7 <= t.hour <= 15 && t.hour % 2 == 1 {
      assert t.hour == 7 || t.hour == 9 || t.hour == 11 || t.hour == 13 || t.hour == 15;
    }
  }

  /** A failed first read only narrows the window: every instant in the narrow window is
      also in the wide one. */
  lemma WindowWidens(t: Time)
    ensures InWindow(t, false) ==> InWindow(t, true)
  {
  }
}
