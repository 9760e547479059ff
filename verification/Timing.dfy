/** Elapsed time between frame timestamps (src/can_signal_event.c, `elaps_ms`). */
module Timing {
  import opened Words

  datatype Time = Time(sec: int, usec: int)

  /** struct timeval, normalised. */
  type TimeVal = t: Time | 0 <= t.usec < 1_000_000 witness Time(0, 0)

  const EPOCH: TimeVal := Time(0, 0)

  /** Truncated to unsigned 32 bits, as the source's cast does. */
  function ElapsMs(before: TimeVal, after: TimeVal): UInt32 {
    ((after.sec - before.sec) * 1000 + (after.usec / 1000 - before.usec / 1000)) % 0x1_0000_0000
  }

  function Us(t: TimeVal): int {
    t.sec * 1_000_000 + t.usec
  }

  /** The clock in whole milliseconds, rounded down. */
  function Ms(t: TimeVal): int {
    Us(t) / 1000
  }

  lemma ElapsIsClockDifference(a: TimeVal, b: TimeVal)
    ensures ElapsMs(a, b) == (Ms(b) - Ms(a)) % 0x1_0000_0000
  {
    assert Ms(a) == a.sec * 1000 + a.usec / 1000;
    assert Ms(b) == b.sec * 1000 + b.usec / 1000;
  }

  /** Without wrap-around the result is the clock difference itself and less than 1 ms off the true time. */
  lemma ElapsWithinOneMs(a: TimeVal, b: TimeVal)
    requires 0 <= Ms(b) - Ms(a) < 0x1_0000_0000
    ensures ElapsMs(a, b) == Ms(b) - Ms(a)
    ensures -1000 < 1000 * ElapsMs(a, b) - (Us(b) - Us(a)) < 1000
  {
    ElapsIsClockDifference(a, b);
  }

  ghost function SumElaps(ts: seq<TimeVal>): nat {
    if |ts| < 2 then 0 else SumElaps(ts[..|ts| - 1]) + ElapsMs(ts[|ts| - 2], ts[|ts| - 1])
  }

  /** Elapsed times telescope over any run of timestamps, even one that goes back or wraps. */
  lemma {:induction false} ElapsTelescopes(ts: seq<TimeVal>)
    requires |ts| > 0
    ensures SumElaps(ts) % 0x1_0000_0000 == ElapsMs(ts[0], ts[|ts| - 1])
  {
    ElapsIsClockDifference(ts[0], ts[|ts| - 1]);
    if |ts| > 1 {
      var n := |ts|;
      ElapsTelescopes(ts[..n - 1]);
      ElapsIsClockDifference(ts[0], ts[n - 2]);
      ElapsIsClockDifference(ts[n - 2], ts[n - 1]);
      AddMod(SumElaps(ts[..n - 1]), Ms(ts[n - 2]) - Ms(ts[0]), Ms(ts[n - 1]) - Ms(ts[n - 2]));
    }
  }

  lemma AddMod(a: int, b: int, c: int)
    requires a % 0x1_0000_0000 == b % 0x1_0000_0000
    ensures (a + c % 0x1_0000_0000) % 0x1_0000_0000 == (b + c) % 0x1_0000_0000
  {
  }
}
