/** The clock arithmetic behind the socket stream's deadline, for a clock that
    counts nanoseconds in 64 bits. */
module ChronoTimeTraits {
  import opened MachineIntegers

  const NANOSECONDS_PER_MILLISECOND := 1_000_000

  function Clamp(x: int): Int64 {
    if x > INT64_MAX then INT64_MAX else if x < INT64_MIN then INT64_MIN else x
  }

  /** `chrono_time_traits::subtract`. Every intermediate value is an `Int64`. */
  function Subtract(t1: Int64, t2: Int64): Int64 {
    if t1 >= 0 then
      if t2 >= 0 then t1 - t2
      else if t2 == INT64_MIN then INT64_MAX
      else
        var headroom: Int64 := INT64_MAX - t1;
        var below: Int64 := 0 - t2;
        if headroom < below then INT64_MAX else t1 - t2
    else
      if t2 < 0 then t1 - t2
      else if t1 == INT64_MIN then INT64_MIN
      else
        var headroom: Int64 := INT64_MAX - t2;
        var below: Int64 := 0 - t1;
        if headroom < below then INT64_MIN
        else var forward: Int64 := t2 - t1; -forward
  }

  /** `chrono_time_traits::add`. */
  function Add(t: Int64, d: Int64): Int64 {
    if t >= 0 then
      var headroom: Int64 := INT64_MAX - t;
      if headroom < d then INT64_MAX else t + d
    else
      var height: Int64 := t - INT64_MIN;
      if -height > d then INT64_MIN else t + d
  }

  /** Both saturate at the ends of the range and are exact inside it. */
  lemma ArithmeticSaturates(t1: Int64, t2: Int64)
    ensures Subtract(t1, t2) == Clamp(t1 - t2)
    ensures Add(t1, t2) == Clamp(t1 + t2)
  {
  }

  /** Integer division as C++ does it, towards zero. */
  function TotalMilliseconds(ticks: Int64): int {
    var t: int := ticks;
    if t >= 0 then t / NANOSECONDS_PER_MILLISECOND else -((-t) / NANOSECONDS_PER_MILLISECOND)
  }

  /** `timeout()`: what the socket stream passes to `poll`. */
  function Timeout(expiry: Int64, now: Int64): int {
    var msec := TotalMilliseconds(Subtract(expiry, now));
    if msec > INT_MAX then INT_MAX else if msec < 0 then 0 else msec
  }

  /** The wait fits an `int`, is never negative (which would mean forever) and
      never exceeds what remains until the deadline; unless it was cut to the
      largest `int` it is short of that by less than a millisecond. */
  ghost predicate WaitsForDeadline(wait: int, expiry: Int64, now: Int64) {
    && 0 <= wait <= INT_MAX
    && wait * NANOSECONDS_PER_MILLISECOND <= Max(0, expiry - now)
    && (wait < INT_MAX ==> Max(0, expiry - now) < (wait + 1) * NANOSECONDS_PER_MILLISECOND)
  }

  lemma TimeoutWaitsForDeadline(expiry: Int64, now: Int64)
    ensures WaitsForDeadline(Timeout(expiry, now), expiry, now)
  {
    ArithmeticSaturates(expiry, now);
  }
}
