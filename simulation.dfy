/**
 * The timing jitter the data generator adds to its simulated clock, and the
 * empty point a simulator starts from. A `time.Duration` is a signed 64-bit
 * count of nanoseconds; the random draw of `Inaccurate` is its parameter.
 */
module Simulation {
  import opened Common

  const Int64Min: int := -0x8000_0000_0000_0000
  const Int64Max: int := 0x7FFF_FFFF_FFFF_FFFF

  /** A `time.Duration`: nanoseconds held in a Go `int64`. */
  type Duration = x: int | Int64Min <= x <= Int64Max

  const Millisecond: int := 1_000_000
  const Minute: int := 60_000_000_000

  /** The modulus of Go's 64-bit integer arithmetic. */
  const Two64: int := 0x1_0000_0000_0000_0000

  /**
   * Go's `int64` addition, which wraps around: the one `int64` value that
   * differs from the exact sum by a multiple of 2^64.
   */
  function AddInt64(a: Duration, b: Duration): (r: Duration)
    ensures (a + b - r) % Two64 == 0
  {
    var s := a + b;
    if s > Int64Max then s - Two64
    else if s < Int64Min then s + Two64
    else s
  }

  /** Two `int64` values that agree modulo 2^64 are equal, so `AddInt64` is determined by its contract. */
  lemma WrapUnique(x: int, r1: Duration, r2: Duration)
    requires (x - r1) % Two64 == 0 && (x - r2) % Two64 == 0
    ensures r1 == r2
  {
    var q1, q2 := (x - r1) / Two64, (x - r2) / Two64;
    assert x - r1 == Two64 * q1 && x - r2 == Two64 * q2;
    assert r2 - r1 == Two64 * (q1 - q2);
    SmallMultiple(q1 - q2);
  }

  lemma SmallMultiple(k: int)
    requires -Two64 < Two64 * k < Two64
    ensures k == 0
  {
  }

  /** In range, `int64` addition is exact. */
  lemma AddInt64Exact(a: Duration, b: Duration)
    requires Int64Min <= a + b <= Int64Max
    ensures AddInt64(a, b) == a + b
  {
    WrapUnique(a + b, AddInt64(a, b), a + b);
  }

  /** Past the largest `int64`, the sum wraps to the negative end: 2^64 lower. */
  lemma AddInt64Overflow(a: Duration, b: Duration)
    requires a + b > Int64Max
    ensures AddInt64(a, b) == a + b - Two64
  {
    WrapUnique(a + b, AddInt64(a, b), a + b - Two64);
  }

  /**
   * The bound of the random jitter in milliseconds: 1000 for a duration
   * of at least one minute, 100 for a shorter one. `d.Minutes() >= 1`
   * holds exactly when `d` is at least 60e9 ns: the float quotient of a
   * shorter duration stays below 1.
   */
  function MaxDeltaMs(d: Duration): (m: int)
    ensures m == 1000 <==> d >= Minute
    ensures m == 100 <==> d < Minute
  {
    if d >= Minute then 1000 else 100
  }

  /**
   * `Inaccurate(d)` for the draw `deltaMs = rand.Intn(MaxDeltaMs(d))`:
   * `d` plus that many milliseconds, in `int64` arithmetic.
   */
  function Inaccurate(d: Duration, deltaMs: int): (r: Duration)
    requires 0 <= deltaMs < MaxDeltaMs(d)
    ensures d + deltaMs * Millisecond <= Int64Max ==> r - d == deltaMs * Millisecond
    ensures d + deltaMs * Millisecond > Int64Max ==> r < d
  {
    var jitter := deltaMs * Millisecond;
    if d + jitter <= Int64Max then AddInt64Exact(d, jitter); AddInt64(d, jitter)
    else AddInt64Overflow(d, jitter); AddInt64(d, jitter)
  }

  /**
   * Short of wrapping past the largest duration, the result is never
   * earlier than `d`, and later by less than a second for a duration of
   * a minute or more, by less than a tenth of a second otherwise.
   */
  lemma InaccurateBounds(d: Duration, deltaMs: int)
    requires 0 <= deltaMs < MaxDeltaMs(d)
    requires d + deltaMs * Millisecond <= Int64Max
    ensures d <= Inaccurate(d, deltaMs)
    ensures d >= Minute ==> Inaccurate(d, deltaMs) < d + 1_000_000_000
    ensures d < Minute ==> Inaccurate(d, deltaMs) < d + 100_000_000
  {
    JitterBelow(deltaMs, MaxDeltaMs(d));
  }

  lemma JitterBelow(deltaMs: int, maxMs: int)
    requires 0 <= deltaMs < maxMs
    ensures 0 <= deltaMs * Millisecond <= (maxMs - 1) * Millisecond
  {
  }

  /** Short of wrapping, the jitter `Inaccurate` adds is a whole number of milliseconds. */
  lemma WholeMilliseconds(d: Duration, deltaMs: int)
    requires 0 <= deltaMs < MaxDeltaMs(d)
    requires d + deltaMs * Millisecond <= Int64Max
    ensures (Inaccurate(d, deltaMs) - d) % Millisecond == 0
    ensures (Inaccurate(d, deltaMs) - d) / Millisecond == deltaMs
  {
  }

  /** Short of wrapping, different draws give different results: the jitter determines the draw. */
  lemma DrawsDistinct(d: Duration, delta1: int, delta2: int)
    requires 0 <= delta1 < MaxDeltaMs(d) && 0 <= delta2 < MaxDeltaMs(d)
    requires d + delta1 * Millisecond <= Int64Max && d + delta2 * Millisecond <= Int64Max
    requires delta1 != delta2
    ensures Inaccurate(d, delta1) != Inaccurate(d, delta2)
  {
  }

  /**
   * An instant as whole seconds since January 1, year 1, 00:00:00 UTC and
   * the nanoseconds within that second; the zero `time.Time` is that instant.
   */
  datatype Time = Time(seconds: int, nanoseconds: int)

  /**
   * A generated point: measurement name (absent for Go's `nil`), tag keys
   * and values, field keys and values, and timestamp. Field values are
   * Go `interface{}` values; only their number matters here.
   */
  datatype Point = Point(
    measurementName: Option<seq<byte>>,
    tagKeys: seq<seq<byte>>,
    tagValues: seq<seq<byte>>,
    fieldKeys: seq<seq<byte>>,
    fieldValues: seq<FieldValue>,
    timestamp: Time)

  /** A field value of a point (`int64`, `float64`, `string`, … in Go). */
  datatype FieldValue = IntValue(i: int) | TextValue(s: string)

  /** A point ready for a simulator to fill: nothing set and the zero time. */
  function MakeUsablePoint(): (p: Point)
    ensures p.measurementName.None?
    ensures |p.tagKeys| == 0 && |p.tagValues| == 0
    ensures |p.fieldKeys| == 0 && |p.fieldValues| == 0
    ensures p.timestamp == Time(0, 0)
  {
    Point(None, [], [], [], [], Time(0, 0))
  }
}
