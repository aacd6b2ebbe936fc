/** Shared value types of the FlexLoader model. */
module Base {

  /** An optional value, standing for a nullable reference or `Nullable<T>`. */
  datatype Option<+T> = None | Some(value: T) {
    /** The wrapped value, or `default` when absent (the `??` operator). */
    function GetOr(default: T): T {
      match this
      case Some(v) => v
      case None => default
    }
  }

  /** `TimeSpan.MaxValue.Ticks`, i.e. `long.MaxValue`. */
  const MaxTicks: int := 0x7FFF_FFFF_FFFF_FFFF

  /** Ticks per second (one tick is 100 nanoseconds). */
  const TicksPerSecond: int := 10_000_000

  /** A non-negative `TimeSpan`, counted in ticks. */
  type Ticks = t: int | 0 <= t <= MaxTicks

  /** Bounds of the source's 32-bit `int`. */
  const Int32Min: int := -0x8000_0000
  const Int32Max: int := 0x7FFF_FFFF

  type Int32 = x: int | Int32Min <= x <= Int32Max

  /** `x + 1` in 32-bit two's complement arithmetic: `int.MaxValue` wraps to `int.MinValue`. */
  function WrappingIncrement(x: Int32): (r: Int32)
    ensures x < Int32Max ==> r == x + 1
    ensures x == Int32Max ==> r == Int32Min
  {
    if x == Int32Max then Int32Min else x + 1
  }

  /** A point in time (`DateTime`), counted in ticks; the clock is an input of the model. */
  type Timestamp = int
}
