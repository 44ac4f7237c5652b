/** Value types shared by both services: optional values, fallible results,
    the fixed-width integers of the Rust servers and their opaque floating-point values. */
module Base {

  datatype Option<+T> = None | Some(value: T) {
    /** The carried value, or `default` when there is none (Rust's `unwrap_or`). */
    function GetOr(default: T): T {
      match this
      case Some(v) => v
      case None => default
    }
  }

  /** Rust's `Result<T, E>`. */
  datatype Result<+T, +E> = Success(value: T) | Failure(error: E)

  /** Rust's `u32`. */
  newtype u32 = x: int | 0 <= x < 0x1_0000_0000

  /** Rust's `u8`. */
  newtype byte = x: int | 0 <= x < 0x100

  /** An `f64`, carried by its IEEE-754 bit pattern; the services never compute on one. */
  datatype F64 = F64(bits: bv64)

  /** Decimal digits of `n`, as `{:?}` prints an integer. */
  function NatToString(n: nat): string
    decreases n
  {
    if n < 10 then [Digit(n)] else NatToString(n / 10) + [Digit(n % 10)]
  }

  function Digit(d: nat): char
    requires d < 10
  {
    ['0', '1', '2', '3', '4', '5', '6', '7', '8', '9'][d]
  }
}
