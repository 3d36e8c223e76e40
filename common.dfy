/** Shared value types: the Rust integer widths the core relies on, and
    the Option/Result shapes used for its error paths. */
module Common {

  datatype Option<T> = None | Some(value: T)

  datatype Result<T, E> = Ok(value: T) | Err(error: E)

  const U64_LIMIT: int := 0x1_0000_0000_0000_0000
  const I64_MIN: int := -0x8000_0000_0000_0000
  const I64_LIMIT: int := 0x8000_0000_0000_0000

  /** Rust `u8`. */
  type U8 = x: int | 0 <= x < 256

  /** Rust `u32`. */
  type U32 = x: int | 0 <= x < 0x1_0000_0000

  /** Rust `u64`. */
  type U64 = x: int | 0 <= x < U64_LIMIT

  /** Rust `i64`. */
  type I64 = x: int | I64_MIN <= x < I64_LIMIT

  /** Rust `u8::abs_diff`. */
  function AbsDiff(a: U8, b: U8): (d: U8)
    ensures d == a - b || d == b - a
    ensures a - b <= d && b - a <= d
  {
    if a < b then b - a else a - b
  }
}
