/** Options, results and the fixed-width counters shared by every component. */
module Prelude {
  datatype Option<+T> = None | Some(value: T) {
    predicate IsFailure() { None? }

    function PropagateFailure<U>(): Option<U>
      requires None?
    {
      None
    }

    function Extract(): T
      requires Some?
    {
      value
    }
  }

  datatype Result<+T, +E> = Ok(value: T) | Err(error: E)

  type U8 = n: int | 0 <= n < 256

  type U16 = n: int | 0 <= n < 65536

  /** `u8::saturating_add(1)`. */
  function SaturatingNext(n: U8): U8 {
    if n < 255 then n + 1 else 255
  }

  /** `u16::saturating_sub`. */
  function SaturatingMinus(a: U16, b: U16): U16 {
    if a >= b then a - b else 0
  }

  /** What a fold of `u16::saturating_add` over non-negative counts produces. */
  function Cap16(n: nat): U16 {
    if n < 65536 then n else 65535
  }

  function Min(a: int, b: int): int {
    if a <= b then a else b
  }

  function Max(a: int, b: int): int {
    if a <= b then b else a
  }
}
