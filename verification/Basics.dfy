// Small datatypes and arithmetic shared by every component.
module Basics {
  datatype Option<+T> = None | Some(value: T)
  {
    function UnwrapOr(default: T): T {
      if None? then default else value
    }
  }

  datatype Result<+T, +E> = Ok(value: T) | Err(error: E)

  // One octet of a frame. Shifts and masks are written as / and % by powers of two.
  type Octet = x: int | 0 <= x < 256

  type U16 = x: int | 0 <= x < 0x1_0000

  // Two octets, little endian.
  function LeBytes(v: U16): seq<Octet> {
    [v % 256, v / 256]
  }

  function FromLe(lo: Octet, hi: Octet): U16 {
    lo + 256 * hi
  }

  function Bit(b: bool): Octet {
    if b then 1 else 0
  }

  function Min(a: real, b: real): real {
    if a <= b then a else b
  }

  function Max(a: real, b: real): real {
    if a >= b then a else b
  }

  // Rust's f64::clamp, for lo <= hi.
  function Clamp(x: real, lo: real, hi: real): real {
    if x < lo then lo else if x > hi then hi else x
  }

  lemma Divide(a: real, a': real, b: real)
    requires a <= a' && b > 0.0
    ensures a / b <= a' / b
  {
  }
}
