/** Machine words and byte strings, as the ledger's Rust types have them. */
module Machine {

  const TWO64: int := 0x1_0000_0000_0000_0000
  const TWO32: int := 0x1_0000_0000

  type byte = x: int | 0 <= x < 256
  type u64 = x: int | 0 <= x < TWO64

  /** A Rust `String` or `Vec<u8>`: its bytes (UTF-8 for a string); a length is a machine word. */
  type Bytes = s: seq<byte> | |s| < TWO64

  datatype Option<+T> = None | Some(value: T) {
    predicate IsFailure() { None? }
    function PropagateFailure<U>(): Option<U>
      requires None?
    {
      None
    }
    function Extract(): T
      requires Some?
    {
      value
    }
  }

  datatype Result<+T, +E> = Ok(value: T) | Err(error: E)

  /** `a + b` on u64 in a release build: the sum wraps around. */
  function Add64(a: u64, b: u64): u64 {
    if a + b < TWO64 then a + b else a + b - TWO64
  }

  /** `a - b` on u64 in a release build. */
  function Sub64(a: u64, b: u64): u64 {
    if b <= a then a - b else a - b + TWO64
  }

  /** `a.saturating_sub(b)`. */
  function SatSub(a: u64, b: u64): u64 {
    if b <= a then a - b else 0
  }

  /** `seq` of `n` copies of `b`: Rust's `"…".repeat(n)` on a one-byte string. */
  function Repeat(b: byte, n: nat): seq<byte> {
    seq(n, _ => b)
  }

  function Min(a: int, b: int): int {
    if a <= b then a else b
  }
}
