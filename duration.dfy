/** Go's 64-bit integers and `time.Duration` arithmetic. A Duration
    is an int64 count of nanoseconds, and multiplying two of them wraps
    around modulo 2^64. */
module GoTime {

  const Two63: int := 0x8000_0000_0000_0000
  const Two64: int := 0x1_0000_0000_0000_0000

  /** Go's int and int64 (the platform int is 64 bits wide). */
  type Int64 = x: int | -0x8000_0000_0000_0000 <= x < 0x8000_0000_0000_0000

  /** Go's uint64, the type of the hash ids. */
  type UInt64 = x: int | 0 <= x < 0x1_0000_0000_0000_0000

  /** time.Second, in nanoseconds. */
  const Second: int := 1_000_000_000

  /** Two's-complement truncation of x to 64 bits. */
  function Wrap64(x: int): (r: Int64)
    ensures (x - r) % Two64 == 0
  {
    (x + Two63) % Two64 - Two63
  }

  /** Wrapping leaves a value that fits unchanged. */
  lemma Wrap64Fits(x: int)
    requires -Two63 <= x < Two63
    ensures Wrap64(x) == x
  {
  }

  /** time.Duration(n) * time.Second, wrapping on overflow. */
  function Seconds(n: Int64): Int64
  {
    Wrap64(n * Second)
  }
}
