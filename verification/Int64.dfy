/** Two's-complement 64-bit integers, as Go's int64 and Rust's i64 have them. */
module Int64 {
  import opened Wrappers

  const TWO_63: int := 0x8000_0000_0000_0000
  const TWO_64: int := 0x1_0000_0000_0000_0000

  type int64 = x: int | -TWO_63 <= x < TWO_63

  const MIN: int64 := -TWO_63
  const MAX: int64 := TWO_63 - 1

  predicate Fits(x: int) {
    -TWO_63 <= x < TWO_63
  }

  /** Wrap-around arithmetic: the representative of x modulo 2^64 in the int64 range. */
  function Wrap(x: int): int64 {
    (x + TWO_63) % TWO_64 - TWO_63
  }

  /** Rust's checked_add. */
  function CheckedAdd(a: int64, b: int64): Option<int64> {
    if Fits(a + b) then Some(a + b) else None
  }

  /** Go's conversion uint64(v). */
  function ToUint64(v: int64): (n: nat)
    ensures n < TWO_64
  {
    if v < 0 then v + TWO_64 else v
  }

  /** Go's conversion int64(n). */
  function FromUint64(n: nat): (v: int64)
    requires n < TWO_64
    ensures ToUint64(v) == n
  {
    if n < TWO_63 then n else n - TWO_64
  }

  /** Wrapping keeps the value modulo 2^64, and leaves what fits alone. */
  lemma WrapIsModular(x: int)
    ensures (Wrap(x) - x) % 0x1_0000_0000_0000_0000 == 0
    ensures -0x8000_0000_0000_0000 <= x < 0x8000_0000_0000_0000 ==> Wrap(x) == x
  {
    assert Wrap(x) - x == 0 - (x + TWO_63) / TWO_64 * TWO_64;
    Multiple((x + TWO_63) / TWO_64);
  }

  lemma Multiple(q: int)
    ensures (0 - q * TWO_64) % TWO_64 == 0
  {
    assert 0 - q * TWO_64 == (0 - q) * TWO_64;
  }

  /** Two's complement: the unsigned value is the signed one modulo 2^64. */
  lemma TwosComplement(v: int64)
    ensures 0 <= ToUint64(v) < 0x1_0000_0000_0000_0000
    ensures ToUint64(v) == v || ToUint64(v) == v + 0x1_0000_0000_0000_0000
  {
  }
}
