/** Machine integers of the three code bases, the two wrapper types and two functions used throughout. */
module Prelude {

  const POW64: int := 0x1_0000_0000_0000_0000
  const POW160: int := 0x1_0000000000_0000000000_0000000000_0000000000
  const POW256: int := 0x1_0000000000000000_0000000000000000_0000000000000000_0000000000000000

  type uint8 = x: int | 0 <= x < 0x100
  type int8 = x: int | -0x80 <= x < 0x80
  type uint64 = x: int | 0 <= x < POW64
  type uint256 = x: int | 0 <= x < POW256
  type Address = x: int | 0 <= x < POW160

  /** Solidity's address(0), which a mapping returns for a key that was never written. */
  const ZERO_ADDRESS: Address := 0

  datatype Option<+T> = None | Some(value: T)

  datatype Result<+T, +E> = Success(value: T) | Failure(error: E)

  function Repeat<T>(x: T, n: nat): (s: seq<T>)
    ensures |s| == n && forall i | 0 <= i < n :: s[i] == x
  {
    seq(n, _ => x)
  }

  function Pow2(n: nat): (p: nat)
    ensures p > 0
  {
    if n == 0 then 1 else 2 * Pow2(n - 1)
  }
}
