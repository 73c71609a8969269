/** Small shared vocabulary: failure-carrying results and bytes. */
module Common {

  /** An optional value; `None` stands for a Python call that raised. */
  datatype Option<+T> = None | Some(value: T)

  /** A value or the reason it could not be produced. */
  datatype Result<+T, +E> = Ok(value: T) | Err(error: E)

  /** One octet of a CAN payload. */
  type Byte = b: int | 0 <= b < 256

  /** 256 to the power `n`: the number of values that `n` bytes can hold. */
  function Pow256(n: nat): (r: nat)
    ensures r >= 1
  {
    if n == 0 then 1 else 256 * Pow256(n - 1)
  }

  lemma Pow256Values()
    ensures Pow256(1) == 0x100
    ensures Pow256(2) == 0x1_0000
    ensures Pow256(4) == 0x1_0000_0000
  {
  }
}
