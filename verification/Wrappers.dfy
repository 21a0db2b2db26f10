/** Result and option types used for the source's error returns, and the 64-bit bound. */
module Wrappers {

  datatype Option<+T> = None | Some(value: T)

  datatype Result<+T, +E> = Ok(value: T) | Err(error: E)

  const MAX_UINT64: int := 0xFFFF_FFFF_FFFF_FFFF

  /** Every balance, nonce, fee, stake and price of the source is a `uint64`.
      Arithmetic is done on `int`, so a missing overflow guard does not verify. */
  type uint64 = n: int | 0 <= n <= MAX_UINT64
}
