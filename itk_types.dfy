/** Small value types shared by the filters: the C++ `unsigned int` and an
    optional value standing for a smart pointer that may be null. */
module ItkTypes {

  const U32_LIMIT: int := 0x1_0000_0000

  /** A 32-bit `unsigned int`. */
  newtype u32 = x: int | 0 <= x < U32_LIMIT

  /** A possibly-null reference or an unset slot. */
  datatype Option<T> = None | Some(value: T)
}
