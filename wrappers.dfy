/** Small value types shared by every module: optional values, Rust-style
    results, and the fixed-width integers that cross the C boundary. */
module Wrappers {

  /** A value that may be absent; also stands for a nullable C pointer. */
  datatype Option<+T> = None | Some(value: T)

  /** The outcome of a Rust expression of type `Result<T, E>`. */
  datatype Result<+T, +E> = Ok(value: T) | Err(error: E)

  /** `uint64_t`: the value type of a map. */
  type U64 = x: int | 0 <= x < 0x1_0000_0000_0000_0000

  /** `uint32_t`: the maximum edit distance of a fuzzy search. */
  type U32 = x: int | 0 <= x < 0x1_0000_0000
}
