/** Small shared vocabulary: Rust's `Option` and the `u64` width used for ids. */
module Base {

  /** Rust's `Option<T>`. */
  datatype Option<+T> = None | Some(value: T)

  /** Rust's `u64`, used for guild and role ids. */
  type u64 = x: int | 0 <= x < 0x1_0000_0000_0000_0000
}
