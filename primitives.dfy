/** Rust primitive types and the `Option` the lookups return. */
module Primitives {

  /** Rust's `u32`: every width in the source has this type. */
  newtype u32 = x: int | 0 <= x < 0x1_0000_0000

  /** Rust's `i32`: the type of a penalty value. */
  newtype i32 = x: int | -0x8000_0000 <= x < 0x8000_0000

  /** Rust's `Option`, as returned by a lookup in a static table. */
  datatype Option<+T> = None | Some(value: T)
}
