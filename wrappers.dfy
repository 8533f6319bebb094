/** Option and Result, the two failure-carrying types the model needs. */
module Wrappers {

  datatype Option<+T> = None | Some(value: T)

  /** A Rust `anyhow::Result`: a value, or an error carrying its message text. */
  datatype Result<+T> = Ok(value: T) | Err(msg: string)

  function Max(a: int, b: int): int { if a >= b then a else b }

  function Min(a: int, b: int): int { if a <= b then a else b }

  /** Rust's `usize::saturating_sub`. */
  function SatSub(a: nat, b: nat): nat { if a >= b then a - b else 0 }
}
