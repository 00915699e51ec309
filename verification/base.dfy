/** Optional and fallible values shared by every module of the model. */
module Base {

  /** A value that may be missing; pandas' NaN marker in a text column becomes `None`. */
  datatype Option<+T> = None | Some(value: T)

  /** The outcome of a step that either produces a value or raises. */
  datatype Result<+T, +E> = Ok(value: T) | Err(error: E)

  function Min(a: int, b: int): int
  {
    if a <= b then a else b
  }

  /** Ceiling division for a positive divisor, as `math.ceil(n / k)` on natural numbers. */
  function CeilDiv(n: nat, k: nat): nat
    requires k > 0
  {
    (n + k - 1) / k
  }
}
