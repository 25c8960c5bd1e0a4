/** Values shared by every part of the adapter: the scalars a record field can
    hold once serialised, the errors the adapter raises, and Option/Result. */
module Values {

  datatype Option<+T> = None | Some(value: T)

  datatype Result<+T> = Ok(value: T) | Err(error: Error)

  /** The Python exceptions the adapter can raise on its own. */
  datatype Error =
    | AttributeError          // `getattr(model, key)` on a key the record lacks
    | TypeError               // `timestamp_mult * None`
    | ValueError(msg: string) // configuration errors raised explicitly

  /** A serialised leaf value. `Real` is an exact rational: floating-point
      rounding is not modelled. */
  datatype Scalar =
    | Int(i: int)
    | Real(r: real)
    | Bool(b: bool)
    | Str(s: string)
    | Null

  /** Python's truthiness of an optional integer argument: `None` and `0` are false. */
  predicate Truthy(x: Option<int>) {
    x.Some? && x.value != 0
  }
}
