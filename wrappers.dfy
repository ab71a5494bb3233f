/** Small result types shared by the other modules. */
module Wrappers {

  /** Python's `None` versus a present value. */
  datatype Option<+T> = None | Some(value: T)

  /** The exceptions a modelled Python operation can raise on its own. */
  datatype PyException =
    | AssertionError   // an `assert` statement failed
    | IndexError       // a list was indexed past its end
    | AttributeError   // an attribute was read from `None`
    | TypeError        // `None` was used as an integer
    | ValueError       // a protocol position was built with a negative field

  /** The outcome of an operation that either returns normally or raises. */
  datatype Result<+T> = Returns(value: T) | Raises(exception: PyException)
}
