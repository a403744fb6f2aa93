/** Errors raised by the modelled Python code, and the result of an operation that can raise them. */
module Results {

  /** The Python-level failures the modelled functions can end in. */
  datatype PyError =
    | NameError(name: string)                      // a name that is neither defined nor imported
    | AttributeError(owner: string, attr: string)  // an attribute a module does not have
    | ZeroDivisionError                            // float division by zero under numba's Python error model
    | ValueError(message: string)                  // e.g. a reduction over a zero-size array
    | NonFiniteValues                              // numpy returned inf/NaN cells instead of raising

  datatype Result<+T> = Success(value: T) | Failure(error: PyError)
}
