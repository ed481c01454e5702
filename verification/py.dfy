/** The few pieces of Python runtime behaviour the model needs: the value `None`,
    the exception kinds the modelled code can raise, and a result that is either a
    value or a raised exception. */
module Py {

  /** `None` or a present value. */
  datatype Option<+T> = None | Some(value: T)

  /** The exceptions the modelled functions can raise.  Every one of them escapes
      the function that raises it; none is caught inside the core except
      `requests.HTTPError` and `StopIteration`, which the driver handles. */
  datatype Exc =
    | KeyError(key: string)   // `d[key]` on a dict without `key`
    | TypeError               // subscripting or iterating a value that does not support it
    | AttributeError          // calling a method (`split`, `rstrip`, `get`) the value lacks
    | IndexError              // `[0]` on an empty list
    | ValueError              // `int(...)` or `Fraction(...)` on a malformed literal
    | ZeroDivisionError       // `Fraction("n/0")`

  /** The outcome of evaluating a Python expression: a value or an escaping exception. */
  datatype Result<+T> = Ok(value: T) | Raised(exc: Exc) {

    /** An exception propagates (`:-` returns it unchanged). */
    predicate IsFailure() {
      Raised?
    }

    function PropagateFailure<U>(): Result<U>
      requires Raised?
    {
      Raised(exc)
    }

    function Extract(): T
      requires Ok?
    {
      value
    }
  }
}
