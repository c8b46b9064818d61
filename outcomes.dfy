/** Optional values, Python exceptions and the results of operations that may raise. */
module Outcomes {

  datatype Option<+T> = None | Some(value: T)

  /** The exception classes the request handler tells apart. `ValueError` stands for the
      class and all its subclasses (a JSON decoding error is one); every other class is
      `OtherClass`, carrying its Python name. */
  datatype ExcClass = ValueError | FileNotFoundError | PermissionError | OtherClass(name: string)

  /** A raised exception: its class and `str(e)`. */
  datatype Exc = Exc(cls: ExcClass, message: string)

  /** What a Python call does: it returns a value or raises. */
  datatype Result<+T> = Ok(value: T) | Err(error: Exc) {
    predicate IsFailure()
    {
      Err?
    }

    function PropagateFailure<U>(): Result<U>
      requires Err?
    {
      Err(error)
    }

    function Extract(): T
      requires Ok?
    {
      value
    }
  }

  /** `str(KeyError(key))`: Python quotes the missing key. */
  function KeyError(key: string): Exc
  {
    Exc(OtherClass("KeyError"), "'" + key + "'")
  }
}
