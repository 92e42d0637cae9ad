/** Failure-compatible wrappers and the exceptions the retrieval pipeline can raise. */
module Errors {

  datatype Option<+T> = None | Some(value: T)

  /** The Python exceptions that escape the modelled functions, one constructor per raise site. */
  datatype Error =
    | NoFeatures                      // IndexError: `features[0]` of an empty bulk response
    | MissingColumns(names: set<string>)  // KeyError: a column selection names absent columns
    | NotText                         // TypeError: `str.join` meets a value that is not a string
    | ScalarsNeedIndex                // ValueError: `DataFrame(dict)` whose values are all scalars
    | LengthMismatch                  // ValueError: `DataFrame(dict)` whose lists differ in length
    | NothingToConcatenate            // ValueError: `concat([])`
    | NoSuchMethod(name: string)      // AttributeError: `set` has no attribute `up`

  datatype Result<+T> = Success(value: T) | Failure(error: Error) {
    predicate IsFailure() { Failure? }

    function PropagateFailure<U>(): Result<U>
      requires Failure?
    {
      Failure(error)
    }

    function Extract(): T
      requires Success?
    {
      value
    }
  }
}
