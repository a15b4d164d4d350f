/** Optional values, results, and the Python exceptions the modelled code raises. */
module Outcomes {

  datatype Option<+T> = None | Some(value: T)

  /** A computation that either yields a value or raises. */
  datatype Result<+T, +E> = Ok(value: T) | Err(error: E)

  /** The exception classes the modelled code can raise. */
  datatype PyError =
    | ValueError         // missing course code, unknown proctor or exam in a sheet
    | TypeError          // comparing a str with False while sorting
    | AttributeError     // `.name` taken of a str, `.split` taken of a missing cell
    | ZeroDivisionError  // floor division by an empty proctor list
    | KeyError           // a block column missing from the constraint sheet

  function Max0(n: int): (r: nat)
    ensures r == n || (n < 0 && r == 0)
  {
    if n < 0 then 0 else n
  }

  /** No element occurs twice. */
  predicate Distinct<T(==)>(s: seq<T>) {
    forall i, j :: 0 <= i < j < |s| ==> s[i] != s[j]
  }
}
