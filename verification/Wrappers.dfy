/** What the models share: an absent-or-present value (Go's nil pointers, nil slices and nil
    maps), Go's (value, error) pairs, map lookups, and lists without repeats. */
module Wrappers {

  datatype Option<+T> = None | Some(value: T)

  /** The gRPC status codes the package returns on its own account, and the panic of a nil
      dereference, which ends a call without any answer. */
  datatype Status = InvalidArgument | NotFound | AlreadyExists | FailedPrecondition | Panicked

  datatype Result<+T> = Ok(value: T) | Err(status: Status) {
    predicate IsFailure() {
      Err?
    }

    function PropagateFailure<U>(): Result<U>
      requires Err?
    {
      Err(status)
    }

    function Extract(): T
      requires Ok?
    {
      value
    }
  }

  /** What a map has under a key. */
  function Row<K, V>(table: map<K, V>, key: K): Option<V> {
    if key in table then Some(table[key]) else None
  }

  ghost predicate Distinct<T>(s: seq<T>) {
    forall i, j | 0 <= i < j < |s| :: s[i] != s[j]
  }
}
