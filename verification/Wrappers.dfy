/** Result shapes shared by every component of the model. */
module Wrappers {

  /** A value the source may leave as `None`. */
  datatype Option<+T> = None | Some(value: T)

  /** The source either returns a value or raises; the exception is the error. */
  datatype Result<+T, +E> = Ok(value: T) | Err(error: E)

  function SomeOf<T>(items: seq<T>): seq<Option<T>> {
    seq(|items|, i requires 0 <= i < |items| => Some(items[i]))
  }

  ghost predicate NoDuplicates<T>(items: seq<T>) {
    forall i, j | 0 <= i < j < |items| :: items[i] != items[j]
  }
}
