/** Failure-compatible wrappers shared by every module of the model. */
module Wrappers {

  /** A value that may be absent (Python's `Optional[T]`, `None` standing for `None`). */
  datatype Option<+T> = None | Some(value: T) {

    /** The value, or `default` when there is none. */
    function GetOr(default: T): T {
      match this
      case Some(v) => v
      case None => default
    }
  }

  /** The outcome of a step that either yields a value or raises with an error value. */
  datatype Result<+R, +E> = Success(value: R) | Failure(error: E) {

    function ToOption(): Option<R> {
      match this
      case Success(v) => Some(v)
      case Failure(_) => None
    }

    /** The three members that let `:-` stop at the first failing step. */
    predicate IsFailure() {
      Failure?
    }

    function PropagateFailure<U>(): Result<U, E>
      requires Failure?
    {
      Failure(error)
    }

    function Extract(): R
      requires Success?
    {
      value
    }
  }

  /** What a dictionary key, an object attribute or a keyword argument can hold in the
      source: it may be missing altogether, present with the value `None`, or present
      with a value. Python code tells the first two apart (`dict.get(k, default)` and
      `hasattr` only see the first; a Pydantic default only fills the first). */
  datatype Field<+T> = Absent | Null | Present(value: T) {

    /** `dict.get(key, default)` / a keyword default: the default fills only a missing key;
        an explicit `None` stays `None`. */
    function Get(default: T): Option<T> {
      match this
      case Absent => Some(default)
      case Null => None
      case Present(v) => Some(v)
    }

    /** `getattr(x, name, None)` / `x.name if hasattr(x, name) else None`: missing and
        `None` read the same. */
    function AsOption(): Option<T> {
      match this
      case Present(v) => Some(v)
      case _ => None
    }
  }
}
