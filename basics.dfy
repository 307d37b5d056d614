/** Small value types shared by every stage of the pipeline. */
module Basics {

  /** An optional value; Python's `None` is `None` here. */
  datatype Option<+T> = None | Some(value: T)

  /** The outcome of a step that may raise: the value, or the error it raised. */
  datatype Result<+R, +E> = Success(value: R) | Failure(error: E)

  /** What a configuration dictionary holds under one key: the key is absent,
      it is present with the YAML null value, or it holds a value. */
  datatype Entry<+T> = Absent | Null | Given(value: T)

  /** Python's `d.get(key, default)` on an entry: absent falls back to the default. */
  function GetOr<T>(e: Entry<T>, default: T): Option<T>
  {
    match e
    case Absent => Some(default)
    case Null => None
    case Given(v) => Some(v)
  }

  /** `o` when present, else `default`. */
  function OrDefault<T>(o: Option<T>, default: T): T
  {
    match o
    case None => default
    case Some(v) => v
  }
}
