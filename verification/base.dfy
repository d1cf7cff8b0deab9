/** Small value types shared by every module of the model.

    - `Option<T>` stands for a TypeScript `T | null` (or an optional property).
    - `Attempt<T>` stands for the settled outcome of a promise whose
      rejection the caller catches: it either returned a value or threw.
    - `LookupOr` is the `table[key] || default` idiom on a record of arrays
      or objects (values there are always truthy).
 */
module Base {

  datatype Option<+T> = None | Some(value: T) {

    /** The wrapped value, or `default` when there is none (`x ?? default`). */
    function GetOr(default: T): T
    {
      match this
      case Some(v) => v
      case None => default
    }
  }

  /** The outcome of awaiting an asynchronous call. */
  datatype Attempt<+T> = Returned(value: T) | Threw

  /** Keyed lookup that falls back to `default` for an absent key. */
  function LookupOr<K, V>(table: map<K, V>, key: K, default: V): (r: V)
    ensures key in table ==> r == table[key]
    ensures key !in table ==> r == default
  {
    if key in table then table[key] else default
  }
}
