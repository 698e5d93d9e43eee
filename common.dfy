/** Values shared by the feed, the stop catalog and the server state. */
module Common {

  /** A field of a decoded object that may be absent (JavaScript `undefined`). */
  datatype Option<+T> = None | Some(value: T)

  /** The outcome of a step that may throw. */
  datatype Result<+R, +E> = Success(value: R) | Failure(error: E)

  /** A JavaScript number (a coordinate). The model never computes with one:
      coordinates are only copied, so the type is left abstract. */
  type Number(==)

  /** JavaScript truthiness of an optional string: present and non-empty.
      This is what `x || default` tests. */
  predicate Truthy(s: Option<string>)
  {
    s.Some? && s.value != ""
  }

  /** `s || default` for an optional string. */
  function OrDefault(s: Option<string>, default: string): (r: string)
    ensures Truthy(s) ==> r == s.value
    ensures !Truthy(s) ==> r == default
    ensures default != "" ==> r != ""
  {
    if Truthy(s) then s.value else default
  }
}
