/**
 * The few JavaScript value semantics the edge worker relies on: a value that
 * may be `undefined`, its truthiness, and the `||` operator on strings.
 */
module Js {

  /** A value that may be `undefined` (or `null`, which the code treats alike). */
  datatype Option<T> = None | Some(value: T)

  /** `!v` for an optional string: `undefined` and `""` are the falsy ones. */
  predicate Falsy(v: Option<string>)
    ensures Falsy(v) <==> v == None || v == Some("")
  {
    v.None? || v.value == ""
  }

  /**
   * `v || fallback` for an optional string: the value itself when it is
   * truthy, the fallback otherwise.
   */
  function Or(v: Option<string>, fallback: string): (r: string)
    ensures Falsy(v) ==> r == fallback
    ensures !Falsy(v) ==> v == Some(r) && r != ""
  {
    if Falsy(v) then fallback else v.value
  }
}
