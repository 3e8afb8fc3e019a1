/** Optional values and the reply shape shared by every controller.

    JavaScript request bodies and query strings leave fields out; a field that
    may be missing is an `Option`.  The server answers every request with an
    HTTP status code and either a payload or a message; that is a `Reply`. */
module Wrappers {

  datatype Option<+T> = None | Some(value: T) {

    /** The value, or `default` when there is none (`x ?? default`). */
    function GetOr(default: T): T {
      match this
      case Some(v) => v
      case None => default
    }
  }

  /** JavaScript truthiness of an optional string: present and not empty. */
  predicate Truthy(s: Option<string>) {
    s.Some? && s.value != ""
  }

  /** The JavaScript expression `s || fallback` on an optional string. */
  function OrElse(s: Option<string>, fallback: string): (r: string)
    ensures Truthy(s) ==> r == s.value
    ensures !Truthy(s) ==> r == fallback
  {
    if Truthy(s) then s.value else fallback
  }

  /** JavaScript truthiness of an optional number: present and not zero. */
  predicate TruthyNumber(n: Option<int>) {
    n.Some? && n.value != 0
  }

  /** What an HTTP handler sends back: a success status with a payload, or an
      error status with the `message` of its JSON body. */
  datatype Reply<+T> = Ok(code: int, value: T) | Fail(code: int, message: string)
}
