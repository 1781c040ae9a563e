/** Optional values and HTTP-style replies shared by every route handler. */
module Wrappers {

  /** A value that may be absent: JSON `undefined`/`null`, or a database NULL. */
  datatype Option<+T> = None | Some(value: T) {
    function GetOr(default: T): T
    {
      match this
      case Some(v) => v
      case None => default
    }
  }

  /** What a route handler answers: a status code with a body, or a status code with an error text. */
  datatype Reply<+T> = Ok(status: nat, body: T) | Fail(status: nat, error: string)

  /** The `!id` test on a numeric JSON id: undefined, null and 0 are all falsy. */
  predicate Falsy(id: Option<int>)
  {
    id.None? || id.value == 0
  }

  /** The `!s` test on a JSON string: undefined, null and the empty string are falsy. */
  predicate Blank(s: Option<string>)
  {
    s.None? || s.value == ""
  }

  /** JavaScript `s || null` on an optional string: the empty string becomes null. */
  function OrNull(s: Option<string>): (r: Option<string>)
    ensures r.None? <==> Blank(s)
    ensures r.Some? ==> r == s
  {
    if Blank(s) then None else s
  }

  /** JavaScript `s || fallback` on an optional string. */
  function OrElse(s: Option<string>, fallback: string): (r: string)
    ensures Blank(s) ==> r == fallback
    ensures !Blank(s) ==> r == s.value
  {
    if Blank(s) then fallback else s.value
  }
}
