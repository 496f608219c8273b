/** Option values and the HTTP error results every endpoint of the backend returns. */
module Wrappers {

  datatype Option<+T> = None | Some(value: T)

  /** The value stored under a key, or `None` when the key is absent. */
  function Get<K, V>(m: map<K, V>, k: K): (r: Option<V>)
    ensures r.Some? <==> k in m
    ensures r.Some? ==> r.value == m[k]
  {
    if k in m then Some(m[k]) else None
  }

  /** An `HTTPException(status_code, detail)` raised by a route handler. */
  datatype HttpError = HttpError(status: int, detail: string)

  /** What a handler produces: its return value, or the exception it raises. */
  datatype Result<+T> = Ok(value: T) | Err(error: HttpError)

  const BadRequest := 400
  const Unauthorized := 401
  const Forbidden := 403
  const NotFound := 404

  /** Truthiness of an optional string, on which Python and JavaScript agree: a missing value
      (`None`, `null`) and `""` are falsy. */
  predicate Truthy(s: Option<string>) {
    s.Some? && s.value != ""
  }
}
