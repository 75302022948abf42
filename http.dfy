/**
 * What the route handlers and the client see of HTTP and JSON: a reply with its status
 * code, the error body (whose key is `message` in some routes and `error` in others),
 * JavaScript truthiness of request fields, and the outcome of a client-side API call.
 */
module Http {
  import opened Wrappers

  /** The key under which a route puts its error text: `{ message: ... }` or `{ error: ... }`. */
  datatype BodyKey = MessageKey | ErrorKey

  /** A route's answer: a JSON body with a status, or an error text under one key. */
  datatype Response<T> = Reply(status: int, body: T) | Fail(status: int, key: BodyKey, text: string)

  /** `!!field` for a string field of a parsed request body: undefined and "" are falsy. */
  predicate Present(field: Option<string>) {
    field.Some? && field.value != ""
  }

  /** The result of a call through the client's API module: a value, or an error with its `message`. */
  datatype Outcome<T> = Ok(value: T) | Err(message: string)

  /** JSON values as `JSON.parse` returns them (numbers restricted to integers). */
  datatype Json =
    | JNull
    | JBool(b: bool)
    | JNumber(n: int)
    | JString(s: string)
    | JArray(items: seq<Json>)
    | JObject(fields: map<string, Json>)

  /** JavaScript truthiness of a body field that may be absent (None is `undefined`). */
  predicate Truthy(v: Option<Json>) {
    match v
    case None => false
    case Some(JNull) => false
    case Some(JBool(b)) => b
    case Some(JNumber(n)) => n != 0
    case Some(JString(s)) => s != ""
    case Some(_) => true
  }

  /** `v || fallback`. */
  function Or(v: Option<Json>, fallback: Json): (r: Json)
    ensures Truthy(v) ==> Some(r) == v
    ensures !Truthy(v) ==> r == fallback
  {
    if Truthy(v) then v.value else fallback
  }
}
