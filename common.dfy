/**
 * Shared vocabulary of the handlers: optional values (a JSON field that may be
 * absent), document ids, the HTTP status codes the handlers send, and the reply
 * a handler produces in place of `res.status(..).json(..)`.
 */
module Common {

  /** A value that may be absent (`undefined` in the request body or in a document). */
  datatype Option<T> = None | Some(value: T)

  /** Document ids (Mongo ObjectIds) are opaque values compared for equality. */
  type Id = string

  /** A `Date` is an opaque timestamp; the clock is a parameter of the handlers that read it. */
  type Date = int

  const OK: int := 200
  const CREATED: int := 201
  const BAD_REQUEST: int := 400
  const UNAUTHORIZED: int := 401
  const FORBIDDEN: int := 403
  const NOT_FOUND: int := 404
  const CONFLICT: int := 409
  const INTERNAL_ERROR: int := 500

  /**
   * What a handler does with the response:
   *  - Success: a reply with a 2xx status and a payload;
   *  - Failure: an error reply with its status and message;
   *  - Unhandled: the handler's promise rejects outside any try/catch, so no reply is sent.
   */
  datatype Reply<T> =
    | Success(status: int, value: T)
    | Failure(status: int, message: string)
    | Unhandled(error: string)

  /** JavaScript truthiness of an optional string: `undefined` and `""` are falsy. */
  predicate TruthyString(s: Option<string>)
  {
    s.Some? && s.value != ""
  }

  /** JavaScript truthiness of an optional number: `undefined` and `0` are falsy. */
  predicate TruthyNumber(n: Option<int>)
  {
    n.Some? && n.value != 0
  }

  /** `a || b` on optional strings. */
  function OrString(a: Option<string>, b: Option<string>): (r: Option<string>)
    ensures r == a || r == b
    ensures TruthyString(r) <==> TruthyString(a) || TruthyString(b)
  {
    if TruthyString(a) then a else b
  }

  /** `a || b` on optional numbers. */
  function OrNumber(a: Option<int>, b: Option<int>): (r: Option<int>)
    ensures r == a || r == b
    ensures TruthyNumber(r) <==> TruthyNumber(a) || TruthyNumber(b)
  {
    if TruthyNumber(a) then a else b
  }

  /**
   * Mongoose's `required` validator on a String path: the value must be present
   * and non-empty, which is exactly JavaScript truthiness of the string.
   */
  predicate RequiredString(s: Option<string>)
  {
    TruthyString(s)
  }
}
