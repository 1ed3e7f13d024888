/**
 * What the two Node scripts see of an HTTP exchange made with axios: the
 * JavaScript value a response body parses to, and the two ways a request
 * can fail (the server answered with an error status, or no answer came).
 */
module Http {

  /** A JavaScript value as `response.data` can hold it; objects and arrays only by their text. */
  datatype Value = Undefined | Null | Bool(b: bool) | Num(n: int) | Str(s: string) | Obj(repr: string)

  /** JavaScript truthiness (NaN is not modelled; numbers are integers here). */
  predicate Truthy(v: Value) {
    match v
    case Undefined => false
    case Null => false
    case Bool(b) => b
    case Num(n) => n != 0
    case Str(s) => s != ""
    case Obj(_) => true
  }

  /** A rejected axios request: `error.response` present, or absent. */
  datatype Failure =
    | ErrorResponse(status: int, data: Value, message: string)
    | NoResponse(message: string)

  /** `error.response?.data || error.message`: the body when it is truthy, else the message. */
  function Detail(f: Failure): (d: Value)
    ensures f.ErrorResponse? && Truthy(f.data) ==> d == f.data
    ensures !(f.ErrorResponse? && Truthy(f.data)) ==> d == Str(f.message)
    ensures Truthy(d) || d == Str("")
  {
    if f.ErrorResponse? && Truthy(f.data) then f.data else Str(f.message)
  }

  /** `error.response?.status === 401`. */
  predicate IsUnauthorized(f: Failure) {
    f.ErrorResponse? && f.status == 401
  }
}
