/** Values shared by every component: optional values, failures, and the two
    enumerations of the database schema (user roles and order statuses). */
module Common {

  datatype Option<+T> = None | Some(value: T) {
    function GetOr(default: T): T {
      match this
      case Some(v) => v
      case None => default
    }
  }

  /** The failures the services raise. `NotFound` and `BadRequest` carry the
      message of the HTTP exception; `Conflict` names the unique column a
      database insert collided on; the last three are failures of the cache
      store or of the JavaScript runtime that the source lets propagate. */
  datatype Error =
    | NotFound(message: string)
    | BadRequest(message: string)
    | Conflict(column: string)
    | WrongType      // a Redis command applied to a key holding the other kind of value
    | SyntaxError    // JSON.parse rejected a stored payload
    | TypeError      // a property was read from null or assigned on a primitive

  datatype Result<+T> = Ok(value: T) | Err(error: Error)

  datatype Role = USER | ADMIN

  datatype OrderStatus = PENDING | IN_TRANSIT | DELIVERED | CANCELED

  /** JavaScript's `x || fallback` for an optional count: an omitted value and
      zero both give the fallback. */
  function OrDefault(x: Option<nat>, fallback: nat): (r: nat)
    ensures x.Some? && x.value != 0 ==> r == x.value
    ensures (x.None? || x.value == 0) ==> r == fallback
    ensures fallback > 0 ==> r > 0
  {
    if x.Some? && x.value != 0 then x.value else fallback
  }
}
