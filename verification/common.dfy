/** Vocabulary shared by every controller: record ids, the authenticated
    caller, the error answers a controller sends, and JavaScript truthiness
    of the optional request fields. */
module Common {

  datatype Option<T> = None | Some(value: T)

  /** A record id. The database assigns ids; in this model a table hands
      them out from a counter, so a larger id means a later creation. */
  type Id = nat

  /** The identity the token middleware attaches to a request: the user id
      (`req.user.user`) and the role (`req.user.role`), which a token may
      lack altogether. */
  datatype Caller = Caller(user: Id, role: Option<string>)

  const AdminRole: string := "Admin"

  /** The roles the user schema and the registration rules accept. */
  const Roles: seq<string> := ["Admin", "User", "Agent"]

  predicate IsAdmin(c: Caller) {
    c.role == Some(AdminRole)
  }

  /** The ownership rule of the update and delete handlers: the caller is
      the record's owner or author, or the caller is an Admin. */
  predicate OwnerOrAdmin(c: Caller, owner: Id) {
    c.user == owner || IsAdmin(c)
  }

  /** The error answers the handlers send, each with its HTTP status. */
  datatype Error = BadRequest | Unauthorized | Forbidden | NotFound | ServerError {
    function Code(): (code: int)
      ensures 400 <= code < 600
      ensures code == 500 <==> this == ServerError
    {
      match this
      case BadRequest => 400
      case Unauthorized => 401
      case Forbidden => 403
      case NotFound => 404
      case ServerError => 500
    }
  }

  /** A handler's answer: a value on success, an error otherwise. */
  datatype Result<T> = Ok(value: T) | Err(error: Error)

  /** JavaScript truthiness of an optional string field of a request:
      absent (`undefined`) and the empty string are falsy. */
  predicate Truthy(s: Option<string>) {
    s.Some? && s.value != ""
  }

  /** `a || b` for an optional string `a` and a fallback `b`. */
  function OrElse(a: Option<string>, b: string): (r: string)
    ensures Truthy(a) ==> r == a.value
    ensures !Truthy(a) ==> r == b
  {
    if Truthy(a) then a.value else b
  }
}
