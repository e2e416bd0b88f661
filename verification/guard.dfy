/** The role guard placed in front of the Admin routes: 401 without an
    authenticated user, 403 when the user's role is not allowed, and
    otherwise the request goes on to the handler. */
module RoleGuard {
  import opened Common
  import opened Text

  const NoTokenMessage: string := "Unauthorized - No token provided"
  const DeniedPrefix: string := "Access Denied. Required role: "

  /** What the guard does with a request. */
  datatype Decision = Next | Refuse(error: Error, message: string)

  /** The guard built from `allowed`, applied to the request's user (absent
      when no token was verified). A user whose token carries no role is
      never in the list. */
  function VerifyRole(allowed: seq<string>, user: Option<Caller>): (d: Decision)
    ensures user.None? ==> d == Refuse(Unauthorized, NoTokenMessage)
    ensures d == Next <==> user.Some? && user.value.role.Some? && user.value.role.value in allowed
    ensures user.Some? && d.Refuse? ==> d.error == Forbidden
    ensures d.Refuse? && d.error == Forbidden ==> d.message == DeniedPrefix + Join(allowed, " or ")
  {
    if user.None? then Refuse(Unauthorized, NoTokenMessage)
    else if user.value.role.None? || user.value.role.value !in allowed then
      Refuse(Forbidden, DeniedPrefix + Join(allowed, " or "))
    else Next
  }

  /** The guard of the Admin-only routes lets a user through exactly when
      the user is an Admin, and names the role in its refusal. */
  lemma AdminGuard(c: Caller)
    ensures VerifyRole([AdminRole], Some(c)) == Next <==> IsAdmin(c)
    ensures !IsAdmin(c) ==> VerifyRole([AdminRole], Some(c)) == Refuse(Forbidden, "Access Denied. Required role: Admin")
  {
  }
}
