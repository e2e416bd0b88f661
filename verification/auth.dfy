/** Login and the profile lookup: how a caller identity comes to exist.
    Signing and verifying the token are left to the token library; the
    model keeps the claims the token carries and the caller that the token
    middleware derives from them. */
module Auth {
  import opened Common
  import opened Store
  import opened Users
  import opened RoleGuard

  /** `expiresIn: "24h"`, in seconds. */
  const TokenLifetime: int := 24 * 60 * 60

  /** The claims signed into a token; a role is present only when the
      issuer put one there. */
  datatype Claims = Claims(user: Id, email: string, role: Option<string>, expires: int)

  /** The identity the token middleware attaches to the request. */
  function CallerOf(c: Claims): (caller: Caller)
    ensures caller.user == c.user && caller.role == c.role
  {
    Caller(c.user, c.role)
  }

  /** A login answer: the whole stored account, stored password included,
      and the claims of the token. */
  datatype Session = Session(account: Doc<User>, claims: Claims)

  function HasCredentials(email: string, password: string): User -> bool {
    (u: User) => u.email == email && u.password == password
  }

  /** `loginUser` as written: the first account, in natural order, whose
      e-mail AND stored password string both equal the request's; 401 when
      there is none. The token names the account and its e-mail, no role. */
  function LoginUser(rows: map<Id, User>, bound: nat, email: string, password: string, now: int)
    : (r: Result<Session>)
    requires Below(rows, bound)
    ensures r.Ok? <==> exists id :: id in rows && rows[id].email == email && rows[id].password == password
    ensures r.Ok? ==> r.value.account.id in rows && r.value.account.record == rows[r.value.account.id]
    ensures r.Ok? ==> r.value.account.record.email == email && r.value.account.record.password == password
    ensures r.Ok? ==> r.value.claims == Claims(r.value.account.id, email, None, now + TokenLifetime)
    ensures r.Err? ==> r.error == Unauthorized
  {
    var ids := OldestFirst(rows, bound, HasCredentials(email, password));
    if ids == [] then Err(Unauthorized)
    else
      var id := ids[0];
      Ok(Session(Doc(id, rows[id]), Claims(id, rows[id].email, None, now + TokenLifetime)))
  }

  /** A token from this login is refused by every role guard, whatever
      roles it admits and whatever the account's role, and no handler
      treats its bearer as an Admin. */
  lemma {:induction false} LoginTokenRefusedByEveryGuard(
    rows: map<Id, User>, bound: nat, email: string, password: string, now: int, allowed: seq<string>)
    requires Below(rows, bound)
    requires LoginUser(rows, bound, email, password, now).Ok?
    ensures var c := CallerOf(LoginUser(rows, bound, email, password, now).value.claims);
      VerifyRole(allowed, Some(c)).Refuse? && VerifyRole(allowed, Some(c)).error == Forbidden && !IsAdmin(c)
  {
    var c := CallerOf(LoginUser(rows, bound, email, password, now).value.claims);
    assert c.role == None;
  }

  /** The login compares the request's password with the stored string,
      but every password the system writes is a hash: once an account's
      password is stored as `hash(p)` and `hash(p)` differs from `p`, that
      account can no longer log in with `p`. */
  lemma HashedPasswordRefused(
    rows: map<Id, User>, bound: nat, id: Id, p: string, hash: string -> string, now: int)
    requires Below(rows, bound) && UniqueEmails(rows)
    requires id in rows && rows[id].password == hash(p) && hash(p) != p
    ensures LoginUser(rows, bound, rows[id].email, p, now) == Err(Unauthorized)
  {
  }

  /** The seeded Admin (password stored as a hash) cannot log in. */
  lemma SeededAdminRefused(hash: string -> string, now: int)
    requires hash("admin123") != "admin123"
    ensures var rows := map[0 := User("Premium Admin", "admin@realestate.com", hash("admin123"), AdminRole)];
      LoginUser(rows, 1, "admin@realestate.com", "admin123", now) == Err(Unauthorized)
  {
    var rows := map[0 := User("Premium Admin", "admin@realestate.com", hash("admin123"), AdminRole)];
    HashedPasswordRefused(rows, 1, 0, "admin123", hash, now);
  }

  function HasEmail(email: string): User -> bool {
    (u: User) => u.email == email
  }

  /** Login as intended: look the account up by e-mail, check the password
      against the stored hash with `verify`, and sign the account's role
      into the token. */
  function SecureLogin(
    rows: map<Id, User>, bound: nat, email: string, password: string,
    verify: (string, string) -> bool, now: int)
    : (r: Result<Session>)
    requires Below(rows, bound)
    ensures r.Ok? ==> r.value.account.id in rows && r.value.account.record == rows[r.value.account.id]
    ensures r.Ok? ==> r.value.account.record.email == email && verify(password, r.value.account.record.password)
    ensures r.Ok? ==> r.value.claims == Claims(r.value.account.id, email, Some(r.value.account.record.role), now + TokenLifetime)
    ensures (forall id :: id in rows ==> rows[id].email != email) ==> r == Err(Unauthorized)
    ensures r.Err? ==> r.error == Unauthorized
  {
    var ids := OldestFirst(rows, bound, HasEmail(email));
    if ids == [] then Err(Unauthorized)
    else
      var id := ids[0];
      if verify(password, rows[id].password) then
        Ok(Session(Doc(id, rows[id]), Claims(id, rows[id].email, Some(rows[id].role), now + TokenLifetime)))
      else Err(Unauthorized)
  }

  /** With the role in the token, a guard lets the bearer through exactly
      when the account's role is allowed, and the handlers see an Admin
      exactly when the account is one. */
  lemma SecureLoginTokenPassesGuard(
    rows: map<Id, User>, bound: nat, email: string, password: string,
    verify: (string, string) -> bool, now: int, allowed: seq<string>)
    requires Below(rows, bound)
    requires SecureLogin(rows, bound, email, password, verify, now).Ok?
    ensures var s := SecureLogin(rows, bound, email, password, verify, now).value;
      && (VerifyRole(allowed, Some(CallerOf(s.claims))) == Next <==> s.account.record.role in allowed)
      && (IsAdmin(CallerOf(s.claims)) <==> s.account.record.role == AdminRole)
  {
  }

  /** With a hash that `verify` recognises, a password set by the password
      handler is accepted at the next login. */
  lemma {:induction false} SecureLoginAcceptsHashedPassword(
    rows: map<Id, User>, bound: nat, id: Id, p: string,
    hash: string -> string, verify: (string, string) -> bool, now: int)
    requires Below(rows, bound) && UniqueEmails(rows)
    requires id in rows && rows[id].password == hash(p) && verify(p, hash(p))
    ensures SecureLogin(rows, bound, rows[id].email, p, verify, now).Ok?
    ensures SecureLogin(rows, bound, rows[id].email, p, verify, now).value.account.id == id
  {
    var ids := OldestFirst(rows, bound, HasEmail(rows[id].email));
    assert id in ids;
    assert ids[0] in rows && rows[ids[0]].email == rows[id].email;
  }

  /** `getProfile`: the stored account of the caller, password included.
      An unknown id is not an error: the answer is 200 with no account. */
  function GetProfile(rows: map<Id, User>, caller: Caller): (r: Option<User>)
    ensures r.Some? <==> caller.user in rows
    ensures r.Some? ==> r.value == rows[caller.user]
  {
    if caller.user in rows then Some(rows[caller.user]) else None
  }
}
