/** The account handlers: the Admin's user list, read by id, the guarded
    profile update with its e-mail uniqueness check, the password change
    and deletion. */
module Users {
  import opened Common
  import opened Paging
  import opened Store

  /** A stored account. `password` holds whatever string was saved: a
      bcrypt hash when the password handler or the seed script wrote it. */
  datatype User = User(name: string, email: string, password: string, role: string)

  /** An account as the list and read handlers answer it: the password
      is projected away. */
  datatype Profile = Profile(id: Id, name: string, email: string, role: string)

  function ProfileOf(id: Id, u: User): (p: Profile)
    ensures p.id == id && p.email == u.email && p.role == u.role && p.name == u.name
  {
    Profile(id, u.name, u.email, u.role)
  }

  const DefaultUserPage: PageQuery := PageQuery(1, 10)

  /** No two accounts share an e-mail address. */
  predicate UniqueEmails(rows: map<Id, User>) {
    forall a, b :: a in rows && b in rows && a != b ==> rows[a].email != rows[b].email
  }

  /** An account other than `id` already holds `email`. */
  predicate EmailTakenByOther(rows: map<Id, User>, email: string, id: Id) {
    exists other :: other in rows && other != id && rows[other].email == email
  }

  function WithRole(role: Option<string>): User -> bool {
    (u: User) => !Truthy(role) || u.role == role.value
  }

  /** The answer of the user list. */
  datatype UserPage = UserPage(count: nat, totalCount: nat, page: Pos, pages: nat, data: seq<Profile>)

  function Profiles(ds: seq<Doc<User>>): (ps: seq<Profile>)
    ensures |ps| == |ds|
    ensures forall i :: 0 <= i < |ds| ==> ps[i] == ProfileOf(ds[i].id, ds[i].record)
  {
    seq(|ds|, i requires 0 <= i < |ds| => ProfileOf(ds[i].id, ds[i].record))
  }

  /** `getAllUsers`: one page of accounts, newest first, restricted to one
      role when the query names a non-empty role; passwords left out.
      `page` and `limit` default to 1 and 10. */
  function AllUsers(rows: map<Id, User>, bound: nat, role: Option<string>, page: Option<Pos>, limit: Option<Pos>)
    : (r: UserPage)
    requires Below(rows, bound)
    ensures var q := QueryOf(page, limit, DefaultUserPage);
      && r.data == Profiles(FindPage(rows, bound, WithRole(role), q))
      && |r.data| == r.count <= q.limit
      && r.page == q.page && r.pages == PageCount(r.totalCount, q.limit)
    ensures forall i :: 0 <= i < |r.data| ==>
      r.data[i].id in rows && r.data[i] == ProfileOf(r.data[i].id, rows[r.data[i].id])
    ensures Truthy(role) ==> forall i :: 0 <= i < |r.data| ==> r.data[i].role == role.value
    ensures forall i, j :: 0 <= i < j < |r.data| ==> r.data[i].id > r.data[j].id
    ensures r.totalCount == CountWhere(rows, WithRole(role))
    ensures !Truthy(role) ==> r.totalCount == |rows|
  {
    var q := QueryOf(page, limit, DefaultUserPage);
    var keep := WithRole(role);
    var ds := FindPage(rows, bound, keep, q);
    CountIsListingLength(rows, bound, keep);
    assert !Truthy(role) ==> Matching(rows, keep) == rows.Keys;
    var total := CountWhere(rows, keep);
    UserPage(|ds|, total, q.page, PageCount(total, q.limit), Profiles(ds))
  }

  /** `getUserById`: the account without its password, or 404. */
  function UserById(rows: map<Id, User>, id: Id): (r: Result<Profile>)
    ensures r.Ok? <==> id in rows
    ensures r.Ok? ==> r.value == ProfileOf(id, rows[id])
    ensures r.Err? ==> r.error == NotFound
  {
    if id in rows then Ok(ProfileOf(id, rows[id])) else Err(NotFound)
  }

  /** The fields of an update request; absent is `None`. */
  datatype UserBody = UserBody(name: Option<string>, email: Option<string>, role: Option<string>)

  /** The account after `updateUser` writes: name and e-mail replaced when
      non-empty, the role only when an Admin asks, the password never. */
  function Edited(u: User, caller: Caller, b: UserBody): (r: User)
    ensures r.password == u.password
    ensures r.name == (if Truthy(b.name) then b.name.value else u.name)
    ensures r.email == (if Truthy(b.email) then b.email.value else u.email)
    ensures IsAdmin(caller) && Truthy(b.role) ==> r.role == b.role.value
    ensures !(IsAdmin(caller) && Truthy(b.role)) ==> r.role == u.role
  {
    User(
      OrElse(b.name, u.name),
      OrElse(b.email, u.email),
      u.password,
      if IsAdmin(caller) then OrElse(b.role, u.role) else u.role)
  }

  /** The answer `updateUser` gives before it writes: 404, then 403 unless
      the caller is that user or an Admin, then 400 for an e-mail another
      account holds, then the schema's 500 for a role outside the enum
      (validated only when the update sets the role). */
  function UpdateCheck(rows: map<Id, User>, caller: Caller, id: Id, b: UserBody): (e: Option<Error>)
    ensures e == Some(NotFound) <==> id !in rows
    ensures e == Some(Forbidden) <==> id in rows && caller.user != id && !IsAdmin(caller)
    ensures e == Some(BadRequest) <==>
      id in rows && (caller.user == id || IsAdmin(caller)) && Truthy(b.email)
      && EmailTakenByOther(rows, b.email.value, id)
    ensures e == Some(ServerError) <==>
      id in rows && IsAdmin(caller)
      && !(Truthy(b.email) && EmailTakenByOther(rows, b.email.value, id))
      && Truthy(b.role) && b.role.value !in Roles
    ensures e == None <==>
      && id in rows && (caller.user == id || IsAdmin(caller))
      && !(Truthy(b.email) && EmailTakenByOther(rows, b.email.value, id))
      && !(Truthy(b.role) && IsAdmin(caller) && b.role.value !in Roles)
  {
    if id !in rows then Some(NotFound)
    else if caller.user != id && !IsAdmin(caller) then Some(Forbidden)
    else if Truthy(b.email) && EmailTakenByOther(rows, b.email.value, id) then Some(BadRequest)
    else if Truthy(b.role) && IsAdmin(caller) && b.role.value !in Roles then Some(ServerError)
    else None
  }

  /** An update that passes its checks keeps every e-mail unique. */
  lemma {:induction false} EditKeepsUniqueEmails(rows: map<Id, User>, caller: Caller, id: Id, b: UserBody)
    requires UniqueEmails(rows)
    requires UpdateCheck(rows, caller, id, b) == None
    ensures UniqueEmails(rows[id := Edited(rows[id], caller, b)])
  {
    var u := Edited(rows[id], caller, b);
    var rows' := rows[id := u];
    forall x, y | x in rows' && y in rows' && x != y
      ensures rows'[x].email != rows'[y].email
    {
      if x == id && Truthy(b.email) {
        assert !EmailTakenByOther(rows, b.email.value, id);
        assert y in rows && rows[y].email != b.email.value;
      } else if y == id && Truthy(b.email) {
        assert !EmailTakenByOther(rows, b.email.value, id);
        assert x in rows && rows[x].email != b.email.value;
      }
    }
  }

  /** `updateUser`: answers the updated account without its password;
      on any refusal nothing is written. */
  method UpdateUser(t: Table<User>, caller: Caller, id: Id, b: UserBody) returns (r: Result<Profile>)
    requires t.Valid()
    modifies t
    ensures t.Valid()
    ensures UpdateCheck(old(t.rows), caller, id, b).Some? ==>
      r == Err(UpdateCheck(old(t.rows), caller, id, b).value) && t.rows == old(t.rows)
    ensures UpdateCheck(old(t.rows), caller, id, b).None? ==>
      t.rows == old(t.rows)[id := Edited(old(t.rows)[id], caller, b)] && r == Ok(ProfileOf(id, t.rows[id]))
    ensures UniqueEmails(old(t.rows)) ==> UniqueEmails(t.rows)
  {
    if id !in t.rows {
      return Err(NotFound);
    }
    if caller.user != id && !IsAdmin(caller) {
      return Err(Forbidden);
    }
    var u := t.rows[id];
    if Truthy(b.name) {
      u := u.(name := b.name.value);
    }
    if Truthy(b.email) {
      if EmailTakenByOther(t.rows, b.email.value, id) {
        return Err(BadRequest);
      }
      u := u.(email := b.email.value);
    }
    if Truthy(b.role) && IsAdmin(caller) {
      if b.role.value !in Roles {
        return Err(ServerError);
      }
      u := u.(role := b.role.value);
    }
    if UniqueEmails(t.rows) {
      EditKeepsUniqueEmails(t.rows, caller, id, b);
    }
    t.Replace(id, u);
    r := Ok(ProfileOf(id, u));
  }

  /** `changePassword`: 404, then 403 unless the caller is that user or an
      Admin. Only callers changing their own password must present the old
      one, checked with `verify` against the stored hash (401 on a
      mismatch); an Admin resetting someone else's skips it. The new
      password is stored as `hash` of it. A missing password makes the
      hashing library throw, answered 500. */
  method ChangePassword(
    t: Table<User>, caller: Caller, id: Id,
    oldPassword: Option<string>, newPassword: Option<string>,
    hash: string -> string, verify: (string, string) -> bool)
    returns (r: Result<()>)
    requires t.Valid()
    modifies t
    ensures t.Valid()
    ensures id !in old(t.rows) ==> r == Err(NotFound)
    ensures id in old(t.rows) && caller.user != id && !IsAdmin(caller) ==> r == Err(Forbidden)
    ensures id in old(t.rows) && caller.user == id && oldPassword.None? ==> r == Err(ServerError)
    ensures (id in old(t.rows) && caller.user == id && oldPassword.Some?
      && !verify(oldPassword.value, old(t.rows)[id].password)) ==> r == Err(Unauthorized)
    ensures r.Err? ==> t.rows == old(t.rows)
    ensures r.Ok? <==> (
      && id in old(t.rows) && (caller.user == id || IsAdmin(caller))
      && (caller.user == id ==> oldPassword.Some? && verify(oldPassword.value, old(t.rows)[id].password))
      && newPassword.Some?)
    ensures (
      && id in old(t.rows) && (caller.user == id || IsAdmin(caller))
      && (caller.user == id ==> oldPassword.Some? && verify(oldPassword.value, old(t.rows)[id].password))
      && newPassword.None?) ==> r == Err(ServerError)
    ensures r.Ok? ==> t.rows == old(t.rows)[id := old(t.rows)[id].(password := hash(newPassword.value))]
  {
    if id !in t.rows {
      return Err(NotFound);
    }
    if caller.user != id && !IsAdmin(caller) {
      return Err(Forbidden);
    }
    var u := t.rows[id];
    if caller.user == id {
      if oldPassword.None? {
        return Err(ServerError);
      }
      if !verify(oldPassword.value, u.password) {
        return Err(Unauthorized);
      }
    }
    if newPassword.None? {
      return Err(ServerError);
    }
    t.Replace(id, u.(password := hash(newPassword.value)));
    r := Ok(());
  }

  /** `deleteUser` (the route admits Admins only): 404 for an unknown id,
      otherwise exactly that account is removed. Listings and reviews
      that name the account are left in place. */
  method DeleteUser(t: Table<User>, id: Id) returns (r: Result<()>)
    requires t.Valid()
    modifies t
    ensures t.Valid()
    ensures id !in old(t.rows) ==> r == Err(NotFound) && t.rows == old(t.rows)
    ensures id in old(t.rows) ==> r == Ok(()) && t.rows == old(t.rows) - {id}
  {
    if id !in t.rows {
      return Err(NotFound);
    }
    t.Delete(id);
    r := Ok(());
  }
}
