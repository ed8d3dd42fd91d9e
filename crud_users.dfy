/** User administration: insert, lookup, paging, partial update and delete,
    each a step on the session's tables. */
module CrudUsers {
  import opened Common
  import opened Models
  import opened Passwords
  import opened Schemas
  import opened Db

  const Duplicate := HttpError(BadRequest, "Usuario o email ya existente")
  const UserNotFound := HttpError(NotFound, "Usuario no encontrado")
  const UserDeleted := "Usuario eliminado"

  /** The insert would break a unique column: the username or the email is
      already in use by some row. */
  predicate Conflicts(users: seq<User>, u: UserCreate) {
    exists i :: 0 <= i < |users| && (users[i].username == u.username || users[i].email == u.email)
  }

  /** `create_user`: on a unique violation the transaction is rolled back and
      400 is raised; otherwise the row gets the next key, the digest of the
      password and `is_active` true. */
  method CreateUser(db: Session, userIn: UserCreate, role: Role := Cliente) returns (r: Result<User>)
    requires db.Valid()
    modifies db
    ensures db.Valid()
    ensures db.orders == old(db.orders) && db.items == old(db.items) && db.clock == old(db.clock)
    ensures r.Failure? <==> Conflicts(old(db.users), userIn)
    ensures r.Failure? ==> r.error == Duplicate && db.users == old(db.users)
    ensures r.Success? ==> r.value.id == old(db.nextUserId) && r.value.createdAt == old(db.clock)
    ensures r.Success? ==> r.value.username == userIn.username && r.value.email == userIn.email
    ensures r.Success? ==> r.value.fullName == userIn.fullName
    ensures r.Success? ==> r.value.hashedPassword == GetPasswordHash(userIn.password)
    ensures r.Success? ==> r.value.role == role && r.value.isActive
    ensures r.Success? ==> db.users == old(db.users) + [r.value]
    ensures db.nextUserId == old(db.nextUserId) + (if r.Success? then 1 else 0)
    ensures db.nextOrderId == old(db.nextOrderId) && db.nextItemId == old(db.nextItemId)
  {
    if exists i :: 0 <= i < |db.users| && (db.users[i].username == userIn.username || db.users[i].email == userIn.email) {
      return Failure(Duplicate);
    }
    var user := NewUser(db.nextUserId, userIn.username, userIn.email, userIn.fullName,
                        GetPasswordHash(userIn.password), db.clock, role);
    AppendKeepsUsers(db.users, user);
    db.users := db.users + [user];
    db.nextUserId := db.nextUserId + 1;
    r := Success(user);
  }

  /** `get_user`: the row with that key, or 404. */
  function GetUser(db: Session, id: int): (r: Result<User>)
    reads db
    ensures r.Success? <==> HasUser(db.users, id)
    ensures r.Success? ==> r.value in db.users && r.value.id == id
    ensures r.Failure? ==> r.error == UserNotFound
  {
    match FindUser(db.users, id)
    case None => Failure(UserNotFound)
    case Some(u) => Success(u)
  }

  function Min(a: int, b: int): int { if a <= b then a else b }

  /** `get_users`: `OFFSET skip LIMIT limit` over the table in key order.
      PostgreSQL refuses a negative offset or limit, and one that does not
      fit a `bigint`; nothing catches either error. */
  function GetUsers(db: Session, skip: int, limit: int): (r: Result<seq<User>>)
    reads db
    ensures r.Failure? <==> skip < 0 || limit < 0 || !FitsInt8(skip) || !FitsInt8(limit)
    ensures r.Failure? ==> r.error == ServerError
    ensures r.Success? ==> |r.value| <= limit
    ensures r.Success? ==> |r.value| == Min(limit, if skip < |db.users| then |db.users| - skip else 0)
    ensures r.Success? ==> forall i :: 0 <= i < |r.value| ==> r.value[i] == db.users[skip + i]
  {
    if skip < 0 || limit < 0 || !FitsInt8(skip) || !FitsInt8(limit) then Failure(ServerError)
    else if skip >= |db.users| then Success([])
    else Success(db.users[skip..Min(skip + limit, |db.users|)])
  }

  /** The role text names a Role, or no role change is asked for. */
  predicate RoleAccepted(upd: UserUpdate) {
    !Truthy(upd.role) || ParseRole(upd.role.value).Some?
  }

  /** The fields `update_user` assigns: the four optional texts only when
      truthy, `is_active` whenever it is given, nothing else. */
  function ApplyUpdate(u: User, upd: UserUpdate): (r: User)
    requires RoleAccepted(upd)
    ensures r.id == u.id && r.username == u.username && r.createdAt == u.createdAt
    ensures r.email == if Truthy(upd.email) then upd.email.value else u.email
    ensures r.fullName == if Truthy(upd.fullName) then upd.fullName else u.fullName
    ensures r.hashedPassword == if Truthy(upd.password) then GetPasswordHash(upd.password.value) else u.hashedPassword
    ensures Truthy(upd.role) ==> RoleValue(r.role) == upd.role.value
    ensures !Truthy(upd.role) ==> r.role == u.role
    ensures r.isActive == if upd.isActive.Some? then upd.isActive.value else u.isActive
  {
    u.(email := if Truthy(upd.email) then upd.email.value else u.email,
       fullName := if Truthy(upd.fullName) then upd.fullName else u.fullName,
       hashedPassword := if Truthy(upd.password) then GetPasswordHash(upd.password.value) else u.hashedPassword,
       role := if Truthy(upd.role) then ParseRole(upd.role.value).value else u.role,
       isActive := if upd.isActive.Some? then upd.isActive.value else u.isActive)
  }

  /** An update with nothing supplied, or only empty texts, leaves the row as it is. */
  lemma EmptyUpdateKeepsRow(u: User, upd: UserUpdate)
    requires !Truthy(upd.email) && !Truthy(upd.fullName) && !Truthy(upd.password) && !Truthy(upd.role)
    requires upd.isActive.None?
    ensures ApplyUpdate(u, upd) == u
  {
  }

  /** An explicit `is_active = False`, alone, deactivates and changes nothing else. */
  lemma DeactivateOnly(u: User)
    ensures ApplyUpdate(u, UserUpdate(None, None, None, None, Some(false))) == u.(isActive := false)
  {
  }

  /** Applying the same update twice gives what applying it once gives. */
  lemma UpdateIdempotent(u: User, upd: UserUpdate)
    requires RoleAccepted(upd)
    ensures ApplyUpdate(ApplyUpdate(u, upd), upd) == ApplyUpdate(u, upd)
  {
  }

  /** The new email belongs to another row. */
  predicate EmailTaken(users: seq<User>, k: nat, upd: UserUpdate) {
    Truthy(upd.email) && exists j :: 0 <= j < |users| && j != k && users[j].email == upd.email.value
  }

  /** `update_user`: 404 for a missing key. The commit fails, uncaught, when
      the role text is not a Role value or the email is another row's; the
      table is then unchanged. */
  method UpdateUser(db: Session, id: int, upd: UserUpdate) returns (r: Result<User>)
    requires db.Valid()
    modifies db
    ensures db.Valid()
    ensures db.orders == old(db.orders) && db.items == old(db.items) && db.clock == old(db.clock)
    ensures !HasUser(old(db.users), id) ==> r == Failure(UserNotFound)
    ensures HasUser(old(db.users), id) && !RoleAccepted(upd) ==> r == Failure(ServerError)
    ensures (HasUser(old(db.users), id) && RoleAccepted(upd)
             && EmailTaken(old(db.users), UserIndex(old(db.users), id).value, upd)) ==> r == Failure(ServerError)
    ensures r.Failure? ==> db.users == old(db.users)
    ensures r.Success? <==>
              HasUser(old(db.users), id) && RoleAccepted(upd)
              && !EmailTaken(old(db.users), UserIndex(old(db.users), id).value, upd)
    ensures r.Success? ==> var k := UserIndex(old(db.users), id).value;
              r.value == ApplyUpdate(old(db.users)[k], upd) && db.users == old(db.users)[k := r.value]
    ensures db.nextUserId == old(db.nextUserId) && db.nextOrderId == old(db.nextOrderId)
            && db.nextItemId == old(db.nextItemId)
  {
    var found := UserIndex(db.users, id);
    if found.None? {
      return Failure(UserNotFound);
    }
    var k := found.value;
    if !RoleAccepted(upd) {
      return Failure(ServerError);
    }
    if Truthy(upd.email) && exists j :: 0 <= j < |db.users| && j != k && db.users[j].email == upd.email.value {
      return Failure(ServerError);
    }
    var user := ApplyUpdate(db.users[k], upd);
    ghost var before := db.users;
    db.users := db.users[k := user];
    assert forall i :: 0 <= i < |db.users| ==> db.users[i].id == before[i].id;
    r := Success(user);
  }

  /** Dropping one row keeps the remaining rows' keys and logins in order. */
  lemma RemoveRowKeepsUserRows(users: seq<User>, next: int, k: nat)
    requires UserRows(users, next)
    requires k < |users|
    ensures UserRows(users[..k] + users[k + 1..], next)
  {
    var rest := users[..k] + users[k + 1..];
    forall i | 0 <= i < |rest|
      ensures rest[i] == users[if i < k then i else i + 1]
    {
    }
  }

  predicate OwnsOrders(orders: seq<Order>, id: int) {
    exists i :: 0 <= i < |orders| && orders[i].userId == id
  }

  /** `delete_user`: 404 for a missing key; a user who still owns orders
      cannot be deleted (the foreign key from orders fails the commit,
      uncaught); otherwise exactly that row goes. */
  method DeleteUser(db: Session, id: int) returns (r: Result<string>)
    requires db.Valid()
    modifies db
    ensures db.Valid()
    ensures db.orders == old(db.orders) && db.items == old(db.items) && db.clock == old(db.clock)
    ensures !HasUser(old(db.users), id) ==> r == Failure(UserNotFound)
    ensures HasUser(old(db.users), id) && OwnsOrders(old(db.orders), id) ==> r == Failure(ServerError)
    ensures r.Failure? ==> db.users == old(db.users)
    ensures r.Success? <==> HasUser(old(db.users), id) && !OwnsOrders(old(db.orders), id)
    ensures r.Success? ==> r.value == UserDeleted
    ensures r.Success? ==> var k := UserIndex(old(db.users), id).value;
              db.users == old(db.users)[..k] + old(db.users)[k + 1..]
    ensures r.Success? ==> !HasUser(db.users, id)
    ensures forall x :: x != id ==> (HasUser(db.users, x) <==> HasUser(old(db.users), x))
    ensures db.nextUserId == old(db.nextUserId) && db.nextOrderId == old(db.nextOrderId)
            && db.nextItemId == old(db.nextItemId)
  {
    var found := UserIndex(db.users, id);
    if found.None? {
      return Failure(UserNotFound);
    }
    if exists i :: 0 <= i < |db.orders| && db.orders[i].userId == id {
      return Failure(ServerError);
    }
    var k := found.value;
    RemoveRowKeepsUserRows(db.users, db.nextUserId, k);
    RemoveRowKeys(db.users, db.nextUserId, k);
    db.users := db.users[..k] + db.users[k + 1..];
    r := Success(UserDeleted);
  }
}
