/** The per-request guards and the credential check: finding a user by login
    text, authenticating, and resolving a bearer token to an active user, with
    the admin guard on top. The revocation check comes first, then the token
    is decoded, then the user named by its subject is loaded. */
module Auth {
  import opened Common
  import opened Models
  import opened Passwords
  import opened Jwt
  import opened Schemas
  import opened Tokens
  import opened Revocation
  import opened Decimal
  import opened Db

  const TokenRevoked := HttpError(Unauthorized, "Token revocado")
  const InvalidUser := HttpError(Unauthorized, "Usuario no válido o inactivo")
  const AdminRequired := HttpError(Forbidden, "Se requieren privilegios de administrador")

  /** `username == s OR email == s`. */
  predicate Matches(u: User, login: string) {
    u.username == login || u.email == login
  }

  /** `get_user_by_username_or_email`: the first row, in key order, whose
      username or email is the given text. */
  function GetUserByUsernameOrEmail(users: seq<User>, login: string): (r: Option<User>)
    ensures r.None? <==> forall i :: 0 <= i < |users| ==> !Matches(users[i], login)
    ensures r.Some? ==> exists k :: 0 <= k < |users| && users[k] == r.value && Matches(r.value, login)
                                    && forall i :: 0 <= i < k ==> !Matches(users[i], login)
  {
    match FirstIndex(users, (u: User) => Matches(u, login))
    case None => None
    case Some(k) => Some(users[k])
  }

  /** With the unique columns, a username that is nobody's email finds its
      own row. */
  lemma LookupByUsername(users: seq<User>, next: int, u: User)
    requires UserRows(users, next)
    requires u in users
    requires forall i :: 0 <= i < |users| ==> users[i].email != u.username
    ensures GetUserByUsernameOrEmail(users, u.username) == Some(u)
  {
    var r := GetUserByUsernameOrEmail(users, u.username);
    var j :| 0 <= j < |users| && users[j] == u;
    var k :| 0 <= k < |users| && users[k] == r.value && Matches(r.value, u.username)
             && forall i :: 0 <= i < k ==> !Matches(users[i], u.username);
    assert users[k].username == users[j].username;
  }

  /** The same, by email, for an email that is nobody's username. */
  lemma LookupByEmail(users: seq<User>, next: int, u: User)
    requires UserRows(users, next)
    requires u in users
    requires forall i :: 0 <= i < |users| ==> users[i].username != u.email
    ensures GetUserByUsernameOrEmail(users, u.email) == Some(u)
  {
    var r := GetUserByUsernameOrEmail(users, u.email);
    var j :| 0 <= j < |users| && users[j] == u;
    var k :| 0 <= k < |users| && users[k] == r.value && Matches(r.value, u.email)
             && forall i :: 0 <= i < k ==> !Matches(users[i], u.email);
    assert users[k].email == users[j].email;
  }

  /** `authenticate_user`: the row found by the login text, if the password
      verifies against its digest. The `is_active` flag is not consulted. */
  function AuthenticateUser(users: seq<User>, login: string, password: string): (r: Option<User>)
    ensures (forall i :: 0 <= i < |users| ==> !Matches(users[i], login)) ==> r.None?
    ensures r.Some? <==> GetUserByUsernameOrEmail(users, login).Some?
                         && GetUserByUsernameOrEmail(users, login).value.hashedPassword == GetPasswordHash(password)
    ensures r.Some? ==> r == GetUserByUsernameOrEmail(users, login)
  {
    match GetUserByUsernameOrEmail(users, login)
    case None => None
    case Some(u) => if VerifyPassword(password, u.hashedPassword) then Some(u) else None
  }

  /** A user stored with the digest of `password` and found by its login text
      authenticates with that password, active or not, and with no other. */
  lemma AuthenticateOwnPassword(users: seq<User>, next: int, u: User, password: string, other: string)
    requires UserRows(users, next)
    requires u in users && u.hashedPassword == GetPasswordHash(password)
    requires forall i :: 0 <= i < |users| ==> users[i].email != u.username
    requires other != password
    ensures AuthenticateUser(users, u.username, password) == Some(u)
    ensures AuthenticateUser(users, u.username, other).None?
  {
    LookupByUsername(users, next, u);
  }

  /** `get_current_user` once the revocation store has answered: revoked
      first, then the decode errors, then `int(sub)` (text that is not an
      integer raises, uncaught), then the row must exist and be active. */
  function CurrentUser(revoked: bool, users: seq<User>, cfg: Config, t: Token, now: int): (r: Result<User>)
    ensures revoked ==> r == Failure(TokenRevoked)
    ensures !revoked && DecodeAccessToken(cfg, t, now).Failure? ==> r == Failure(DecodeAccessToken(cfg, t, now).error)
    ensures r.Success? ==> !revoked && Decode(t, cfg.accessSecret, now).Valid? && t.claims.role.Some?
    ensures r.Success? ==> r.value in users && r.value.isActive && ParseInt(t.claims.sub) == Some(r.value.id)
    ensures r == Failure(InvalidUser) <==>
              !revoked && DecodeAccessToken(cfg, t, now).Success? && ParseInt(t.claims.sub).Some?
              && (FindUser(users, ParseInt(t.claims.sub).value).None?
                  || !FindUser(users, ParseInt(t.claims.sub).value).value.isActive)
    ensures !revoked && DecodeAccessToken(cfg, t, now).Success? && ParseInt(t.claims.sub).None?
            ==> r == Failure(ServerError)
    ensures !revoked && DecodeAccessToken(cfg, t, now).Success? && ParseInt(t.claims.sub).Some?
            && FindUser(users, ParseInt(t.claims.sub).value).Some?
            && FindUser(users, ParseInt(t.claims.sub).value).value.isActive
            ==> r == Success(FindUser(users, ParseInt(t.claims.sub).value).value)
  {
    if revoked then Failure(TokenRevoked)
    else match DecodeAccessToken(cfg, t, now)
      case Failure(e) => Failure(e)
      case Success(p) =>
        match ParseInt(p.sub)
        case None => Failure(ServerError)
        case Some(id) =>
          match FindUser(users, id)
          case None => Failure(InvalidUser)
          case Some(u) => if u.isActive then Success(u) else Failure(InvalidUser)
  }

  /** `get_current_active_admin` on the resolved user. */
  function RequireAdmin(u: User): (r: Result<User>)
    ensures r.Success? <==> u.role == Admin
    ensures r.Success? ==> r.value == u
    ensures r.Failure? ==> r.error == AdminRequired
  {
    if u.role != Admin then Failure(AdminRequired) else Success(u)
  }

  function CurrentAdmin(revoked: bool, users: seq<User>, cfg: Config, t: Token, now: int): (r: Result<User>)
    ensures r.Success? <==> CurrentUser(revoked, users, cfg, t, now).Success?
                            && CurrentUser(revoked, users, cfg, t, now).value.role == Admin
    ensures r.Success? ==> r == CurrentUser(revoked, users, cfg, t, now)
    ensures CurrentUser(revoked, users, cfg, t, now).Failure? ==> r == CurrentUser(revoked, users, cfg, t, now)
    ensures CurrentUser(revoked, users, cfg, t, now).Success? && r.Failure? ==> r.error == AdminRequired
  {
    match CurrentUser(revoked, users, cfg, t, now)
    case Failure(e) => Failure(e)
    case Success(u) => RequireAdmin(u)
  }

  /** `get_current_user`: asks the revocation store, then resolves the token
      at the store's clock. */
  method GetCurrentUser(cfg: Config, store: RevocationStore, db: Session, t: Token) returns (r: Result<User>)
    ensures r == CurrentUser(IsRevoked(store.entries, store.clock, t), db.users, cfg, t, store.clock)
  {
    var revoked := store.IsTokenRevoked(t);
    r := CurrentUser(revoked, db.users, cfg, t, store.clock);
  }

  /** `get_current_active_admin`. */
  method GetCurrentActiveAdmin(cfg: Config, store: RevocationStore, db: Session, t: Token) returns (r: Result<User>)
    ensures r == CurrentAdmin(IsRevoked(store.entries, store.clock, t), db.users, cfg, t, store.clock)
  {
    var current := GetCurrentUser(cfg, store, db, t);
    match current
    case Failure(e) => r := Failure(e);
    case Success(u) => r := RequireAdmin(u);
  }

  /** The guards never read the token's `role` claim: two tokens that differ
      only there are resolved identically, by the admin guard too, because
      the role comes from the stored row. */
  lemma RoleClaimIgnored(revoked: bool, users: seq<User>, cfg: Config, sub: string, exp: int,
                         a: string, b: string, key: string, now: int)
    ensures CurrentUser(revoked, users, cfg, Encode(Claims(sub, Some(a), exp), key), now)
            == CurrentUser(revoked, users, cfg, Encode(Claims(sub, Some(b), exp), key), now)
    ensures CurrentAdmin(revoked, users, cfg, Encode(Claims(sub, Some(a), exp), key), now)
            == CurrentAdmin(revoked, users, cfg, Encode(Claims(sub, Some(b), exp), key), now)
  {
  }
}
