/** The three authentication endpoints: login mints a token pair for the
    authenticated user, refresh mints a new pair from a refresh token, and
    logout revokes the bearer access token. */
module AuthRouter {
  import opened Common
  import opened Models
  import opened Passwords
  import opened Jwt
  import opened Schemas
  import opened Tokens
  import opened Revocation
  import opened Decimal
  import opened Db
  import opened Auth

  const BadCredentials := HttpError(Unauthorized, "Credenciales inválidas")
  const LoggedOut := "Sesión cerrada correctamente"

  /** The lifetime the login endpoint passes explicitly: 15 minutes. */
  const LoginAccessLifetime := 15 * 60

  /** The role every refreshed access token is minted with. */
  const RefreshedRole := "cliente"

  /** `login_for_access_token`: 401 unless the credentials authenticate;
      otherwise an access token for `str(user.id)` with the user's stored role
      and a refresh token for the same subject. */
  function LoginForAccessToken(cfg: Config, users: seq<User>, login: string, password: string, now: int): (r: Result<TokenResponse>)
    ensures r.Failure? <==> AuthenticateUser(users, login, password).None?
    ensures r.Failure? ==> r.error == BadCredentials
    ensures r.Success? ==> r.value.tokenType == "bearer"
    ensures r.Success? ==>
              var u := AuthenticateUser(users, login, password).value;
              && DecodeAccessToken(cfg, r.value.accessToken, now)
                 == Success(TokenPayload(IntToString(u.id), now + LoginAccessLifetime, RoleValue(u.role)))
              && DecodeRefreshToken(cfg, r.value.refreshToken, now) == Success(IntToString(u.id))
              && r.value.accessToken.claims.exp == now + LoginAccessLifetime
              && r.value.refreshToken.claims.exp == now + RefreshLifetime
  {
    match AuthenticateUser(users, login, password)
    case None => Failure(BadCredentials)
    case Some(u) =>
      var subject := IntToString(u.id);
      AccessRoundTrip(cfg, now, subject, RoleValue(u.role), Some(LoginAccessLifetime), now);
      RefreshRoundTrip(cfg, now, subject, now);
      Success(TokenResponse(
        CreateAccessToken(cfg, now, subject, RoleValue(u.role), Some(LoginAccessLifetime)),
        CreateRefreshToken(cfg, now, subject),
        BearerType))
  }

  /** `refresh_access_token`: the refresh token's decode error, or a new pair
      for its subject. The new access token has the default lifetime and the
      role "cliente", whatever role the subject has. */
  function RefreshAccessToken(cfg: Config, t: Token, now: int): (r: Result<TokenResponse>)
    ensures r.Failure? <==> DecodeRefreshToken(cfg, t, now).Failure?
    ensures r.Failure? ==> r.error == DecodeRefreshToken(cfg, t, now).error
    ensures r.Failure? ==> r.error == RefreshExpired || r.error == RefreshInvalid
    ensures r.Success? ==> r.value.tokenType == "bearer"
    ensures r.Success? ==>
              && DecodeAccessToken(cfg, r.value.accessToken, now)
                 == Success(TokenPayload(t.claims.sub, now + AccessLifetime, RefreshedRole))
              && DecodeRefreshToken(cfg, r.value.refreshToken, now) == Success(t.claims.sub)
              && r.value.accessToken.claims.exp == now + AccessLifetime
              && r.value.refreshToken.claims.exp == now + RefreshLifetime
  {
    match DecodeRefreshToken(cfg, t, now)
    case Failure(e) => Failure(e)
    case Success(subject) =>
      AccessRoundTrip(cfg, now, subject, RefreshedRole, None, now);
      RefreshRoundTrip(cfg, now, subject, now);
      Success(TokenResponse(
        CreateAccessToken(cfg, now, subject, RefreshedRole, None),
        CreateRefreshToken(cfg, now, subject),
        BearerType))
  }

  /** `logout`: revoke the bearer token, swallowing any decode failure, and
      answer with the same message whether or not an entry was written. */
  method Logout(cfg: Config, store: RevocationStore, t: Token) returns (msg: string)
    modifies store
    ensures store.clock == old(store.clock)
    ensures store.entries == Revoke(old(store.entries), store.clock, cfg, t)
    ensures msg == LoggedOut
  {
    store.RevokeTokenJwt(cfg, t);
    msg := LoggedOut;
  }

  /** Until its lifetime runs out, the access token from a login resolves to
      the very user who logged in, provided that user is active and the token
      has not been revoked. */
  lemma LoginResolvesToUser(cfg: Config, users: seq<User>, next: int, login: string, password: string, now: int, at: int)
    requires UserRows(users, next)
    requires AuthenticateUser(users, login, password).Some?
    requires AuthenticateUser(users, login, password).value.isActive
    requires now <= at && !Expired(now + LoginAccessLifetime, at)
    ensures LoginForAccessToken(cfg, users, login, password, now).Success?
    ensures CurrentUser(false, users, cfg, LoginForAccessToken(cfg, users, login, password, now).value.accessToken, at)
            == Success(AuthenticateUser(users, login, password).value)
  {
    var u := AuthenticateUser(users, login, password).value;
    var k :| 0 <= k < |users| && users[k] == u && Matches(u, login)
             && forall i :: 0 <= i < k ==> !Matches(users[i], login);
    IdRoundTrip(u.id);
    FindUserByKey(users, next, u);
    AccessRoundTrip(cfg, now, IntToString(u.id), RoleValue(u.role), Some(LoginAccessLifetime), at);
  }

  /** Once its lifetime has run out, the same token resolves to "Token expirado". */
  lemma LoginTokenExpires(cfg: Config, users: seq<User>, login: string, password: string, now: int, at: int)
    requires AuthenticateUser(users, login, password).Some?
    requires Expired(now + LoginAccessLifetime, at)
    ensures CurrentUser(false, users, cfg, LoginForAccessToken(cfg, users, login, password, now).value.accessToken, at)
            == Failure(TokenExpired)
  {
    var u := AuthenticateUser(users, login, password).value;
    AccessRoundTrip(cfg, now, IntToString(u.id), RoleValue(u.role), Some(LoginAccessLifetime), at);
  }

  /** An admin who refreshes gets an access token whose claim says
      "cliente": the claim no longer matches the stored role. */
  lemma RefreshDemotesRoleClaim(cfg: Config, users: seq<User>, login: string, password: string, now: int, later: int)
    requires AuthenticateUser(users, login, password).Some?
    requires AuthenticateUser(users, login, password).value.role == Admin
    requires now <= later && !Expired(now + RefreshLifetime, later)
    ensures var pair := LoginForAccessToken(cfg, users, login, password, now).value;
            var refreshed := RefreshAccessToken(cfg, pair.refreshToken, later);
            && refreshed.Success?
            && DecodeAccessToken(cfg, pair.accessToken, now).value.role == "admin"
            && refreshed.value.accessToken.claims.role == Some("cliente")
  {
    var u := AuthenticateUser(users, login, password).value;
    RefreshRoundTrip(cfg, now, IntToString(u.id), later);
  }

  /** ... but the admin guard reads the stored row, so the refreshed token of
      an active admin still passes it while live and unrevoked. */
  lemma RefreshedAdminStillAdmin(cfg: Config, users: seq<User>, next: int, login: string, password: string,
                                 now: int, later: int)
    requires UserRows(users, next)
    requires AuthenticateUser(users, login, password).Some?
    requires AuthenticateUser(users, login, password).value.role == Admin
    requires AuthenticateUser(users, login, password).value.isActive
    requires now <= later && !Expired(now + RefreshLifetime, later)
    ensures var pair := LoginForAccessToken(cfg, users, login, password, now).value;
            var refreshed := RefreshAccessToken(cfg, pair.refreshToken, later);
            refreshed.Success? && CurrentAdmin(false, users, cfg, refreshed.value.accessToken, later).Success?
  {
    var u := AuthenticateUser(users, login, password).value;
    var k :| 0 <= k < |users| && users[k] == u && Matches(u, login)
             && forall i :: 0 <= i < k ==> !Matches(users[i], login);
    RefreshRoundTrip(cfg, now, IntToString(u.id), later);
    IdRoundTrip(u.id);
    FindUserByKey(users, next, u);
    AccessRoundTrip(cfg, later, IntToString(u.id), RefreshedRole, None, later);
  }

  /** Refresh tokens are not rotated: a refresh token that has been used
      still refreshes, for the same subject, until its own expiry. Refresh
      never touches the revocation store, and logout does not either for a
      refresh token. */
  lemma RefreshReplayable(cfg: Config, t: Token, now: int, later: int)
    requires RefreshAccessToken(cfg, t, now).Success?
    requires now <= later < t.claims.exp
    ensures RefreshAccessToken(cfg, t, later).Success?
    ensures RefreshAccessToken(cfg, t, later).value.accessToken.claims.sub
            == RefreshAccessToken(cfg, t, now).value.accessToken.claims.sub
  {
  }

  /** With distinct secrets, logging out with a refresh token writes nothing:
      it does not decode as an access token. */
  lemma LogoutIgnoresRefreshToken(cfg: Config, entries: map<Token, int>, now: int, subject: string, at: int)
    requires cfg.accessSecret != cfg.refreshSecret
    ensures Revoke(entries, at, cfg, CreateRefreshToken(cfg, now, subject)) == entries
  {
    WrongKeyRejected(Claims(subject, None, now + RefreshLifetime), cfg.refreshSecret, cfg.accessSecret, at);
  }
}
