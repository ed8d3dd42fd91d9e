/** The life of one access token as the guards see it: active from minting,
    revoked after a logout while live, expired once its `exp` has passed, and
    rejected when it never decodes under the access secret. Nothing records
    the state; it is observed from the token, the store and the clock. */
module Lifecycle {
  import opened Common
  import opened Models
  import opened Jwt
  import opened Schemas
  import opened Tokens
  import opened Revocation
  import opened Decimal
  import opened Db
  import opened Auth
  import opened AuthRouter

  datatype AccessState = Active | Revoked | Expired | Rejected

  /** The state of `t` at `now` given the store's entries. */
  function StateOf(cfg: Config, entries: map<Token, int>, now: int, t: Token): (s: AccessState)
    ensures s == Revoked <==> IsRevoked(entries, now, t)
    ensures s == Active ==> DecodeAccessToken(cfg, t, now).Success? || DecodeAccessToken(cfg, t, now) == Failure(ServerError)
    ensures s == Expired ==> DecodeAccessToken(cfg, t, now) == Failure(TokenExpired)
    ensures s == Rejected ==> DecodeAccessToken(cfg, t, now) == Failure(TokenInvalid)
  {
    if IsRevoked(entries, now, t) then Revoked
    else match Decode(t, cfg.accessSecret, now)
      case Valid(_) => Active
      case ExpiredSignature => Expired
      case InvalidToken => Rejected
  }

  /** The guard fails in every state but `Active`, and with the state's own
      message. */
  lemma OnlyActivePasses(cfg: Config, entries: map<Token, int>, users: seq<User>, now: int, t: Token)
    ensures CurrentUser(IsRevoked(entries, now, t), users, cfg, t, now).Success? ==> StateOf(cfg, entries, now, t) == Active
    ensures StateOf(cfg, entries, now, t) == Revoked ==> CurrentUser(true, users, cfg, t, now) == Failure(TokenRevoked)
    ensures StateOf(cfg, entries, now, t) == Expired ==> CurrentUser(false, users, cfg, t, now) == Failure(TokenExpired)
    ensures StateOf(cfg, entries, now, t) == Rejected ==> CurrentUser(false, users, cfg, t, now) == Failure(TokenInvalid)
  {
  }

  /** A freshly minted access token that nobody has revoked is active for
      its whole lifetime. */
  lemma MintedIsActive(cfg: Config, entries: map<Token, int>, now: int, subject: string, role: string,
                       expiresDelta: Option<int>, at: int)
    requires CreateAccessToken(cfg, now, subject, role, expiresDelta) !in entries
    requires now <= at < now + AccessLifetimeFor(expiresDelta)
    ensures StateOf(cfg, entries, at, CreateAccessToken(cfg, now, subject, role, expiresDelta)) == Active
  {
    AccessRoundTrip(cfg, now, subject, role, expiresDelta, at);
  }

  /** Logging out an active token revokes it at once and until its `exp`. */
  lemma LogoutRevokes(cfg: Config, entries: map<Token, int>, now: int, t: Token, later: int)
    requires StateOf(cfg, entries, now, t) == Active
    requires now <= later < t.claims.exp
    ensures StateOf(cfg, Revoke(entries, now, cfg, t), now, t) == Revoked
    ensures StateOf(cfg, Revoke(entries, now, cfg, t), later, t) == Revoked
  {
    RevokedUntilExpiry(entries, now, cfg, t, now);
    RevokedUntilExpiry(entries, now, cfg, t, later);
  }

  /** In a bounded store a revoked token becomes an expired one when its
      `exp` arrives: the entry lapses together with the token. */
  lemma RevokedThenExpired(cfg: Config, entries: map<Token, int>, now: int, t: Token, later: int)
    requires Bounded(entries, cfg)
    requires StateOf(cfg, entries, now, t) == Revoked
    requires t.claims.exp <= later
    ensures StateOf(cfg, entries, later, t) == Expired
  {
  }

  /** Expired is terminal: at any later instant, and whatever a bounded store
      then holds, the token is still expired; logging out with it writes
      nothing. */
  lemma ExpiredIsTerminal(cfg: Config, entries: map<Token, int>, now: int, t: Token,
                          after: map<Token, int>, later: int)
    requires StateOf(cfg, entries, now, t) == Expired
    requires Bounded(after, cfg)
    requires now <= later
    ensures Revoke(entries, now, cfg, t) == entries
    ensures StateOf(cfg, after, later, t) == Expired
  {
    ExpiredStaysExpired(t, cfg.accessSecret, now, later);
  }

  /** Rejected is terminal too: a token that does not decode under the access
      secret never reaches a bounded store, and logging out with it writes
      nothing. */
  lemma RejectedIsTerminal(cfg: Config, entries: map<Token, int>, now: int, t: Token,
                           after: map<Token, int>, later: int)
    requires StateOf(cfg, entries, now, t) == Rejected
    requires Bounded(after, cfg)
    ensures Revoke(entries, now, cfg, t) == entries
    ensures StateOf(cfg, after, later, t) == Rejected
  {
  }

  /** Logging out a token never changes the state of another token. */
  lemma LogoutIsolated(cfg: Config, entries: map<Token, int>, now: int, t: Token, u: Token, later: int)
    requires t != u
    ensures StateOf(cfg, Revoke(entries, now, cfg, t), later, u) == StateOf(cfg, entries, later, u)
  {
    RevokeIsolated(entries, now, cfg, t, u, later);
  }

  /** A login at `t0` followed by requests with its access token: accepted
      ten minutes later, "Token expirado" twenty minutes later; after a logout
      five minutes in, a request a minute later is "Token revocado" although
      the token itself still decodes. */
  lemma LoginLogoutScenario(cfg: Config, users: seq<User>, next: int, login: string, password: string, t0: int)
    requires UserRows(users, next)
    requires AuthenticateUser(users, login, password).Some?
    requires AuthenticateUser(users, login, password).value.isActive
    ensures var access := LoginForAccessToken(cfg, users, login, password, t0).value.accessToken;
            var u := AuthenticateUser(users, login, password).value;
            var store := Revoke(map[], t0 + 5 * 60, cfg, access);
            && CurrentUser(IsRevoked(map[], t0 + 10 * 60, access), users, cfg, access, t0 + 10 * 60) == Success(u)
            && CurrentUser(IsRevoked(map[], t0 + 20 * 60, access), users, cfg, access, t0 + 20 * 60) == Failure(TokenExpired)
            && CurrentUser(IsRevoked(store, t0 + 6 * 60, access), users, cfg, access, t0 + 6 * 60) == Failure(TokenRevoked)
            && DecodeAccessToken(cfg, access, t0 + 6 * 60).Success?
  {
    var access := LoginForAccessToken(cfg, users, login, password, t0).value.accessToken;
    LoginResolvesToUser(cfg, users, next, login, password, t0, t0 + 10 * 60);
    LoginTokenExpires(cfg, users, login, password, t0, t0 + 20 * 60);
    RevokedUntilExpiry(map[], t0 + 5 * 60, cfg, access, t0 + 6 * 60);
  }
}
