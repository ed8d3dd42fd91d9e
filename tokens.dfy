/** Minting and decoding of access and refresh tokens. Each category has its
    own secret; access tokens carry `sub`, `role` and `exp`, refresh tokens
    only `sub` and `exp`. */
module Tokens {
  import opened Common
  import opened Jwt
  import opened Schemas

  /** The two secrets read from the environment at start-up. */
  datatype Config = Config(accessSecret: string, refreshSecret: string)

  const DefaultConfig := Config("supersecretjwtkey", "supersecretrefreshkey")

  const AccessTokenExpireMinutes := 15
  const RefreshTokenExpireDays := 7

  /** Lifetimes in seconds. */
  const AccessLifetime := AccessTokenExpireMinutes * 60
  const RefreshLifetime := RefreshTokenExpireDays * 24 * 60 * 60

  const TokenExpired := HttpError(Unauthorized, "Token expirado")
  const TokenInvalid := HttpError(Unauthorized, "Token inválido")
  const RefreshExpired := HttpError(Unauthorized, "Refresh token expirado")
  const RefreshInvalid := HttpError(Unauthorized, "Refresh token inválido")

  /** `expires_delta or timedelta(minutes=15)`: a missing delta and a zero
      delta (which is falsy) both give the 15-minute default. */
  function AccessLifetimeFor(expiresDelta: Option<int>): (d: int)
    ensures (expiresDelta.None? || expiresDelta.value == 0) ==> d == 15 * 60
    ensures expiresDelta.Some? && expiresDelta.value != 0 ==> d == expiresDelta.value
  {
    if expiresDelta.Some? && expiresDelta.value != 0 then expiresDelta.value else AccessLifetime
  }

  /** `create_access_token`: signed with the access secret, carrying the
      subject and the role, expiring one lifetime after `now`. */
  function CreateAccessToken(cfg: Config, now: int, subject: string, role: string, expiresDelta: Option<int>): (t: Token)
    ensures t.Signed? && t.key == cfg.accessSecret
    ensures t.claims.sub == subject && t.claims.role == Some(role)
    ensures t.claims.exp - now == AccessLifetimeFor(expiresDelta)
  {
    Encode(Claims(subject, Some(role), now + AccessLifetimeFor(expiresDelta)), cfg.accessSecret)
  }

  /** `create_refresh_token`: signed with the refresh secret, carrying only
      the subject, expiring seven days after `now`. */
  function CreateRefreshToken(cfg: Config, now: int, subject: string): (t: Token)
    ensures t.Signed? && t.key == cfg.refreshSecret
    ensures t.claims.sub == subject && t.claims.role.None?
    ensures t.claims.exp - now == RefreshLifetime && RefreshLifetime == 7 * 24 * 60 * 60
  {
    Encode(Claims(subject, None, now + RefreshLifetime), cfg.refreshSecret)
  }

  /** `decode_access_token`. A token without a `role` claim fails payload
      validation, which no handler catches. */
  function DecodeAccessToken(cfg: Config, t: Token, now: int): (r: Result<TokenPayload>)
    ensures r.Success? <==> Decode(t, cfg.accessSecret, now).Valid? && t.claims.role.Some?
    ensures r.Success? ==> Decode(t, cfg.accessSecret, now) == Valid(Claims(r.value.sub, Some(r.value.role), r.value.exp))
    ensures r == Failure(TokenExpired) <==> Decode(t, cfg.accessSecret, now).ExpiredSignature?
    ensures r == Failure(TokenInvalid) <==> Decode(t, cfg.accessSecret, now).InvalidToken?
    ensures r == Failure(ServerError) <==> Decode(t, cfg.accessSecret, now).Valid? && t.claims.role.None?
  {
    match Decode(t, cfg.accessSecret, now)
    case Valid(c) =>
      if c.role.Some? then Success(TokenPayload(c.sub, c.exp, c.role.value)) else Failure(ServerError)
    case ExpiredSignature => Failure(TokenExpired)
    case InvalidToken => Failure(TokenInvalid)
  }

  /** `decode_refresh_token`: the subject of a live refresh token. */
  function DecodeRefreshToken(cfg: Config, t: Token, now: int): (r: Result<string>)
    ensures r.Success? <==> Decode(t, cfg.refreshSecret, now).Valid?
    ensures r.Success? ==> r.value == t.claims.sub
    ensures r == Failure(RefreshExpired) <==> Decode(t, cfg.refreshSecret, now).ExpiredSignature?
    ensures r == Failure(RefreshInvalid) <==> Decode(t, cfg.refreshSecret, now).InvalidToken?
  {
    match Decode(t, cfg.refreshSecret, now)
    case Valid(c) => Success(c.sub)
    case ExpiredSignature => Failure(RefreshExpired)
    case InvalidToken => Failure(RefreshInvalid)
  }

  /** An access token decodes to the subject and role it was minted with until
      its lifetime has elapsed, and to "Token expirado" from then on. */
  lemma AccessRoundTrip(cfg: Config, now: int, subject: string, role: string, expiresDelta: Option<int>, at: int)
    ensures var exp := now + AccessLifetimeFor(expiresDelta);
            DecodeAccessToken(cfg, CreateAccessToken(cfg, now, subject, role, expiresDelta), at)
            == if Expired(exp, at) then Failure(TokenExpired) else Success(TokenPayload(subject, exp, role))
  {
    EncodeDecode(Claims(subject, Some(role), now + AccessLifetimeFor(expiresDelta)), cfg.accessSecret, at);
  }

  /** A refresh token yields its subject for its whole lifetime, then
      "Refresh token expirado". */
  lemma RefreshRoundTrip(cfg: Config, now: int, subject: string, at: int)
    ensures DecodeRefreshToken(cfg, CreateRefreshToken(cfg, now, subject), at)
            == if Expired(now + RefreshLifetime, at) then Failure(RefreshExpired) else Success(subject)
  {
    EncodeDecode(Claims(subject, None, now + RefreshLifetime), cfg.refreshSecret, at);
  }

  /** With distinct secrets a refresh token is never accepted as an access token. */
  lemma RefreshIsNotAccess(cfg: Config, now: int, subject: string, at: int)
    requires cfg.accessSecret != cfg.refreshSecret
    ensures DecodeAccessToken(cfg, CreateRefreshToken(cfg, now, subject), at) == Failure(TokenInvalid)
  {
    WrongKeyRejected(Claims(subject, None, now + RefreshLifetime), cfg.refreshSecret, cfg.accessSecret, at);
  }

  /** With distinct secrets an access token is never accepted as a refresh token. */
  lemma AccessIsNotRefresh(cfg: Config, now: int, subject: string, role: string, expiresDelta: Option<int>, at: int)
    requires cfg.accessSecret != cfg.refreshSecret
    ensures DecodeRefreshToken(cfg, CreateAccessToken(cfg, now, subject, role, expiresDelta), at) == Failure(RefreshInvalid)
  {
    WrongKeyRejected(Claims(subject, Some(role), now + AccessLifetimeFor(expiresDelta)), cfg.accessSecret, cfg.refreshSecret, at);
  }

  /** With one secret for both categories a live refresh token passes the
      signature check as an access token but has no role, so decoding it
      ends in an uncaught validation error. */
  lemma SharedSecretRefreshAsAccess(cfg: Config, now: int, subject: string, at: int)
    requires cfg.accessSecret == cfg.refreshSecret
    requires at < now + RefreshLifetime
    ensures DecodeAccessToken(cfg, CreateRefreshToken(cfg, now, subject), at) == Failure(ServerError)
  {
    EncodeDecode(Claims(subject, None, now + RefreshLifetime), cfg.refreshSecret, at);
  }

  lemma DefaultSecretsDiffer()
    ensures DefaultConfig.accessSecret != DefaultConfig.refreshSecret
  {
    assert DefaultConfig.accessSecret[11] != DefaultConfig.refreshSecret[11];
  }

  // The handlers as written catch `jwt.PyJWTError`, a name the python-jose
  // `jwt` module does not define: evaluating that `except` clause raises
  // AttributeError, so every failure other than an expired signature becomes
  // an uncaught server error. The two functions below are that behaviour; the
  // rest of the model uses DecodeAccessToken and DecodeRefreshToken above.

  function DecodeAccessTokenAsWritten(cfg: Config, t: Token, now: int): (r: Result<TokenPayload>)
    ensures Decode(t, cfg.accessSecret, now).InvalidToken? ==> r == Failure(ServerError)
    ensures !Decode(t, cfg.accessSecret, now).InvalidToken? ==> r == DecodeAccessToken(cfg, t, now)
  {
    match Decode(t, cfg.accessSecret, now)
    case InvalidToken => Failure(ServerError)
    case _ => DecodeAccessToken(cfg, t, now)
  }

  function DecodeRefreshTokenAsWritten(cfg: Config, t: Token, now: int): (r: Result<string>)
    ensures Decode(t, cfg.refreshSecret, now).InvalidToken? ==> r == Failure(ServerError)
    ensures !Decode(t, cfg.refreshSecret, now).InvalidToken? ==> r == DecodeRefreshToken(cfg, t, now)
  {
    match Decode(t, cfg.refreshSecret, now)
    case InvalidToken => Failure(ServerError)
    case _ => DecodeRefreshToken(cfg, t, now)
  }

  /** A garbage bearer string: the code as written answers 500, the intended
      answer is 401 "Token inválido". */
  lemma GarbageAccessTokenAsWritten(cfg: Config, now: int)
    ensures DecodeAccessTokenAsWritten(cfg, Malformed("not-a-jwt"), now) == Failure(ServerError)
    ensures DecodeAccessToken(cfg, Malformed("not-a-jwt"), now) == Failure(TokenInvalid)
  {
  }

  /** An access token offered for refresh: as written 500, intended 401
      "Refresh token inválido". */
  lemma AccessTokenRefreshedAsWritten(cfg: Config, now: int, subject: string)
    requires cfg.accessSecret != cfg.refreshSecret
    ensures DecodeRefreshTokenAsWritten(cfg, CreateAccessToken(cfg, now, subject, "cliente", None), now) == Failure(ServerError)
    ensures DecodeRefreshToken(cfg, CreateAccessToken(cfg, now, subject, "cliente", None), now) == Failure(RefreshInvalid)
  {
  }
}
