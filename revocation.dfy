/** The revocation store: the Redis client that `revoke_token_jwt` writes and
    `is_token_revoked` reads. A key is a revoked access token and its value
    the instant its time-to-live runs out; `clock` is the current instant in
    whole seconds. */
module Revocation {
  import opened Common
  import opened Jwt
  import opened Tokens

  /** `int(exp - now)` for a token that decodes under the access secret; none
      when decoding fails, whether the token is expired or invalid. */
  function RemainingTtl(cfg: Config, t: Token, now: int): (r: Option<int>)
    ensures r.Some? <==> Decode(t, cfg.accessSecret, now).Valid?
    ensures r.Some? ==> r.value == t.claims.exp - now
  {
    match Decode(t, cfg.accessSecret, now)
    case Valid(c) => Some(c.exp - now)
    case _ => None
  }

  /** The store after `revoke_token_jwt(t)` at `now`: `SETEX t ttl` only when
      the token decodes and its remaining lifetime is positive. The entry then
      lapses exactly when the token itself expires. */
  function Revoke(entries: map<Token, int>, now: int, cfg: Config, t: Token): (m: map<Token, int>)
    ensures RemainingTtl(cfg, t, now).Some? && RemainingTtl(cfg, t, now).value > 0 ==>
              m == entries[t := t.claims.exp]
    ensures !(RemainingTtl(cfg, t, now).Some? && RemainingTtl(cfg, t, now).value > 0) ==> m == entries
  {
    match RemainingTtl(cfg, t, now)
    case Some(ttl) => if ttl > 0 then entries[t := now + ttl] else entries
    case None => entries
  }

  /** `EXISTS t`: the key is present and its time-to-live has not run out. */
  predicate IsRevoked(entries: map<Token, int>, now: int, t: Token) {
    t in entries && now < entries[t]
  }

  /** Every entry is an access token kept until its own expiry and no longer. */
  predicate Bounded(entries: map<Token, int>, cfg: Config) {
    forall t :: t in entries ==> t.Signed? && t.key == cfg.accessSecret && entries[t] == t.claims.exp
  }

  /** A token revoked while live reads as revoked for exactly its remaining
      lifetime. */
  lemma RevokedUntilExpiry(entries: map<Token, int>, now: int, cfg: Config, t: Token, later: int)
    requires Decode(t, cfg.accessSecret, now).Valid?
    requires now <= later
    ensures IsRevoked(Revoke(entries, now, cfg, t), later, t) <==> later < t.claims.exp
  {
  }

  /** Revoking one token does not change what the store says about another. */
  lemma RevokeIsolated(entries: map<Token, int>, now: int, cfg: Config, t: Token, u: Token, later: int)
    requires u != t
    ensures IsRevoked(Revoke(entries, now, cfg, t), later, u) <==> IsRevoked(entries, later, u)
  {
  }

  lemma RevokeKeepsBounded(entries: map<Token, int>, now: int, cfg: Config, t: Token)
    requires Bounded(entries, cfg)
    ensures Bounded(Revoke(entries, now, cfg, t), cfg)
  {
  }

  /** A visible entry never outlives its token: whatever the store reports as
      revoked would still pass the signature and expiry check. */
  lemma EntryNeverOutlivesToken(entries: map<Token, int>, cfg: Config, now: int, t: Token)
    requires Bounded(entries, cfg)
    requires IsRevoked(entries, now, t)
    ensures Decode(t, cfg.accessSecret, now).Valid?
  {
  }

  /** A history of `revoke_token_jwt` calls, each with the instant it ran at. */
  datatype RevokeCall = RevokeCall(at: int, token: Token)

  function Replay(entries: map<Token, int>, cfg: Config, calls: seq<RevokeCall>): map<Token, int>
    decreases |calls|
  {
    if calls == [] then entries
    else Replay(Revoke(entries, calls[0].at, cfg, calls[0].token), cfg, calls[1..])
  }

  /** A token that was never passed to `revoke_token_jwt` is not revoked,
      whatever else was revoked and whenever the store is asked. */
  lemma {:induction false} NeverRevokedReadsFalse(entries: map<Token, int>, cfg: Config, calls: seq<RevokeCall>, t: Token, now: int)
    requires t !in entries
    requires forall i :: 0 <= i < |calls| ==> calls[i].token != t
    ensures !IsRevoked(Replay(entries, cfg, calls), now, t)
    decreases |calls|
  {
    if calls != [] {
      var next := Revoke(entries, calls[0].at, cfg, calls[0].token);
      assert t !in next;
      NeverRevokedReadsFalse(next, cfg, calls[1..], t, now);
    }
  }

  /** Starting empty, every history keeps the store bounded. */
  lemma {:induction false} ReplayKeepsBounded(entries: map<Token, int>, cfg: Config, calls: seq<RevokeCall>)
    requires Bounded(entries, cfg)
    ensures Bounded(Replay(entries, cfg, calls), cfg)
    decreases |calls|
  {
    if calls != [] {
      RevokeKeepsBounded(entries, calls[0].at, cfg, calls[0].token);
      ReplayKeepsBounded(Revoke(entries, calls[0].at, cfg, calls[0].token), cfg, calls[1..]);
    }
  }

  class RevocationStore {
    var entries: map<Token, int>
    var clock: int

    constructor (now: int)
      ensures entries == map[] && clock == now
    {
      entries := map[];
      clock := now;
    }

    /** `revoke_token_jwt`: the decode failure is swallowed. */
    method RevokeTokenJwt(cfg: Config, t: Token)
      modifies this
      ensures clock == old(clock)
      ensures entries == Revoke(old(entries), clock, cfg, t)
    {
      var ttl := RemainingTtl(cfg, t, clock);
      if ttl.Some? && ttl.value > 0 {
        entries := entries[t := clock + ttl.value];
      }
    }

    /** `is_token_revoked`. */
    method IsTokenRevoked(t: Token) returns (b: bool)
      ensures b == IsRevoked(entries, clock, t)
    {
      b := t in entries && clock < entries[t];
    }

    /** Time passes; entries whose time-to-live runs out stop being visible. */
    method Advance(seconds: nat)
      modifies this
      ensures clock == old(clock) + seconds
      ensures entries == old(entries)
    {
      clock := clock + seconds;
    }
  }

  // As written, `revoke_token_jwt` catches `jwt.PyJWTError`, which the
  // python-jose module does not define, so any decode failure (an expired
  // token included) escapes as an uncaught error instead of being swallowed.

  function RevokeAsWritten(entries: map<Token, int>, now: int, cfg: Config, t: Token): (r: Result<map<Token, int>>)
    ensures r.Failure? <==> !Decode(t, cfg.accessSecret, now).Valid?
    ensures r.Failure? ==> r.error == ServerError
    ensures r.Success? ==> r.value == Revoke(entries, now, cfg, t)
  {
    if Decode(t, cfg.accessSecret, now).Valid? then Success(Revoke(entries, now, cfg, t)) else Failure(ServerError)
  }

  /** Logging out with an expired token: as written the call fails with a
      server error; intended, the store is left as it is and nothing is raised. */
  lemma ExpiredRevokeAsWritten(entries: map<Token, int>, cfg: Config, c: Claims, now: int)
    requires Expired(c.exp, now)
    ensures RevokeAsWritten(entries, now, cfg, Encode(c, cfg.accessSecret)) == Failure(ServerError)
    ensures Revoke(entries, now, cfg, Encode(c, cfg.accessSecret)) == entries
  {
  }
}
