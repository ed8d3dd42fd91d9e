/** The signed-token layer (JWT, RFC 7519, signed with HS256 from section 3.2
    of RFC 7518) without its cryptography: a token carries its claims and the
    secret that signed it, and a string that is not a well-formed token is
    kept apart. Decoding checks the signature first and the expiry second. */
module Jwt {
  import opened Common

  datatype Claims = Claims(sub: string, role: Option<string>, exp: int)

  datatype Token = Signed(claims: Claims, key: string) | Malformed(raw: string)

  datatype Decoded = Valid(claims: Claims) | ExpiredSignature | InvalidToken

  /** The one place the expiry boundary is decided: a token whose `exp` is at
      or before the current instant is expired. */
  predicate Expired(exp: int, now: int) {
    exp <= now
  }

  /** `jwt.encode` with HS256: the claims signed under the key. The signature
      bytes are not modelled; the token records the key it was signed with. */
  function Encode(claims: Claims, key: string): (t: Token)
    ensures t.Signed? && t.claims == claims && t.key == key
  {
    Signed(claims, key)
  }

  function Decode(t: Token, key: string, now: int): (r: Decoded)
    ensures r.InvalidToken? <==> !(t.Signed? && t.key == key)
    ensures r.ExpiredSignature? ==> t.Signed? && Expired(t.claims.exp, now)
    ensures r.Valid? ==> t == Encode(r.claims, key) && !Expired(r.claims.exp, now)
  {
    match t
    case Malformed(_) => InvalidToken
    case Signed(c, k) =>
      if k != key then InvalidToken
      else if Expired(c.exp, now) then ExpiredSignature
      else Valid(c)
  }

  /** Decoding what was encoded with the same secret gives the claims back
      until they expire. */
  lemma EncodeDecode(c: Claims, key: string, now: int)
    ensures Decode(Encode(c, key), key, now) == if Expired(c.exp, now) then ExpiredSignature else Valid(c)
  {
  }

  /** A token signed with one secret never decodes under another, expired or not. */
  lemma WrongKeyRejected(c: Claims, signing: string, verifying: string, now: int)
    requires signing != verifying
    ensures Decode(Encode(c, signing), verifying, now) == InvalidToken
  {
  }

  /** Once expired, a token stays expired as the clock moves on. */
  lemma ExpiredStaysExpired(t: Token, key: string, now: int, later: int)
    requires Decode(t, key, now).ExpiredSignature?
    requires now <= later
    ensures Decode(t, key, later).ExpiredSignature?
  {
  }
}
