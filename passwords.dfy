/** Password hashing (`get_password_hash`, `verify_password`). The bcrypt
    transform itself is not modelled: a digest records only which password
    produced it, so a stored digest is never the plaintext and verification
    accepts exactly the password that was hashed. */
module Passwords {

  datatype Digest = Bcrypt(source: string)

  /** `get_password_hash`: a fresh digest of the password; in this model the
      digest is determined by the password alone (salting is left out). */
  function GetPasswordHash(password: string): (h: Digest)
    ensures h.source == password
  {
    Bcrypt(password)
  }

  function VerifyPassword(plain: string, hashed: Digest): (ok: bool)
    ensures ok <==> hashed == GetPasswordHash(plain)
  {
    hashed.source == plain
  }

  /** Different passwords never share a digest. */
  lemma HashInjective(p: string, q: string)
    ensures GetPasswordHash(p) == GetPasswordHash(q) ==> p == q
  {
  }

  /** A digest verifies the password it was made from and no other. */
  lemma VerifyOwnHash(plain: string, stored: string)
    ensures VerifyPassword(plain, GetPasswordHash(stored)) <==> plain == stored
  {
  }
}
