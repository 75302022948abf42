/**
 * The password hasher and the session-token service of lib/auth.js (lines 6-28). bcrypt
 * and jsonwebtoken are foreign code: each is a pair of functions supplied from outside,
 * and the two facts the rest of the system relies on are stated as predicates that the
 * lemmas needing them take as preconditions.
 */
module Crypto {
  import opened Wrappers

  type UserId = nat

  /** The random salt bcrypt draws for each hash (the cost factor 12 is fixed). */
  type Salt = nat

  /** A bcrypt digest; the salt is embedded in it. */
  datatype Digest = Digest(encoded: string)

  /** `bcrypt.hash(password, 12)` with the salt it drew, and `bcrypt.compare(password, digest)`. */
  datatype Hasher = Hasher(hash: (string, Salt) -> Digest, compare: (string, Digest) -> bool)

  /** A password always verifies against a digest made from it. */
  ghost predicate SoundHasher(h: Hasher) {
    forall password, salt :: h.compare(password, h.hash(password, salt))
  }

  /** Why `jwt.verify` throws. */
  datatype TokenError = Malformed | BadSignature | Expired

  /** The payload `jwt.sign` embeds: `{ userId }`. */
  datatype Claims = Claims(userId: UserId)

  /**
   * `jwt.sign({ userId }, JWT_SECRET, { expiresIn })` and `jwt.verify(token, JWT_SECRET)`
   * at the instant of the request; the secret and the clock are folded into the two functions.
   */
  datatype TokenService = TokenService(sign: UserId -> string, check: string -> Result<Claims, TokenError>)

  /** A token issued for a user decodes to that user while it is unexpired. */
  ghost predicate SoundTokens(t: TokenService) {
    forall u :: t.check(t.sign(u)) == Success(Claims(u))
  }

  /** `verifyToken`: the decoded claims, or null for every kind of verification failure. */
  function VerifyToken(t: TokenService, token: string): (r: Option<Claims>)
    ensures r.Some? <==> t.check(token).Success?
    ensures r.Some? ==> r.value == t.check(token).value
  {
    match t.check(token)
    case Success(claims) => Some(claims)
    case Failure(_) => None
  }

  /** `verifyToken(generateToken(u))` yields `{ userId: u }`. */
  lemma VerifyIssuedToken(t: TokenService, u: UserId)
    requires SoundTokens(t)
    ensures VerifyToken(t, t.sign(u)) == Some(Claims(u))
  {
  }

  /** A bad signature, an expired token and a malformed token all give the same null. */
  lemma VerifyFailuresAlike(t: TokenService, a: string, b: string)
    requires t.check(a).Failure? && t.check(b).Failure?
    ensures VerifyToken(t, a) == VerifyToken(t, b) == None
  {
  }
}
