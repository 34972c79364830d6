/**
 * Token signing and password hashing, kept abstract. The JSON Web Token library
 * and bcrypt are functions supplied by the environment; the model relies only on
 * the laws their callers rely on, stated as `JwtSound` and `BcryptSound`.
 */
module Tokens {
  import opened Js

  /** The identity a token carries. */
  datatype Claims = Claims(email: string, userId: string, role: string, fullName: string)

  /** The `name` of the error `jwt.verify` reports. */
  datatype VerifyError = TokenExpiredError | JsonWebTokenError | NotBeforeError

  datatype Verified = Verified(claims: Claims) | Rejected(error: VerifyError)

  /**
   * `jwt.sign` with the server's secret and a one-hour lifetime, `jwt.verify`
   * with that secret at the current time, and `jwt.decode`, which reads the
   * claims without checking the signature and yields `null` for a malformed token.
   */
  datatype Jwt = Jwt(sign: Claims -> string, verify: string -> Verified, decode: string -> Option<Claims>)

  /** A freshly signed token verifies and decodes to the claims it was signed with. */
  ghost predicate JwtSound(jwt: Jwt)
  {
    forall c :: jwt.verify(jwt.sign(c)) == Verified(c) && jwt.decode(jwt.sign(c)) == Some(c)
  }

  /** `bcrypt.hash(password, 10)` and `bcrypt.compare(password, hash)`. */
  datatype Bcrypt = Bcrypt(hash: string -> string, compare: (string, string) -> bool)

  /** A password matches its own hash. */
  ghost predicate BcryptSound(b: Bcrypt)
  {
    forall p :: b.compare(p, b.hash(p))
  }
}
