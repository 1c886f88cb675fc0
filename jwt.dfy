/** The JSON Web Token vocabulary the handlers and middlewares share. The
    claims are the registered claims of RFC 7519 that the service issues:
    `sub` (section 4.1.2), `iss` (section 4.1.1), `exp` (section 4.1.4) and
    `iat` (section 4.1.6), with times in integer seconds. SHA-256, HS256
    signing (section 3.2 of RFC 7518) and token parsing are not computed here:
    they are the functions a `Crypto` value carries. */
module Jwt {
  import opened Http

  datatype Claims = Claims(sub: string, iss: string, exp: int, iat: int)

  /** A token as `jwt.Parse` returns it: its claims and its `Valid` flag. */
  datatype ParsedToken = ParsedToken(claims: Claims, valid: bool)

  /** Both results of `jwt.Parse(tokenString, keyFunc)`: the error and the
      (possibly nil) token. */
  datatype ParseResult = ParseResult(err: Option<string>, token: Option<ParsedToken>)

  /** The primitives the service calls but does not implement:
      `digest` is `hex(sha256(password))`, `sign` is HS256 `SignedString`
      under a secret, and `parse` is `jwt.Parse` of a token string under a
      secret at a given instant (signature, structure and expiry checks). */
  datatype Crypto = Crypto(
    digest: string -> string,
    sign: (Claims, string) -> Outcome<string>,
    parse: (string, string, int) -> ParseResult)

  /** Parsing raised no error and produced a non-nil token marked valid. */
  predicate Accepted(p: ParseResult)
  {
    p.err.None? && p.token.Some? && p.token.value.valid
  }
}
