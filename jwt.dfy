/** The session-token codec. Tokens are HS256-signed JSON Web Tokens whose
    claims are the account email, `iat` (section 4.1.6 of RFC 7519) and
    `exp` (section 4.1.4 of RFC 7519), one day after `iat`. Signing and
    parsing are left abstract: `sign` and `parse` are properties of the
    library, and `Sound` is all the model assumes of them. Nothing here
    restricts the signing algorithm a parsed token may name. */
module Jwt {
  import opened Domain

  /** Lifetime of an issued token, in seconds. */
  const Day: int := 24 * 60 * 60

  /** The error text of a token whose `exp` lies in the past. */
  const ExpiredError: string := "token has invalid claims: token is expired"

  datatype Claims = Claims(email: string, issuedAt: Instant, expiresAt: Instant)

  /** `sign(claims, secret)` serialises and signs, or fails with a text;
      `parse(token, secret)` checks structure and signature and recovers
      the claims, or fails with a text. */
  datatype Codec = Codec(
    sign: (Claims, string) -> Result<string, string>,
    parse: (string, string) -> Result<Claims, string>)

  /** A signed token is never empty and parses back, under the same
      secret, to the claims it was signed from. */
  ghost predicate Sound(codec: Codec)
  {
    forall claims: Claims, secret: string :: codec.sign(claims, secret).Ok? ==>
      codec.sign(claims, secret).value != "" &&
      codec.parse(codec.sign(claims, secret).value, secret) == Ok(claims)
  }

  /** `GenerateToken`: claims for `email` issued at `now`, signed with `secret`. */
  function GenerateToken(codec: Codec, email: string, secret: string, now: Instant): Result<string, string>
  {
    codec.sign(Claims(email, now, now + Day), secret)
  }

  /** `ValidateToken`: parse and check the signature, then reject a token
      whose expiry is not after `now`. */
  function ValidateToken(codec: Codec, token: string, secret: string, now: Instant): Result<Claims, string>
  {
    match codec.parse(token, secret)
    case Err(e) => Err(e)
    case Ok(claims) => if now < claims.expiresAt then Ok(claims) else Err(ExpiredError)
  }

  /** A token issued at `issued` validates for exactly one day and carries
      the email it was issued for; from then on it is rejected as expired. */
  lemma IssuedTokenLifetime(codec: Codec, email: string, secret: string, issued: Instant, now: Instant)
    requires Sound(codec)
    requires GenerateToken(codec, email, secret, issued).Ok?
    ensures GenerateToken(codec, email, secret, issued).value != ""
    ensures ValidateToken(codec, GenerateToken(codec, email, secret, issued).value, secret, now) ==
            if now < issued + Day then Ok(Claims(email, issued, issued + Day)) else Err(ExpiredError)
  {
    var claims := Claims(email, issued, issued + Day);
    assert codec.sign(claims, secret).Ok?;
  }
}
