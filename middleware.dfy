/** The session gate in front of the listing, lookup, delete, update and
    password-change routes. Per request it moves from unauthenticated to
    exactly one of two terminal states: authenticated (the token's email is
    attached to the request and control passes on) or rejected (401). */
module Middleware {
  import opened Domain
  import opened Jwt
  import opened Http

  const PleaseLogin: string := "please login"
  const InvalidToken: string := "invalid or expired token"

  /** Token validation under the configured secret, left abstract. */
  type Validator = string -> Result<Claims, string>

  datatype GateState = Unauthenticated | Authenticated(email: string) | Rejected(status: int, error: string)

  /** The gate's one transition, from the cookie value of the request. */
  function Gate(token: string, validate: Validator): GateState
  {
    if token == "" then Rejected(StatusUnauthorized, PleaseLogin)
    else match validate(token)
      case Err(_) => Rejected(StatusUnauthorized, InvalidToken)
      case Ok(claims) => Authenticated(claims.email)
  }

  /** An empty or missing cookie is refused with "please login" whatever the
      validator would say: validation is not consulted. */
  lemma NoCookieRejected(validate: Validator, other: Validator)
    ensures Gate("", validate) == Gate("", other) == Rejected(StatusUnauthorized, PleaseLogin)
  {
  }

  /** Every validation error yields the same answer, so the gate does not
      tell expired from malformed or forged tokens. */
  lemma ValidationErrorsLookAlike(token: string, validate: Validator, other: Validator)
    requires token != "" && validate(token).Err? && other(token).Err?
    ensures Gate(token, validate) == Gate(token, other) == Rejected(StatusUnauthorized, InvalidToken)
  {
  }

  /** The gate always ends in a terminal state: it authenticates exactly
      when the cookie is non-empty and validates, with the token's email. */
  lemma GateOutcome(token: string, validate: Validator)
    ensures !Gate(token, validate).Unauthenticated?
    ensures Gate(token, validate).Authenticated? <==> token != "" && validate(token).Ok?
    ensures Gate(token, validate).Authenticated? ==> Gate(token, validate).email == validate(token).value.email
    ensures Gate(token, validate).Rejected? ==> Gate(token, validate).status == StatusUnauthorized
  {
  }

  /** A token issued at login is let through, under the codec's own
      validation, with the email it was issued for, until one day after it
      was issued. Its issue time is not checked against the clock. */
  lemma IssuedTokenPassesGate(codec: Codec, email: string, secret: string, issued: Instant, now: Instant)
    requires Sound(codec) && GenerateToken(codec, email, secret, issued).Ok?
    requires now < issued + Day
    ensures Gate(GenerateToken(codec, email, secret, issued).value, t => ValidateToken(codec, t, secret, now))
      == Authenticated(email)
  {
    IssuedTokenLifetime(codec, email, secret, issued, now);
  }

  /** `JWTProtected`: run the gate on the request's `Jwt_Token` cookie.
      Rejection writes 401 and the error; authentication sets the local
      `email` and passes control on. Nothing else is written. */
  method JWTProtected(c: Ctx, validate: Validator) returns (state: GateState)
    modifies c
    ensures state == Gate(c.CookieValue(TokenCookie), validate)
    ensures state.Authenticated? ==>
      && c.locals == old(c.locals)["email" := state.email] && c.passedOn
      && c.status == old(c.status) && c.body == old(c.body)
    ensures state.Rejected? ==>
      && c.status == state.status && c.body == ErrorText(state.error)
      && c.locals == old(c.locals) && c.passedOn == old(c.passedOn)
    ensures c.cookies == old(c.cookies)
  {
    var token := c.CookieValue(TokenCookie);
    if token == "" {
      c.status, c.body := StatusUnauthorized, ErrorText(PleaseLogin);
      return Rejected(StatusUnauthorized, PleaseLogin);
    }
    var claims := validate(token);
    if claims.Err? {
      c.status, c.body := StatusUnauthorized, ErrorText(InvalidToken);
      return Rejected(StatusUnauthorized, InvalidToken);
    }
    c.locals := c.locals["email" := claims.value.email];
    c.passedOn := true;
    return Authenticated(claims.value.email);
  }
}
