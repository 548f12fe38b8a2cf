/** The per-request context that the web framework hands to middleware and
    handlers: what came in (cookies, route parameters) and what the request
    has written so far (locals, status, body, cookies to set, whether
    control was passed downstream). */
module Http {
  import opened Domain

  const StatusOK: int := 200
  const StatusCreated: int := 201
  const StatusAccepted: int := 202
  const StatusBadRequest: int := 400
  const StatusUnauthorized: int := 401
  const StatusConflict: int := 409
  const StatusInternalServerError: int := 500

  /** The name of the session cookie. */
  const TokenCookie: string := "Jwt_Token"

  /** One `Set-Cookie` the response carries. */
  datatype Cookie = Cookie(
    name: string,
    value: string,
    expires: Instant,
    httpOnly: bool,
    secure: bool,
    sameSite: string)

  /** What the `data` field of a JSON answer holds. */
  datatype Payload = UserData(user: UserResponse) | LoginData(login: LoginUserResponse)

  /** The response body. `ErrorText` is `{"error": "<text>"}`; `ErrorValue`
      is `{"error": err}` with the Go error value itself; `StatusLine` is the
      bare status text that `SendStatus` writes into an empty body. */
  datatype Body =
    | NoBody
    | ErrorText(error: string)
    | ErrorValue(cause: string)
    | StatusLine(text: string)
    | Message(message: string)
    | Data(message: string, data: Payload)
    | Listing(getByuser: string, users: UserListResponse)
    | Plain(user: UserResponse)

  class Ctx {
    const requestCookies: map<string, string>
    const params: map<string, string>
    var locals: map<string, string>
    var status: int
    var body: Body
    var cookies: seq<Cookie>
    var passedOn: bool

    /** A fresh request: nothing written yet, status 200. */
    constructor (requestCookies: map<string, string>, params: map<string, string>)
      ensures this.requestCookies == requestCookies && this.params == params
      ensures locals == map[] && status == StatusOK && body == NoBody && cookies == [] && !passedOn
    {
      this.requestCookies := requestCookies;
      this.params := params;
      locals, status, body, cookies, passedOn := map[], StatusOK, NoBody, [], false;
    }

    /** `c.Cookies(name)`: the request cookie's value, empty when absent. */
    function CookieValue(name: string): string
    {
      if name in requestCookies then requestCookies[name] else ""
    }

    /** `c.Params(name)`: the route parameter, empty when absent. */
    function Param(name: string): string
    {
      if name in params then params[name] else ""
    }
  }
}
