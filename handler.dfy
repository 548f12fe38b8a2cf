/** The HTTP handlers of the user routes. Each handler is split the way it
    decides: a guard on the request (body parse, route parameter, request
    fields, the authenticated email) that either halts with an answer or
    lets the usecase run, then a mapping from the usecase's outcome to the
    status, the body and what happens to the session cookie. The handler
    methods run that decision against the context and the usecase object. */
module Handler {
  import opened Domain
  import opened Hashing
  import opened Jwt
  import opened Repository
  import opened Workflow
  import opened Usecase
  import opened Http
  import opened Strconv
  import opened Middleware

  const Hour: int := 60 * 60

  /** The instant passed to `Render` by handlers that never write a cookie
      and so read no clock; `KeepCookie` ignores it. */
  const Unclocked: Instant := 0

  /** The only error text the registration handler answers with 409. */
  const DuplicateEmailText: string := "email alreay exists"
  const OwnershipMismatch: string := "Email in the cookie does not match the logged-in email."

  /** What an answer does to the session cookie. */
  datatype CookieAction = KeepCookie | SetSession(token: string) | ClearSession

  datatype Reply = Reply(status: int, body: Body, cookie: CookieAction)

  /** Before the usecase: the input to hand it, or the early answer. */
  datatype Guard<R> = Proceed(input: R) | Halt(reply: Reply)

  /** The `Set-Cookie` lines of an answer issued at `now`: a session cookie
      lives one day; clearing writes an empty one that expired an hour ago. */
  function CookieWrites(action: CookieAction, now: Instant): seq<Cookie>
  {
    match action
    case KeepCookie => []
    case SetSession(token) => [Cookie(TokenCookie, token, now + Day, true, true, "Strict")]
    case ClearSession => [Cookie(TokenCookie, "", now - Hour, true, true, "Strict")]
  }

  /** The context shows `reply`, on top of the cookies written `before`. */
  predicate Shows(c: Ctx, reply: Reply, before: seq<Cookie>, now: Instant)
    reads c
  {
    c.status == reply.status && c.body == reply.body && c.cookies == before + CookieWrites(reply.cookie, now)
  }

  // ---------------------------------------------------------------------
  // Decisions

  /** Registration and login refuse a body that does not parse. */
  function BodyGuard<R>(parsed: Result<R, string>): Guard<R>
  {
    match parsed
    case Err(_) => Halt(Reply(StatusBadRequest, ErrorText("Invalid request body"), KeepCookie))
    case Ok(req) => Proceed(req)
  }

  function CreateUserReply(outcome: Result<UserResponse, string>): Reply
  {
    match outcome
    case Err(e) =>
      if e == DuplicateEmailText then Reply(StatusConflict, ErrorText(e), KeepCookie)
      else Reply(StatusInternalServerError, ErrorText("Failed to create user"), KeepCookie)
    case Ok(user) => Reply(StatusCreated, Data("User created successfully", UserData(user)), KeepCookie)
  }

  function LoginUserReply(outcome: Result<LoginUserResponse, string>): Reply
  {
    match outcome
    case Err(e) =>
      if e == EmailNotFound || e == PasswordMismatch then Reply(StatusConflict, ErrorText(e), KeepCookie)
      else Reply(StatusInternalServerError, ErrorText("Failed to login"), KeepCookie)
    case Ok(res) => Reply(StatusAccepted, Data("Login successful", LoginData(res)), SetSession(res.token))
  }

  /** Logout answers with the default status 200 once the usecase reports no error. */
  function LogoutUserReply(err: Option<string>): Reply
  {
    match err
    case Some(e) => Reply(StatusInternalServerError, ErrorText(e), KeepCookie)
    case None => Reply(StatusOK, Message("logout success"), ClearSession)
  }

  function GetAllUserReply(outcome: Result<UserListResponse, string>, email: string): Reply
  {
    match outcome
    case Err(_) => Reply(StatusInternalServerError, ErrorText("Failed to get users"), KeepCookie)
    case Ok(list) => Reply(StatusOK, Listing(email, list), KeepCookie)
  }

  /** Lookup and delete refuse an `id` parameter that is not an integer. */
  function IdGuard(param: string): Guard<int>
  {
    match Atoi(param)
    case None => Halt(Reply(StatusBadRequest, ErrorText("id parameter is required"), KeepCookie))
    case Some(id) => Proceed(id)
  }

  function GetByIDReply(outcome: Result<UserResponse, string>): Reply
  {
    match outcome
    case Err(e) => Reply(StatusBadRequest, ErrorValue(e), KeepCookie)
    case Ok(user) => Reply(StatusAccepted, Data("Find user success", UserData(user)), KeepCookie)
  }

  function DeleteReply(err: Option<string>): Reply
  {
    match err
    case Some(e) => Reply(StatusBadRequest, ErrorValue(e), KeepCookie)
    case None => Reply(StatusAccepted, Message("Delete User success"), KeepCookie)
  }

  /** Update refuses an unparsable body, an empty new email, and a request
      whose `currentEmail` is not the authenticated email. The authenticated
      email is only read once the first two checks pass. */
  function UpdateGuard(parsed: Result<UpdateUserRequest, string>, locals: map<string, string>): Guard<UpdateUserRequest>
    requires parsed.Ok? && parsed.value.email != "" ==> "email" in locals
  {
    match parsed
    case Err(e) => Halt(Reply(StatusBadRequest, ErrorText(e), KeepCookie))
    case Ok(req) =>
      if req.email == "" then Halt(Reply(StatusBadRequest, StatusLine("Bad Request"), KeepCookie))
      else if locals["email"] != req.currentEmail then Halt(Reply(StatusBadRequest, ErrorText(OwnershipMismatch), KeepCookie))
      else Proceed(req)
  }

  function UpdateReply(outcome: Result<UpdateUserResponse, string>): Reply
  {
    match outcome
    case Err(e) => Reply(StatusBadRequest, ErrorValue(e), KeepCookie)
    case Ok(res) => Reply(StatusAccepted, Plain(res.user), SetSession(res.token))
  }

  function ChangePasswordGuard(parsed: Result<ChangePasswordRequest, string>): Guard<ChangePasswordRequest>
  {
    match parsed
    case Err(e) => Halt(Reply(StatusBadRequest, ErrorValue(e), KeepCookie))
    case Ok(req) => Proceed(req)
  }

  function ChangePasswordReply(outcome: Result<UserResponse, string>): Reply
  {
    match outcome
    case Err(e) => Reply(StatusBadRequest, ErrorValue(e), KeepCookie)
    case Ok(user) => Reply(StatusAccepted, Data("change password successfully", UserData(user)), KeepCookie)
  }

  // ---------------------------------------------------------------------
  // What the decisions promise

  /** Registration answers 201 on success, 409 only for the error text
      "email alreay exists", and 500 for every other error. */
  lemma CreateUserStatuses(outcome: Result<UserResponse, string>)
    ensures CreateUserReply(outcome).status == StatusCreated <==> outcome.Ok?
    ensures CreateUserReply(outcome).status == StatusConflict <==> outcome == Err(DuplicateEmailText)
    ensures CreateUserReply(outcome).status == StatusInternalServerError <==> outcome.Err? && outcome.error != DuplicateEmailText
    ensures CreateUserReply(outcome).cookie == KeepCookie
  {
  }

  /** The usecase reports a taken email as "email already exists", which is
      not the text the handler matches: a duplicate registration is
      answered 500, not 409. */
  lemma DuplicateRegistrationAnswers500(t: Table, req: CreateUserRequest, hasher: Hasher, salt: Salt, now: Instant, f: Faults)
    requires f.read.None?
    requires exists i :: 0 <= i < |t.rows| && t.rows[i].email == req.email
    ensures CreateUserReply(Register(t, req, hasher, salt, now, f).0)
      == Reply(StatusInternalServerError, ErrorText("Failed to create user"), KeepCookie)
  {
    RegisterDuplicate(t, req, hasher, salt, now, f);
    assert EmailExists[11] != DuplicateEmailText[11];
  }

  /** Login answers 202 and sets the session cookie only on success, with
      the token the usecase issued; both credential errors are 409 and every
      other error 500. */
  lemma LoginUserStatuses(outcome: Result<LoginUserResponse, string>, now: Instant)
    ensures LoginUserReply(outcome).status == StatusAccepted <==> outcome.Ok?
    ensures LoginUserReply(outcome).status == StatusConflict <==> outcome in {Err(EmailNotFound), Err(PasswordMismatch)}
    ensures LoginUserReply(outcome).status == StatusInternalServerError <==>
      outcome.Err? && outcome.error != EmailNotFound && outcome.error != PasswordMismatch
    ensures LoginUserReply(outcome).cookie.SetSession? <==> outcome.Ok?
    ensures outcome.Ok? ==>
      CookieWrites(LoginUserReply(outcome).cookie, now) == [Cookie(TokenCookie, outcome.value.token, now + Day, true, true, "Strict")]
  {
  }

  /** A successful logout clears the cookie: an empty value that expired an
      hour before the answer. */
  lemma LogoutClearsCookie(now: Instant)
    ensures LogoutUserReply(None).status == StatusOK && LogoutUserReply(None).body == Message("logout success")
    ensures CookieWrites(LogoutUserReply(None).cookie, now) == [Cookie(TokenCookie, "", now - Hour, true, true, "Strict")]
  {
  }

  /** Listing answers 200 with the session's email exactly on success, and
      500 "Failed to get users" for every error. */
  lemma GetAllUserStatuses(outcome: Result<UserListResponse, string>, email: string)
    ensures GetAllUserReply(outcome, email).status == StatusOK <==> outcome.Ok?
    ensures GetAllUserReply(outcome, email).status == StatusInternalServerError <==> outcome.Err?
    ensures outcome.Ok? ==> GetAllUserReply(outcome, email).body == Listing(email, outcome.value)
    ensures GetAllUserReply(outcome, email).cookie == KeepCookie
  {
  }

  /** Lookup answers 202 with the user exactly on success, and 400 carrying
      the usecase's error for every error. */
  lemma GetByIDStatuses(outcome: Result<UserResponse, string>)
    ensures GetByIDReply(outcome).status == StatusAccepted <==> outcome.Ok?
    ensures GetByIDReply(outcome).status == StatusBadRequest <==> outcome.Err?
    ensures outcome.Err? ==> GetByIDReply(outcome).body == ErrorValue(outcome.error)
    ensures GetByIDReply(outcome).cookie == KeepCookie
  {
  }

  /** Delete answers 202 exactly when the usecase reports no error, and 400
      carrying the error otherwise. */
  lemma DeleteStatuses(err: Option<string>)
    ensures DeleteReply(err).status == StatusAccepted <==> err.None?
    ensures DeleteReply(err).status == StatusBadRequest <==> err.Some?
    ensures err.Some? ==> DeleteReply(err).body == ErrorValue(err.value)
    ensures DeleteReply(err).cookie == KeepCookie
  {
  }

  /** Update answers 202 with the user and resets the session cookie to the
      new token exactly on success; every usecase error is 400 and leaves
      the cookie alone. */
  lemma UpdateStatuses(outcome: Result<UpdateUserResponse, string>)
    ensures UpdateReply(outcome).status == StatusAccepted <==> outcome.Ok?
    ensures UpdateReply(outcome).status == StatusBadRequest <==> outcome.Err?
    ensures outcome.Err? ==> UpdateReply(outcome) == Reply(StatusBadRequest, ErrorValue(outcome.error), KeepCookie)
    ensures outcome.Ok? ==> UpdateReply(outcome).cookie == SetSession(outcome.value.token)
  {
  }

  /** A password change answers 202 exactly on success and 400 carrying the
      usecase's error otherwise; it never touches the cookie. */
  lemma ChangePasswordStatuses(outcome: Result<UserResponse, string>)
    ensures ChangePasswordReply(outcome).status == StatusAccepted <==> outcome.Ok?
    ensures ChangePasswordReply(outcome).status == StatusBadRequest <==> outcome.Err?
    ensures outcome.Err? ==> ChangePasswordReply(outcome).body == ErrorValue(outcome.error)
    ensures ChangePasswordReply(outcome).cookie == KeepCookie
  {
  }

  /** A route id is accepted exactly when it is a decimal integer, and every
      64-bit integer's own rendering, negative ones included, is accepted as
      that integer. */
  lemma IdGuardDecisions(param: string, n: nat)
    ensures IdGuard(param).Proceed? <==> Atoi(param).Some?
    ensures IdGuard(param).Halt? ==> IdGuard(param).reply.status == StatusBadRequest
    ensures n <= MaxInt ==> IdGuard(Decimal(n)) == Proceed(n)
    ensures n <= MaxInt + 1 ==> IdGuard("-" + Decimal(n)) == Proceed(-(n as int))
  {
    AtoiDecimal(n);
  }

  /** Update runs the usecase only for a parsed body with a non-empty email
      whose `currentEmail` is the authenticated email; every refusal is 400. */
  lemma UpdateGuardDecisions(parsed: Result<UpdateUserRequest, string>, locals: map<string, string>)
    requires parsed.Ok? && parsed.value.email != "" ==> "email" in locals
    ensures UpdateGuard(parsed, locals).Proceed? <==>
      parsed.Ok? && parsed.value.email != "" && locals["email"] == parsed.value.currentEmail
    ensures UpdateGuard(parsed, locals).Proceed? ==> UpdateGuard(parsed, locals).input == parsed.value
    ensures UpdateGuard(parsed, locals).Halt? ==> UpdateGuard(parsed, locals).reply.status == StatusBadRequest
  {
  }

  /** The ownership check compares the session with `currentEmail`, but the
      usecase acts on `email`: a user signed in as row `i` who names row
      `j`'s email renames row `j`, and the answer resets the session cookie
      to a token that the codec validates as row `j`'s email. */
  lemma UpdateActsOnNamedAccount(
    t: Table, i: nat, j: nat, name: string, codec: Codec, secret: string, now: Instant)
    requires WellFormed(t) && Sound(codec)
    requires i < |t.rows| && j < |t.rows| && t.rows[j].email != ""
    requires GenerateToken(codec, t.rows[j].email, secret, now).Ok?
    ensures var req := UpdateUserRequest(name, t.rows[j].email, t.rows[i].email);
      var (outcome, t') := Workflow.UpdateUser(t, req, codec, secret, now, Faults(None, None));
      && UpdateGuard(Ok(req), map["email" := t.rows[i].email]) == Proceed(req)
      && t'.rows[j] == t.rows[j].(name := name, updatedAt := now)
      && UpdateReply(outcome).status == StatusAccepted
      && UpdateReply(outcome).cookie.SetSession?
      && ValidateToken(codec, UpdateReply(outcome).cookie.token, secret, now) == Ok(Claims(t.rows[j].email, now, now + Day))
  {
    var req := UpdateUserRequest(name, t.rows[j].email, t.rows[i].email);
    UpdateEffect(t, req, codec, secret, now, j);
    IssuedTokenLifetime(codec, t.rows[j].email, secret, now, now);
  }

  /** The cookie a successful login writes, presented back before it
      expires, opens the session gate for the email that logged in. */
  lemma LoginCookieOpensGate(
    t: Table, req: LoginUserRequest, hasher: Hasher, codec: Codec, secret: string, now: Instant, later: Instant)
    requires Sound(codec)
    requires Login(t, req, hasher, codec, secret, now, None).Ok?
    requires later < now + Day
    ensures var writes := CookieWrites(LoginUserReply(Login(t, req, hasher, codec, secret, now, None)).cookie, now);
      && |writes| == 1 && writes[0].name == TokenCookie && later < writes[0].expires
      && Gate(writes[0].value, token => ValidateToken(codec, token, secret, later)) == Authenticated(req.email)
  {
    LoginSuccess(t, req, hasher, codec, secret, now, None);
    IssuedTokenPassesGate(codec, req.email, secret, now, later);
  }

  // ---------------------------------------------------------------------
  // The handlers

  /** Write `reply` onto the context. */
  method Render(c: Ctx, reply: Reply, now: Instant)
    modifies c
    ensures Shows(c, reply, old(c.cookies), now)
    ensures c.locals == old(c.locals) && c.passedOn == old(c.passedOn)
  {
    c.cookies := c.cookies + CookieWrites(reply.cookie, now);
    c.status, c.body := reply.status, reply.body;
  }

  class UserHandler {
    const usecase: UserUsecase

    constructor (usecase: UserUsecase)
      ensures this.usecase == usecase
    {
      this.usecase := usecase;
    }

    method CreateUser(c: Ctx, parsed: Result<CreateUserRequest, string>, salt: Salt, now: Instant, f: Faults)
      requires usecase.repo.Valid()
      modifies c, usecase.repo
      ensures usecase.repo.Valid()
      ensures c.locals == old(c.locals) && c.passedOn == old(c.passedOn)
      ensures match BodyGuard(parsed)
        case Halt(reply) => Shows(c, reply, old(c.cookies), now) && usecase.repo.State() == old(usecase.repo.State())
        case Proceed(req) =>
          var (outcome, t) := Register(old(usecase.repo.State()), req, usecase.hasher, salt, now, f);
          Shows(c, CreateUserReply(outcome), old(c.cookies), now) && usecase.repo.State() == t
    {
      match BodyGuard(parsed)
      case Halt(reply) =>
        Render(c, reply, now);
      case Proceed(req) =>
        var user := usecase.CreateUser(req, salt, now, f);
        Render(c, CreateUserReply(user), now);
    }

    method LoginUser(c: Ctx, parsed: Result<LoginUserRequest, string>, now: Instant, read: Option<string>)
      modifies c
      ensures c.locals == old(c.locals) && c.passedOn == old(c.passedOn)
      ensures match BodyGuard(parsed)
        case Halt(reply) => Shows(c, reply, old(c.cookies), now)
        case Proceed(req) =>
          Shows(c, LoginUserReply(Login(usecase.repo.State(), req, usecase.hasher, usecase.codec, usecase.jwtSecret, now, read)), old(c.cookies), now)
    {
      match BodyGuard(parsed)
      case Halt(reply) =>
        Render(c, reply, now);
      case Proceed(req) =>
        var res := usecase.LoginUser(req, now, read);
        Render(c, LoginUserReply(res), now);
    }

    method LogoutUser(c: Ctx, now: Instant)
      modifies c
      ensures c.locals == old(c.locals) && c.passedOn == old(c.passedOn)
      ensures Shows(c, LogoutUserReply(None), old(c.cookies), now)
    {
      var err := usecase.LogoutUser();
      Render(c, LogoutUserReply(err), now);
    }

    method GetAllUser(c: Ctx, fault: Option<string>)
      requires "email" in c.locals
      modifies c
      ensures c.locals == old(c.locals) && c.passedOn == old(c.passedOn)
      ensures Shows(c, GetAllUserReply(ListUsers(usecase.repo.State(), fault), old(c.locals)["email"]), old(c.cookies), Unclocked)
    {
      var userEmail := c.locals["email"];
      var users := usecase.GetAllUser(fault);
      Render(c, GetAllUserReply(users, userEmail), Unclocked);
    }

    method GetByID(c: Ctx, fault: Option<string>)
      modifies c
      ensures c.locals == old(c.locals) && c.passedOn == old(c.passedOn)
      ensures match IdGuard(c.Param("id"))
        case Halt(reply) => Shows(c, reply, old(c.cookies), Unclocked)
        case Proceed(id) => Shows(c, GetByIDReply(FindUser(usecase.repo.State(), id, fault)), old(c.cookies), Unclocked)
    {
      match IdGuard(c.Param("id"))
      case Halt(reply) =>
        Render(c, reply, Unclocked);
      case Proceed(id) =>
        var user := usecase.GetByID(id, fault);
        Render(c, GetByIDReply(user), Unclocked);
    }

    method Delete(c: Ctx, fault: Option<string>)
      requires usecase.repo.Valid()
      modifies c, usecase.repo
      ensures usecase.repo.Valid()
      ensures c.locals == old(c.locals) && c.passedOn == old(c.passedOn)
      ensures match IdGuard(c.Param("id"))
        case Halt(reply) => Shows(c, reply, old(c.cookies), Unclocked) && usecase.repo.State() == old(usecase.repo.State())
        case Proceed(id) =>
          var (err, t) := Workflow.DeleteUser(old(usecase.repo.State()), id, fault);
          Shows(c, DeleteReply(err), old(c.cookies), Unclocked) && usecase.repo.State() == t
    {
      match IdGuard(c.Param("id"))
      case Halt(reply) =>
        Render(c, reply, Unclocked);
      case Proceed(id) =>
        var err := usecase.DeleteUser(id, fault);
        Render(c, DeleteReply(err), Unclocked);
    }

    method Update(c: Ctx, parsed: Result<UpdateUserRequest, string>, now: Instant, f: Faults)
      requires usecase.repo.Valid()
      requires parsed.Ok? && parsed.value.email != "" ==> "email" in c.locals
      modifies c, usecase.repo
      ensures usecase.repo.Valid()
      ensures c.locals == old(c.locals) && c.passedOn == old(c.passedOn)
      ensures match UpdateGuard(parsed, old(c.locals))
        case Halt(reply) => Shows(c, reply, old(c.cookies), now) && usecase.repo.State() == old(usecase.repo.State())
        case Proceed(req) =>
          var (outcome, t) := Workflow.UpdateUser(old(usecase.repo.State()), req, usecase.codec, usecase.jwtSecret, now, f);
          Shows(c, UpdateReply(outcome), old(c.cookies), now) && usecase.repo.State() == t
    {
      match UpdateGuard(parsed, c.locals)
      case Halt(reply) =>
        Render(c, reply, now);
      case Proceed(req) =>
        var res := usecase.UpdateUser(req, now, f);
        Render(c, UpdateReply(res), now);
    }

    /** The account whose password changes is the authenticated one; the
        request body only carries the two passwords. */
    method ChangePassword(c: Ctx, parsed: Result<ChangePasswordRequest, string>, salt: Salt, now: Instant, f: Faults)
      requires usecase.repo.Valid()
      requires "email" in c.locals
      modifies c, usecase.repo
      ensures usecase.repo.Valid()
      ensures c.locals == old(c.locals) && c.passedOn == old(c.passedOn)
      ensures match ChangePasswordGuard(parsed)
        case Halt(reply) => Shows(c, reply, old(c.cookies), now) && usecase.repo.State() == old(usecase.repo.State())
        case Proceed(req) =>
          var (outcome, t) := Workflow.ChangePassword(old(usecase.repo.State()), req, old(c.locals)["email"], usecase.hasher, salt, now, f);
          Shows(c, ChangePasswordReply(outcome), old(c.cookies), now) && usecase.repo.State() == t
    {
      var cookieEmail := c.locals["email"];
      match ChangePasswordGuard(parsed)
      case Halt(reply) =>
        Render(c, reply, now);
      case Proceed(req) =>
        var res := usecase.ChangePasswordUser(req, cookieEmail, salt, now, f);
        Render(c, ChangePasswordReply(res), now);
    }
  }
}
