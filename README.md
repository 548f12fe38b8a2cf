# fibercrud authentication core, modelled in Dafny

This project models the account and session core of the `fibercrud` user service. That service is a Go web API built on Fiber, gorm and Postgres. The model covers:

- registration;
- login, which issues a one-day JSON Web Token in the `Jwt_Token` cookie;
- logout, which clears that cookie;
- listing, lookup and hard deletion of users;
- profile update;
- password change;
- the session gate (`JWTProtected`) that protects every route except registration, login and logout;
- the HTTP handlers' choice of status code, body and cookie for each outcome.

There are ten modules, following the layers of the program:

| module | file | contents |
|---|---|---|
| `Domain` | `domain.dfy` | the stored account, the request and response shapes, and the two response projections |
| `Hashing` | `hashing.dfy` | bcrypt as an abstract `Hasher` with one assumed property: a hash it made verifies its own password |
| `Jwt` | `jwt.dfy` | the token codec as an abstract `Codec` that is assumed sound; `GenerateToken` and `ValidateToken` with the one-day expiry |
| `Repository` | `repository.dfy` | the gorm repository as an in-memory table with auto-increment ids and a unique email index; `UserTable` is the object whose methods change it in place |
| `Workflow` | `workflow.dfy` | one function per usecase operation, giving the outcome and the table afterwards, with the lemmas about them |
| `Usecase` | `usecase.dfy` | the `UserUsecase` object; each method makes the Go code's repository calls in order and is proved equal to its `Workflow` function |
| `Http` | `http.dfy` | the request context: request cookies and route parameters in; locals, status, body and `Set-Cookie` lines out |
| `Middleware` | `middleware.dfy` | the gate as a function from the cookie to a terminal state, and `JWTProtected`, which writes that state to the context |
| `Strconv` | `strconv.dfy` | Go's `strconv.Atoi` on a 64-bit platform, used for the `id` route parameter |
| `Handler` | `handler.dfy` | each handler as a guard, then the usecase, then a reply; `UserHandler` runs that on the context |

Some inputs are explicit parameters:

- an `Instant` reading of the clock, one per request;
- a `Salt` for each hash operation;
- database faults, as a `Faults` record or a `fault: Option<string>` per repository call;
- the body-parse outcome, a `Result` of the request record or the parser's error text.

Errors are kept as their text, because the handlers branch on `err.Error()`.

Quirks of the code that the model keeps, each pinned by a lemma:

- The usecase reports a taken email as "email already exists". The handler only answers 409 for the text "email alreay exists", so a duplicate registration gets 500 (`Handler.DuplicateRegistrationAnswers500`).
- Profile update fetches the record by the request's new `email`, not by `currentEmail`. Only the handler compares `currentEmail` with the session. A signed-in user can therefore rename another account and receive a session cookie for that account's email (`Handler.UpdateActsOnNamedAccount`).
- Update and password change answer with an `updated_at` copied from `created_at`, while the save stamps the stored `updated_at` with the current time.
- Update saves before it signs the token, so a signing failure reports an error but keeps the new name.

## Model

| member | source | states |
|---|---|---|
| Repository.ErrorText | infrastructure/repository/postgres/user/user_repo_postgres.go:25-28 | definition, no contract; gorm's `err.Error()`: "record not found" for a missing row, the driver's text otherwise; its promises are stated by `Workflow.FindUserOutcome` and `Workflow.UpdateNeedsExistingEmail` |
| Repository.Lookup | infrastructure/repository/postgres/user/user_repo_postgres.go:22-48 | definition, no contract; its promises are stated by `Repository.FindOwnRow`, `Workflow.FindUserOutcome` and the `GetByEmail`/`GetByID` method contracts: the first row the key selects, "record not found", or the fault |
| Repository.Insert | infrastructure/repository/postgres/user/user_repo_postgres.go:18-20 | definition, no contract; its promises are stated by `Repository.InsertKeepsWellFormed`: append under the next id, refuse a taken email, or fail on the fault |
| Repository.Save | infrastructure/repository/postgres/user/user_repo_postgres.go:55-61 | definition, no contract; its promises are stated by `Repository.SaveKeepsWellFormed`, `Workflow.UpdateEffect` and `Workflow.ChangePasswordSuccess`: overwrite the row with the record's id, stamping `updated_at` |
| Repository.Remove | infrastructure/repository/postgres/user/user_repo_postgres.go:50-53 | definition, no contract; its promises are stated by `Repository.RemoveKeepsWellFormed` and `Repository.RemoveDeletes`: hard delete of the row with the id |
| Repository.All | infrastructure/repository/postgres/user/user_repo_postgres.go:32-39 | definition, no contract; its promises are stated by `Workflow.ListUsersProjects`: every row, or the fault |
| Domain.Project | application/usecase/user/user_usecase.go:68-74 | definition, no contract; the `UserResponse` built at lines 68-74, 96-105, 122-128 and 144-150, with no password field; its promises are stated by `Workflow.RegisterSuccess`, `LoginSuccess`, `FindUserOutcome` and `ListUsersProjects` |
| Domain.ProjectWithCreatedAt | application/usecase/user/user_usecase.go:171-177 | definition, no contract; the response of update and password change (also lines 212-218), whose `updated_at` is the creation time; its promises are stated by `Workflow.UpdateEffect` and `Workflow.ChangePasswordSuccess` |
| Repository.Find | infrastructure/repository/postgres/user/user_repo_postgres.go:25 | the result is the position of the first row the key selects, and it is absent exactly when no row matches |
| Repository.FindOwnRow | internal/domain/user/user.go:5-12 | in a well-formed table, every row is found by its own email and by its own id |
| Repository.InsertKeepsWellFormed | infrastructure/repository/postgres/user/user_repo_postgres.go:18-20 | a create keeps ids and emails unique and ids below the counter; it succeeds exactly when there is no fault and the email is free; a failure leaves the table unchanged; on success the record gets the next id, which no row holds yet, and is appended |
| Repository.SaveKeepsWellFormed | infrastructure/repository/postgres/user/user_repo_postgres.go:55-61 | a full save keeps ids and emails unique, and ids positive and below the counter |
| Repository.RemoveKeepsWellFormed | infrastructure/repository/postgres/user/user_repo_postgres.go:50-53 | a delete keeps the table's invariant |
| Repository.RemoveDeletes | infrastructure/repository/postgres/user/user_repo_postgres.go:50-53 | after a delete no row has the id, and exactly the rows with other ids remain |
| Repository.UserTable.constructor | internal/domain/user/user.go:5-12 | a fresh store is empty, well-formed, and its next id is 1 |
| Repository.UserTable.Create | infrastructure/repository/postgres/user/user_repo_postgres.go:18-20 | keeps the invariant; the outcome and new state are those of `Insert` on the old state |
| Repository.UserTable.GetByEmail | infrastructure/repository/postgres/user/user_repo_postgres.go:22-30 | a found record is a stored row with that email; otherwise "record not found" or the database error |
| Repository.UserTable.GetByID | infrastructure/repository/postgres/user/user_repo_postgres.go:41-48 | a found record is a stored row with that id; otherwise "record not found" or the database error |
| Repository.UserTable.GetAllUser | infrastructure/repository/postgres/user/user_repo_postgres.go:32-39 | every row, in the model's insertion order, or the database error |
| Repository.UserTable.Update | infrastructure/repository/postgres/user/user_repo_postgres.go:55-61 | keeps the invariant; the outcome and new state are those of `Save` on the old state |
| Repository.UserTable.Delete | infrastructure/repository/postgres/user/user_repo_postgres.go:50-53 | keeps the invariant; the outcome and new state are those of `Remove` on the old state |
| Jwt.GenerateToken | internal/pkg/jwt/jwt.go:14-25 | definition, no contract; its promises are stated by `Jwt.IssuedTokenLifetime`: claims for the email, issued now, expiring one day later, signed with the secret |
| Jwt.ValidateToken | internal/pkg/jwt/jwt.go:27-39 | definition, no contract; its promises are stated by `Jwt.IssuedTokenLifetime`: parse and check the signature, then accept only while the clock is before `exp` |
| Jwt.IssuedTokenLifetime | internal/pkg/jwt/jwt.go:14-39 | a token issued at instant `t` is non-empty; it validates to the claims (email, `t`, `t` + one day) while the clock is before `t` + one day, and is rejected as expired from then on |
| Workflow.Register | application/usecase/user/user_usecase.go:39-75 | definition, no contract; its promises are stated by `Workflow.RegisterDuplicate`, `RegisterFailureKeepsTable`, `RegisterSuccess`, `RegisterKeepsWellFormed` and `RegisterThenLogin` |
| Workflow.Login | application/usecase/user/user_usecase.go:77-106 | definition, no contract; its promises are stated by `Workflow.LoginFailures`, `LoginSuccess` and `RegisterThenLogin` |
| Workflow.Projections | application/usecase/user/user_usecase.go:119-129 | definition, no contract; its promises are stated by `Workflow.ListUsersProjects` and the contract of `Usecase.UserUsecase.GetAllUser`: one projection per user, in order |
| Workflow.ListUsers | application/usecase/user/user_usecase.go:112-135 | definition, no contract; its promises are stated by `Workflow.ListUsersProjects` |
| Workflow.FindUser | application/usecase/user/user_usecase.go:137-151 | definition, no contract; its promises are stated by `Workflow.FindUserOutcome` |
| Workflow.DeleteUser | application/usecase/user/user_usecase.go:153-156 | definition, no contract; its promises are stated by `Workflow.DeleteUserEffect` |
| Workflow.UpdateUser | application/usecase/user/user_usecase.go:158-188 | definition, no contract; its promises are stated by `Workflow.UpdateNeedsExistingEmail`, `UpdateEffect`, `UpdateKeepsWellFormed`, `UpdateIgnoresCurrentEmail` and `Handler.UpdateActsOnNamedAccount` |
| Workflow.ChangePassword | application/usecase/user/user_usecase.go:190-221 | definition, no contract; its promises are stated by `Workflow.ChangePasswordWrongCurrent`, `ChangePasswordFailureKeepsTable`, `ChangePasswordSuccess` and `ChangePasswordKeepsWellFormed` |
| Workflow.RegisterDuplicate | application/usecase/user/user_usecase.go:39-47 | when the email is taken, registration fails with "email already exists" and the table is unchanged |
| Workflow.RegisterFailureKeepsTable | application/usecase/user/user_usecase.go:39-66 | a failed registration leaves the table unchanged; a failed email check is reported with the prefix "failed to check existing email: " |
| Workflow.RegisterSuccess | application/usecase/user/user_usecase.go:39-75 | registration succeeds exactly when there is no fault, the email is free, and hashing succeeds; the new row takes the next id and holds the hash, which verifies the password under a consistent hasher; the answer is the row's projection |
| Workflow.RegisterKeepsWellFormed | application/usecase/user/user_usecase.go:39-75 | registration keeps the table's invariant |
| Workflow.RegisterThenLogin | application/usecase/user/user_usecase.go:39-106 | after a successful registration, logging in with the same email and password succeeds, answers with the registered user, and issues a token that validates to that email for one day |
| Workflow.LoginFailures | application/usecase/user/user_usecase.go:77-89 | an unknown email is "email not found"; a known email whose hash does not verify is "password don't match"; neither outcome depends on the token codec |
| Workflow.LoginSuccess | application/usecase/user/user_usecase.go:77-106 | a successful login means there was no read fault and the stored hash for that email verifies the password; the answer is that row's projection; the token is issued for the requested email and validates to it |
| Workflow.FindUserOutcome | application/usecase/user/user_usecase.go:137-151 | lookup succeeds exactly for an id in the table, answering with that row's projection; a missing id is "record not found" |
| Workflow.ListUsersProjects | application/usecase/user/user_usecase.go:112-135 | listing succeeds exactly without a fault, with one projection per row, in order |
| Workflow.DeleteUserEffect | application/usecase/user/user_usecase.go:153-156 | delete fails only on a fault, leaving the table as it was; otherwise exactly the rows with other ids remain, and the invariant holds |
| Workflow.UpdateNeedsExistingEmail | application/usecase/user/user_usecase.go:158-163 | when no account has the request's `email`, update fails with "failed to update user: record not found" and changes nothing |
| Workflow.UpdateEffect | application/usecase/user/user_usecase.go:158-188 | update renames only the row holding the request's email and stamps its `updated_at`; the save stays even when signing fails; the answer's `updated_at` is the creation time |
| Workflow.UpdateFaultsKeepTable | application/usecase/user/user_usecase.go:158-170 | a lookup fault fails the update with the prefix "failed to update user: " and leaves the table unchanged; a save fault fails it and leaves the table unchanged; every failure except a signing failure after a successful save leaves the table unchanged |
| Workflow.UpdateKeepsWellFormed | application/usecase/user/user_usecase.go:158-188 | update keeps the table's invariant |
| Workflow.UpdateIgnoresCurrentEmail | application/usecase/user/user_usecase.go:158-188 | the outcome and the new table do not depend on the request's `currentEmail` |
| Workflow.ChangePasswordWrongCurrent | application/usecase/user/user_usecase.go:190-200 | a current password that does not verify is refused with the hasher's error, and the table is unchanged |
| Workflow.ChangePasswordFailureKeepsTable | application/usecase/user/user_usecase.go:190-211 | every failed password change leaves the table unchanged; a lookup fault is passed through as it is |
| Workflow.ChangePasswordSuccess | application/usecase/user/user_usecase.go:190-221 | on success only the password of the account with the given email changes, to a hash of the new password that verifies it; `updated_at` is stamped; the answer's `updated_at` is the creation time |
| Workflow.ChangePasswordKeepsWellFormed | application/usecase/user/user_usecase.go:190-221 | a password change keeps the table's invariant |
| Usecase.UserUsecase.CreateUser | application/usecase/user/user_usecase.go:39-75 | keeps the store's invariant; the answer and the store afterwards are those of `Workflow.Register` |
| Usecase.UserUsecase.LoginUser | application/usecase/user/user_usecase.go:77-106 | the answer is that of `Workflow.Login` on the current store |
| Usecase.UserUsecase.LogoutUser | application/usecase/user/user_usecase.go:108-110 | logout never reports an error |
| Usecase.UserUsecase.GetAllUser | application/usecase/user/user_usecase.go:112-135 | the loop builds the answer of `Workflow.ListUsers`: one projection per stored row, in order |
| Usecase.UserUsecase.GetByID | application/usecase/user/user_usecase.go:137-151 | the answer is that of `Workflow.FindUser` |
| Usecase.UserUsecase.DeleteUser | application/usecase/user/user_usecase.go:153-156 | keeps the invariant; the error and the store afterwards are those of `Workflow.DeleteUser` |
| Usecase.UserUsecase.UpdateUser | application/usecase/user/user_usecase.go:158-188 | keeps the invariant; the answer and the store afterwards are those of `Workflow.UpdateUser` |
| Usecase.UserUsecase.ChangePasswordUser | application/usecase/user/user_usecase.go:190-221 | keeps the invariant; the answer and the store afterwards are those of `Workflow.ChangePassword` |
| Middleware.Gate | internal/middleware/auth.go:11-28 | definition, no contract; its promises are stated by `Middleware.NoCookieRejected`, `ValidationErrorsLookAlike`, `GateOutcome`, `IssuedTokenPassesGate` and the contract of `Middleware.JWTProtected` |
| Http.Ctx.CookieValue | internal/middleware/auth.go:11 | definition, no contract; `c.Cookies(name)`, empty when the request has no such cookie; its promises are stated by `Middleware.NoCookieRejected` and the contract of `Middleware.JWTProtected` |
| Http.Ctx.Param | internal/delivery/user/user_handler.go:127 | definition, no contract; `c.Params(name)`, empty when absent (also line 150); its promises are stated by the contracts of `Handler.UserHandler.GetByID` and `Handler.UserHandler.Delete` |
| Middleware.NoCookieRejected | internal/middleware/auth.go:11-17 | a missing or empty cookie is answered 401 "please login" whatever the validator would say |
| Middleware.ValidationErrorsLookAlike | internal/middleware/auth.go:19-24 | every validation error gets the same 401 "invalid or expired token" |
| Middleware.GateOutcome | internal/middleware/auth.go:9-30 | the gate always ends in a terminal state; it authenticates exactly when the cookie is non-empty and validates, with the token's email; a rejection is 401 |
| Middleware.IssuedTokenPassesGate | internal/middleware/auth.go:9-30 | a token issued at login passes the gate, with the email it was issued for, while the clock is before one day after its issue; its issue time is not compared with the clock |
| Middleware.JWTProtected | internal/middleware/auth.go:9-30 | the context shows the gate's state: on success the local `email` is set and control passes on; on rejection 401 and the error; no cookie is written |
| Strconv.Atoi | internal/delivery/user/user_handler.go:127 | definition, no contract; its promises are stated by `Strconv.AtoiDecimal`, `Strconv.AtoiRejectsNonNumeric` and `Handler.IdGuardDecisions`; the same parse happens at line 150 |
| Strconv.AtoiDecimal | internal/delivery/user/user_handler.go:127 | parsing the decimal rendering of every 64-bit integer, with or without a minus sign, gives that integer back, and every value outside the 64-bit range is refused |
| Strconv.AtoiRejectsNonNumeric | internal/delivery/user/user_handler.go:127 | empty text, a bare sign, and text holding a non-digit are not numbers |
| Handler.CookieWrites | internal/delivery/user/user_handler.go:72-102 | definition, no contract; its promises are stated by `Handler.LoginUserStatuses`, `Handler.LogoutClearsCookie` and `Handler.LoginCookieOpensGate` |
| Handler.BodyGuard | internal/delivery/user/user_handler.go:24-28 | definition, no contract; its promises are the contracts of `Handler.UserHandler.CreateUser` and `LoginUser`: an unparsable body halts with 400 "Invalid request body"; the same check is at lines 53-57 |
| Handler.CreateUserReply | internal/delivery/user/user_handler.go:30-46 | definition, no contract; its promises are stated by `Handler.CreateUserStatuses` and `Handler.DuplicateRegistrationAnswers500` |
| Handler.LoginUserReply | internal/delivery/user/user_handler.go:59-85 | definition, no contract; its promises are stated by `Handler.LoginUserStatuses` and `Handler.LoginCookieOpensGate` |
| Handler.LogoutUserReply | internal/delivery/user/user_handler.go:89-105 | definition, no contract; its promises are stated by `Handler.LogoutClearsCookie` |
| Handler.GetAllUserReply | internal/delivery/user/user_handler.go:111-122 | definition, no contract; its promises are stated by `Handler.GetAllUserStatuses` |
| Handler.IdGuard | internal/delivery/user/user_handler.go:127-132 | definition, no contract; its promises are stated by `Handler.IdGuardDecisions`; the same guard is at lines 150-155 |
| Handler.GetByIDReply | internal/delivery/user/user_handler.go:134-146 | definition, no contract; its promises are stated by `Handler.GetByIDStatuses` |
| Handler.DeleteReply | internal/delivery/user/user_handler.go:157-168 | definition, no contract; its promises are stated by `Handler.DeleteStatuses` |
| Handler.UpdateGuard | internal/delivery/user/user_handler.go:172-189 | definition, no contract; its promises are stated by `Handler.UpdateGuardDecisions` and `Handler.UpdateActsOnNamedAccount` |
| Handler.UpdateReply | internal/delivery/user/user_handler.go:191-207 | definition, no contract; its promises are stated by `Handler.UpdateStatuses` and `Handler.UpdateActsOnNamedAccount` |
| Handler.ChangePasswordGuard | internal/delivery/user/user_handler.go:216-220 | definition, no contract; its promises are stated by the contract of `Handler.UserHandler.ChangePassword`: an unparsable body halts with 400 carrying the parser's error |
| Handler.ChangePasswordReply | internal/delivery/user/user_handler.go:222-232 | definition, no contract; its promises are stated by `Handler.ChangePasswordStatuses` |
| Handler.CreateUserStatuses | internal/delivery/user/user_handler.go:30-46 | registration answers 201 exactly on success, 409 exactly for the error text "email alreay exists", 500 for every other error, and never sets a cookie |
| Handler.DuplicateRegistrationAnswers500 | internal/delivery/user/user_handler.go:30-40 | a registration with a taken email is answered 500 "Failed to create user", not 409 |
| Handler.LoginUserStatuses | internal/delivery/user/user_handler.go:59-85 | login answers 202 exactly on success, 409 exactly for the two credential errors, 500 otherwise; the session cookie is written only on success, with the issued token, expiring one day later, HttpOnly, Secure, SameSite Strict |
| Handler.LogoutClearsCookie | internal/delivery/user/user_handler.go:88-106 | logout answers 200 "logout success" and overwrites the cookie with an empty one that expired an hour earlier |
| Handler.GetAllUserStatuses | internal/delivery/user/user_handler.go:111-122 | listing answers 200 with the session's email and the list exactly on success, 500 for every error, and never sets a cookie |
| Handler.GetByIDStatuses | internal/delivery/user/user_handler.go:134-146 | lookup answers 202 exactly on success and 400 carrying the usecase's error for every error; no cookie is written |
| Handler.DeleteStatuses | internal/delivery/user/user_handler.go:157-168 | delete answers 202 exactly when the usecase reports no error and 400 carrying the error otherwise; no cookie is written |
| Handler.UpdateStatuses | internal/delivery/user/user_handler.go:191-207 | update answers 202 and resets the session cookie to the new token exactly on success; every usecase error is 400 and leaves the cookie alone |
| Handler.ChangePasswordStatuses | internal/delivery/user/user_handler.go:222-232 | a password change answers 202 exactly on success and 400 carrying the usecase's error otherwise; no cookie is written |
| Handler.IdGuardDecisions | internal/delivery/user/user_handler.go:127-132 | the usecase runs exactly when the `id` parameter parses as an integer; every refusal is 400; the rendering of every 64-bit integer, negative ones included, is accepted as that integer |
| Handler.UpdateGuardDecisions | internal/delivery/user/user_handler.go:171-189 | update runs the usecase exactly for a parsed body with a non-empty `email` whose `currentEmail` is the session's email; every refusal is 400 |
| Handler.UpdateActsOnNamedAccount | internal/delivery/user/user_handler.go:171-209 | a session for one account that names another account's email passes the guard, renames that other account, and receives a cookie whose token validates to the other account's email |
| Handler.LoginCookieOpensGate | internal/delivery/user/user_handler.go:72-79 | the single cookie a successful login writes, presented back before it expires, opens the session gate for the email that logged in |
| Handler.Render | internal/delivery/user/user_handler.go:72-85 | the context afterwards shows the reply's status and body, and the cookies written before followed by the reply's `Set-Cookie` lines; locals and the pass-on flag are unchanged |
| Handler.UserHandler.CreateUser | internal/delivery/user/user_handler.go:21-48 | an unparsable body gets 400 "Invalid request body" and the store is untouched; otherwise the context shows the reply to `Workflow.Register`'s outcome, and the store is what it leaves |
| Handler.UserHandler.LoginUser | internal/delivery/user/user_handler.go:50-86 | an unparsable body gets 400; otherwise the context shows the reply to `Workflow.Login`'s outcome, with its cookie |
| Handler.UserHandler.LogoutUser | internal/delivery/user/user_handler.go:88-106 | the context shows 200 "logout success" and the clearing cookie |
| Handler.UserHandler.GetAllUser | internal/delivery/user/user_handler.go:108-124 | the context shows the list answer tagged with the session's email, or 500 "Failed to get users" |
| Handler.UserHandler.GetByID | internal/delivery/user/user_handler.go:126-147 | a non-integer `id` gets 400 "id parameter is required"; otherwise the context shows the reply to `Workflow.FindUser`'s outcome |
| Handler.UserHandler.Delete | internal/delivery/user/user_handler.go:149-169 | a non-integer `id` gets 400 and the store is untouched; otherwise the context shows the reply to `Workflow.DeleteUser`, and the store is what it leaves |
| Handler.UserHandler.Update | internal/delivery/user/user_handler.go:171-209 | a halting guard leaves the store untouched and shows its 400; otherwise the context shows the reply to `Workflow.UpdateUser`, with the new session cookie on success, and the store is what it leaves |
| Handler.UserHandler.ChangePassword | internal/delivery/user/user_handler.go:211-233 | the password changed is that of the session's email; an unparsable body gets 400 and the store is untouched; otherwise the context shows the reply to `Workflow.ChangePassword`, and the store is what it leaves |

## Left out

- bcrypt is not modelled inside. `Hasher` is abstract and assumed only to verify its own hashes. The cost factor, the 72-byte limit and the hash format are not modelled.
- Signing and parsing of JSON Web Tokens are abstract. `Codec` is assumed only to return what it signed. HMAC, base64url and JSON are not modelled. Nothing is claimed about which signing algorithm `ValidateToken` accepts, because the key function does not check it.
- The usecase imports its token package from `clean/infrastructure/pkg/jwt`, which is not part of this model. It is modelled by `internal/pkg/jwt/jwt.go`, which the gate uses.
- The handler imports the usecase package `clean/internal/usecase/user`, which is not part of this model. It is taken to be `application/usecase/user/user_usecase.go`, with the same error texts.
- Postgres and gorm are replaced by an in-memory table:
  - a create always takes the next id;
  - a save of a record whose id is missing inserts it;
  - database failures are explicit fault inputs.
- Repository.Save: a record whose id is not in the table is inserted under the next id, whereas gorm inserts a record with a non-zero id under that id. Neither workflow reaches this branch, since both save a row they have just read.
- Repository.All: the listing order is the model's choice (insertion order). The query has no `ORDER BY`, so Postgres promises no order.
- SQL and transactions are not modelled. Neither are concurrent requests: each handler call runs alone.
- Each request takes one reading of the clock. The Go code calls `time.Now()` several times per request.
- Instants are kept as seconds. RFC 3339 formatting of `created_at` and `updated_at` is not modelled.
- Logging (`fmt.Println`) is not modelled.
- Fiber itself is not modelled:
  - the body parser's outcome is an input;
  - JSON encoding of answers is not modelled: a body holding an `errors.New` value encodes as `{}` on the wire, and how other error values (database driver or bcrypt errors passed through unchanged) encode is not modelled;
  - `c.Next()` is reduced to the `passedOn` flag.
- Logout's 500 branch is modelled in `Handler.LogoutUserReply`, but it cannot be reached, since the usecase never fails.
- Handler.UserHandler.GetAllUser, Handler.UserHandler.ChangePassword: require the session's `email` in the locals, which the gate always sets on these routes. Without it the Go handlers panic on the type assertion, and the model does not cover that.
- Handler.UserHandler.Update: requires the session's `email` only once the body has parsed with a non-empty `email`, which is when the Go code reads it.
- Configuration loading, dependency wiring, the router, database setup and `main` are not modelled.
