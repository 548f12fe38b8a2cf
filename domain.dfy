/** Entities, request and response shapes of the user service, and the
    small wrapper types that stand for Go's pointers and `(value, error)`
    pairs. Errors carry their text, because the HTTP layer branches on
    `err.Error()`. */
module Domain {

  /** A reading of the wall clock, in whole seconds. */
  type Instant = int

  /** A value that may be absent; `Option<string>` also stands for a Go
      `error` that is either nil (`None`) or carries a message. */
  datatype Option<T> = None | Some(value: T)

  /** A Go `(value, error)` pair: exactly one of the two is present. */
  datatype Result<T, E> = Ok(value: T) | Err(error: E)

  /** The stored account. `password` holds the bcrypt hash, never the
      plain text; `email` is unique across the table. */
  datatype User = User(
    id: nat,
    name: string,
    email: string,
    password: string,
    createdAt: Instant,
    updatedAt: Instant)

  datatype CreateUserRequest = CreateUserRequest(name: string, email: string, password: string)
  datatype LoginUserRequest = LoginUserRequest(email: string, password: string)
  datatype ChangePasswordRequest = ChangePasswordRequest(currentPassword: string, newPassword: string)
  datatype UpdateUserRequest = UpdateUserRequest(name: string, email: string, currentEmail: string)

  /** The public projection of an account: it has no password field. */
  datatype UserResponse = UserResponse(
    id: nat,
    name: string,
    email: string,
    createdAt: Instant,
    updatedAt: Instant)

  datatype LoginUserResponse = LoginUserResponse(user: UserResponse, token: string)
  datatype UserListResponse = UserListResponse(users: seq<UserResponse>)

  /** The `{"user": ..., "token": ...}` map that the profile update returns. */
  datatype UpdateUserResponse = UpdateUserResponse(user: UserResponse, token: string)

  /** The response built by registration, login, lookup and listing. */
  function Project(u: User): UserResponse
  {
    UserResponse(u.id, u.name, u.email, u.createdAt, u.updatedAt)
  }

  /** The response built by profile update and password change, whose
      `updated_at` is filled from the record's creation time. */
  function ProjectWithCreatedAt(u: User): UserResponse
  {
    UserResponse(u.id, u.name, u.email, u.createdAt, u.createdAt)
  }
}
