/** The credential workflow as an object over the user store. Each method
    performs the repository calls of the Go usecase in order and is proved
    to answer, and to leave the store, exactly as the matching function of
    module Workflow says. The hasher and the token codec are injected
    library behaviour; the signing secret is fixed at construction. */
module Usecase {
  import opened Domain
  import opened Hashing
  import opened Jwt
  import opened Repository
  import opened Workflow

  class UserUsecase {
    const repo: UserTable
    const jwtSecret: string
    const hasher: Hasher
    const codec: Codec

    constructor (repo: UserTable, jwtSecret: string, hasher: Hasher, codec: Codec)
      ensures this.repo == repo && this.jwtSecret == jwtSecret
      ensures this.hasher == hasher && this.codec == codec
    {
      this.repo := repo;
      this.jwtSecret := jwtSecret;
      this.hasher := hasher;
      this.codec := codec;
    }

    method CreateUser(req: CreateUserRequest, salt: Salt, now: Instant, f: Faults) returns (res: Result<UserResponse, string>)
      requires repo.Valid()
      modifies repo
      ensures repo.Valid()
      ensures (res, repo.State()) == Register(old(repo.State()), req, hasher, salt, now, f)
    {
      var existing := repo.GetByEmail(req.email, f.read);
      if existing.Err? && existing.error.DbError? {
        return Err("failed to check existing email: " + existing.error.message);
      }
      if existing.Ok? {
        return Err(EmailExists);
      }
      var hashed := hasher.generate(req.password, salt);
      if hashed.Err? {
        return Err("error in hash password: " + hashed.error);
      }
      var user := User(0, req.name, req.email, hashed.value, now, now);
      var created := repo.Create(user, f.write);
      if created.Err? {
        return Err(ErrorText(created.error));
      }
      return Ok(Project(created.value));
    }

    method LoginUser(req: LoginUserRequest, now: Instant, read: Option<string>) returns (res: Result<LoginUserResponse, string>)
      ensures res == Login(repo.State(), req, hasher, codec, jwtSecret, now, read)
    {
      var checkUser := repo.GetByEmail(req.email, read);
      if checkUser.Err? {
        if checkUser.error == RecordNotFound {
          return Err(EmailNotFound);
        }
        return Err(ErrorText(checkUser.error));
      }
      var mismatch := hasher.compare(checkUser.value.password, req.password);
      if mismatch.Some? {
        return Err(PasswordMismatch);
      }
      var token := GenerateToken(codec, req.email, jwtSecret, now);
      if token.Err? {
        return Err("failed to create jwt: " + token.error);
      }
      return Ok(LoginUserResponse(Project(checkUser.value), token.value));
    }

    /** Logging out is the client dropping its cookie; the server side cannot fail. */
    method LogoutUser() returns (err: Option<string>)
      ensures err.None?
    {
      return None;
    }

    /** Builds the list answer one entry per stored user, in table order. */
    method GetAllUser(fault: Option<string>) returns (res: Result<UserListResponse, string>)
      ensures res == ListUsers(repo.State(), fault)
      ensures res.Ok? ==> |res.value.users| == |repo.rows|
      ensures res.Ok? ==> forall i :: 0 <= i < |repo.rows| ==> res.value.users[i] == Project(repo.rows[i])
    {
      var users := repo.GetAllUser(fault);
      if users.Err? {
        return Err("failed to get all user: " + ErrorText(users.error));
      }
      var userResponse: seq<UserResponse> := [];
      var k := 0;
      while k < |users.value|
        invariant 0 <= k <= |users.value|
        invariant |userResponse| == k
        invariant forall i :: 0 <= i < k ==> userResponse[i] == Project(users.value[i])
      {
        userResponse := userResponse + [Project(users.value[k])];
        k := k + 1;
      }
      assert userResponse == Projections(users.value);
      return Ok(UserListResponse(userResponse));
    }

    method GetByID(id: int, fault: Option<string>) returns (res: Result<UserResponse, string>)
      ensures res == FindUser(repo.State(), id, fault)
    {
      var user := repo.GetByID(id, fault);
      if user.Err? {
        return Err(ErrorText(user.error));
      }
      return Ok(Project(user.value));
    }

    method DeleteUser(id: int, fault: Option<string>) returns (err: Option<string>)
      requires repo.Valid()
      modifies repo
      ensures repo.Valid()
      ensures (err, repo.State()) == Workflow.DeleteUser(old(repo.State()), id, fault)
    {
      var e := repo.Delete(id, fault);
      if e.Some? {
        return Some(ErrorText(e.value));
      }
      return None;
    }

    method UpdateUser(req: UpdateUserRequest, now: Instant, f: Faults) returns (res: Result<UpdateUserResponse, string>)
      requires repo.Valid()
      modifies repo
      ensures repo.Valid()
      ensures (res, repo.State()) == Workflow.UpdateUser(old(repo.State()), req, codec, jwtSecret, now, f)
    {
      var found := repo.GetByEmail(req.email, f.read);
      if found.Err? {
        return Err("failed to update user: " + ErrorText(found.error));
      }
      var user := found.value;
      user := user.(name := req.name);
      user := user.(email := req.email);
      var updatedUser := repo.Update(user, now, f.write);
      if updatedUser.Err? {
        return Err("failed to update user: " + ErrorText(updatedUser.error));
      }
      var response := ProjectWithCreatedAt(updatedUser.value);
      var token := GenerateToken(codec, req.email, jwtSecret, now);
      if token.Err? {
        return Err("failed to create jwt: " + token.error);
      }
      return Ok(UpdateUserResponse(response, token.value));
    }

    method ChangePasswordUser(req: ChangePasswordRequest, email: string, salt: Salt, now: Instant, f: Faults)
      returns (res: Result<UserResponse, string>)
      requires repo.Valid()
      modifies repo
      ensures repo.Valid()
      ensures (res, repo.State()) == ChangePassword(old(repo.State()), req, email, hasher, salt, now, f)
    {
      var found := repo.GetByEmail(email, f.read);
      if found.Err? {
        return Err(ErrorText(found.error));
      }
      var user := found.value;
      var mismatch := hasher.compare(user.password, req.currentPassword);
      if mismatch.Some? {
        return Err(mismatch.value);
      }
      var hashed := hasher.generate(req.newPassword, salt);
      if hashed.Err? {
        return Err(hashed.error);
      }
      user := user.(password := hashed.value);
      var updatedUser := repo.Update(user, now, f.write);
      if updatedUser.Err? {
        return Err(ErrorText(updatedUser.error));
      }
      return Ok(ProjectWithCreatedAt(updatedUser.value));
    }
  }
}
