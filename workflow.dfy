/** The credential workflow as functions of the table before the call:
    each gives the outcome the usecase returns and the table after it.
    The usecase methods are proved to compute exactly these, and the
    lemmas below state what the workflow promises. */
module Workflow {
  import opened Domain
  import opened Hashing
  import opened Jwt
  import opened Repository

  /** Database faults for the one read and the one write a call may make. */
  datatype Faults = Faults(read: Option<string>, write: Option<string>)

  const EmailExists: string := "email already exists"
  const EmailNotFound: string := "email not found"
  const PasswordMismatch: string := "password don't match"

  /** `CreateUser`: refuse a taken email, hash the password, store the record. */
  function Register(t: Table, req: CreateUserRequest, hasher: Hasher, salt: Salt, now: Instant, f: Faults)
    : (Result<UserResponse, string>, Table)
  {
    match Lookup(t, ByEmail(req.email), f.read)
    case Err(DbError(m)) => (Err("failed to check existing email: " + m), t)
    case Ok(_) => (Err(EmailExists), t)
    case Err(RecordNotFound) =>
      match hasher.generate(req.password, salt)
      case Err(m) => (Err("error in hash password: " + m), t)
      case Ok(hash) =>
        var (created, t') := Insert(t, User(0, req.name, req.email, hash, now, now), f.write);
        match created
        case Err(e) => (Err(ErrorText(e)), t')
        case Ok(stored) => (Ok(Project(stored)), t')
  }

  /** `LoginUser`: find the account, verify the password, issue a token for
      the requested email. Login never changes the table. */
  function Login(t: Table, req: LoginUserRequest, hasher: Hasher, codec: Codec, secret: string, now: Instant, read: Option<string>)
    : Result<LoginUserResponse, string>
  {
    match Lookup(t, ByEmail(req.email), read)
    case Err(RecordNotFound) => Err(EmailNotFound)
    case Err(e) => Err(ErrorText(e))
    case Ok(user) =>
      if hasher.compare(user.password, req.password).Some? then Err(PasswordMismatch)
      else match GenerateToken(codec, req.email, secret, now)
        case Err(e) => Err("failed to create jwt: " + e)
        case Ok(token) => Ok(LoginUserResponse(Project(user), token))
  }

  /** The projection of every user, in order. */
  function Projections(users: seq<User>): (r: seq<UserResponse>)
  {
    seq(|users|, i requires 0 <= i < |users| => Project(users[i]))
  }

  /** `GetAllUser`. */
  function ListUsers(t: Table, fault: Option<string>): Result<UserListResponse, string>
  {
    match All(t, fault)
    case Err(e) => Err("failed to get all user: " + ErrorText(e))
    case Ok(users) => Ok(UserListResponse(Projections(users)))
  }

  /** `GetByID`: the repository's error is passed through unchanged. */
  function FindUser(t: Table, id: int, fault: Option<string>): Result<UserResponse, string>
  {
    match Lookup(t, ById(id), fault)
    case Err(e) => Err(ErrorText(e))
    case Ok(user) => Ok(Project(user))
  }

  /** `DeleteUser`. */
  function DeleteUser(t: Table, id: int, fault: Option<string>): (Option<string>, Table)
  {
    var (err, t') := Remove(t, id, fault);
    match err
    case Some(e) => (Some(ErrorText(e)), t')
    case None => (None, t')
  }

  /** `UpdateUser`: fetch the record by the request's (new) email, overwrite
      its name, save it, then issue a token for that email. The save happens
      before the token is made, so it stays even when signing fails. */
  function UpdateUser(t: Table, req: UpdateUserRequest, codec: Codec, secret: string, now: Instant, f: Faults)
    : (Result<UpdateUserResponse, string>, Table)
  {
    match Lookup(t, ByEmail(req.email), f.read)
    case Err(e) => (Err("failed to update user: " + ErrorText(e)), t)
    case Ok(user) =>
      var (saved, t') := Save(t, user.(name := req.name, email := req.email), now, f.write);
      match saved
      case Err(e) => (Err("failed to update user: " + ErrorText(e)), t')
      case Ok(updated) =>
        match GenerateToken(codec, req.email, secret, now)
        case Err(e) => (Err("failed to create jwt: " + e), t')
        case Ok(token) => (Ok(UpdateUserResponse(ProjectWithCreatedAt(updated), token)), t')
  }

  /** `ChangePasswordUser`: for the account with `email`, verify the current
      password, hash the new one and save it. Every error is passed through. */
  function ChangePassword(t: Table, req: ChangePasswordRequest, email: string, hasher: Hasher, salt: Salt, now: Instant, f: Faults)
    : (Result<UserResponse, string>, Table)
  {
    match Lookup(t, ByEmail(email), f.read)
    case Err(e) => (Err(ErrorText(e)), t)
    case Ok(user) =>
      match hasher.compare(user.password, req.currentPassword)
      case Some(e) => (Err(e), t)
      case None =>
        match hasher.generate(req.newPassword, salt)
        case Err(e) => (Err(e), t)
        case Ok(hash) =>
          var (saved, t') := Save(t, user.(password := hash), now, f.write);
          match saved
          case Err(e) => (Err(ErrorText(e)), t')
          case Ok(updated) => (Ok(ProjectWithCreatedAt(updated)), t')
  }

  // ---------------------------------------------------------------------
  // Registration

  /** A taken email is refused with "email already exists" and nothing is stored. */
  lemma RegisterDuplicate(t: Table, req: CreateUserRequest, hasher: Hasher, salt: Salt, now: Instant, f: Faults)
    requires f.read.None?
    requires exists i :: 0 <= i < |t.rows| && t.rows[i].email == req.email
    ensures Register(t, req, hasher, salt, now, f) == (Err(EmailExists), t)
  {
    var i :| 0 <= i < |t.rows| && t.rows[i].email == req.email;
    assert Matches(t.rows[i], ByEmail(req.email));
  }

  /** Every failure leaves the table as it was; a failed lookup other than
      not-found aborts with its text prefixed. */
  lemma RegisterFailureKeepsTable(t: Table, req: CreateUserRequest, hasher: Hasher, salt: Salt, now: Instant, f: Faults)
    requires WellFormed(t)
    ensures Register(t, req, hasher, salt, now, f).0.Err? ==> Register(t, req, hasher, salt, now, f).1 == t
    ensures f.read.Some? ==> Register(t, req, hasher, salt, now, f) == (Err("failed to check existing email: " + f.read.value), t)
  {
  }

  /** Registration succeeds exactly when the lookup says not-found, hashing
      succeeds and the insert is accepted; it then appends one record whose
      name and email come from the request and whose password is the hash of
      the request's password, and answers with that record minus the hash. */
  lemma RegisterSuccess(t: Table, req: CreateUserRequest, hasher: Hasher, salt: Salt, now: Instant, f: Faults)
    requires WellFormed(t)
    ensures Register(t, req, hasher, salt, now, f).0.Ok? <==>
      && f.read.None? && f.write.None?
      && (forall i :: 0 <= i < |t.rows| ==> t.rows[i].email != req.email)
      && hasher.generate(req.password, salt).Ok?
    ensures Register(t, req, hasher, salt, now, f).0.Ok? ==>
      var hash := hasher.generate(req.password, salt).value;
      && Register(t, req, hasher, salt, now, f).1 == Table(t.rows + [User(t.nextId, req.name, req.email, hash, now, now)], t.nextId + 1)
      && Register(t, req, hasher, salt, now, f).0.value == UserResponse(t.nextId, req.name, req.email, now, now)
      && (Consistent(hasher) ==> hasher.compare(hash, req.password) == None)
  {
    var free := forall i :: 0 <= i < |t.rows| ==> t.rows[i].email != req.email;
    assert free <==> Find(t.rows, ByEmail(req.email)).None? by {
      assert forall k :: 0 <= k < |t.rows| ==> (Matches(t.rows[k], ByEmail(req.email)) <==> t.rows[k].email == req.email);
    }
  }

  /** Registration keeps the table's uniqueness invariant. */
  lemma RegisterKeepsWellFormed(t: Table, req: CreateUserRequest, hasher: Hasher, salt: Salt, now: Instant, f: Faults)
    requires WellFormed(t)
    ensures WellFormed(Register(t, req, hasher, salt, now, f).1)
  {
    if f.read.None? && Find(t.rows, ByEmail(req.email)).None? && hasher.generate(req.password, salt).Ok? {
      InsertKeepsWellFormed(t, User(0, req.name, req.email, hasher.generate(req.password, salt).value, now, now), f.write);
    }
  }

  /** Whoever has registered can log in with the same email and password,
      and the token they receive validates to that email for one day. */
  lemma RegisterThenLogin(t: Table, req: CreateUserRequest, hasher: Hasher, salt: Salt, codec: Codec, secret: string, now: Instant, later: Instant, f: Faults)
    requires WellFormed(t) && Consistent(hasher) && Sound(codec)
    requires Register(t, req, hasher, salt, now, f).0.Ok?
    requires GenerateToken(codec, req.email, secret, later).Ok?
    ensures var t' := Register(t, req, hasher, salt, now, f).1;
      var r := Login(t', LoginUserRequest(req.email, req.password), hasher, codec, secret, later, None);
      && r.Ok?
      && r.value.user == Register(t, req, hasher, salt, now, f).0.value
      && ValidateToken(codec, r.value.token, secret, later) == Ok(Claims(req.email, later, later + Day))
  {
    RegisterSuccess(t, req, hasher, salt, now, f);
    RegisterKeepsWellFormed(t, req, hasher, salt, now, f);
    var t' := Register(t, req, hasher, salt, now, f).1;
    var n := |t.rows|;
    assert t'.rows[n].email == req.email;
    FindOwnRow(t', n);
    IssuedTokenLifetime(codec, req.email, secret, later, later);
  }

  // ---------------------------------------------------------------------
  // Login

  /** An unknown email is "email not found"; a known email whose hash does
      not verify is "password don't match"; neither issues a token, since
      neither outcome depends on the codec. */
  lemma LoginFailures(t: Table, req: LoginUserRequest, hasher: Hasher, codec: Codec, codec': Codec, secret: string, now: Instant)
    requires WellFormed(t)
    ensures (forall i :: 0 <= i < |t.rows| ==> t.rows[i].email != req.email) ==>
      Login(t, req, hasher, codec, secret, now, None) == Err(EmailNotFound)
    ensures forall i :: 0 <= i < |t.rows| && t.rows[i].email == req.email && hasher.compare(t.rows[i].password, req.password).Some? ==>
      Login(t, req, hasher, codec, secret, now, None) == Err(PasswordMismatch)
    ensures Login(t, req, hasher, codec, secret, now, None) in {Err(EmailNotFound), Err(PasswordMismatch)} ==>
      Login(t, req, hasher, codec', secret, now, None) == Login(t, req, hasher, codec, secret, now, None)
  {
    forall i | 0 <= i < |t.rows| && t.rows[i].email == req.email
      ensures Find(t.rows, ByEmail(req.email)) == Some(i)
    {
      FindOwnRow(t, i);
    }
    if forall i :: 0 <= i < |t.rows| ==> t.rows[i].email != req.email {
      assert Find(t.rows, ByEmail(req.email)).None?;
    }
  }

  /** A successful login names the stored account with that email, whose
      hash verifies the password; the token is issued for the requested
      email and validates to it for one day. */
  lemma LoginSuccess(t: Table, req: LoginUserRequest, hasher: Hasher, codec: Codec, secret: string, now: Instant, read: Option<string>)
    requires Sound(codec)
    requires Login(t, req, hasher, codec, secret, now, read).Ok?
    ensures read.None?
    ensures exists i :: (0 <= i < |t.rows| && t.rows[i].email == req.email
      && hasher.compare(t.rows[i].password, req.password) == None
      && Login(t, req, hasher, codec, secret, now, read).value.user == Project(t.rows[i]))
    ensures Login(t, req, hasher, codec, secret, now, read).value.token == GenerateToken(codec, req.email, secret, now).value
    ensures ValidateToken(codec, Login(t, req, hasher, codec, secret, now, read).value.token, secret, now)
      == Ok(Claims(req.email, now, now + Day))
  {
    var i := Find(t.rows, ByEmail(req.email)).value;
    assert t.rows[i].email == req.email;
    IssuedTokenLifetime(codec, req.email, secret, now, now);
  }

  // ---------------------------------------------------------------------
  // Lookup, listing and deletion

  /** `GetByID` succeeds exactly for an id that is in the table and answers
      with that row's projection; a missing id is "record not found". */
  lemma FindUserOutcome(t: Table, id: int, fault: Option<string>)
    requires WellFormed(t)
    ensures FindUser(t, id, fault).Ok? <==> fault.None? && exists i :: 0 <= i < |t.rows| && t.rows[i].id == id
    ensures FindUser(t, id, fault).Ok? ==>
      exists i :: 0 <= i < |t.rows| && t.rows[i].id == id && FindUser(t, id, fault).value == Project(t.rows[i])
    ensures fault.None? && (forall i :: 0 <= i < |t.rows| ==> t.rows[i].id != id) ==>
      FindUser(t, id, fault) == Err("record not found")
  {
    if fault.None? && exists i :: 0 <= i < |t.rows| && t.rows[i].id == id {
      var i :| 0 <= i < |t.rows| && t.rows[i].id == id;
      FindOwnRow(t, i);
    }
  }

  /** The list answer has one entry per user, in order, each the user's projection. */
  lemma ListUsersProjects(t: Table, fault: Option<string>)
    ensures ListUsers(t, fault).Ok? <==> fault.None?
    ensures ListUsers(t, fault).Ok? ==>
      var users := ListUsers(t, fault).value.users;
      |users| == |t.rows| && forall i :: 0 <= i < |t.rows| ==> users[i] == Project(t.rows[i])
  {
  }

  /** A delete only fails on a database fault; otherwise afterwards no row
      has the id and every other row is still there. */
  lemma DeleteUserEffect(t: Table, id: int, fault: Option<string>)
    requires WellFormed(t)
    ensures DeleteUser(t, id, fault).0.None? <==> fault.None?
    ensures fault.Some? ==> DeleteUser(t, id, fault) == (Some(fault.value), t)
    ensures WellFormed(DeleteUser(t, id, fault).1)
    ensures fault.None? ==> forall u :: u in DeleteUser(t, id, fault).1.rows <==> u in t.rows && u.id != id
  {
    RemoveKeepsWellFormed(t, id, fault);
    if fault.None? {
      RemoveDeletes(t, id);
    }
  }

  // ---------------------------------------------------------------------
  // Profile update

  /** Update fetches the record by the request's email, not by the current
      email: unless some account already has `req.email`, it fails with
      "failed to update user: record not found" and changes nothing. */
  lemma UpdateNeedsExistingEmail(t: Table, req: UpdateUserRequest, codec: Codec, secret: string, now: Instant, f: Faults)
    requires f.read.None?
    requires forall i :: 0 <= i < |t.rows| ==> t.rows[i].email != req.email
    ensures UpdateUser(t, req, codec, secret, now, f) == (Err("failed to update user: record not found"), t)
  {
    assert Find(t.rows, ByEmail(req.email)).None?;
    assert "failed to update user: " + ErrorText(RecordNotFound) == "failed to update user: record not found";
  }

  /** When the account with `req.email` is row `i`, a fault-free update
      overwrites only that row's name (and the save stamps `updated_at`),
      keeps its email, and does so whether or not the token can be signed:
      a signing failure reports an error yet the new name is stored. The
      answer's `updated_at` is the record's creation time. */
  lemma UpdateEffect(t: Table, req: UpdateUserRequest, codec: Codec, secret: string, now: Instant, i: nat)
    requires WellFormed(t) && i < |t.rows| && t.rows[i].email == req.email
    ensures var (r, t') := UpdateUser(t, req, codec, secret, now, Faults(None, None));
      && t' == Table(t.rows[i := t.rows[i].(name := req.name, updatedAt := now)], t.nextId)
      && t'.rows[i].email == t.rows[i].email
      && (GenerateToken(codec, req.email, secret, now).Err? ==>
            r == Err("failed to create jwt: " + GenerateToken(codec, req.email, secret, now).error))
      && (GenerateToken(codec, req.email, secret, now).Ok? ==>
            r == Ok(UpdateUserResponse(ProjectWithCreatedAt(t'.rows[i]), GenerateToken(codec, req.email, secret, now).value)))
      && (r.Ok? ==> r.value.user.updatedAt == t.rows[i].createdAt)
  {
    FindOwnRow(t, i);
    assert t.rows[i].(name := req.name, email := req.email) == t.rows[i].(name := req.name);
  }

  /** A database fault on the lookup or on the save fails the update and
      leaves the table as it was; so does any failure other than the token
      signing that follows a successful save. */
  lemma UpdateFaultsKeepTable(t: Table, req: UpdateUserRequest, codec: Codec, secret: string, now: Instant, f: Faults)
    requires WellFormed(t)
    ensures f.read.Some? ==> UpdateUser(t, req, codec, secret, now, f) == (Err("failed to update user: " + f.read.value), t)
    ensures f.write.Some? ==> UpdateUser(t, req, codec, secret, now, f).0.Err? && UpdateUser(t, req, codec, secret, now, f).1 == t
    ensures UpdateUser(t, req, codec, secret, now, f).0.Err? && GenerateToken(codec, req.email, secret, now).Ok? ==>
      UpdateUser(t, req, codec, secret, now, f).1 == t
  {
  }

  /** An update keeps the table's invariant. */
  lemma UpdateKeepsWellFormed(t: Table, req: UpdateUserRequest, codec: Codec, secret: string, now: Instant, f: Faults)
    requires WellFormed(t)
    ensures WellFormed(UpdateUser(t, req, codec, secret, now, f).1)
  {
    var found := Lookup(t, ByEmail(req.email), f.read);
    if found.Ok? {
      SaveKeepsWellFormed(t, found.value.(name := req.name, email := req.email), now, f.write);
    }
  }

  /** The request's `currentEmail` plays no part in the usecase. */
  lemma UpdateIgnoresCurrentEmail(t: Table, req: UpdateUserRequest, other: string, codec: Codec, secret: string, now: Instant, f: Faults)
    ensures UpdateUser(t, req.(currentEmail := other), codec, secret, now, f) == UpdateUser(t, req, codec, secret, now, f)
  {
  }

  // ---------------------------------------------------------------------
  // Password change

  /** A current password that does not verify is refused before anything
      is saved: the stored hash is unchanged. */
  lemma ChangePasswordWrongCurrent(t: Table, req: ChangePasswordRequest, email: string, hasher: Hasher, salt: Salt, now: Instant, f: Faults, i: nat)
    requires WellFormed(t) && i < |t.rows| && t.rows[i].email == email && f.read.None?
    requires hasher.compare(t.rows[i].password, req.currentPassword).Some?
    ensures ChangePassword(t, req, email, hasher, salt, now, f)
      == (Err(hasher.compare(t.rows[i].password, req.currentPassword).value), t)
  {
    FindOwnRow(t, i);
  }

  /** A successful change replaces only the password of the account with
      `email` (the save also stamps `updated_at`), by a hash of the new
      password that verifies it; nothing else in the table changes, and the
      answer's `updated_at` is the record's creation time. */
  lemma ChangePasswordSuccess(t: Table, req: ChangePasswordRequest, email: string, hasher: Hasher, salt: Salt, now: Instant, f: Faults)
    requires WellFormed(t)
    requires ChangePassword(t, req, email, hasher, salt, now, f).0.Ok?
    ensures exists i :: (0 <= i < |t.rows| && t.rows[i].email == email
      && hasher.compare(t.rows[i].password, req.currentPassword) == None
      && hasher.generate(req.newPassword, salt).Ok?
      && ChangePassword(t, req, email, hasher, salt, now, f).1 ==
           Table(t.rows[i := t.rows[i].(password := hasher.generate(req.newPassword, salt).value, updatedAt := now)], t.nextId)
      && ChangePassword(t, req, email, hasher, salt, now, f).0.value.updatedAt == t.rows[i].createdAt)
    ensures Consistent(hasher) ==> hasher.compare(hasher.generate(req.newPassword, salt).value, req.newPassword) == None
  {
    var i := Find(t.rows, ByEmail(email)).value;
    FindOwnRow(t, i);
    assert t.rows[i].email == email;
  }

  /** Every failed password change (a lookup fault or miss, a current
      password that does not verify, a hashing error, a refused save) leaves
      the table as it was. */
  lemma ChangePasswordFailureKeepsTable(t: Table, req: ChangePasswordRequest, email: string, hasher: Hasher, salt: Salt, now: Instant, f: Faults)
    ensures ChangePassword(t, req, email, hasher, salt, now, f).0.Err? ==> ChangePassword(t, req, email, hasher, salt, now, f).1 == t
    ensures f.read.Some? ==> ChangePassword(t, req, email, hasher, salt, now, f) == (Err(f.read.value), t)
  {
  }

  /** A password change keeps the table's invariant. */
  lemma ChangePasswordKeepsWellFormed(t: Table, req: ChangePasswordRequest, email: string, hasher: Hasher, salt: Salt, now: Instant, f: Faults)
    requires WellFormed(t)
    ensures WellFormed(ChangePassword(t, req, email, hasher, salt, now, f).1)
  {
    var found := Lookup(t, ByEmail(email), f.read);
    if found.Ok? && hasher.compare(found.value.password, req.currentPassword).None? && hasher.generate(req.newPassword, salt).Ok? {
      SaveKeepsWellFormed(t, found.value.(password := hasher.generate(req.newPassword, salt).value), now, f.write);
    }
  }
}
