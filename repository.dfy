/** The user store, an in-memory stand-in for the gorm repository: a table
    of rows in table order, the next auto-increment id, and the unique
    index on `email`. Every call takes a `fault`: `Some(text)` means the
    database fails that call with that text, leaving the table untouched. */
module Repository {
  import opened Domain

  /** A failed call: gorm's `ErrRecordNotFound`, or any other database error. */
  datatype RepoError = RecordNotFound | DbError(message: string)

  /** `err.Error()` of a repository error. */
  function ErrorText(e: RepoError): string
  {
    match e
    case RecordNotFound => "record not found"
    case DbError(m) => m
  }

  /** A stand-in for the driver's error when a write would break the unique
      index on `email`; the model fixes its text but nothing branches on it. */
  const UniqueViolation: string := "duplicate key value violates unique constraint \"idx_users_email\""

  datatype Table = Table(rows: seq<User>, nextId: nat)

  /** The table's invariant: ids and emails are unique, and every id was
      drawn from the auto-increment counter (positive, below `nextId`). */
  predicate WellFormed(t: Table)
  {
    && (forall i, j :: 0 <= i < j < |t.rows| ==> t.rows[i].id != t.rows[j].id && t.rows[i].email != t.rows[j].email)
    && (forall i :: 0 <= i < |t.rows| ==> 0 < t.rows[i].id < t.nextId)
    && 0 < t.nextId
  }

  /** The column a `WHERE` clause selects on. */
  datatype Key = ByEmail(email: string) | ById(id: int)

  predicate Matches(u: User, key: Key)
  {
    match key
    case ByEmail(e) => u.email == e
    case ById(id) => u.id == id
  }

  /** The position of the first row the key selects (`First`). */
  function Find(rows: seq<User>, key: Key): (r: Option<nat>)
    ensures r.Some? ==> r.value < |rows| && Matches(rows[r.value], key)
    ensures r.Some? ==> forall k :: 0 <= k < r.value ==> !Matches(rows[k], key)
    ensures r.None? <==> forall k :: 0 <= k < |rows| ==> !Matches(rows[k], key)
  {
    if |rows| == 0 then None
    else if Matches(rows[0], key) then Some(0)
    else match Find(rows[1..], key)
      case None => None
      case Some(i) => Some(i + 1)
  }

  /** In a well-formed table a row is found by its own email and by its own id. */
  lemma FindOwnRow(t: Table, i: nat)
    requires WellFormed(t) && i < |t.rows|
    ensures Find(t.rows, ByEmail(t.rows[i].email)) == Some(i)
    ensures Find(t.rows, ById(t.rows[i].id)) == Some(i)
  {
    var e := Find(t.rows, ByEmail(t.rows[i].email));
    var d := Find(t.rows, ById(t.rows[i].id));
    assert e.Some? && d.Some? by {
      assert Matches(t.rows[i], ByEmail(t.rows[i].email)) && Matches(t.rows[i], ById(t.rows[i].id));
    }
  }

  /** `GetByEmail` / `GetByID`: the selected row, `RecordNotFound` if there is none. */
  function Lookup(t: Table, key: Key, fault: Option<string>): Result<User, RepoError>
  {
    if fault.Some? then Err(DbError(fault.value))
    else match Find(t.rows, key)
      case None => Err(RecordNotFound)
      case Some(i) => Ok(t.rows[i])
  }

  /** `Create`: store the record under the next id (the workflow only
      creates records whose id is still zero); the unique index refuses an
      email that is already taken. */
  function Insert(t: Table, user: User, fault: Option<string>): (Result<User, RepoError>, Table)
  {
    if fault.Some? then (Err(DbError(fault.value)), t)
    else if Find(t.rows, ByEmail(user.email)).Some? then (Err(DbError(UniqueViolation)), t)
    else
      var stored := user.(id := t.nextId);
      (Ok(stored), Table(t.rows + [stored], t.nextId + 1))
  }

  /** `Update`, a full save: every column of the row with the record's id is
      overwritten and `updated_at` is stamped with `now`; the unique index
      refuses an email held by another row; a record whose id is not in the
      table is inserted instead. */
  function Save(t: Table, user: User, now: Instant, fault: Option<string>): (Result<User, RepoError>, Table)
  {
    var stamped := user.(updatedAt := now);
    if fault.Some? then (Err(DbError(fault.value)), t)
    else match Find(t.rows, ById(user.id))
      case None => Insert(t, stamped, None)
      case Some(i) =>
        var holder := Find(t.rows, ByEmail(user.email));
        if holder.Some? && holder.value != i then (Err(DbError(UniqueViolation)), t)
        else (Ok(stamped), Table(t.rows[i := stamped], t.nextId))
  }

  /** `Delete`: a hard delete of the row with that id; deleting an id that
      is not there is no error. */
  function Remove(t: Table, id: int, fault: Option<string>): (Option<RepoError>, Table)
  {
    if fault.Some? then (Some(DbError(fault.value)), t)
    else match Find(t.rows, ById(id))
      case None => (None, t)
      case Some(i) => (None, Table(t.rows[..i] + t.rows[i + 1..], t.nextId))
  }

  /** `GetAllUser`: every row, in table order. */
  function All(t: Table, fault: Option<string>): Result<seq<User>, RepoError>
  {
    if fault.Some? then Err(DbError(fault.value)) else Ok(t.rows)
  }

  /** A create keeps the invariant. It succeeds exactly when there is no
      fault and the email is free; the stored record then carries a fresh
      id and is appended after the existing rows. */
  lemma InsertKeepsWellFormed(t: Table, user: User, fault: Option<string>)
    requires WellFormed(t)
    ensures WellFormed(Insert(t, user, fault).1)
    ensures Insert(t, user, fault).0.Ok? <==>
      fault.None? && forall k :: 0 <= k < |t.rows| ==> t.rows[k].email != user.email
    ensures Insert(t, user, fault).0.Err? ==> Insert(t, user, fault).1 == t
    ensures Insert(t, user, fault).0.Ok? ==>
      var stored := Insert(t, user, fault).0.value;
      && stored == user.(id := t.nextId)
      && Insert(t, user, fault).1.rows == t.rows + [stored]
      && forall k :: 0 <= k < |t.rows| ==> t.rows[k].id != stored.id
  {
    if fault.None? && Find(t.rows, ByEmail(user.email)).None? {
      var rows := Insert(t, user, fault).1.rows;
      assert rows == t.rows + [user.(id := t.nextId)];
      forall i, j | 0 <= i < j < |rows|
        ensures rows[i].id != rows[j].id && rows[i].email != rows[j].email
      {
        if j == |t.rows| {
          assert !Matches(t.rows[i], ByEmail(user.email));
        }
      }
    }
  }

  lemma SaveKeepsWellFormed(t: Table, user: User, now: Instant, fault: Option<string>)
    requires WellFormed(t)
    ensures WellFormed(Save(t, user, now, fault).1)
  {
    var stamped := user.(updatedAt := now);
    if fault.None? {
      match Find(t.rows, ById(user.id))
      case None =>
        InsertKeepsWellFormed(t, stamped, None);
      case Some(i) =>
        var holder := Find(t.rows, ByEmail(user.email));
        if !(holder.Some? && holder.value != i) {
          var rows := t.rows[i := stamped];
          assert Save(t, user, now, fault).1 == Table(rows, t.nextId);
          forall a, b | 0 <= a < b < |rows|
            ensures rows[a].id != rows[b].id && rows[a].email != rows[b].email
          {
            if a == i {
              assert !Matches(t.rows[b], ByEmail(user.email));
            } else if b == i {
              assert !Matches(t.rows[a], ByEmail(user.email));
            }
          }
        }
    }
  }

  lemma RemoveKeepsWellFormed(t: Table, id: int, fault: Option<string>)
    requires WellFormed(t)
    ensures WellFormed(Remove(t, id, fault).1)
  {
    if fault.None? && Find(t.rows, ById(id)).Some? {
      var i := Find(t.rows, ById(id)).value;
      DropAt(t.rows, i, t.rows[..i] + t.rows[i + 1..]);
    }
  }

  /** Dropping position `i` shifts every later row down by one. */
  lemma DropAt(s: seq<User>, i: nat, r: seq<User>)
    requires i < |s| && r == s[..i] + s[i + 1..]
    ensures |r| == |s| - 1
    ensures forall k :: 0 <= k < |r| ==> r[k] == s[if k < i then k else k + 1]
  {
  }

  /** After a successful delete no row has that id, and exactly the other
      rows remain. */
  lemma RemoveDeletes(t: Table, id: int)
    requires WellFormed(t)
    ensures Find(Remove(t, id, None).1.rows, ById(id)).None?
    ensures forall u :: u in Remove(t, id, None).1.rows <==> u in t.rows && u.id != id
  {
    var rows := Remove(t, id, None).1.rows;
    match Find(t.rows, ById(id))
    case None =>
    case Some(i) =>
      assert rows == t.rows[..i] + t.rows[i + 1..];
      DropAt(t.rows, i, rows);
      forall k | 0 <= k < |rows| ensures rows[k].id != id {
        var m := if k < i then k else k + 1;
        assert rows[k] == t.rows[m] && m != i;
      }
      forall u | u in rows ensures u in t.rows && u.id != id {
        var k :| 0 <= k < |rows| && rows[k] == u;
        assert rows[k] == t.rows[if k < i then k else k + 1];
      }
      forall u | u in t.rows && u.id != id ensures u in rows {
        var k :| 0 <= k < |t.rows| && t.rows[k] == u;
        var m := if k < i then k else k - 1;
        assert rows[m] == u;
      }
  }

  /** The store as an object whose calls change it in place. */
  class UserTable {
    var rows: seq<User>
    var nextId: nat

    function State(): Table
      reads this
    {
      Table(rows, nextId)
    }

    ghost predicate Valid()
      reads this
    {
      WellFormed(State())
    }

    constructor ()
      ensures Valid() && rows == [] && nextId == 1
    {
      rows, nextId := [], 1;
    }

    method Create(user: User, fault: Option<string>) returns (r: Result<User, RepoError>)
      requires Valid()
      modifies this
      ensures Valid()
      ensures (r, State()) == Insert(old(State()), user, fault)
    {
      InsertKeepsWellFormed(State(), user, fault);
      var t: Table;
      r, t := Insert(State(), user, fault).0, Insert(State(), user, fault).1;
      rows, nextId := t.rows, t.nextId;
    }

    method GetByEmail(email: string, fault: Option<string>) returns (r: Result<User, RepoError>)
      ensures r == Lookup(State(), ByEmail(email), fault)
      ensures r.Ok? ==> r.value in rows && r.value.email == email
    {
      r := Lookup(State(), ByEmail(email), fault);
    }

    method GetByID(id: int, fault: Option<string>) returns (r: Result<User, RepoError>)
      ensures r == Lookup(State(), ById(id), fault)
      ensures r.Ok? ==> r.value in rows && r.value.id == id
    {
      r := Lookup(State(), ById(id), fault);
    }

    method GetAllUser(fault: Option<string>) returns (r: Result<seq<User>, RepoError>)
      ensures r == All(State(), fault)
    {
      r := All(State(), fault);
    }

    method Update(user: User, now: Instant, fault: Option<string>) returns (r: Result<User, RepoError>)
      requires Valid()
      modifies this
      ensures Valid()
      ensures (r, State()) == Save(old(State()), user, now, fault)
    {
      SaveKeepsWellFormed(State(), user, now, fault);
      var t: Table;
      r, t := Save(State(), user, now, fault).0, Save(State(), user, now, fault).1;
      rows, nextId := t.rows, t.nextId;
    }

    method Delete(id: int, fault: Option<string>) returns (r: Option<RepoError>)
      requires Valid()
      modifies this
      ensures Valid()
      ensures (r, State()) == Remove(old(State()), id, fault)
    {
      RemoveKeepsWellFormed(State(), id, fault);
      var t: Table;
      r, t := Remove(State(), id, fault).0, Remove(State(), id, fault).1;
      rows, nextId := t.rows, t.nextId;
    }
  }
}
