/**
 * The `users` table behind GORM, as the handlers and the seeder see it: rows
 * keyed by ID, IDs handed out in increasing order, and the unique index that
 * the `gorm:"unique"` tag of User.Email creates. Every query can fail with a
 * database error; those failures come from outside as an `Io` value.
 */
module Database {
  import opened Base
  import opened Models

  /** The database errors of one request: every read fails with `readError`, every write with `writeError`. */
  datatype Io = Io(readError: Option<string>, writeError: Option<string>)

  const Healthy: Io := Io(None, None)

  /** The outcome of a `First` query. */
  datatype Lookup = Found(row: Record) | NotFound | Failed(message: string)

  /** The abstract content of the table: its rows and the next ID the sequence hands out. */
  datatype TableState = TableState(rows: map<nat, Record>, nextId: nat)

  predicate EmailTaken(rows: map<nat, Record>, email: string)
  {
    exists id :: id in rows && rows[id].email == email
  }

  predicate EmailTakenByOther(rows: map<nat, Record>, email: string, self: nat)
  {
    exists id :: id in rows && id != self && rows[id].email == email
  }

  /** Some row holding `email` (the only one, when emails are unique). */
  ghost function IdWithEmail(rows: map<nat, Record>, email: string): (id: nat)
    requires EmailTaken(rows, email)
    ensures id in rows && rows[id].email == email
  {
    var id :| id in rows && rows[id].email == email; id
  }

  /** No two rows share an email (the unique index). */
  ghost predicate UniqueEmails(rows: map<nat, Record>)
  {
    forall a, b :: a in rows && b in rows && a != b ==> rows[a].email != rows[b].email
  }

  /** Rows sit under their own ID, every ID is positive and below the next one handed out, emails are unique. */
  ghost predicate Consistent(s: TableState)
  {
    && (forall id :: id in s.rows ==> s.rows[id].id == id && 0 < id < s.nextId)
    && s.nextId > 0
    && UniqueEmails(s.rows)
  }

  /** `Create`: the next ID, both timestamps `now`. */
  function Inserted(s: TableState, name: string, email: string, password: string, now: nat): (r: TableState)
    requires Consistent(s) && !EmailTaken(s.rows, email)
    ensures Consistent(r)
    ensures s.nextId !in s.rows && r.rows.Keys == s.rows.Keys + {s.nextId} && r.nextId == s.nextId + 1
    ensures forall id :: id in s.rows ==> r.rows[id] == s.rows[id]
    ensures r.rows[s.nextId] == Record(s.nextId, now, now, name, email, password)
  {
    TableState(s.rows[s.nextId := Record(s.nextId, now, now, name, email, password)], s.nextId + 1)
  }

  /** `Save` of an existing row: its new fields, `UpdatedAt` set to `now`. */
  function Saved(s: TableState, row: Record, now: nat): (r: TableState)
    requires Consistent(s) && row.id in s.rows && !EmailTakenByOther(s.rows, row.email, row.id)
    ensures Consistent(r)
    ensures r.rows.Keys == s.rows.Keys && r.nextId == s.nextId
    ensures forall id :: id in s.rows && id != row.id ==> r.rows[id] == s.rows[id]
    ensures r.rows[row.id] == row.(updatedAt := now)
  {
    TableState(s.rows[row.id := row.(updatedAt := now)], s.nextId)
  }

  /** `Delete` by primary key: that row and no other disappears from view. */
  function Removed(s: TableState, id: nat): (r: TableState)
    requires Consistent(s)
    ensures Consistent(r)
    ensures r.rows.Keys == s.rows.Keys - {id} && r.nextId == s.nextId
    ensures forall j :: j in r.rows ==> r.rows[j] == s.rows[j]
  {
    TableState(s.rows - {id}, s.nextId)
  }

  /** `users` lists every row exactly once, in some order (the order `Find` returns them in). */
  ghost predicate IsListing(users: seq<Record>, rows: map<nat, Record>)
  {
    && |users| == |rows|
    && (forall i :: 0 <= i < |users| ==> users[i].id in rows && rows[users[i].id] == users[i])
    && (forall i, j :: 0 <= i < j < |users| ==> users[i].id != users[j].id)
  }

  class Table {
    var rows: map<nat, Record>
    var nextId: nat

    function State(): TableState
      reads this
    {
      TableState(rows, nextId)
    }

    ghost predicate Valid()
      reads this
    {
      Consistent(State())
    }

    constructor ()
      ensures Valid() && rows == map[]
    {
      rows, nextId := map[], 1;
    }

    /** `First(&user, id)`. */
    method FindById(id: nat, io: Io) returns (r: Lookup)
      requires Valid()
      ensures io.readError.Some? ==> r == Failed(io.readError.value)
      ensures io.readError.None? ==> r == if id in rows then Found(rows[id]) else NotFound
    {
      if io.readError.Some? {
        return Failed(io.readError.value);
      }
      r := if id in rows then Found(rows[id]) else NotFound;
    }

    /** `Where("email = ?", email).First(&user)`; under the unique index the row is determined. */
    method FindByEmail(email: string, io: Io) returns (r: Lookup)
      requires Valid()
      ensures io.readError.Some? ==> r == Failed(io.readError.value)
      ensures io.readError.None? ==> (r.Found? <==> EmailTaken(rows, email)) && !r.Failed?
      ensures r.Found? ==> r.row.id in rows && rows[r.row.id] == r.row && r.row.email == email
      ensures r.Found? ==> EmailTaken(rows, email) && r.row == rows[IdWithEmail(rows, email)]
    {
      if io.readError.Some? {
        return Failed(io.readError.value);
      }
      if EmailTaken(rows, email) {
        var id :| id in rows && rows[id].email == email;
        r := Found(rows[id]);
      } else {
        r := NotFound;
      }
    }

    /** `Where("email = ? AND id != ?", email, self).First(&user)`. */
    method FindByEmailExcept(email: string, self: nat, io: Io) returns (r: Lookup)
      requires Valid()
      ensures io.readError.Some? ==> r == Failed(io.readError.value)
      ensures io.readError.None? ==> (r.Found? <==> EmailTakenByOther(rows, email, self)) && !r.Failed?
      ensures r.Found? ==> r.row.id in rows && r.row.id != self && rows[r.row.id] == r.row && r.row.email == email
    {
      if io.readError.Some? {
        return Failed(io.readError.value);
      }
      if EmailTakenByOther(rows, email, self) {
        var id :| id in rows && id != self && rows[id].email == email;
        r := Found(rows[id]);
      } else {
        r := NotFound;
      }
    }

    /** `Find(&users)`: every row once, in an order the database chooses. */
    method FindAll(io: Io) returns (r: Result<seq<Record>, string>)
      requires Valid()
      ensures io.readError.Some? ==> r == Err(io.readError.value)
      ensures io.readError.None? ==> r.Ok? && IsListing(r.value, rows)
    {
      if io.readError.Some? {
        return Err(io.readError.value);
      }
      var users: seq<Record> := [];
      var left := rows.Keys;
      while left != {}
        invariant left <= rows.Keys
        invariant |users| + |left| == |rows|
        invariant forall i :: 0 <= i < |users| ==> users[i].id in rows && users[i].id !in left && rows[users[i].id] == users[i]
        invariant forall i, j :: 0 <= i < j < |users| ==> users[i].id != users[j].id
        decreases left
      {
        var id :| id in left;
        users := users + [rows[id]];
        left := left - {id};
      }
      r := Ok(users);
    }

    /**
     * `Create(&user)`: inserts the user under the next ID and writes the ID and
     * timestamps back into `u`. It fails, inserting nothing, on a write error
     * or when the email is already taken (the unique index).
     */
    method Create(u: User, now: nat, io: Io) returns (err: Option<string>)
      requires Valid()
      modifies this, u`id, u`createdAt, u`updatedAt
      ensures Valid()
      ensures err.None? <==> io.writeError.None? && !EmailTaken(old(rows), u.email)
      ensures err.None? ==>
        && State() == Inserted(old(State()), u.name, u.email, u.password, now)
        && u.Row() == rows[old(nextId)]
      ensures err.Some? ==> State() == old(State()) && u.Row() == old(u.Row())
    {
      if io.writeError.Some? {
        return io.writeError;
      }
      if EmailTaken(rows, u.email) {
        return Some("duplicate key value violates unique constraint");
      }
      var s := Inserted(State(), u.name, u.email, u.password, now);
      u.id, u.createdAt, u.updatedAt := nextId, now, now;
      rows, nextId := s.rows, s.nextId;
      err := None;
    }

    /**
     * `Save(&user)` of a row that exists: all its fields are written, with
     * `UpdatedAt` set to `now`. It fails, writing nothing, on a write error or
     * when another row holds the email.
     */
    method Save(u: User, now: nat, io: Io) returns (err: Option<string>)
      requires Valid() && u.id in rows
      modifies this, u`updatedAt
      ensures Valid()
      ensures err.None? <==> io.writeError.None? && !EmailTakenByOther(old(rows), u.email, u.id)
      ensures err.None? ==> State() == Saved(old(State()), old(u.Row()), now) && u.Row() == rows[u.id]
      ensures err.Some? ==> State() == old(State()) && u.Row() == old(u.Row())
    {
      if io.writeError.Some? {
        return io.writeError;
      }
      if EmailTakenByOther(rows, u.email, u.id) {
        return Some("duplicate key value violates unique constraint");
      }
      var s := Saved(State(), u.Row(), now);
      u.updatedAt := now;
      rows := s.rows;
      err := None;
    }

    /** `Delete(&user)`: removes the row with that ID. */
    method Delete(id: nat, io: Io) returns (err: Option<string>)
      requires Valid()
      modifies this
      ensures Valid()
      ensures err.None? <==> io.writeError.None?
      ensures err.None? ==> State() == Removed(old(State()), id)
      ensures err.Some? ==> State() == old(State())
    {
      if io.writeError.Some? {
        return io.writeError;
      }
      var s := Removed(State(), id);
      rows := s.rows;
      err := None;
    }
  }
}
