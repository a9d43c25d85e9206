/**
 * The sequence `Register`, `CreateUser` and `SeedUsers` each spell out: look
 * the email up, hash the password into a new `User`, then `Create` it. The
 * lookup only refuses an email it finds; when it fails, the unique index
 * still refuses the insert.
 */
module Signup {
  import opened Base
  import opened Crypto
  import opened Http
  import opened Models
  import opened Database

  /** Why no user was stored. */
  datatype SignupError = AlreadyRegistered | HashFailed | InsertFailed

  const MsgEmailRegistered: string := "Email sudah terdaftar"
  const MsgHashFailed: string := "Gagal mengenkripsi password"
  const MsgCreateFailed: string := "Gagal membuat user"

  /** The table after a successful signup, or why nothing was stored. */
  function SignupOutcome(s: TableState, name: string, email: string, password: string,
                         bcrypt: Bcrypt, salt: nat, now: nat, io: Io): (r: Result<TableState, SignupError>)
    requires Consistent(s)
    ensures r.Ok? ==> Consistent(r.value) && r.value.nextId == s.nextId + 1
    ensures EmailTaken(s.rows, email) ==> r.Err?
  {
    if io.readError.None? && EmailTaken(s.rows, email) then Err(AlreadyRegistered)
    else
      match bcrypt.generate(password, salt)
      case None => Err(HashFailed)
      case Some(hash) =>
        if io.writeError.Some? || EmailTaken(s.rows, email) then Err(InsertFailed)
        else Ok(Inserted(s, name, email, hash, now))
  }

  /** The response both controllers give for each failure. */
  function SignupFailure(e: SignupError): (r: Response)
    ensures r.status == StatusConflict <==> e == AlreadyRegistered
    ensures r.status != StatusConflict ==> r.status == StatusInternalServerError
    ensures !MentionsKey(r.body, "password")
  {
    var r := match e
      case AlreadyRegistered => Failure(StatusConflict, MsgEmailRegistered)
      case HashFailed => Failure(StatusInternalServerError, MsgHashFailed)
      case InsertFailed => Failure(StatusInternalServerError, MsgCreateFailed);
    ErrorBodyMentionsOnlyError(r.body.fields["error"].s, "password");
    r
  }

  /**
   * The lookup, the hashing and the insert on the table; on success the
   * stored row is returned.
   */
  method SignupUser(db: Table, name: string, email: string, password: string,
                    bcrypt: Bcrypt, salt: nat, now: nat, io: Io) returns (r: Result<Record, SignupError>)
    requires db.Valid()
    modifies db
    ensures db.Valid()
    ensures var expected := SignupOutcome(old(db.State()), name, email, password, bcrypt, salt, now, io);
      match r
      case Ok(row) => expected.Ok? && db.State() == expected.value && row == db.rows[old(db.nextId)]
      case Err(e) => expected == Err(e) && db.State() == old(db.State())
  {
    var existing := db.FindByEmail(email, io);
    if existing.Found? {
      return Err(AlreadyRegistered);
    }
    var user := new User(name, email, password);
    var hashErr := user.HashPassword(bcrypt, salt);
    if hashErr.Some? {
      return Err(HashFailed);
    }
    var createErr := db.Create(user, now, io);
    if createErr.Some? {
      return Err(InsertFailed);
    }
    r := Ok(user.Row());
  }

  /**
   * An email already stored is never stored twice: it is refused as
   * registered when the lookup works, and the insert fails otherwise.
   */
  lemma SignupNeverDuplicates(s: TableState, name: string, email: string, password: string,
                              bcrypt: Bcrypt, salt: nat, now: nat, io: Io)
    requires Consistent(s) && EmailTaken(s.rows, email)
    ensures io.readError.None? ==> SignupOutcome(s, name, email, password, bcrypt, salt, now, io) == Err(AlreadyRegistered)
    ensures io.readError.Some? ==> SignupOutcome(s, name, email, password, bcrypt, salt, now, io).Err?
  {
  }

  /**
   * A signup stores exactly one new row, under the next ID, holding the
   * bcrypt hash of the password, and it succeeds exactly when the email is
   * new, hashing works and the write goes through.
   */
  lemma SignupStoresHash(s: TableState, name: string, email: string, password: string,
                         bcrypt: Bcrypt, salt: nat, now: nat, io: Io)
    requires Consistent(s)
    ensures var r := SignupOutcome(s, name, email, password, bcrypt, salt, now, io);
      && (r.Ok? <==> !EmailTaken(s.rows, email) && bcrypt.generate(password, salt).Some? && io.writeError.None?)
      && (r.Ok? ==>
           && r.value.rows.Keys == s.rows.Keys + {s.nextId}
           && (forall id :: id in s.rows ==> r.value.rows[id] == s.rows[id])
           && r.value.rows[s.nextId] == Record(s.nextId, now, now, name, email, bcrypt.generate(password, salt).value))
  {
  }

  /** With a sound bcrypt, the stored hash accepts the password it was made from. */
  lemma SignupHashAcceptsPassword(s: TableState, name: string, email: string, password: string,
                                  bcrypt: Bcrypt, salt: nat, now: nat, io: Io)
    requires Consistent(s) && bcrypt.Sound()
    requires SignupOutcome(s, name, email, password, bcrypt, salt, now, io).Ok?
    ensures bcrypt.compare(SignupOutcome(s, name, email, password, bcrypt, salt, now, io).value.rows[s.nextId].password, password)
  {
  }
}
