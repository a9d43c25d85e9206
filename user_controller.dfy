/**
 * app/http/controllers/UserController.go: the CRUD handlers behind the gate.
 * As for the auth handlers, each handler is a method on the table tied to a
 * pure outcome function (new table and response), and the handlers'
 * properties are lemmas about those functions.
 */
module UserController {
  import opened Base
  import opened Text
  import opened Crypto
  import opened Http
  import opened Models
  import opened Database
  import opened Signup

  datatype CreateUserRequest = CreateUserRequest(name: string, email: string, password: string)

  /** The fields of an update; an empty string means "leave this field as it is". */
  datatype UpdateUserRequest = UpdateUserRequest(name: string, email: string, password: string)

  const MsgNoDatabase: string := "Database tidak terhubung"
  const MsgBadId: string := "ID tidak valid"
  const MsgNotFound: string := "User tidak ditemukan"
  const MsgCreated: string := "User berhasil dibuat"
  const MsgEmailInUse: string := "Email sudah digunakan"
  const MsgUpdateFailed: string := "Gagal memperbarui user"
  const MsgUpdated: string := "User berhasil diperbarui"
  const MsgDeleteFailed: string := "Gagal menghapus user"
  const MsgDeleted: string := "User berhasil dihapus"

  /** Objects none of whose fields mention `key`. */
  lemma ObjectWithout(m: map<string, Json>, key: string)
    requires key !in m && forall k :: k in m ==> !MentionsKey(m[k], key)
    ensures !MentionsKey(JObj(m), key)
  {
  }

  /** The public view of a user in `GetUsers` and `GetUser`. */
  function UserDetail(row: Record): (j: Json)
    ensures j.JObj? && j.fields.Keys == {"id", "name", "email", "created_at", "updated_at"}
    ensures !MentionsKey(j, "password")
  {
    var m := map["id" := JNum(row.id), "name" := JStr(row.name), "email" := JStr(row.email),
                 "created_at" := JTime(row.createdAt), "updated_at" := JTime(row.updatedAt)];
    assert forall k :: k in m ==> !MentionsKey(m[k], "password");
    JObj(m)
  }

  /**
   * The encoding of the `response` slice: one entry per user, in order; a
   * slice nothing was appended to is nil and encodes as `null`.
   */
  function ListData(users: seq<Record>): (j: Json)
    ensures !MentionsKey(j, "password")
  {
    if |users| == 0 then JNull
    else
      var items := seq(|users|, i requires 0 <= i < |users| => UserDetail(users[i]));
      assert forall i :: 0 <= i < |items| ==> !MentionsKey(items[i], "password");
      JArr(items)
  }

  /** The listing puts each user, in order, into one entry with exactly the five public fields. */
  lemma ListDataEntries(users: seq<Record>)
    requires |users| > 0
    ensures ListData(users).JArr? && |ListData(users).items| == |users|
    ensures forall i :: 0 <= i < |users| ==>
      && ListData(users).items[i].JObj?
      && ListData(users).items[i].fields.Keys == {"id", "name", "email", "created_at", "updated_at"}
      && ListData(users).items[i] == UserDetail(users[i])
      && ListData(users).items[i].fields["id"] == JNum(users[i].id)
      && ListData(users).items[i].fields["name"] == JStr(users[i].name)
      && ListData(users).items[i].fields["email"] == JStr(users[i].email)
      && ListData(users).items[i].fields["created_at"] == JTime(users[i].createdAt)
      && ListData(users).items[i].fields["updated_at"] == JTime(users[i].updatedAt)
  {
  }

  /** `GetUsers(c)`: reads the table and changes nothing. */
  method GetUsers(db: Table?, io: Io) returns (resp: Response)
    requires db != null ==> db.Valid()
    ensures db == null ==> resp == Failure(StatusInternalServerError, MsgNoDatabase)
    ensures db != null && io.readError.Some? ==> resp == Failure(StatusInternalServerError, io.readError.value)
    ensures db != null && io.readError.None? ==>
      exists users :: IsListing(users, db.rows) && resp == Response(StatusOK, JObj(map["data" := ListData(users)]))
  {
    if db == null {
      return Failure(StatusInternalServerError, MsgNoDatabase);
    }
    var result := db.FindAll(io);
    if result.Err? {
      return Failure(StatusInternalServerError, result.error);
    }
    var users := result.value;
    var response: seq<Json> := [];
    var isNil := true;
    for i := 0 to |users|
      invariant isNil <==> i == 0
      invariant |response| == i
      invariant forall j :: 0 <= j < i ==> response[j] == UserDetail(users[j])
    {
      response := response + [UserDetail(users[i])];
      isNil := false;
    }
    var data := if isNil then JNull else JArr(response);
    assert data == ListData(users);
    resp := Response(StatusOK, JObj(map["data" := data]));
  }

  /** The listing never carries a password field. */
  lemma GetUsersHidesPassword(users: seq<Record>)
    ensures !MentionsKey(JObj(map["data" := ListData(users)]), "password")
  {
    ObjectWithout(map["data" := ListData(users)], "password");
  }

  // ---------------------------------------------------------------------------
  // GetUser

  /** What `GetUser` answers for the path parameter `param`. */
  function GetUserOutcome(s: TableState, param: string, io: Io): (r: Response)
    requires Consistent(s)
    ensures !MentionsKey(r.body, "password")
  {
    match ParseUint32(param)
    case None =>
      ErrorBodyMentionsOnlyError(MsgBadId, "password");
      Failure(StatusBadRequest, MsgBadId)
    case Some(id) =>
      if io.readError.Some? then
        ErrorBodyMentionsOnlyError(io.readError.value, "password");
        Failure(StatusInternalServerError, io.readError.value)
      else if id !in s.rows then
        ErrorBodyMentionsOnlyError(MsgNotFound, "password");
        Failure(StatusNotFound, MsgNotFound)
      else
        ObjectWithout(map["data" := UserDetail(s.rows[id])], "password");
        Response(StatusOK, JObj(map["data" := UserDetail(s.rows[id])]))
  }

  /** `GetUser(c)`: reads the table and changes nothing. */
  method GetUser(db: Table, param: string, io: Io) returns (resp: Response)
    requires db.Valid()
    ensures resp == GetUserOutcome(db.State(), param, io)
  {
    var userId := ParseUint32(param);
    if userId.None? {
      return Failure(StatusBadRequest, MsgBadId);
    }
    var found := db.FindById(userId.value, io);
    match found
    case Failed(message) => resp := Failure(StatusInternalServerError, message);
    case NotFound => resp := Failure(StatusNotFound, MsgNotFound);
    case Found(row) => resp := Response(StatusOK, JObj(map["data" := UserDetail(row)]));
  }

  /** A 200 from `GetUser` shows exactly the stored row with the parsed ID. */
  lemma GetUserShowsRow(s: TableState, param: string, io: Io)
    requires Consistent(s)
    ensures GetUserOutcome(s, param, io).status == StatusOK <==>
      ParseUint32(param).Some? && io.readError.None? && ParseUint32(param).value in s.rows
    ensures GetUserOutcome(s, param, io).status == StatusOK ==>
      GetUserOutcome(s, param, io).body == JObj(map["data" := UserDetail(s.rows[DecimalValue(param)])])
  {
  }

  // ---------------------------------------------------------------------------
  // CreateUser

  /** `gin.H{"id", "name", "email", "created_at"}` of the new user. */
  function CreatedData(row: Record): (j: Json)
    ensures j.JObj? && j.fields.Keys == {"id", "name", "email", "created_at"}
    ensures !MentionsKey(j, "password")
  {
    var m := map["id" := JNum(row.id), "name" := JStr(row.name), "email" := JStr(row.email),
                 "created_at" := JTime(row.createdAt)];
    assert forall k :: k in m ==> !MentionsKey(m[k], "password");
    JObj(m)
  }

  /** A message and the public data of the user it concerns. */
  function MessageAndData(message: string, data: Json): (j: Json)
    requires !MentionsKey(data, "password")
    ensures !MentionsKey(j, "password")
  {
    ObjectWithout(map["message" := JStr(message), "data" := data], "password");
    JObj(map["message" := JStr(message), "data" := data])
  }

  /** What `CreateUser` does to the table and answers. */
  function CreateUserOutcome(s: TableState, bound: Bind<CreateUserRequest>, bcrypt: Bcrypt, salt: nat,
                             now: nat, io: Io): (out: (TableState, Response))
    requires Consistent(s)
    ensures Consistent(out.0)
    ensures !MentionsKey(out.1.body, "password")
  {
    match bound
    case BindError(message) =>
      ErrorBodyMentionsOnlyError(message, "password");
      (s, Failure(StatusBadRequest, message))
    case Bound(req) =>
      match SignupOutcome(s, req.name, req.email, req.password, bcrypt, salt, now, io)
      case Err(e) => (s, SignupFailure(e))
      case Ok(s') =>
        SignupStoresHash(s, req.name, req.email, req.password, bcrypt, salt, now, io);
        (s', Response(StatusCreated, MessageAndData(MsgCreated, CreatedData(s'.rows[s.nextId]))))
  }

  /** `CreateUser(c)`. */
  method CreateUser(db: Table, bound: Bind<CreateUserRequest>, bcrypt: Bcrypt, salt: nat, now: nat, io: Io)
    returns (resp: Response)
    requires db.Valid()
    modifies db
    ensures db.Valid()
    ensures (db.State(), resp) == CreateUserOutcome(old(db.State()), bound, bcrypt, salt, now, io)
  {
    if bound.BindError? {
      return Failure(StatusBadRequest, bound.message);
    }
    var req := bound.req;
    var stored := SignupUser(db, req.name, req.email, req.password, bcrypt, salt, now, io);
    if stored.Err? {
      return SignupFailure(stored.error);
    }
    resp := Response(StatusCreated, MessageAndData(MsgCreated, CreatedData(stored.value)));
  }

  /**
   * Creating a user whose email is stored answers 409 when the lookup works
   * (500 otherwise) and leaves the table as it was; a 201 stores one new row
   * holding the password's hash.
   */
  lemma CreateUserRules(s: TableState, req: CreateUserRequest, bcrypt: Bcrypt, salt: nat, now: nat, io: Io)
    requires Consistent(s)
    ensures var out := CreateUserOutcome(s, Bound(req), bcrypt, salt, now, io);
      && (EmailTaken(s.rows, req.email) ==> out.0 == s)
      && (EmailTaken(s.rows, req.email) && io.readError.None? ==> out.1 == Failure(StatusConflict, MsgEmailRegistered))
      && (out.1.status == StatusCreated <==> out.0 != s)
      && (out.1.status == StatusCreated ==>
           out.0 == Inserted(s, req.name, req.email, bcrypt.generate(req.password, salt).value, now))
  {
    SignupStoresHash(s, req.name, req.email, req.password, bcrypt, salt, now, io);
    if EmailTaken(s.rows, req.email) {
      SignupNeverDuplicates(s, req.name, req.email, req.password, bcrypt, salt, now, io);
    }
    var out := CreateUserOutcome(s, Bound(req), bcrypt, salt, now, io);
    if out.1.status == StatusCreated {
      assert s.nextId in out.0.rows && s.nextId !in s.rows;
    }
  }

  // ---------------------------------------------------------------------------
  // UpdateUser

  /**
   * The stored password after an update: kept when the request leaves it
   * empty, otherwise the hash of the new one (`None`: hashing failed).
   */
  function NewPassword(stored: string, requested: string, bcrypt: Bcrypt, salt: nat): (p: Option<string>)
    ensures requested == "" ==> p == Some(stored)
    ensures requested != "" ==> p == bcrypt.generate(requested, salt)
    ensures bcrypt.Sound() && requested != "" && p.Some? ==> bcrypt.compare(p.value, requested)
  {
    if requested == "" then Some(stored) else bcrypt.generate(requested, salt)
  }

  /** The row with the request's non-empty name and email merged in and the password `password`. */
  function Merged(row: Record, req: UpdateUserRequest, password: string): (r: Record)
    ensures r.id == row.id && r.createdAt == row.createdAt && r.updatedAt == row.updatedAt
    ensures r.name == (if req.name != "" then req.name else row.name)
    ensures r.email == (if req.email != "" then req.email else row.email)
    ensures r.password == password
    ensures req.name == "" && req.email == "" ==> r == row.(password := password)
  {
    var name := if req.name != "" then req.name else row.name;
    var email := if req.email != "" then req.email else row.email;
    row.(name := name, email := email, password := password)
  }

  /** `gin.H{"id", "name", "email", "updated_at"}` of the updated user. */
  function UpdatedData(row: Record): (j: Json)
    ensures j.JObj? && j.fields.Keys == {"id", "name", "email", "updated_at"}
    ensures !MentionsKey(j, "password")
  {
    var m := map["id" := JNum(row.id), "name" := JStr(row.name), "email" := JStr(row.email),
                 "updated_at" := JTime(row.updatedAt)];
    assert forall k :: k in m ==> !MentionsKey(m[k], "password");
    JObj(m)
  }

  /** What `UpdateUser` does to the table and answers. */
  function UpdateUserOutcome(s: TableState, param: string, bound: Bind<UpdateUserRequest>, bcrypt: Bcrypt,
                             salt: nat, now: nat, io: Io): (out: (TableState, Response))
    requires Consistent(s)
    ensures Consistent(out.0)
    ensures !MentionsKey(out.1.body, "password")
  {
    ErrorBodyMentionsOnlyError(MsgBadId, "password");
    ErrorBodyMentionsOnlyError(MsgNotFound, "password");
    ErrorBodyMentionsOnlyError(MsgEmailInUse, "password");
    ErrorBodyMentionsOnlyError(MsgHashFailed, "password");
    ErrorBodyMentionsOnlyError(MsgUpdateFailed, "password");
    match ParseUint32(param)
    case None => (s, Failure(StatusBadRequest, MsgBadId))
    case Some(id) =>
      match bound
      case BindError(message) =>
        ErrorBodyMentionsOnlyError(message, "password");
        (s, Failure(StatusBadRequest, message))
      case Bound(req) =>
        if io.readError.Some? then
          ErrorBodyMentionsOnlyError(io.readError.value, "password");
          (s, Failure(StatusInternalServerError, io.readError.value))
        else if id !in s.rows then (s, Failure(StatusNotFound, MsgNotFound))
        else if req.email != "" && EmailTakenByOther(s.rows, req.email, id) then (s, Failure(StatusConflict, MsgEmailInUse))
        else
          match NewPassword(s.rows[id].password, req.password, bcrypt, salt)
          case None => (s, Failure(StatusInternalServerError, MsgHashFailed))
          case Some(password) =>
            if io.writeError.Some? then (s, Failure(StatusInternalServerError, MsgUpdateFailed))
            else
              var row := Merged(s.rows[id], req, password);
              assert !EmailTakenByOther(s.rows, row.email, id);
              var s' := Saved(s, row, now);
              (s', Response(StatusOK, MessageAndData(MsgUpdated, UpdatedData(s'.rows[id]))))
  }

  /** `UpdateUser(c)`: the fetched user is changed field by field, then saved. */
  method UpdateUser(db: Table, param: string, bound: Bind<UpdateUserRequest>, bcrypt: Bcrypt,
                    salt: nat, now: nat, io: Io) returns (resp: Response)
    requires db.Valid()
    modifies db
    ensures db.Valid()
    ensures (db.State(), resp) == UpdateUserOutcome(old(db.State()), param, bound, bcrypt, salt, now, io)
  {
    var userId := ParseUint32(param);
    if userId.None? {
      return Failure(StatusBadRequest, MsgBadId);
    }
    var id := userId.value;
    if bound.BindError? {
      return Failure(StatusBadRequest, bound.message);
    }
    var req := bound.req;
    var found := db.FindById(id, io);
    if found.Failed? {
      return Failure(StatusInternalServerError, found.message);
    }
    if found.NotFound? {
      return Failure(StatusNotFound, MsgNotFound);
    }
    var user := new User.Load(found.row);
    if req.name != "" {
      user.name := req.name;
    }
    if req.email != "" {
      var existing := db.FindByEmailExcept(req.email, id, io);
      if existing.Found? {
        return Failure(StatusConflict, MsgEmailInUse);
      }
      user.email := req.email;
    }
    if req.password != "" {
      user.password := req.password;
      var hashErr := user.HashPassword(bcrypt, salt);
      if hashErr.Some? {
        return Failure(StatusInternalServerError, MsgHashFailed);
      }
    }
    assert user.Row() == Merged(db.rows[id], req, NewPassword(db.rows[id].password, req.password, bcrypt, salt).value);
    var saveErr := db.Save(user, now, io);
    if saveErr.Some? {
      return Failure(StatusInternalServerError, MsgUpdateFailed);
    }
    resp := Response(StatusOK, MessageAndData(MsgUpdated, UpdatedData(user.Row())));
  }

  /**
   * A 200 from `UpdateUser` changes that one row and no other: empty fields
   * of the request keep the stored value, a new password is stored hashed,
   * ID and creation time stay, and the update time is `now`.
   */
  lemma UpdateMergesFields(s: TableState, param: string, req: UpdateUserRequest, bcrypt: Bcrypt,
                           salt: nat, now: nat, io: Io)
    requires Consistent(s)
    requires UpdateUserOutcome(s, param, Bound(req), bcrypt, salt, now, io).1.status == StatusOK
    ensures ParseUint32(param).Some? && ParseUint32(param).value in s.rows
    ensures var id := ParseUint32(param).value;
      var prev := s.rows[id];
      var next := UpdateUserOutcome(s, param, Bound(req), bcrypt, salt, now, io).0;
      && next.rows.Keys == s.rows.Keys
      && (forall other :: other in s.rows && other != id ==> next.rows[other] == s.rows[other])
      && next.rows[id].id == id && next.rows[id].createdAt == prev.createdAt && next.rows[id].updatedAt == now
      && next.rows[id].name == (if req.name == "" then prev.name else req.name)
      && next.rows[id].email == (if req.email == "" then prev.email else req.email)
      && (req.password == "" ==> next.rows[id].password == prev.password)
      && (req.password != "" ==> Some(next.rows[id].password) == bcrypt.generate(req.password, salt))
      && (req.password != "" && bcrypt.Sound() ==> bcrypt.compare(next.rows[id].password, req.password))
  {
  }

  /**
   * Moving to an email another user holds answers 409 and saves nothing, not
   * even a name already merged; keeping one's own email is never a conflict.
   */
  lemma UpdateEmailConflict(s: TableState, param: string, req: UpdateUserRequest, bcrypt: Bcrypt,
                            salt: nat, now: nat, io: Io)
    requires Consistent(s) && ParseUint32(param).Some? && ParseUint32(param).value in s.rows && io.readError.None?
    ensures var id := ParseUint32(param).value;
      var out := UpdateUserOutcome(s, param, Bound(req), bcrypt, salt, now, io);
      && (out.1.status == StatusConflict <==> req.email != "" && EmailTakenByOther(s.rows, req.email, id))
      && (out.1.status == StatusConflict ==> out == (s, Failure(StatusConflict, MsgEmailInUse)))
      && (req.email == s.rows[id].email ==> out.1.status != StatusConflict)
  {
    var id := ParseUint32(param).value;
    if req.email == s.rows[id].email && req.email != "" {
      assert !EmailTakenByOther(s.rows, req.email, id);
    }
  }

  // ---------------------------------------------------------------------------
  // DeleteUser

  /** What `DeleteUser` does to the table and answers. */
  function DeleteUserOutcome(s: TableState, param: string, io: Io): (out: (TableState, Response))
    requires Consistent(s)
    ensures Consistent(out.0)
    ensures !MentionsKey(out.1.body, "password")
  {
    ErrorBodyMentionsOnlyError(MsgBadId, "password");
    ErrorBodyMentionsOnlyError(MsgNotFound, "password");
    ErrorBodyMentionsOnlyError(MsgDeleteFailed, "password");
    match ParseUint32(param)
    case None => (s, Failure(StatusBadRequest, MsgBadId))
    case Some(id) =>
      if io.readError.Some? then
        ErrorBodyMentionsOnlyError(io.readError.value, "password");
        (s, Failure(StatusInternalServerError, io.readError.value))
      else if id !in s.rows then (s, Failure(StatusNotFound, MsgNotFound))
      else if io.writeError.Some? then (s, Failure(StatusInternalServerError, MsgDeleteFailed))
      else
        ObjectWithout(map["message" := JStr(MsgDeleted)], "password");
        (Removed(s, id), Response(StatusOK, JObj(map["message" := JStr(MsgDeleted)])))
  }

  /** `DeleteUser(c)`: fetch the user, then delete it by its ID. */
  method DeleteUser(db: Table, param: string, io: Io) returns (resp: Response)
    requires db.Valid()
    modifies db
    ensures db.Valid()
    ensures (db.State(), resp) == DeleteUserOutcome(old(db.State()), param, io)
  {
    var userId := ParseUint32(param);
    if userId.None? {
      return Failure(StatusBadRequest, MsgBadId);
    }
    var found := db.FindById(userId.value, io);
    if found.Failed? {
      return Failure(StatusInternalServerError, found.message);
    }
    if found.NotFound? {
      return Failure(StatusNotFound, MsgNotFound);
    }
    var user := new User.Load(found.row);
    var deleteErr := db.Delete(user.id, io);
    if deleteErr.Some? {
      return Failure(StatusInternalServerError, MsgDeleteFailed);
    }
    resp := Response(StatusOK, JObj(map["message" := JStr(MsgDeleted)]));
  }

  /** A 200 from `DeleteUser` removes exactly the row with the parsed ID and keeps every other row. */
  lemma DeleteRemovesExactly(s: TableState, param: string, io: Io)
    requires Consistent(s)
    ensures var out := DeleteUserOutcome(s, param, io);
      out.1.status == StatusOK <==>
        ParseUint32(param).Some? && ParseUint32(param).value in s.rows && io == Healthy
    ensures var out := DeleteUserOutcome(s, param, io);
      out.1.status == StatusOK ==>
        && out.0.rows == s.rows - {ParseUint32(param).value}
        && out.0.nextId == s.nextId
    ensures var out := DeleteUserOutcome(s, param, io);
      out.1.status != StatusOK ==> out.0 == s
  {
  }

  // ---------------------------------------------------------------------------
  // Rules shared by the handlers that take an ID

  /**
   * A path parameter that is not a decimal number below 2^32 gets 400 "ID
   * tidak valid" from all three handlers, whatever the table and its faults,
   * and before the table is touched.
   */
  lemma BadIdRejected(s: TableState, param: string, bound: Bind<UpdateUserRequest>, bcrypt: Bcrypt,
                      salt: nat, now: nat, io: Io)
    requires Consistent(s)
    requires param == [] || !AllDigits(param) || DecimalValue(param) >= Uint32Limit
    ensures GetUserOutcome(s, param, io) == Failure(StatusBadRequest, MsgBadId)
    ensures UpdateUserOutcome(s, param, bound, bcrypt, salt, now, io) == (s, Failure(StatusBadRequest, MsgBadId))
    ensures DeleteUserOutcome(s, param, io) == (s, Failure(StatusBadRequest, MsgBadId))
  {
  }

  /**
   * An ID that is well formed but not stored gets 404 from all three
   * handlers, and the table stays as it was. The parameter is any text
   * strconv reads as that ID, leading zeros included.
   */
  lemma AbsentIdNotFound(s: TableState, param: string, id: nat, bound: Bind<UpdateUserRequest>, bcrypt: Bcrypt,
                         salt: nat, now: nat, io: Io)
    requires Consistent(s) && ParseUint32(param) == Some(id) && id !in s.rows && io.readError.None? && bound.Bound?
    ensures GetUserOutcome(s, param, io) == Failure(StatusNotFound, MsgNotFound)
    ensures UpdateUserOutcome(s, param, bound, bcrypt, salt, now, io) == (s, Failure(StatusNotFound, MsgNotFound))
    ensures DeleteUserOutcome(s, param, io) == (s, Failure(StatusNotFound, MsgNotFound))
  {
  }

  /** The canonical numeral of every 32-bit ID is one such parameter. */
  lemma AbsentCanonicalIdNotFound(s: TableState, id: nat, bound: Bind<UpdateUserRequest>, bcrypt: Bcrypt,
                                  salt: nat, now: nat, io: Io)
    requires Consistent(s) && id < Uint32Limit && id !in s.rows && io.readError.None? && bound.Bound?
    ensures GetUserOutcome(s, Decimal(id), io) == Failure(StatusNotFound, MsgNotFound)
    ensures UpdateUserOutcome(s, Decimal(id), bound, bcrypt, salt, now, io) == (s, Failure(StatusNotFound, MsgNotFound))
    ensures DeleteUserOutcome(s, Decimal(id), io) == (s, Failure(StatusNotFound, MsgNotFound))
  {
    ParseDecimal(id);
    AbsentIdNotFound(s, Decimal(id), id, bound, bcrypt, salt, now, io);
  }
}
