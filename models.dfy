/**
 * app/models/User.go: the user record and its two password operations.
 * `User` is the Go struct the handlers hold and change in place; `Record` is
 * a snapshot of it, the form in which a row is stored in the table.
 */
module Models {
  import opened Base
  import opened Crypto
  import opened Http

  /** A stored row: `gorm.Model`'s ID and timestamps, then name, email and password hash. */
  datatype Record = Record(id: nat, createdAt: nat, updatedAt: nat, name: string, email: string, password: string)

  /** The error `bcrypt.GenerateFromPassword` returns. */
  datatype HashError = HashError

  class User {
    var id: nat
    var createdAt: nat
    var updatedAt: nat
    var name: string
    var email: string
    var password: string

    /** `models.User{Name: name, Email: email, Password: password}`: not stored yet, so ID 0. */
    constructor (name: string, email: string, password: string)
      ensures Row() == Record(0, 0, 0, name, email, password)
    {
      this.id, this.createdAt, this.updatedAt := 0, 0, 0;
      this.name, this.email, this.password := name, email, password;
    }

    /** The struct `First(&user, …)` fills in from a stored row. */
    constructor Load(r: Record)
      ensures Row() == r
    {
      this.id, this.createdAt, this.updatedAt := r.id, r.createdAt, r.updatedAt;
      this.name, this.email, this.password := r.name, r.email, r.password;
    }

    function Row(): Record
      reads this
    {
      Record(id, createdAt, updatedAt, name, email, password)
    }

    /**
     * `u.HashPassword()`: replaces the password by its bcrypt hash (salt
     * `salt`); on a hashing error returns the error and leaves the password as
     * it was. Nothing but the password changes.
     */
    method HashPassword(bcrypt: Bcrypt, salt: nat) returns (err: Option<HashError>)
      modifies this`password
      ensures bcrypt.generate(old(password), salt).Some? ==>
        err.None? && password == bcrypt.generate(old(password), salt).value
      ensures bcrypt.generate(old(password), salt).None? ==> err.Some? && password == old(password)
      ensures bcrypt.Sound() && err.None? ==> CheckPassword(bcrypt, old(password))
    {
      var hashed := bcrypt.generate(password, salt);
      if hashed.None? {
        return Some(HashError);
      }
      password := hashed.value;
      err := None;
    }

    /**
     * `u.CheckPassword(plain)`: bcrypt's comparison of the stored hash with
     * `plain`. It reads the user and changes nothing; for a sound bcrypt it
     * accepts `plain` whenever the stored password is a hash of `plain`.
     */
    function CheckPassword(bcrypt: Bcrypt, plain: string): (ok: bool)
      reads this
      ensures bcrypt.Sound() ==> forall salt :: bcrypt.generate(plain, salt) == Some(password) ==> ok
    {
      bcrypt.compare(password, plain)
    }
  }
}
