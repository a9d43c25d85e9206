/**
 * database/seeders/user_seeder.go: `SeedUsers` runs the signup sequence once
 * for each of five sample users, skipping any whose email is already stored
 * and passing over any whose hashing or insert fails.
 */
module Seeders {
  import opened Base
  import opened Crypto
  import opened Models
  import opened Database
  import opened Signup

  datatype Seed = Seed(name: string, email: string, password: string)

  /** The sample users, in order. */
  const SeedList: seq<Seed> := [
    Seed("Admin", "admin@example.com", "password123"),
    Seed("John Doe", "john@example.com", "password123"),
    Seed("Jane Smith", "jane@example.com", "password123"),
    Seed("Bob Johnson", "bob@example.com", "password123"),
    Seed("Alice Williams", "alice@example.com", "password123")
  ]

  /** Five sample users with pairwise distinct emails, all with the plaintext password "password123". */
  lemma SeedListShape()
    ensures |SeedList| == 5
    ensures forall i, j :: 0 <= i < j < |SeedList| ==> SeedList[i].email != SeedList[j].email
    ensures forall i :: 0 <= i < |SeedList| ==> SeedList[i].password == "password123"
  {
  }

  /**
   * What the run meets from outside, per seed index: the bcrypt library, the
   * salt of each hash, the database faults of each seed's queries and the
   * clock reading of each insert.
   */
  datatype Surroundings = Surroundings(bcrypt: Bcrypt, salt: nat -> nat, io: nat -> Io, now: nat -> nat)

  /** One iteration for seed number `k`: a signup, whose failure only skips the seed. */
  function SeedStep(s: TableState, seed: Seed, k: nat, env: Surroundings): (r: TableState)
    requires Consistent(s)
    ensures Consistent(r)
  {
    match SignupOutcome(s, seed.name, seed.email, seed.password, env.bcrypt, env.salt(k), env.now(k), env.io(k))
    case Ok(s') => s'
    case Err(_) => s
  }

  /** The table after the iterations for `seeds`, numbered from `k`. */
  function SeedRun(s: TableState, seeds: seq<Seed>, k: nat, env: Surroundings): (r: TableState)
    requires Consistent(s)
    ensures Consistent(r)
    decreases |seeds|
  {
    if seeds == [] then s else SeedRun(SeedStep(s, seeds[0], k, env), seeds[1..], k + 1, env)
  }

  /** `SeedUsers(db)`: every seed gets its iteration; the result is always nil. */
  method SeedUsers(db: Table, env: Surroundings) returns (err: Option<string>)
    requires db.Valid()
    modifies db
    ensures db.Valid()
    ensures db.State() == SeedRun(old(db.State()), SeedList, 0, env)
    ensures err.None?
  {
    for i := 0 to |SeedList|
      invariant db.Valid()
      invariant SeedRun(db.State(), SeedList[i..], i, env) == SeedRun(old(db.State()), SeedList, 0, env)
    {
      var seed := SeedList[i];
      assert SeedList[i..][0] == seed && SeedList[i..][1..] == SeedList[i + 1..];
      ghost var before := db.State();
      var stored := SignupUser(db, seed.name, seed.email, seed.password, env.bcrypt, env.salt(i), env.now(i), env.io(i));
      assert db.State() == SeedStep(before, seed, i, env);
    }
    return None;
  }

  /** A stored row is never touched by a run: seeds only add rows. */
  lemma {:induction false} SeedRunKeepsRows(s: TableState, seeds: seq<Seed>, k: nat, env: Surroundings)
    requires Consistent(s)
    ensures s.rows.Keys <= SeedRun(s, seeds, k, env).rows.Keys
    ensures forall id :: id in s.rows ==> SeedRun(s, seeds, k, env).rows[id] == s.rows[id]
    decreases |seeds|
  {
    if seeds != [] {
      var s' := SeedStep(s, seeds[0], k, env);
      SignupStoresHash(s, seeds[0].name, seeds[0].email, seeds[0].password, env.bcrypt, env.salt(k), env.now(k), env.io(k));
      SeedRunKeepsRows(s', seeds[1..], k + 1, env);
    }
  }

  /** A seed whose email is stored is skipped: when every seed's email is stored, the run changes nothing. */
  lemma {:induction false} SeedRunSkipsStored(s: TableState, seeds: seq<Seed>, k: nat, env: Surroundings)
    requires Consistent(s)
    requires forall i :: 0 <= i < |seeds| ==> EmailTaken(s.rows, seeds[i].email)
    ensures SeedRun(s, seeds, k, env) == s
    decreases |seeds|
  {
    if seeds != [] {
      assert EmailTaken(s.rows, seeds[0].email);
      assert SeedStep(s, seeds[0], k, env) == s;
      assert forall i :: 0 <= i < |seeds[1..]| ==> seeds[1..][i] == seeds[i + 1];
      SeedRunSkipsStored(s, seeds[1..], k + 1, env);
    }
  }

  /** Iteration `k` for `seed` meets no hashing error and no write fault. */
  predicate Undisturbed(seed: Seed, k: nat, env: Surroundings)
  {
    env.bcrypt.generate(seed.password, env.salt(k)).Some? && env.io(k).writeError.None?
  }

  /**
   * A failure skips only its own seed: every seed whose iteration meets no
   * hashing error and no write fault has its email stored after the run,
   * whatever happened to the others.
   */
  lemma {:induction false} SeedRunStoresUndisturbed(s: TableState, seeds: seq<Seed>, k: nat, env: Surroundings)
    requires Consistent(s)
    ensures forall i :: 0 <= i < |seeds| && Undisturbed(seeds[i], k + i, env) ==>
      EmailTaken(SeedRun(s, seeds, k, env).rows, seeds[i].email)
    decreases |seeds|
  {
    if seeds != [] {
      var seed := seeds[0];
      var s' := SeedStep(s, seed, k, env);
      SignupStoresHash(s, seed.name, seed.email, seed.password, env.bcrypt, env.salt(k), env.now(k), env.io(k));
      SeedRunStoresUndisturbed(s', seeds[1..], k + 1, env);
      var r := SeedRun(s', seeds[1..], k + 1, env);
      SeedRunKeepsRows(s', seeds[1..], k + 1, env);
      forall i | 0 <= i < |seeds| && Undisturbed(seeds[i], k + i, env)
        ensures EmailTaken(r.rows, seeds[i].email)
      {
        if i == 0 {
          assert EmailTaken(s'.rows, seed.email) by {
            if !EmailTaken(s.rows, seed.email) {
              assert s'.rows[s.nextId].email == seed.email;
            }
          }
          var id :| id in s'.rows && s'.rows[id].email == seed.email;
          assert r.rows[id].email == seed.email;
        } else {
          assert seeds[i] == seeds[1..][i - 1] && k + i == k + 1 + (i - 1);
        }
      }
    }
  }

  /**
   * Seeding is idempotent through the skip rule: after a run that met no
   * hashing error and no write fault, a second run, under any surroundings,
   * inserts nothing.
   */
  lemma SeedUsersIdempotent(s: TableState, env: Surroundings, env': Surroundings)
    requires Consistent(s)
    requires forall i :: 0 <= i < |SeedList| ==> Undisturbed(SeedList[i], i, env)
    ensures var once := SeedRun(s, SeedList, 0, env);
      SeedRun(once, SeedList, 0, env') == once
  {
    SeedRunStoresUndisturbed(s, SeedList, 0, env);
    SeedRunSkipsStored(SeedRun(s, SeedList, 0, env), SeedList, 0, env');
  }

  /**
   * Every row a run adds belongs to one of its seeds and holds what bcrypt
   * made of that seed's password with that iteration's salt.
   */
  lemma {:induction false} SeedRunStoresHashes(s: TableState, seeds: seq<Seed>, k: nat, env: Surroundings)
    requires Consistent(s)
    ensures var r := SeedRun(s, seeds, k, env);
      forall id :: id in r.rows && id !in s.rows ==>
        exists i :: 0 <= i < |seeds| && r.rows[id].email == seeds[i].email && r.rows[id].name == seeds[i].name
          && Some(r.rows[id].password) == env.bcrypt.generate(seeds[i].password, env.salt(k + i))
    decreases |seeds|
  {
    if seeds != [] {
      var seed := seeds[0];
      var s' := SeedStep(s, seed, k, env);
      var r := SeedRun(s', seeds[1..], k + 1, env);
      SignupStoresHash(s, seed.name, seed.email, seed.password, env.bcrypt, env.salt(k), env.now(k), env.io(k));
      SeedRunStoresHashes(s', seeds[1..], k + 1, env);
      SeedRunKeepsRows(s', seeds[1..], k + 1, env);
      forall id | id in r.rows && id !in s.rows
        ensures exists i :: (0 <= i < |seeds| && r.rows[id].email == seeds[i].email && r.rows[id].name == seeds[i].name
          && Some(r.rows[id].password) == env.bcrypt.generate(seeds[i].password, env.salt(k + i)))
      {
        if id in s'.rows {
          assert r.rows[id] == s'.rows[id];
          assert k + 0 == k;
          assert r.rows[id].email == seeds[0].email && r.rows[id].name == seeds[0].name
            && Some(r.rows[id].password) == env.bcrypt.generate(seeds[0].password, env.salt(k + 0));
        } else {
          var j :| 0 <= j < |seeds[1..]| && r.rows[id].email == seeds[1..][j].email && r.rows[id].name == seeds[1..][j].name
            && Some(r.rows[id].password) == env.bcrypt.generate(seeds[1..][j].password, env.salt(k + 1 + j));
          assert seeds[1..][j] == seeds[j + 1] && k + 1 + j == k + (j + 1);
        }
      }
    }
  }
}
