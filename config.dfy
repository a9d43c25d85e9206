/**
 * config/app.go: the settings the service reads from its configuration.
 * The configuration itself (viper over a `.env` file) is a map from key to
 * value, passed in; a key that is not configured reads as "".
 */
module Config {
  import opened Text

  type Env = map<string, string>

  /** `viper.GetString(key)`. */
  function GetString(env: Env, key: string): string
  {
    if key in env then env[key] else ""
  }

  const DefaultJWTSecret: string := "your-secret-key-change-this-in-production"

  /** The signing key: `JWT_SECRET` when it is set, otherwise the development fallback. */
  function JWTSecret(env: Env): (secret: string)
    ensures secret != ""
    ensures GetString(env, "JWT_SECRET") != "" ==> secret == GetString(env, "JWT_SECRET")
    ensures GetString(env, "JWT_SECRET") == "" ==> secret == DefaultJWTSecret
  {
    var configured := GetString(env, "JWT_SECRET");
    if configured == "" then DefaultJWTSecret else configured
  }

  /** The five database settings the DSN is built from, in the order it uses them. */
  function DsnSettings(env: Env): seq<string>
  {
    [GetString(env, "DB_HOST"), GetString(env, "DB_USERNAME"), GetString(env, "DB_PASSWORD"),
     GetString(env, "DB_NAME"), GetString(env, "DB_PORT")]
  }

  /** The `key=value` fields a PostgreSQL connection string made from `env` should consist of. */
  function DsnFields(env: Env): seq<string>
  {
    var v := DsnSettings(env);
    ["host=" + v[0], "user=" + v[1], "password=" + v[2], "dbname=" + v[3], "port=" + v[4],
     "sslmode=disable", "TimeZone=Asia/Jakarta"]
  }

  /**
   * The PostgreSQL DSN: the format string of config/app.go is the seven
   * fields separated by single spaces. When no setting contains a space, the
   * string falls apart on spaces into exactly those fields, in the order
   * host, user, password, dbname, port, sslmode, TimeZone.
   */
  function DSN(env: Env): (dsn: string)
    ensures (forall i :: 0 <= i < 5 ==> ' ' !in DsnSettings(env)[i]) ==> Split(dsn, ' ') == DsnFields(env)
  {
    var f := DsnFields(env);
    if forall i :: 0 <= i < 5 ==> ' ' !in DsnSettings(env)[i] then
      assert forall i :: 0 <= i < |f| ==> ' ' !in f[i] by {
        forall i | 0 <= i < |f| ensures ' ' !in f[i] {
          if i < 5 {
            assert ' ' !in DsnSettings(env)[i];
          }
        }
      }
      SplitJoin(f, ' ');
      Join(f, ' ')
    else
      Join(f, ' ')
  }
}
