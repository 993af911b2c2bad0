/** backend/config/config.go: settings read from the process environment,
    each with a default. The environment is a map from variable names to
    values; a variable that is absent reads as the empty text, as
    `os.Getenv` returns it. */
module Config {
  import opened Wrappers
  import opened Strconv

  type Env = map<string, string>

  /** `os.Getenv`: the empty text for an unset variable. */
  function Getenv(env: Env, key: string): string
  {
    if key in env then env[key] else ""
  }

  /** `getEnv`: the variable's value, or the default when it is unset or
      empty. */
  function GetEnv(env: Env, key: string, defaultValue: string): (r: string)
    ensures r == defaultValue || (key in env && r == env[key] != "")
    ensures key !in env || env[key] == "" ==> r == defaultValue
    ensures key in env && env[key] != "" ==> r == env[key]
  {
    var value := Getenv(env, key);
    if value == "" then defaultValue else value
  }

  /** `getEnvAsInt`: the default when the variable is unset or empty or its
      text does not scan as an integer with `%d`, the scanned value
      otherwise. */
  function GetEnvAsInt(env: Env, key: string, defaultValue: int): (r: int)
    ensures Getenv(env, key) == "" ==> r == defaultValue
    ensures ScanInt(Getenv(env, key)).None? ==> r == defaultValue
    ensures ScanInt(Getenv(env, key)).Some? ==> r == ScanInt(Getenv(env, key)).value
  {
    var valueStr := GetEnv(env, key, "");
    if valueStr == "" then defaultValue
    else
      match ScanInt(valueStr)
      case None => defaultValue
      case Some(value) => value
  }

  /** A variable holding the decimal text of a 64-bit integer, possibly
      followed by text that does not continue the digits, reads as that
      integer. */
  lemma GetEnvAsIntReadsDecimal(env: Env, key: string, defaultValue: int, n: int, rest: string)
    requires InInt64(n)
    requires rest == [] || !IsDigit(rest[0])
    requires key in env && env[key] == Itoa(n) + rest
    ensures GetEnvAsInt(env, key, defaultValue) == n
  {
    ScanIntItoa(n, rest);
  }

  const NanosPerSecond: int := 1_000_000_000

  /** Go's `int64` arithmetic wraps modulo 2^64 into the signed range. */
  function WrapInt64(x: int): (r: int)
    ensures InInt64(r)
    ensures InInt64(x) ==> r == x
    ensures (r - x) % 0x1_0000_0000_0000_0000 == 0
  {
    (x - MinInt64) % 0x1_0000_0000_0000_0000 + MinInt64
  }

  /** `time.Duration(n) * time.Second`, in nanoseconds. */
  function SecondsDuration(n: int): int
  {
    WrapInt64(n * NanosPerSecond)
  }

  datatype ServerConfig = ServerConfig(port: string, readTimeout: int, writeTimeout: int)

  datatype DatabaseConfig = DatabaseConfig(
    host: string, port: string, user: string, password: string, dbName: string, sslMode: string)

  datatype AuthConfig = AuthConfig(jwtSecret: string, jwtExpirationHrs: int)

  datatype Configuration = Configuration(server: ServerConfig, database: DatabaseConfig, auth: AuthConfig)

  /** `GetConfig`. */
  function GetConfig(env: Env): Configuration
  {
    Configuration(
      ServerConfig(
        GetEnv(env, "SERVER_PORT", "8080"),
        SecondsDuration(GetEnvAsInt(env, "SERVER_READ_TIMEOUT", 10)),
        SecondsDuration(GetEnvAsInt(env, "SERVER_WRITE_TIMEOUT", 10))),
      DatabaseConfig(
        GetEnv(env, "DB_HOST", "localhost"),
        GetEnv(env, "DB_PORT", "5432"),
        GetEnv(env, "DB_USER", "postgres"),
        GetEnv(env, "DB_PASSWORD", "postgres"),
        GetEnv(env, "DB_NAME", "systemcontrol"),
        GetEnv(env, "DB_SSLMODE", "disable")),
      AuthConfig(
        GetEnv(env, "JWT_SECRET", "your_secret_key"),
        GetEnvAsInt(env, "JWT_EXPIRATION_HRS", 24)))
  }

  /** With nothing set, the server listens on 8080 with 10-second read and
      write timeouts, and tokens live 24 hours. */
  lemma DefaultConfiguration()
    ensures var c := GetConfig(map[]);
      && c.server.port == "8080"
      && c.server.readTimeout == 10 * NanosPerSecond
      && c.server.writeTimeout == 10 * NanosPerSecond
      && c.auth.jwtExpirationHrs == 24
      && c.auth.jwtSecret == "your_secret_key"
      && c.database == DatabaseConfig("localhost", "5432", "postgres", "postgres", "systemcontrol", "disable")
  {
  }

  /** A read timeout given as a whole number of seconds that fits in a
      `time.Duration` is taken as that many seconds. */
  lemma ReadTimeoutFromEnv(env: Env, n: int)
    requires 0 <= n <= MaxInt64 / NanosPerSecond
    requires "SERVER_READ_TIMEOUT" in env && env["SERVER_READ_TIMEOUT"] == Itoa(n)
    ensures GetConfig(env).server.readTimeout == n * NanosPerSecond
  {
    assert Itoa(n) + "" == Itoa(n);
    GetEnvAsIntReadsDecimal(env, "SERVER_READ_TIMEOUT", 10, n, "");
    var seconds := GetEnvAsInt(env, "SERVER_READ_TIMEOUT", 10);
    assert GetConfig(env).server.readTimeout == SecondsDuration(seconds);
    assert 0 <= n * NanosPerSecond <= MaxInt64;
  }
}
