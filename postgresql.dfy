/**
 * The database settings of common/infrastructure/postgresql/config.go:
 * defaulting of the pool limits, the connection lifetime, the connection
 * string and the scrubbing of credentials once a connection is open.
 * Go's `int` and `time.Duration` are 64 bits wide here.
 */
module Postgresql {
  import opened Strings
  import opened Util

  const DefaultMaxConn := 500
  const DefaultMaxIdle := 250
  const DefaultLife := 2
  const DefaultUniqueConstraint := "23505"

  /** time.Minute in nanoseconds. */
  const Minute := 60_000_000_000

  /** The largest lifetime in minutes whose duration fits a time.Duration. */
  const MaxLifeMinutes := Int64Max / Minute

  /** A configured limit, or the default when it is not positive. */
  function PositiveOr(v: int, default: int): (r: int)
    ensures v > 0 ==> r == v
    ensures v <= 0 ==> r == default
  {
    if v <= 0 then default else v
  }

  /** With a positive default the limit is always positive, and defaulting twice is defaulting once. */
  lemma PositiveOrSettles(v: int, default: int)
    requires default > 0
    ensures PositiveOr(v, default) > 0
    ensures PositiveOr(PositiveOr(v, default), default) == PositiveOr(v, default)
  {
  }

  /** `time.Minute * time.Duration(life)`: the product in nanoseconds, wrapped to 64 bits. */
  function LifeDuration(life: int): (d: int)
    ensures InInt64(d)
    ensures InInt64(life) && -MaxLifeMinutes <= life <= MaxLifeMinutes ==> d == life * Minute
  {
    WrapInt64(Minute * WrapInt64(life))
  }

  /** Within range, the duration is `life` whole minutes. */
  lemma LifeDurationIsMinutes(life: int)
    requires 0 <= life <= MaxLifeMinutes
    ensures LifeDuration(life) / Minute == life && LifeDuration(life) % Minute == 0
  {
    assert LifeDuration(life) == life * Minute;
  }

  /** One beyond the range, the duration wraps around to a negative value. */
  lemma LifeDurationWraps()
    ensures LifeDuration(MaxLifeMinutes + 1) < 0
  {
    assert MaxLifeMinutes == 153_722_867;
    assert Minute * (MaxLifeMinutes + 1) == 9_223_372_080_000_000_000;
    assert WrapInt64(9_223_372_080_000_000_000) == 9_223_372_080_000_000_000 - Int64Modulus;
  }

  /** The part of the connection string that names the server, the account and the database. */
  function Connection(host: string, user: string, pwd: string, name: string, port: int): string {
    "host=" + host + " user=" + user + " password=" + pwd + " dbname=" + name + " port=" + FormatInt(port)
  }

  /** A string that differs from `p` at a position of both is not prefixed by `p`. */
  lemma DiffersAt(s: string, p: string, i: int)
    requires 0 <= i < |p| && i < |s| && s[i] != p[i]
    ensures !HasPrefix(s, p)
  {
  }

  const VerifyCa := "sslmode=verify-ca "
  const Disable := "sslmode=disable "
  const TimeZone := "TimeZone=Asia/Shanghai"
  const RootCert := " sslrootcert="

  /** The TLS part: verify the server against the given certificate, or no TLS at all. */
  function SslSettings(dbcert: string): (s: string)
    ensures HasPrefix(s, VerifyCa) <==> dbcert != ""
    ensures HasPrefix(s, Disable) <==> dbcert == ""
    ensures dbcert != "" ==> HasSuffix(s, RootCert + dbcert)
    ensures dbcert != "" ==> s == VerifyCa + TimeZone + RootCert + dbcert
    ensures dbcert == "" ==> s == Disable + TimeZone
  {
    var verify := (VerifyCa + TimeZone) + (RootCert + dbcert);
    var disable := Disable + TimeZone;
    assert verify[|verify| - |RootCert + dbcert|..] == RootCert + dbcert;
    assert verify[..|VerifyCa|] == VerifyCa && disable[..|Disable|] == Disable;
    assert verify[8] == 'v' && disable[8] == 'd';
    DiffersAt(verify, Disable, 8);
    DiffersAt(disable, VerifyCa, 8);
    if dbcert != "" then verify else disable
  }

  /** The unique-violation error code of PostgreSQL, configurable. */
  class ErrorCode {
    var uniqueConstraint: string

    constructor(uniqueConstraint: string)
      ensures this.uniqueConstraint == uniqueConstraint
    {
      this.uniqueConstraint := uniqueConstraint;
    }

    /** An empty code becomes 23505; a configured code is kept. */
    method SetDefault()
      modifies this
      ensures old(uniqueConstraint) == "" ==> uniqueConstraint == DefaultUniqueConstraint
      ensures old(uniqueConstraint) != "" ==> uniqueConstraint == old(uniqueConstraint)
      ensures uniqueConstraint != ""
    {
      if uniqueConstraint == "" {
        uniqueConstraint := DefaultUniqueConstraint;
      }
    }
  }

  class Config {
    var host: string
    var user: string
    var pwd: string
    var name: string
    var port: int
    var life: int      // minutes
    var maxConn: int
    var maxIdle: int
    var dbcert: string
    /** The nested error-code section, which the configuration loader defaults on its own. */
    const code: ErrorCode

    constructor(host: string, user: string, pwd: string, name: string, port: int, life: int,
                maxConn: int, maxIdle: int, dbcert: string, code: ErrorCode)
      ensures this.host == host && this.user == user && this.pwd == pwd && this.name == name
      ensures this.port == port && this.life == life && this.maxConn == maxConn && this.maxIdle == maxIdle
      ensures this.dbcert == dbcert && this.code == code
    {
      this.host := host;
      this.user := user;
      this.pwd := pwd;
      this.name := name;
      this.port := port;
      this.life := life;
      this.maxConn := maxConn;
      this.maxIdle := maxIdle;
      this.dbcert := dbcert;
      this.code := code;
    }

    /** Replaces a non-positive pool size, idle count or lifetime by 500, 250 or 2 minutes. */
    method SetDefault()
      modifies this
      ensures maxConn == PositiveOr(old(maxConn), DefaultMaxConn)
      ensures maxIdle == PositiveOr(old(maxIdle), DefaultMaxIdle)
      ensures life == PositiveOr(old(life), DefaultLife)
      ensures maxConn > 0 && maxIdle > 0 && life > 0
      // a second call changes nothing
      ensures old(maxConn) > 0 && old(maxIdle) > 0 && old(life) > 0 ==>
                maxConn == old(maxConn) && maxIdle == old(maxIdle) && life == old(life)
      ensures host == old(host) && user == old(user) && pwd == old(pwd) && name == old(name)
      ensures port == old(port) && dbcert == old(dbcert)
    {
      if maxConn <= 0 {
        maxConn := DefaultMaxConn;
      }
      if maxIdle <= 0 {
        maxIdle := DefaultMaxIdle;
      }
      if life <= 0 {
        life := DefaultLife;
      }
    }

    /** getLifeDuration: the configured lifetime as a duration. */
    function LifeTime(): (d: int)
      reads this
      ensures InInt64(d)
      ensures 0 < life <= MaxLifeMinutes ==> d == life * Minute && d > 0
    {
      LifeDuration(life)
    }

    /** dsn: the connection string, with TLS verification exactly when a certificate is configured. */
    function Dsn(): (s: string)
      reads this
      ensures HasPrefix(s, Connection(host, user, pwd, name, port) + " ")
      ensures HasPrefix(s[|Connection(host, user, pwd, name, port)| + 1..], VerifyCa) <==> dbcert != ""
      ensures HasPrefix(s[|Connection(host, user, pwd, name, port)| + 1..], Disable) <==> dbcert == ""
      ensures dbcert != "" ==> HasSuffix(s, RootCert + dbcert)
      ensures s == Connection(host, user, pwd, name, port) + " " + SslSettings(dbcert)
    {
      var head := Connection(host, user, pwd, name, port) + " ";
      var tls := SslSettings(dbcert);
      assert (head + tls)[|head|..] == tls;
      assert (head + tls)[..|head|] == head;
      assert dbcert != "" ==> (head + tls)[|head + tls| - |RootCert + dbcert|..] == tls[|tls| - |RootCert + dbcert|..];
      head + tls
    }

    /** Forgets the server and the credentials and keeps everything else. */
    method Clear()
      modifies this
      ensures host == "" && user == "" && pwd == "" && name == ""
      ensures port == old(port) && life == old(life) && maxConn == old(maxConn) && maxIdle == old(maxIdle)
      ensures dbcert == old(dbcert)
    {
      host := "";
      user := "";
      pwd := "";
      name := "";
    }
  }
}
