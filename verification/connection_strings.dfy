/**
 * The connection strings every service builds from its settings: the MongoDB URL (the same
 * `mongodb_url` property appears in all four services), `http://host:port` service URLs and
 * bare `host:port` addresses.
 */
module ConnectionStrings {
  import opened Text

  /** The MongoDB part of a service's settings. */
  datatype MongoSettings = MongoSettings(
    host: string,
    port: int,
    user: string,
    password: string,
    databaseName: string,
    authDatabaseName: string)

  /** `f"{host}:{port}"`. */
  function HostPort(host: string, port: int): (r: string)
    ensures |r| == |host| + 1 + |IntToDecimal(port)|
    ensures r[..|host|] == host && r[|host|] == ':'
    ensures r[|host| + 1..] == IntToDecimal(port)
  {
    host + ":" + IntToDecimal(port)
  }

  /** `f"http://{host}:{port}"`. */
  function HttpUrl(host: string, port: int): (r: string)
    ensures |r| >= 7 && r[..7] == "http://" && r[7..] == HostPort(host, port)
  {
    "http://" + HostPort(host, port)
  }

  /** `user:password@`, or nothing when no user is configured. */
  function Credentials(m: MongoSettings): string
  {
    if m.user != "" then m.user + ":" + m.password + "@" else ""
  }

  /** `host:port/database?authSource=auth_database`. */
  function Location(m: MongoSettings): string
  {
    HostPort(m.host, m.port) + "/" + m.databaseName + "?authSource=" + m.authDatabaseName
  }

  /** The `mongodb_url` property: scheme, then credentials only when a user is configured, then the location. */
  function MongoUrl(m: MongoSettings): (url: string)
    ensures |url| >= 10 + |Location(m)|
    ensures url[..10] == "mongodb://"
    ensures url[|url| - |Location(m)|..] == Location(m)
  {
    "mongodb://" + Credentials(m) + Location(m)
  }

  /** `host:port` spelled out, given the rendering of the port. */
  lemma HostPortSpelled(host: string, port: int, portText: string)
    requires IntToDecimal(port) == portText
    ensures HostPort(host, port) == host + ":" + portText
  {
  }

  /** A service URL spelled out, given the rendering of its port. */
  lemma HttpUrlSpelled(host: string, port: int, portText: string)
    requires IntToDecimal(port) == portText
    ensures HttpUrl(host, port) == "http://" + host + ":" + portText
  {
  }

  /** The MongoDB URL without a user spelled out, given the rendering of the port. */
  lemma MongoUrlSpelled(m: MongoSettings, portText: string)
    requires m.user == "" && IntToDecimal(m.port) == portText
    ensures MongoUrl(m) == "mongodb://" + m.host + ":" + portText + "/" + m.databaseName + "?authSource=" + m.authDatabaseName
  {
  }

  /** With no user configured the URL is the scheme followed directly by the location. */
  lemma MongoUrlWithoutUser(m: MongoSettings)
    requires m.user == ""
    ensures MongoUrl(m) == "mongodb://" + Location(m)
  {
  }

  lemma NoAtInDecimal(i: int)
    ensures '@' !in IntToDecimal(i)
  {
    var s := IntToDecimal(i);
    assert forall k :: 1 <= k < |s| ==> s[k] == s[1..][k - 1];
  }

  /**
   * When neither the host nor the database names contain '@', the URL carries a credentials
   * section (`user:password@`) exactly when `mongo_user` is non-empty; an empty user drops the
   * password too, whatever it is.
   */
  lemma MongoUrlCredentials(m: MongoSettings)
    requires '@' !in m.host && '@' !in m.databaseName && '@' !in m.authDatabaseName
    ensures ('@' in MongoUrl(m)) <==> m.user != ""
    ensures m.user != "" ==> MongoUrl(m)[10..10 + |m.user| + |m.password| + 2] == m.user + ":" + m.password + "@"
  {
    var url := MongoUrl(m);
    var tail := Location(m);
    NoAtInDecimal(m.port);
    assert '@' !in HostPort(m.host, m.port);
    assert '@' !in tail;
    if m.user != "" {
      assert url == "mongodb://" + (m.user + ":" + m.password + "@") + tail;
      assert url[10 + |m.user| + |m.password| + 1] == '@';
    } else {
      assert url == "mongodb://" + tail;
    }
  }
}
