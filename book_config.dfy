/**
 * The book service's configuration (services/book-service/config/server_config.go): four
 * required environment variables, checked in a fixed order, and the listen address built
 * from two of them. A missing variable is fatal (log.Fatal); the model returns the message
 * that would be logged instead.
 */
module BookConfig {
  import opened Wrappers

  datatype ServerConfig = ServerConfig(http: string, httpAddr: string, httpPort: string, consulAddr: string, name: string)

  /** A variable's value, "" when it is not set. */
  function GetEnv(env: map<string, string>, key: string): string
  {
    if key in env then env[key] else ""
  }

  /** The message logged for a missing variable. */
  function NotSet(variable: string): string
  {
    variable + " environment variable is not set"
  }

  /**
   * NewServerConfig: the first empty variable among HTTP_ADDR, HTTP_PORT, CONSUL_ADDR and
   * SERVICE_NAME is reported; otherwise the values are copied unchanged and the listen address
   * is HTTP_ADDR, a colon, and HTTP_PORT. The port is not checked to be a number.
   */
  function NewServerConfig(env: map<string, string>): (r: Result<ServerConfig, string>)
    ensures r.Ok? <==> GetEnv(env, "HTTP_ADDR") != "" && GetEnv(env, "HTTP_PORT") != ""
                       && GetEnv(env, "CONSUL_ADDR") != "" && GetEnv(env, "SERVICE_NAME") != ""
    ensures GetEnv(env, "HTTP_ADDR") == "" ==> r == Err(NotSet("HTTP_ADDR"))
    ensures GetEnv(env, "HTTP_ADDR") != "" && GetEnv(env, "HTTP_PORT") == "" ==> r == Err(NotSet("HTTP_PORT"))
    ensures GetEnv(env, "HTTP_ADDR") != "" && GetEnv(env, "HTTP_PORT") != "" && GetEnv(env, "CONSUL_ADDR") == ""
            ==> r == Err(NotSet("CONSUL_ADDR"))
    ensures r.Err? && GetEnv(env, "HTTP_ADDR") != "" && GetEnv(env, "HTTP_PORT") != "" && GetEnv(env, "CONSUL_ADDR") != ""
            ==> r == Err(NotSet("SERVICE_NAME"))
    ensures r.Ok? ==> && r.value.httpAddr == GetEnv(env, "HTTP_ADDR") && r.value.httpPort == GetEnv(env, "HTTP_PORT")
                      && r.value.consulAddr == GetEnv(env, "CONSUL_ADDR") && r.value.name == GetEnv(env, "SERVICE_NAME")
                      && r.value.http == r.value.httpAddr + ":" + r.value.httpPort
  {
    var httpAddr := GetEnv(env, "HTTP_ADDR");
    if httpAddr == "" then Err(NotSet("HTTP_ADDR"))
    else
      var port := GetEnv(env, "HTTP_PORT");
      if port == "" then Err(NotSet("HTTP_PORT"))
      else
        var consulAddr := GetEnv(env, "CONSUL_ADDR");
        if consulAddr == "" then Err(NotSet("CONSUL_ADDR"))
        else
          var name := GetEnv(env, "SERVICE_NAME");
          if name == "" then Err(NotSet("SERVICE_NAME"))
          else Ok(ServerConfig(httpAddr + ":" + port, httpAddr, port, consulAddr, name))
  }

  /** The position of the last colon of `s`, if any. */
  function LastColon(s: string): (r: Option<nat>)
    ensures r.Some? ==> r.value < |s| && s[r.value] == ':' && forall j :: r.value < j < |s| ==> s[j] != ':'
    ensures r.None? ==> forall j :: 0 <= j < |s| ==> s[j] != ':'
  {
    if s == [] then None
    else if s[|s| - 1] == ':' then Some(|s| - 1)
    else LastColon(s[..|s| - 1])
  }

  /** Splits a text at its last colon into what comes before and after it; None when it has no colon. */
  function SplitHostPort(s: string): Option<(string, string)>
  {
    match LastColon(s)
    case None => None
    case Some(i) => Some((s[..i], s[i + 1..]))
  }

  /**
   * Splitting at the last colon undoes the construction of the listen address: for a port
   * without a colon it gives back HTTP_ADDR and HTTP_PORT as configured.
   */
  lemma HttpSplitsBack(env: map<string, string>)
    requires NewServerConfig(env).Ok?
    requires forall j :: 0 <= j < |GetEnv(env, "HTTP_PORT")| ==> GetEnv(env, "HTTP_PORT")[j] != ':'
    ensures SplitHostPort(NewServerConfig(env).value.http)
         == Some((GetEnv(env, "HTTP_ADDR"), GetEnv(env, "HTTP_PORT")))
  {
    var cfg := NewServerConfig(env).value;
    var s := cfg.http;
    var n := |cfg.httpAddr|;
    assert s[n] == ':';
    assert forall j :: n < j < |s| ==> s[j] == cfg.httpPort[j - n - 1];
    var i := LastColon(s).value;
    assert i == n;
    assert s[..n] == cfg.httpAddr && s[n + 1..] == cfg.httpPort;
  }

  /** Any non-empty port text is accepted, numeric or not. */
  lemma AnyPortAccepted(addr: string, port: string, consul: string, name: string)
    requires addr != "" && port != "" && consul != "" && name != ""
    ensures var env := map["HTTP_ADDR" := addr, "HTTP_PORT" := port, "CONSUL_ADDR" := consul, "SERVICE_NAME" := name];
            NewServerConfig(env) == Ok(ServerConfig(addr + ":" + port, addr, port, consul, name))
  {
  }
}
