/**
 * Start-up and shutdown of the book service (services/book-service/main.go): configuration from
 * the environment, the registry client, the registration of the HTTP endpoint, its heartbeat
 * loop, the connection to the category service, the HTTP server, and the deferred
 * deregistration.
 */
module BookMain {
  import opened Wrappers
  import opened Errors
  import opened Strconv
  import opened Consul
  import opened Lifecycle
  import opened BookConfig
  import BookService

  /**
   * What the collaborators report, None meaning success: the consul client, the registration,
   * the connection to a service by registry name, the HTTP listener, and each deferred
   * deregistration by service id.
   */
  datatype Faults = Faults(client: Option<Error>, register: Option<Error>, connect: string -> Result<string, Error>,
                           listen: Option<Error>, deregister: string -> Option<Error>)

  const StartedMessage: string := "Book server started"

  /**
   * The HTTP endpoint's registration: under the service name, tag "http", with the listen
   * address "<addr>:<port>" as its address and the port parsed as by strconv.Atoi with its
   * error dropped.
   */
  function HttpRegistration(cfg: ServerConfig, httpID: string): (r: AgentServiceRegistration)
    ensures r.id == httpID && r.name == cfg.name && r.tags == ["http"] && r.address == cfg.http
    ensures r.port == Atoi(cfg.httpPort).0 && MinInt64 <= r.port <= MaxInt64
  {
    NewRegistration(cfg.name, httpID, cfg.http, Atoi(cfg.httpPort).0, ["http"])
  }

  /**
   * What webServer does from catalogue `d` and environment `env`: a missing variable ends the
   * process; a failing client or registration ends webServer with its error; once the endpoint
   * is registered, its heartbeat starts and its deregistration is deferred, so every later
   * return, the failed connection to the category service included, deregisters it.
   */
  function Expected(d: Directory, env: map<string, string>, httpID: string, f: Faults): Run
  {
    match NewServerConfig(env)
    case Err(message) => Run(Fatal(message), [], [LogFatal(message)], d)
    case Ok(cfg) =>
      var h := HttpRegistration(cfg, httpID);
      if f.client.Some? then
        Run(Returned(Some(Wrap("failed to create consul client: ", f.client.value))),
            [CreateClient(cfg.consulAddr)],
            [LogError("Failed to create consul registry for book service")], d)
      else if f.register.Some? then
        Run(Returned(Some(Wrap("failed to register service: ", f.register.value))),
            [CreateClient(cfg.consulAddr), Register(h)],
            [LogError("Failed to register HTTP book service to consul")], d)
      else Serving(Registered(d, h), cfg, httpID, f)
  }

  /** The rest of webServer once the endpoint is registered in `registered`. */
  function Serving(registered: Directory, cfg: ServerConfig, httpID: string, f: Faults): Run
  {
    var started := [CreateClient(cfg.consulAddr), Register(HttpRegistration(cfg, httpID)),
                    StartHeartbeat(httpID, cfg.name), ConnectCategoryService(BookService.CategoryServiceName)];
    var released := Released(registered, [httpID], f.deregister);
    match BookService.NewBookService(f.connect)
    case Err(e) =>
      Run(Returned(Some(e)), started + Deregistrations([httpID]), [LogError("Failed to create book service")], released)
    case Ok(_) =>
      Run(Returned(f.listen), started + [Listen(cfg.http)] + Deregistrations([httpID]),
          [LogInfo("Starting HTTP category server on " + cfg.http)]
          + (if f.listen.Some? then [LogError("Failed to start book server")] else []),
          released)
  }

  /** webServer, against the agent's catalogue; `httpID` stands for the generated service id. */
  method WebServer(env: map<string, string>, agent: Agent, httpID: string, f: Faults) returns (run: Run)
    modifies agent
    ensures run == Expected(old(agent.directory), env, httpID, f)
    ensures agent.directory == run.directory
  {
    var config := NewServerConfig(env);
    if config.Err? {
      return Run(Fatal(config.error), [], [LogFatal(config.error)], agent.directory);
    }
    var cfg := config.value;
    var created := NewRegistry(cfg.consulAddr, cfg.name, agent, f.client);
    if created.Err? {
      return Run(Returned(Some(created.error)), [CreateClient(cfg.consulAddr)],
                 [LogError("Failed to create consul registry for book service")], agent.directory);
    }
    var registry := created.value;
    var httpPort := Atoi(cfg.httpPort).0;
    var h := NewRegistration(cfg.name, httpID, cfg.http, httpPort, ["http"]);

    var err := registry.RegisterService(f.register, cfg.name, httpID, cfg.http, httpPort, ["http"]);
    if err.Some? {
      return Run(Returned(err), [CreateClient(cfg.consulAddr), Register(h)],
                 [LogError("Failed to register HTTP book service to consul")], agent.directory);
    }
    ghost var registered := agent.directory;

    // The heartbeat goroutine is started, then the deregistration deferred.
    var deferred := [httpID];
    var actions := [CreateClient(cfg.consulAddr), Register(h), StartHeartbeat(httpID, cfg.name),
                    ConnectCategoryService(BookService.CategoryServiceName)];
    var log: seq<LogEntry>;
    var service := BookService.NewBookService(f.connect);
    if service.Err? {
      err := Some(service.error);
      log := [LogError("Failed to create book service")];
    } else {
      actions := actions + [Listen(cfg.http)];
      err := f.listen;
      log := [LogInfo("Starting HTTP category server on " + cfg.http)]
             + (if err.Some? then [LogError("Failed to start book server")] else []);
    }
    var deregistrations := RunDeferred(registry, deferred, f.deregister);
    actions := actions + deregistrations;
    run := Run(Returned(err), actions, log, agent.directory);
    assert run == Serving(registered, cfg, httpID, f);
  }

  /** main: run webServer, log its error, log that the server started, and wait for a signal. */
  method Process(env: map<string, string>, agent: Agent, httpID: string, f: Faults, signal: string)
    returns (log: seq<LogEntry>)
    modifies agent
    ensures log == MainLog(Expected(old(agent.directory), env, httpID, f), StartedMessage, signal)
  {
    var run := WebServer(env, agent, httpID, f);
    log := MainLog(run, StartedMessage, signal);
  }

  /**
   * A heartbeat in `actions` comes only after the configuration, the client and the
   * registration succeeded, and is for the HTTP endpoint, which the catalogue then holds as
   * registered.
   */
  predicate HeartbeatOnlyAfterRegistration(actions: seq<Action>, d: Directory, env: map<string, string>,
                                           httpID: string, f: Faults)
  {
    forall i :: 0 <= i < |actions| && actions[i].StartHeartbeat? ==>
      && NewServerConfig(env).Ok? && f.client.None? && f.register.None?
      && actions[i] == StartHeartbeat(httpID, NewServerConfig(env).value.name)
      && var h := HttpRegistration(NewServerConfig(env).value, httpID);
         httpID in Registered(d, h).services && Registered(d, h).services[httpID] == h
  }

  /**
   * The heartbeat loop is started for the endpoint registered before it, and deregistered when
   * webServer returns. It starts only once the configuration, the client and the registration
   * succeeded, and only for the HTTP endpoint.
   */
  lemma HeartbeatFollowsRegistration(d: Directory, env: map<string, string>, httpID: string, f: Faults)
    ensures HeartbeatsPaired(Expected(d, env, httpID, f).actions)
    ensures HeartbeatOnlyAfterRegistration(Expected(d, env, httpID, f).actions, d, env, httpID, f)
  {
    if NewServerConfig(env).Ok? && f.client.None? && f.register.None? {
      var cfg := NewServerConfig(env).value;
      var registered := Registered(d, HttpRegistration(cfg, httpID));
      assert Expected(d, env, httpID, f) == Serving(registered, cfg, httpID, f);
      ServingHeartbeat(registered, cfg, httpID, f);
    } else {
      FailureStartsNoHeartbeat(d, env, httpID, f);
    }
  }

  /** Once the endpoint is registered, the one heartbeat is for it and its deregistration follows. */
  lemma ServingHeartbeat(registered: Directory, cfg: ServerConfig, httpID: string, f: Faults)
    ensures HeartbeatsPaired(Serving(registered, cfg, httpID, f).actions)
    ensures forall a | a in Serving(registered, cfg, httpID, f).actions && a.StartHeartbeat? ::
              a == StartHeartbeat(httpID, cfg.name)
  {
    var actions := Serving(registered, cfg, httpID, f).actions;
    ServingActions(registered, cfg, httpID, f);
    assert RegistersAt(actions, 1, httpID);
    assert DeregistersAt(actions, |actions| - 1, httpID);
  }

  /** The trace of a run in which the endpoint was registered. */
  lemma ServingActions(registered: Directory, cfg: ServerConfig, httpID: string, f: Faults)
    ensures Serving(registered, cfg, httpID, f).actions
            == [CreateClient(cfg.consulAddr), Register(HttpRegistration(cfg, httpID)),
                StartHeartbeat(httpID, cfg.name), ConnectCategoryService(BookService.CategoryServiceName)]
               + (if BookService.NewBookService(f.connect).Ok? then [Listen(cfg.http)] else [])
               + [Deregister(httpID)]
  {
    assert Deregistrations([httpID]) == [Deregister(httpID)];
  }

  /** A run that ends before the endpoint is registered starts no heartbeat loop. */
  lemma FailureStartsNoHeartbeat(d: Directory, env: map<string, string>, httpID: string, f: Faults)
    requires NewServerConfig(env).Err? || f.client.Some? || f.register.Some?
    ensures forall a | a in Expected(d, env, httpID, f).actions :: !a.StartHeartbeat?
  {
  }

  /**
   * A failed connection to the category service ends webServer after the registration, and the
   * deferred call takes the endpoint out of the catalogue again unless that call fails too.
   */
  lemma ConnectFailureDeregisters(d: Directory, env: map<string, string>, httpID: string, f: Faults)
    requires NewServerConfig(env).Ok? && f.client.None? && f.register.None?
    requires f.connect(BookService.CategoryServiceName).Err? && f.deregister(httpID).None?
    ensures var run := Expected(d, env, httpID, f);
            && run.exit == Returned(Some(f.connect(BookService.CategoryServiceName).error))
            && httpID !in run.directory.services && CheckID(httpID) !in run.directory.checks
            && Listen(NewServerConfig(env).value.http) !in run.actions
  {
    var run := Expected(d, env, httpID, f);
    ReleasedRemoves(Registered(d, HttpRegistration(NewServerConfig(env).value, httpID)), [httpID], f.deregister);
    assert run.actions == [CreateClient(NewServerConfig(env).value.consulAddr),
                           Register(HttpRegistration(NewServerConfig(env).value, httpID)),
                           StartHeartbeat(httpID, NewServerConfig(env).value.name),
                           ConnectCategoryService(BookService.CategoryServiceName), Deregister(httpID)];
  }

  /**
   * A port that is not a number, with a non-digit among its first 20 bytes, is accepted by the
   * configuration and registered as port 0, while the listen address keeps the text as given.
   */
  lemma {:induction false} NonNumericPortRegistersZero(env: map<string, string>, httpID: string, i: nat)
    requires NewServerConfig(env).Ok?
    requires 0 < i < |GetEnv(env, "HTTP_PORT")| && i <= 19 && !IsDigit(GetEnv(env, "HTTP_PORT")[i])
    ensures HttpRegistration(NewServerConfig(env).value, httpID).port == 0
    ensures HttpRegistration(NewServerConfig(env).value, httpID).address
            == GetEnv(env, "HTTP_ADDR") + ":" + GetEnv(env, "HTTP_PORT")
  {
    NonNumericIsZero(GetEnv(env, "HTTP_PORT"), i);
  }

  /** A missing variable ends the process inside webServer: nothing is registered and main logs nothing more. */
  lemma MissingVariableIsFatal(d: Directory, env: map<string, string>, httpID: string, f: Faults, signal: string)
    requires GetEnv(env, "HTTP_ADDR") == "" || GetEnv(env, "HTTP_PORT") == ""
             || GetEnv(env, "CONSUL_ADDR") == "" || GetEnv(env, "SERVICE_NAME") == ""
    ensures Expected(d, env, httpID, f).directory == d && Expected(d, env, httpID, f).actions == []
    ensures MainLog(Expected(d, env, httpID, f), StartedMessage, signal) == [LogFatal(NewServerConfig(env).error)]
  {
  }
}
