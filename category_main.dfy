/**
 * Start-up and shutdown of the category service (services/book-category-service/main.go):
 * the registry client, the registration of the gRPC and the HTTP endpoint, one heartbeat
 * loop per endpoint, the servers, and the deferred deregistrations.
 */
module CategoryMain {
  import opened Wrappers
  import opened Errors
  import opened Strconv
  import opened Consul
  import opened Lifecycle

  /** The fields of the category service's configuration that webServer reads. */
  datatype ServerConfig = ServerConfig(
    name: string, grpcAddr: string, grpcPort: string, httpAddr: string, httpPort: string,
    consulAddr: string, grpc: string, http: string)

  /**
   * What the collaborators report, None meaning success: the consul client, the two
   * registrations, the HTTP listener, and each deferred deregistration by service id.
   */
  datatype Faults = Faults(client: Option<Error>, registerGrpc: Option<Error>, registerHttp: Option<Error>,
                           listen: Option<Error>, deregister: string -> Option<Error>)

  const StartedMessage: string := "Category server started"

  /** The gRPC endpoint's registration: name "<name>-grpc", tag "grpc", port parsed as by strconv.Atoi with its error dropped. */
  function GrpcRegistration(cfg: ServerConfig, grpcID: string): (r: AgentServiceRegistration)
    ensures r.id == grpcID && r.name == cfg.name + "-grpc" && r.tags == ["grpc"] && r.address == cfg.grpcAddr
    ensures r.port == Atoi(cfg.grpcPort).0 && MinInt64 <= r.port <= MaxInt64
  {
    NewRegistration(cfg.name + "-grpc", grpcID, cfg.grpcAddr, Atoi(cfg.grpcPort).0, ["grpc"])
  }

  /** The HTTP endpoint's registration: registered under the same name "<name>-grpc" as the gRPC endpoint, tag "http". */
  function HttpRegistration(cfg: ServerConfig, httpID: string): (r: AgentServiceRegistration)
    ensures r.id == httpID && r.name == cfg.name + "-grpc" && r.tags == ["http"] && r.address == cfg.httpAddr
    ensures r.port == Atoi(cfg.httpPort).0 && MinInt64 <= r.port <= MaxInt64
  {
    NewRegistration(cfg.name + "-grpc", httpID, cfg.httpAddr, Atoi(cfg.httpPort).0, ["http"])
  }

  /**
   * What webServer does from catalogue `d`: each failing step ends it at once with its error,
   * and only the deregistrations deferred so far run; once both endpoints are registered, their
   * heartbeats start, the servers start, and when the HTTP listener returns both endpoints are
   * deregistered, the HTTP one first.
   */
  function Expected(d: Directory, cfg: ServerConfig, grpcID: string, httpID: string, f: Faults): Run
  {
    var g := GrpcRegistration(cfg, grpcID);
    var h := HttpRegistration(cfg, httpID);
    if f.client.Some? then
      Run(Returned(Some(Wrap("failed to create consul client: ", f.client.value))),
          [CreateClient(cfg.consulAddr)],
          [LogError("Failed to create consul registry for category service")], d)
    else if f.registerGrpc.Some? then
      Run(Returned(Some(Wrap("failed to register service: ", f.registerGrpc.value))),
          [CreateClient(cfg.consulAddr), Register(g)],
          [LogError("Failed to register gRPC book service to consul")], d)
    else if f.registerHttp.Some? then
      Run(Returned(Some(Wrap("failed to register service: ", f.registerHttp.value))),
          [CreateClient(cfg.consulAddr), Register(g), Register(h)],
          [LogError("Failed to register category service to consul")], Registered(d, g))
    else Serving(Registered(Registered(d, g), h), cfg, grpcID, httpID, f)
  }

  /**
   * The rest of webServer once both endpoints are registered in `registered`: both heartbeats
   * and the servers start, and when the HTTP listener returns, its error is returned and both
   * endpoints are deregistered, the HTTP one first.
   */
  function Serving(registered: Directory, cfg: ServerConfig, grpcID: string, httpID: string, f: Faults): Run
  {
    Run(Returned(f.listen),
        [CreateClient(cfg.consulAddr), Register(GrpcRegistration(cfg, grpcID)), Register(HttpRegistration(cfg, httpID)),
         StartHeartbeat(grpcID, cfg.name + "-grpc"), StartHeartbeat(httpID, cfg.name),
         StartGrpcServer(cfg.grpc), Listen(cfg.http)] + Deregistrations([grpcID, httpID]),
        [LogInfo("Starting HTTP category server on " + cfg.http)]
        + (if f.listen.Some? then [LogError("Failed to start HTTP category server: " + Message(f.listen.value))] else []),
        Released(registered, [grpcID, httpID], f.deregister))
  }

  /** webServer, against the agent's catalogue; `grpcID` and `httpID` stand for the generated service ids. */
  method WebServer(cfg: ServerConfig, agent: Agent, grpcID: string, httpID: string, f: Faults) returns (run: Run)
    modifies agent
    ensures run == Expected(old(agent.directory), cfg, grpcID, httpID, f)
    ensures agent.directory == run.directory
  {
    var created := NewRegistry(cfg.consulAddr, cfg.name, agent, f.client);
    if created.Err? {
      return Run(Returned(Some(created.error)), [CreateClient(cfg.consulAddr)],
                 [LogError("Failed to create consul registry for category service")], agent.directory);
    }
    var registry := created.value;
    var grpcPort := Atoi(cfg.grpcPort).0;
    var httpPort := Atoi(cfg.httpPort).0;
    var g := NewRegistration(cfg.name + "-grpc", grpcID, cfg.grpcAddr, grpcPort, ["grpc"]);
    var h := NewRegistration(cfg.name + "-grpc", httpID, cfg.httpAddr, httpPort, ["http"]);

    var err := registry.RegisterService(f.registerGrpc, cfg.name + "-grpc", grpcID, cfg.grpcAddr, grpcPort, ["grpc"]);
    if err.Some? {
      return Run(Returned(err), [CreateClient(cfg.consulAddr), Register(g)],
                 [LogError("Failed to register gRPC book service to consul")], agent.directory);
    }
    err := registry.RegisterService(f.registerHttp, cfg.name + "-grpc", httpID, cfg.httpAddr, httpPort, ["http"]);
    if err.Some? {
      return Run(Returned(err), [CreateClient(cfg.consulAddr), Register(g), Register(h)],
                 [LogError("Failed to register category service to consul")], agent.directory);
    }
    run := Serve(registry, cfg, grpcID, httpID, f);
  }

  /**
   * The part of webServer after both registrations: the heartbeat goroutines are started and
   * their deregistrations deferred, the servers are started, and when the HTTP listener returns
   * the deferred calls run.
   */
  method Serve(registry: Registry, cfg: ServerConfig, grpcID: string, httpID: string, f: Faults) returns (run: Run)
    modifies registry.agent
    ensures run == Serving(old(registry.agent.directory), cfg, grpcID, httpID, f)
    ensures registry.agent.directory == run.directory
  {
    // Each heartbeat goroutine is started, then its deregistration deferred.
    var deferred: seq<string> := [grpcID];
    deferred := deferred + [httpID];

    var err := f.listen;
    var log := [LogInfo("Starting HTTP category server on " + cfg.http)]
               + (if err.Some? then [LogError("Failed to start HTTP category server: " + Message(err.value))] else []);
    var deregistrations := RunDeferred(registry, deferred, f.deregister);
    var actions := [CreateClient(cfg.consulAddr), Register(GrpcRegistration(cfg, grpcID)), Register(HttpRegistration(cfg, httpID)),
                    StartHeartbeat(grpcID, cfg.name + "-grpc"), StartHeartbeat(httpID, cfg.name),
                    StartGrpcServer(cfg.grpc), Listen(cfg.http)] + deregistrations;
    run := Run(Returned(err), actions, log, registry.agent.directory);
  }

  /** main: run webServer, log its error, log that the server started, and wait for a signal. */
  method Process(cfg: ServerConfig, agent: Agent, grpcID: string, httpID: string, f: Faults, signal: string)
    returns (log: seq<LogEntry>)
    modifies agent
    ensures log == MainLog(Expected(old(agent.directory), cfg, grpcID, httpID, f), StartedMessage, signal)
  {
    var run := WebServer(cfg, agent, grpcID, httpID, f);
    log := MainLog(run, StartedMessage, signal);
  }

  /**
   * Every heartbeat loop is started for an endpoint registered before it, and deregistered when
   * webServer returns. A heartbeat starts only after the client and both registrations
   * succeeded, and only for one of the two endpoints, which the catalogue then holds.
   */
  lemma HeartbeatsFollowRegistration(d: Directory, cfg: ServerConfig, grpcID: string, httpID: string, f: Faults)
    ensures HeartbeatsPaired(Expected(d, cfg, grpcID, httpID, f).actions)
    ensures HeartbeatsAfterRegistrations(Expected(d, cfg, grpcID, httpID, f).actions, d, cfg, grpcID, httpID, f)
  {
    var actions := Expected(d, cfg, grpcID, httpID, f).actions;
    if f.client.None? && f.registerGrpc.None? && f.registerHttp.None? {
      var registered := Registered(Registered(d, GrpcRegistration(cfg, grpcID)), HttpRegistration(cfg, httpID));
      assert Expected(d, cfg, grpcID, httpID, f) == Serving(registered, cfg, grpcID, httpID, f);
      ServingHeartbeats(d, cfg, grpcID, httpID, f);
    } else {
      FailureStartsNoHeartbeat(d, cfg, grpcID, httpID, f);
    }
  }

  /** A run that fails before both endpoints are registered starts no heartbeat loop. */
  lemma FailureStartsNoHeartbeat(d: Directory, cfg: ServerConfig, grpcID: string, httpID: string, f: Faults)
    requires f.client.Some? || f.registerGrpc.Some? || f.registerHttp.Some?
    ensures forall a | a in Expected(d, cfg, grpcID, httpID, f).actions :: !a.StartHeartbeat?
  {
  }

  /**
   * A heartbeat in `actions` comes only after the client and both registrations succeeded, and
   * is for one of the two endpoints, which the catalogue then holds.
   */
  predicate HeartbeatsAfterRegistrations(actions: seq<Action>, d: Directory, cfg: ServerConfig, grpcID: string,
                                         httpID: string, f: Faults)
  {
    var registered := Registered(Registered(d, GrpcRegistration(cfg, grpcID)), HttpRegistration(cfg, httpID));
    forall i :: 0 <= i < |actions| && actions[i].StartHeartbeat? ==>
      && f.client.None? && f.registerGrpc.None? && f.registerHttp.None?
      && actions[i].serviceID in {grpcID, httpID}
      && actions[i].serviceID in registered.services
  }

  lemma ServingHeartbeats(d: Directory, cfg: ServerConfig, grpcID: string, httpID: string, f: Faults)
    requires f.client.None? && f.registerGrpc.None? && f.registerHttp.None?
    ensures var registered := Registered(Registered(d, GrpcRegistration(cfg, grpcID)), HttpRegistration(cfg, httpID));
            && HeartbeatsPaired(Serving(registered, cfg, grpcID, httpID, f).actions)
            && HeartbeatsAfterRegistrations(Serving(registered, cfg, grpcID, httpID, f).actions, d, cfg, grpcID, httpID, f)
  {
    var registered := Registered(Registered(d, GrpcRegistration(cfg, grpcID)), HttpRegistration(cfg, httpID));
    var actions := Serving(registered, cfg, grpcID, httpID, f).actions;
    ServingActions(registered, cfg, grpcID, httpID, f);
    assert RegistersAt(actions, 1, grpcID) && DeregistersAt(actions, 8, grpcID);
    assert RegistersAt(actions, 2, httpID) && DeregistersAt(actions, 7, httpID);
    forall i | 0 <= i < |actions| && actions[i].StartHeartbeat?
      ensures actions[i].serviceID in {grpcID, httpID} && actions[i].serviceID in registered.services
    {
      assert i == 3 || i == 4;
    }
  }

  /** The trace of a run in which both endpoints were registered. */
  lemma ServingActions(registered: Directory, cfg: ServerConfig, grpcID: string, httpID: string, f: Faults)
    ensures Serving(registered, cfg, grpcID, httpID, f).actions
            == [CreateClient(cfg.consulAddr), Register(GrpcRegistration(cfg, grpcID)),
                Register(HttpRegistration(cfg, httpID)), StartHeartbeat(grpcID, cfg.name + "-grpc"),
                StartHeartbeat(httpID, cfg.name), StartGrpcServer(cfg.grpc), Listen(cfg.http),
                Deregister(httpID), Deregister(grpcID)]
  {
    assert Deregistrations([grpcID, httpID]) == [Deregister(httpID), Deregister(grpcID)];
  }

  /**
   * When the HTTP registration fails, webServer returns before any deregistration is deferred:
   * the gRPC endpoint stays in the catalogue with its check critical, and nothing removes it.
   */
  lemma HttpFailureLeavesGrpcRegistered(d: Directory, cfg: ServerConfig, grpcID: string, httpID: string, f: Faults)
    requires f.client.None? && f.registerGrpc.None? && f.registerHttp.Some?
    ensures var run := Expected(d, cfg, grpcID, httpID, f);
            && run.exit == Returned(Some(Wrap("failed to register service: ", f.registerHttp.value)))
            && grpcID in run.directory.services && run.directory.services[grpcID] == GrpcRegistration(cfg, grpcID)
            && run.directory.checks[CheckID(grpcID)] == CheckState(Critical, "")
            && forall i :: 0 <= i < |run.actions| ==> !run.actions[i].Deregister?
  {
  }

  /**
   * When the HTTP listener returns and every deferred deregistration succeeds, webServer leaves
   * the catalogue exactly as it was, when neither endpoint was in it before.
   */
  lemma {:induction false} ListenReturnRestoresDirectory(d: Directory, cfg: ServerConfig, grpcID: string, httpID: string, f: Faults)
    requires f.client.None? && f.registerGrpc.None? && f.registerHttp.None?
    requires f.deregister(grpcID).None? && f.deregister(httpID).None?
    requires grpcID !in d.services && httpID !in d.services
    requires CheckID(grpcID) !in d.checks && CheckID(httpID) !in d.checks
    ensures Expected(d, cfg, grpcID, httpID, f).directory == d
  {
    var registered := Registered(Registered(d, GrpcRegistration(cfg, grpcID)), HttpRegistration(cfg, httpID));
    assert Expected(d, cfg, grpcID, httpID, f) == Serving(registered, cfg, grpcID, httpID, f);
    ReleasingBothRestores(d, GrpcRegistration(cfg, grpcID), HttpRegistration(cfg, httpID), f.deregister);
  }

  /** Registering two new instances and then deregistering both leaves the catalogue as it was. */
  lemma ReleasingBothRestores(d: Directory, g: AgentServiceRegistration, h: AgentServiceRegistration,
                              fault: string -> Option<Error>)
    requires fault(g.id).None? && fault(h.id).None?
    requires g.id !in d.services && h.id !in d.services
    requires CheckID(g.id) !in d.checks && CheckID(h.id) !in d.checks
    ensures Released(Registered(Registered(d, g), h), [g.id, h.id], fault) == d
  {
    var registered := Registered(Registered(d, g), h);
    assert Removed([g.id, h.id], fault) == {g.id, h.id};
    assert registered.services - {g.id, h.id} == d.services;
    assert (set id | id in {g.id, h.id} :: CheckID(id)) == {CheckID(g.id), CheckID(h.id)};
    assert registered.checks - {CheckID(g.id), CheckID(h.id)} == d.checks;
  }

  /**
   * Both endpoints are registered under "<name>-grpc": once both heartbeats have passed, a
   * query for that name returns the HTTP endpoint beside the gRPC one, and a query for the
   * plain name returns neither.
   */
  lemma {:induction false} HttpListedUnderGrpcName(d: Directory, cfg: ServerConfig, grpcID: string, httpID: string)
    requires grpcID != httpID
    ensures var registered := Registered(Registered(d, GrpcRegistration(cfg, grpcID)), HttpRegistration(cfg, httpID));
            var first := TtlUpdated(registered, CheckID(grpcID), OnlineNote, Passing);
            && first.Ok?
            && var second := TtlUpdated(first.value, CheckID(httpID), OnlineNote, Passing);
            && second.Ok?
            && GrpcRegistration(cfg, grpcID) in PassingInstances(second.value, cfg.name + "-grpc")
            && HttpRegistration(cfg, httpID) in PassingInstances(second.value, cfg.name + "-grpc")
            && HttpRegistration(cfg, httpID) !in PassingInstances(second.value, cfg.name)
  {
    var g := GrpcRegistration(cfg, grpcID);
    var h := HttpRegistration(cfg, httpID);
    var registered := Registered(Registered(d, g), h);
    CheckIDInjective(grpcID, httpID);
    var first := TtlUpdated(registered, CheckID(grpcID), OnlineNote, Passing).value;
    var second := TtlUpdated(first, CheckID(httpID), OnlineNote, Passing).value;
    assert second.services[grpcID] == g && second.checks[CheckID(grpcID)].status == Passing;
    assert second.services[httpID] == h && second.checks[CheckID(httpID)].status == Passing;
    assert |cfg.name + "-grpc"| != |cfg.name|;
  }
}
