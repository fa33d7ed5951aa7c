/**
 * What the two `webServer` functions and the `main` functions around them do, as a trace of
 * actions and log lines, and the deferred deregistrations that run when `webServer` returns.
 */
module Lifecycle {
  import opened Wrappers
  import opened Errors
  import opened Consul

  datatype Action =
    | CreateClient(address: string)                            // consul.NewRegistry
    | Register(registration: AgentServiceRegistration)         // registry.RegisterService
    | StartHeartbeat(serviceID: string, serviceName: string)   // go func() { ... registry.HealthCheck(serviceID, serviceName) ... }
    | ConnectCategoryService(name: string)                     // discovery.ServiceConnection inside NewBookService
    | StartGrpcServer(address: string)                         // the goroutine serving gRPC
    | Listen(address: string)                                  // app.Listen
    | Deregister(serviceID: string)                            // a deferred registry.DeregisterService

  /** What a main function writes to the log; a fatal line ends the process. */
  datatype LogEntry = LogError(text: string) | LogInfo(text: string) | LogFatal(text: string)

  /** How webServer ends: it returns an error or nil, or log.Fatal ends the process inside it. */
  datatype Exit = Returned(err: Option<Error>) | Fatal(message: string)

  /** One run of webServer: how it ended, what it did, what it logged, and the agent's catalogue afterwards. */
  datatype Run = Run(exit: Exit, actions: seq<Action>, log: seq<LogEntry>, directory: Directory)

  /** Position `j` of the trace registers an instance with id `id`. */
  predicate RegistersAt(actions: seq<Action>, j: int, id: string)
  {
    0 <= j < |actions| && actions[j].Register? && actions[j].registration.id == id
  }

  /** Position `k` of the trace deregisters the instance with id `id`. */
  predicate DeregistersAt(actions: seq<Action>, k: int, id: string)
  {
    0 <= k < |actions| && actions[k] == Deregister(id)
  }

  /**
   * Every heartbeat in the trace is for an instance registered before it, and that instance is
   * deregistered later in the trace.
   */
  predicate HeartbeatsPaired(actions: seq<Action>)
  {
    forall i :: 0 <= i < |actions| && actions[i].StartHeartbeat? ==>
      (exists j :: 0 <= j < i && RegistersAt(actions, j, actions[i].serviceID))
      && (exists k :: i < k < |actions| && DeregistersAt(actions, k, actions[i].serviceID))
  }

  /** The ids among `deferred` whose deregistration the agent carries out. */
  function Removed(deferred: seq<string>, fault: string -> Option<Error>): set<string>
  {
    set id | id in deferred && fault(id).None?
  }

  /** The catalogue after the deferred deregistrations of `deferred`. */
  function Released(d: Directory, deferred: seq<string>, fault: string -> Option<Error>): Directory
  {
    Directory(d.services - Removed(deferred, fault), d.checks - (set id | id in Removed(deferred, fault) :: CheckID(id)))
  }

  /**
   * The deferred deregistrations remove exactly the instances whose call succeeds, with their
   * checks, and add nothing.
   */
  lemma ReleasedRemoves(d: Directory, deferred: seq<string>, fault: string -> Option<Error>)
    ensures var r := Released(d, deferred, fault);
            && (forall id :: id in deferred && fault(id).None? ==> id !in r.services && CheckID(id) !in r.checks)
            && (forall id :: id in d.services && (id !in deferred || fault(id).Some?)
                  ==> id in r.services && r.services[id] == d.services[id])
            && r.services.Keys <= d.services.Keys && r.checks.Keys <= d.checks.Keys
  {
  }

  /** Running one more deferred call first: its deregistration, unless it fails, comes on top of the others. */
  lemma ReleasedStep(d: Directory, id: string, rest: seq<string>, fault: string -> Option<Error>)
    ensures fault(id).None? ==> Released(d, [id] + rest, fault) == Deregistered(Released(d, rest, fault), id)
    ensures fault(id).Some? ==> Released(d, [id] + rest, fault) == Released(d, rest, fault)
  {
    if fault(id).None? {
      assert Removed([id] + rest, fault) == Removed(rest, fault) + {id};
    } else {
      assert Removed([id] + rest, fault) == Removed(rest, fault);
    }
  }

  /** The deregistrations that deferred calls for `deferred` perform: the last one deferred runs first. */
  function Deregistrations(deferred: seq<string>): (actions: seq<Action>)
    ensures |actions| == |deferred|
    ensures forall k :: 0 <= k < |deferred| ==> actions[k] == Deregister(deferred[|deferred| - 1 - k])
  {
    if deferred == [] then [] else Deregistrations(deferred[1..]) + [Deregister(deferred[0])]
  }

  /**
   * The deferred `registry.DeregisterService` calls when webServer returns: the last one
   * deferred runs first, each removes its instance unless the agent call fails, and the
   * errors are discarded.
   */
  method RunDeferred(registry: Registry, deferred: seq<string>, fault: string -> Option<Error>)
    returns (actions: seq<Action>)
    modifies registry.agent
    ensures actions == Deregistrations(deferred)
    ensures registry.agent.directory == Released(old(registry.agent.directory), deferred, fault)
  {
    actions := [];
    var pending := deferred;
    while pending != []
      invariant |pending| <= |deferred| && pending == deferred[..|pending|]
      invariant actions == Deregistrations(deferred[|pending|..])
      invariant registry.agent.directory == Released(old(registry.agent.directory), deferred[|pending|..], fault)
    {
      var id := pending[|pending| - 1];
      var _ := registry.DeregisterService(fault(id), id);
      actions := actions + [Deregister(id)];
      assert deferred[|pending| - 1..] == [id] + deferred[|pending|..];
      ReleasedStep(old(registry.agent.directory), id, deferred[|pending|..], fault);
      pending := pending[..|pending| - 1];
    }
    assert deferred[0..] == deferred;
  }

  /**
   * What `main` logs around webServer: its error, if it returned one, then the "started" line
   * and, once a signal arrives, the shutdown line. A fatal exit inside webServer ends the
   * process there.
   */
  function MainLog(run: Run, started: string, signal: string): (log: seq<LogEntry>)
    ensures run.exit.Fatal? ==> log == run.log
    ensures run.exit.Returned? ==> && |log| == |run.log| + (if run.exit.err.Some? then 3 else 2)
                                   && log[..|run.log|] == run.log
                                   && log[|log| - 2] == LogInfo(started)
                                   && log[|log| - 1] == LogInfo("Received signal: " + signal + ". Shutting down gracefully...")
    ensures run.exit.Returned? && run.exit.err.Some? ==> log[|run.log|] == LogError(Message(run.exit.err.value))
  {
    match run.exit
    case Fatal(_) => run.log
    case Returned(err) =>
      run.log + (if err.Some? then [LogError(Message(err.value))] else [])
      + [LogInfo(started), LogInfo("Received signal: " + signal + ". Shutting down gracefully...")]
  }
}
