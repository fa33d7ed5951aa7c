/**
 * The registry adapter over the Consul agent (services/common/discovery/consul/consul.go).
 *
 * The agent's catalogue is modelled as a `Directory` value: registered services keyed by
 * service id and their TTL checks keyed by check id. The agent applies the pure transitions
 * below; a transport failure of any agent call is a parameter (`fault`) of the call.
 */
module Consul {
  import opened Wrappers
  import opened Errors

  /** The TTL of every registration's check. */
  const TTL: string := "10s"
  /** How long a check may stay critical before the agent removes the service. */
  const DeregisterCriticalServiceAfter: string := "1m"
  /** The note a heartbeat attaches to the check. */
  const OnlineNote: string := "online"

  datatype AgentServiceCheck = AgentServiceCheck(ttl: string, deregisterCriticalServiceAfter: string)

  datatype AgentServiceRegistration = AgentServiceRegistration(
    id: string, name: string, address: string, port: int, tags: seq<string>, check: AgentServiceCheck)

  /** The record RegisterService hands to the agent. */
  function NewRegistration(serviceName: string, serviceID: string, serviceAddress: string, servicePort: int, tags: seq<string>)
    : (r: AgentServiceRegistration)
    ensures r.id == serviceID && r.name == serviceName && r.address == serviceAddress
    ensures r.port == servicePort && r.tags == tags
    ensures r.check.ttl == "10s" && r.check.deregisterCriticalServiceAfter == "1m"
  {
    AgentServiceRegistration(serviceID, serviceName, serviceAddress, servicePort, tags,
                             AgentServiceCheck(TTL, DeregisterCriticalServiceAfter))
  }

  /** The id the agent gives to the single check of service `serviceID`. */
  function CheckID(serviceID: string): string
  {
    "service:" + serviceID
  }

  /** Distinct services never share a check id, and a check id gives its service id back. */
  lemma CheckIDInjective(a: string, b: string)
    ensures CheckID(a)[|"service:"|..] == a
    ensures CheckID(a) == CheckID(b) ==> a == b
  {
    assert CheckID(a)[|"service:"|..] == a;
    assert CheckID(b)[|"service:"|..] == b;
  }

  datatype HealthStatus = Passing | Warning | Critical

  datatype CheckState = CheckState(status: HealthStatus, note: string)

  datatype Directory = Directory(services: map<string, AgentServiceRegistration>, checks: map<string, CheckState>)

  const EmptyDirectory: Directory := Directory(map[], map[])

  /** Every registered service is stored under its own id and has its TTL check. */
  ghost predicate Valid(d: Directory)
  {
    forall id :: id in d.services ==> d.services[id].id == id && CheckID(id) in d.checks
  }

  /** The agent after registering `reg`: the record replaces any earlier one with that id; its check starts critical. */
  function Registered(d: Directory, reg: AgentServiceRegistration): Directory
  {
    Directory(d.services[reg.id := reg], d.checks[CheckID(reg.id) := CheckState(Critical, "")])
  }

  /** The agent after deregistering `serviceID`: the service and its check are gone; an absent id changes nothing. */
  function Deregistered(d: Directory, serviceID: string): Directory
  {
    Directory(d.services - {serviceID}, d.checks - {CheckID(serviceID)})
  }

  /** The agent's answer to a TTL update: the check's new state, or an error for a check it does not know. */
  function TtlUpdated(d: Directory, checkID: string, note: string, status: HealthStatus): Result<Directory, Error>
  {
    if checkID in d.checks then Ok(Directory(d.services, d.checks[checkID := CheckState(status, note)]))
    else Err(Fault("Unknown check ID \"" + checkID + "\""))
  }

  /** The instances a health query by name with no tag filter and passing-only set returns. */
  function PassingInstances(d: Directory, name: string): set<AgentServiceRegistration>
  {
    set id | id in d.services && d.services[id].name == name && CheckID(id) in d.checks
                                && d.checks[CheckID(id)].status == Passing :: d.services[id]
  }

  lemma RegisteredValid(d: Directory, reg: AgentServiceRegistration)
    requires Valid(d)
    ensures Valid(Registered(d, reg))
  {
  }

  lemma DeregisteredValid(d: Directory, serviceID: string)
    requires Valid(d)
    ensures Valid(Deregistered(d, serviceID))
  {
    forall id | id in Deregistered(d, serviceID).services
      ensures CheckID(id) in Deregistered(d, serviceID).checks
    {
      CheckIDInjective(id, serviceID);
    }
  }

  lemma TtlUpdatedValid(d: Directory, checkID: string, note: string, status: HealthStatus)
    requires Valid(d) && TtlUpdated(d, checkID, note, status).Ok?
    ensures Valid(TtlUpdated(d, checkID, note, status).value)
  {
  }

  /** A freshly registered instance is not discoverable: its check is critical until the first heartbeat. */
  lemma FreshRegistrationHidden(d: Directory, reg: AgentServiceRegistration, name: string)
    requires Valid(d)
    ensures reg.id in Registered(d, reg).services
    ensures forall r :: r in PassingInstances(Registered(d, reg), name) ==> r.id != reg.id
  {
    var d' := Registered(d, reg);
    forall r | r in PassingInstances(d', name) ensures r.id != reg.id {
      var id :| id in d'.services && d'.services[id].name == name && CheckID(id) in d'.checks
                && d'.checks[CheckID(id)].status == Passing && d'.services[id] == r;
      if id != reg.id {
        assert r == d.services[id] && r.id == id;
      }
    }
  }

  /** After the first successful heartbeat a registered instance is returned by a query for its name. */
  lemma HeartbeatMakesDiscoverable(d: Directory, reg: AgentServiceRegistration)
    ensures TtlUpdated(Registered(d, reg), CheckID(reg.id), OnlineNote, Passing).Ok?
    ensures reg in PassingInstances(TtlUpdated(Registered(d, reg), CheckID(reg.id), OnlineNote, Passing).value, reg.name)
  {
    var d' := TtlUpdated(Registered(d, reg), CheckID(reg.id), OnlineNote, Passing).value;
    assert d'.services[reg.id] == reg;
    assert d'.checks[CheckID(reg.id)].status == Passing;
  }

  /** Only instances with the requested name and a passing check are returned. */
  lemma PassingInstancesSound(d: Directory, name: string, r: AgentServiceRegistration)
    requires Valid(d) && r in PassingInstances(d, name)
    ensures r.name == name && r.id in d.services && d.services[r.id] == r
    ensures d.checks[CheckID(r.id)].status == Passing
  {
  }

  /** Deregistering twice leaves the directory as deregistering once. */
  lemma DeregisterIdempotent(d: Directory, serviceID: string)
    ensures Deregistered(Deregistered(d, serviceID), serviceID) == Deregistered(d, serviceID)
  {
  }

  /** A deregistered instance is no longer discoverable, and every later heartbeat for it fails. */
  lemma DeregisteredGone(d: Directory, serviceID: string, name: string, note: string, status: HealthStatus)
    requires Valid(d)
    ensures forall r :: r in PassingInstances(Deregistered(d, serviceID), name) ==> r.id != serviceID
    ensures TtlUpdated(Deregistered(d, serviceID), CheckID(serviceID), note, status).Err?
  {
  }

  /** The agent whose catalogue the registry reads and changes. */
  class Agent {
    var directory: Directory

    constructor ()
      ensures directory == EmptyDirectory
    {
      directory := EmptyDirectory;
    }
  }

  /** consul.Registry: a client bound to the agent at `address`. */
  class Registry {
    const address: string
    const agent: Agent

    constructor (address: string, agent: Agent)
      ensures this.address == address && this.agent == agent
    {
      this.address := address;
      this.agent := agent;
    }

    /** Registers the instance with a TTL check; agent failures are wrapped. */
    method RegisterService(fault: Option<Error>, serviceName: string, serviceID: string, serviceAddress: string,
                           servicePort: int, tags: seq<string>) returns (err: Option<Error>)
      modifies agent
      ensures fault.Some? ==> err == Some(Wrap("failed to register service: ", fault.value))
      ensures fault.Some? ==> agent.directory == old(agent.directory)
      ensures fault.None? ==> err.None?
      ensures fault.None? ==> agent.directory == Registered(old(agent.directory),
                                 NewRegistration(serviceName, serviceID, serviceAddress, servicePort, tags))
    {
      var registration := NewRegistration(serviceName, serviceID, serviceAddress, servicePort, tags);
      if fault.Some? {
        return Some(Wrap("failed to register service: ", fault.value));
      }
      agent.directory := Registered(agent.directory, registration);
      return None;
    }

    /** Removes the instance and its check; agent failures are wrapped. */
    method DeregisterService(fault: Option<Error>, serviceID: string) returns (err: Option<Error>)
      modifies agent
      ensures fault.Some? ==> err == Some(Wrap("failed to deregister service: ", fault.value))
      ensures fault.Some? ==> agent.directory == old(agent.directory)
      ensures fault.None? ==> err.None? && agent.directory == Deregistered(old(agent.directory), serviceID)
    {
      if fault.Some? {
        return Some(Wrap("failed to deregister service: ", fault.value));
      }
      agent.directory := Deregistered(agent.directory, serviceID);
      return None;
    }

    /** Queries the passing instances registered under `serviceName`; agent failures are wrapped. */
    method GetService(fault: Option<Error>, serviceName: string) returns (r: Result<set<AgentServiceRegistration>, Error>)
      ensures fault.Some? ==> r == Err(Wrap("failed to get service: ", fault.value))
      ensures fault.None? ==> r == Ok(PassingInstances(agent.directory, serviceName))
    {
      if fault.Some? {
        return Err(Wrap("failed to get service: ", fault.value));
      }
      return Ok(PassingInstances(agent.directory, serviceName));
    }

    /**
     * Marks the instance's check passing with the note "online". `serviceName` plays no part;
     * the agent's error, whether a transport failure or an unknown check, is returned unwrapped.
     */
    method HealthCheck(fault: Option<Error>, serviceID: string, serviceName: string) returns (err: Option<Error>)
      modifies agent
      ensures fault.Some? ==> err == fault && agent.directory == old(agent.directory)
      ensures fault.None? ==> var outcome := TtlUpdated(old(agent.directory), CheckID(serviceID), OnlineNote, Passing);
                              && (outcome.Ok? ==> err.None? && agent.directory == outcome.value)
                              && (outcome.Err? ==> err == Some(outcome.error) && agent.directory == old(agent.directory))
    {
      var checkID := CheckID(serviceID);
      if fault.Some? {
        return fault;
      }
      match TtlUpdated(agent.directory, checkID, OnlineNote, Passing)
      case Ok(d) =>
        agent.directory := d;
        return None;
      case Err(e) =>
        return Some(e);
    }
  }

  /** consul.NewRegistry: `serviceName` plays no part; a client-construction failure is wrapped. */
  method NewRegistry(address: string, serviceName: string, agent: Agent, clientFault: Option<Error>)
    returns (r: Result<Registry, Error>)
    ensures clientFault.Some? ==> r == Err(Wrap("failed to create consul client: ", clientFault.value))
    ensures clientFault.None? ==> r.Ok? && fresh(r.value) && r.value.address == address && r.value.agent == agent
  {
    if clientFault.Some? {
      return Err(Wrap("failed to create consul client: ", clientFault.value));
    }
    var registry := new Registry(address, agent);
    return Ok(registry);
  }
}
