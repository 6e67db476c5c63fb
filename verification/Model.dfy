/** The domain types every component agrees on. */
module Model {
  import opened Basics

  /** Identifiers are hexadecimal digests of fixed width, so their string order
      is the numeric order of the digest. */
  type ServiceId = nat
  type ProjectId = nat
  type Pid = nat
  type Port = nat

  datatype Health = Healthy | Degraded | Stopped | Unknown

  /** `detail` stands for the fields nothing here looks at. */
  datatype ProcessInstance = ProcessInstance(pid: Pid, startedAt: nat, detail: nat)

  datatype Address = V4(bits: nat) | V6(bits: nat)

  predicate IsUnspecified(a: Address) {
    a.bits == 0
  }

  datatype Endpoint = Endpoint(address: Address, port: Port, udp: bool, pid: Option<Pid>)

  datatype ServiceKind = HostProcess | Container(identity: nat)

  datatype Service = Service(
    id: ServiceId,
    projectId: Option<ProjectId>,
    name: string,
    kind: ServiceKind,
    runtime: nat,
    health: Health,
    instances: seq<ProcessInstance>,
    endpoints: seq<Endpoint>,
    firstSeen: Time,
    lastSeen: Time,
    restartCount: nat,
    measuredCpu: Option<nat>,
    measuredMemory: Option<nat>)

  /** Host processes are live by their instances, containers by their health. */
  predicate IsRunning(s: Service) {
    match s.kind
    case HostProcess => s.instances != []
    case Container(_) => s.health == Healthy || s.health == Degraded
  }

  function PortsOf(endpoints: seq<Endpoint>): set<Port> {
    set e | e in endpoints :: e.port
  }

  function PidsOf(instances: seq<ProcessInstance>): set<Pid> {
    set i | i in instances :: i.pid
  }

  /** An edge is told by who calls whom on which port. */
  datatype ConnectionId = ConnectionId(source: ServiceId, target: ServiceId, port: Port)

  datatype Connection = Connection(id: ConnectionId, firstSeen: Time, lastSeen: Time)

  function ConnectionKey(c: Connection): ConnectionId { c.id }

  datatype TopologyDelta = TopologyDelta(added: seq<Connection>, removed: seq<ConnectionId>)
}
