/** Topology: sockets become service-to-service edges, rebuilt every batch but
    continuous across batches. */
module Topology {
  import opened Basics
  import opened Model
  import opened Sorting

  datatype Socket = Socket(
    localAddress: Address,
    localPort: Port,
    remoteAddress: Address,
    remotePort: Port,
    pid: Option<Pid>)

  datatype Listener = Listener(address: Address, service: ServiceId)

  // ------------------------------------------------------------ lookup tables

  function AddOwners(owners: map<Pid, ServiceId>, instances: seq<ProcessInstance>, id: ServiceId): map<Pid, ServiceId> {
    if instances == [] then owners else
      var n := |instances| - 1;
      AddOwners(owners, instances[..n], id)[instances[n].pid := id]
  }

  /** Who owns each PID; the last claim stands. */
  function Owners(services: seq<Service>): map<Pid, ServiceId> {
    if services == [] then map[] else
      var n := |services| - 1;
      AddOwners(Owners(services[..n]), services[n].instances, services[n].id)
  }

  function ListenersAt(endpoints: seq<Endpoint>, id: ServiceId, port: Port): seq<Listener> {
    if endpoints == [] then [] else
      var n := |endpoints| - 1;
      ListenersAt(endpoints[..n], id, port)
      + (if endpoints[n].port == port then [Listener(endpoints[n].address, id)] else [])
  }

  /** Everything that listens on a port, in order of service and endpoint. */
  function Listeners(services: seq<Service>, port: Port): seq<Listener> {
    if services == [] then [] else
      var n := |services| - 1;
      Listeners(services[..n], port) + ListenersAt(services[n].endpoints, services[n].id, port)
  }

  datatype ServiceIndex = ServiceIndex(byPid: map<Pid, ServiceId>, byPort: map<Port, seq<Listener>>)

  function On(byPort: map<Port, seq<Listener>>, port: Port): seq<Listener> {
    if port in byPort then byPort[port] else []
  }

  ghost predicate Indexes(index: ServiceIndex, services: seq<Service>) {
    index.byPid == Owners(services) && forall port :: On(index.byPort, port) == Listeners(services, port)
  }

  method IndexInstances(byPid: map<Pid, ServiceId>, service: Service) returns (out: map<Pid, ServiceId>)
    ensures out == AddOwners(byPid, service.instances, service.id)
  {
    var instances := service.instances;
    out := byPid;
    for i := 0 to |instances|
      invariant out == AddOwners(byPid, instances[..i], service.id)
    {
      assert instances[..i + 1][..i] == instances[..i];
      out := out[instances[i].pid := service.id];
    }
    assert instances[..|instances|] == instances;
  }

  ghost predicate Extended(out: map<Port, seq<Listener>>, byPort: map<Port, seq<Listener>>, endpoints: seq<Endpoint>,
          id: ServiceId)
  {
    forall port :: On(out, port) == On(byPort, port) + ListenersAt(endpoints, id, port)
  }

  lemma ExtendedStep(out: map<Port, seq<Listener>>, byPort: map<Port, seq<Listener>>, endpoints: seq<Endpoint>,
          id: ServiceId, i: nat)
    requires i < |endpoints| && Extended(out, byPort, endpoints[..i], id)
    ensures var port := endpoints[i].port;
      Extended(out[port := On(out, port) + [Listener(endpoints[i].address, id)]], byPort, endpoints[..i + 1], id)
  {
    assert endpoints[..i + 1][..i] == endpoints[..i];
    var here := endpoints[i].port;
    var next := out[here := On(out, here) + [Listener(endpoints[i].address, id)]];
    forall port ensures On(next, port) == On(byPort, port) + ListenersAt(endpoints[..i + 1], id, port) {
      assert On(out, port) == On(byPort, port) + ListenersAt(endpoints[..i], id, port);
    }
  }

  method IndexEndpoints(byPort: map<Port, seq<Listener>>, service: Service) returns (out: map<Port, seq<Listener>>)
    ensures Extended(out, byPort, service.endpoints, service.id)
  {
    var endpoints := service.endpoints;
    out := byPort;
    for i := 0 to |endpoints|
      invariant Extended(out, byPort, endpoints[..i], service.id)
    {
      hide Extended;
      ExtendedStep(out, byPort, endpoints, service.id, i);
      var port := endpoints[i].port;
      out := out[port := On(out, port) + [Listener(endpoints[i].address, service.id)]];
    }
    assert endpoints[..|endpoints|] == endpoints;
  }

  method BuildIndex(services: seq<Service>) returns (index: ServiceIndex)
    ensures Indexes(index, services)
  {
    var byPid: map<Pid, ServiceId>, byPort: map<Port, seq<Listener>> := map[], map[];
    for i := 0 to |services|
      invariant Indexes(ServiceIndex(byPid, byPort), services[..i])
    {
      assert services[..i + 1][..i] == services[..i];
      byPid := IndexInstances(byPid, services[i]);
      byPort := IndexEndpoints(byPort, services[i]);
    }
    assert services[..|services|] == services;
    index := ServiceIndex(byPid, byPort);
  }

  /** The first listener bound to exactly `address`. */
  function ExactListener(candidates: seq<Listener>, address: Address): Option<ServiceId> {
    if candidates == [] then None
    else if candidates[0].address == address then Some(candidates[0].service)
    else ExactListener(candidates[1..], address)
  }

  function Wildcards(candidates: seq<Listener>): seq<Listener> {
    if candidates == [] then []
    else (if IsUnspecified(candidates[0].address) then [candidates[0]] else []) + Wildcards(candidates[1..])
  }

  function ListeningServices(candidates: seq<Listener>): set<ServiceId> {
    set c | c in candidates :: c.service
  }

  /** Which service answers at `address`: the one bound to it, else the only
      wildcard listener, else the only service there is on the port. */
  function ListenerOn(candidates: seq<Listener>, address: Address): Option<ServiceId> {
    var exact := ExactListener(candidates, address);
    var wildcards := Wildcards(candidates);
    if exact.Some? then exact
    else if |wildcards| == 1 then Some(wildcards[0].service)
    else if candidates != [] && ListeningServices(candidates) == {candidates[0].service}
    then Some(candidates[0].service)
    else None
  }

  function EdgeOf(owners: map<Pid, ServiceId>, candidates: seq<Listener>, socket: Socket): Option<ConnectionId> {
    if socket.pid.None? || socket.pid.value !in owners then None
    else
      var source := owners[socket.pid.value];
      var target := ListenerOn(candidates, socket.remoteAddress);
      if target.None? || source == target.value then None
      else Some(ConnectionId(source, target.value, socket.remotePort))
  }

  function EdgeFor(index: ServiceIndex, socket: Socket): Option<ConnectionId> {
    EdgeOf(index.byPid, On(index.byPort, socket.remotePort), socket)
  }

  /** The edge one socket is evidence of. */
  function Edge(services: seq<Service>, socket: Socket): Option<ConnectionId> {
    EdgeOf(Owners(services), Listeners(services, socket.remotePort), socket)
  }

  /** All edges one batch is evidence of. */
  function Edges(services: seq<Service>, established: seq<Socket>): set<ConnectionId> {
    set socket | socket in established && Edge(services, socket).Some? :: Edge(services, socket).value
  }

  // --------------------------------------------------------------- topologies

  predicate IdLeq(a: ConnectionId, b: ConnectionId) {
    if a.source != b.source then a.source < b.source
    else if a.target != b.target then a.target < b.target
    else a.port <= b.port
  }

  predicate ConnectionLeq(a: Connection, b: Connection) {
    IdLeq(a.id, b.id)
  }

  /** One connection per id, in order of id. */
  predicate Keyed(connections: seq<Connection>) {
    forall i, j :: 0 <= i < j < |connections| ==>
      IdLeq(connections[i].id, connections[j].id) && connections[i].id != connections[j].id
  }

  function ConnectionIds(connections: seq<Connection>): set<ConnectionId> {
    set c | c in connections :: c.id
  }

  lemma FindsEdge(connections: seq<Connection>, id: ConnectionId)
    ensures Find(connections, ConnectionKey, id).Some? <==> id in ConnectionIds(connections)
    ensures Find(connections, ConnectionKey, id).Some? ==>
      Find(connections, ConnectionKey, id).value in connections && Find(connections, ConnectionKey, id).value.id == id
  {
    FindIs(connections, ConnectionKey, id);
  }

  lemma FindsHeld(connections: seq<Connection>, c: Connection)
    requires Keyed(connections) && c in connections
    ensures Find(connections, ConnectionKey, c.id) == Some(c)
  {
    FindsEdge(connections, c.id);
  }

  /** An edge seen in this batch: a surviving one keeps its first sighting and
      its last sighting never rewinds. */
  function Continued(previous: Option<Connection>, id: ConnectionId, at: Time): Connection {
    match previous
    case None => Connection(id, at, at)
    case Some(c) => Connection(id, c.firstSeen, if at > c.lastSeen then at else c.lastSeen)
  }

  /** `next` holds exactly `edges`, each continued from `before`. */
  ghost predicate Continues(before: seq<Connection>, next: seq<Connection>, edges: set<ConnectionId>, at: Time) {
    && Keyed(next)
    && (forall id :: id in ConnectionIds(next) <==> id in edges)
    && (forall c :: c in next ==> c == Continued(Find(before, ConnectionKey, c.id), c.id, at))
  }

  predicate IdsAscend(ids: seq<ConnectionId>) {
    forall i, j :: 0 <= i < j < |ids| ==> IdLeq(ids[i], ids[j]) && ids[i] != ids[j]
  }

  /** The delta names exactly what appeared and what went, each once. */
  ghost predicate Reports(delta: TopologyDelta, before: seq<Connection>, next: seq<Connection>) {
    && Keyed(delta.added) && IdsAscend(delta.removed)
    && (forall c :: c in delta.added <==> c in next && c.id !in ConnectionIds(before))
    && (forall id :: id in delta.removed <==> id in ConnectionIds(before) && id !in ConnectionIds(next))
  }

  lemma IdLeqTotal(a: ConnectionId, b: ConnectionId, c: ConnectionId)
    ensures IdLeq(a, b) || IdLeq(b, a)
    ensures IdLeq(a, b) && IdLeq(b, a) ==> a == b
    ensures IdLeq(a, b) && IdLeq(b, c) ==> IdLeq(a, c)
  {
  }

  lemma ConnectionOrder()
    ensures TotalOrder(ConnectionLeq)
  {
    forall a, b ensures ConnectionLeq(a, b) || ConnectionLeq(b, a) { IdLeqTotal(a.id, b.id, b.id); }
    forall a, b, c | ConnectionLeq(a, b) && ConnectionLeq(b, c)
      ensures ConnectionLeq(a, c)
    {
      IdLeqTotal(a.id, b.id, c.id);
    }
  }

  lemma InsertKeyed(c: Connection, next: seq<Connection>)
    requires Keyed(next) && c.id !in ConnectionIds(next)
    ensures Keyed(Insert(c, next, ConnectionLeq))
    ensures forall d :: d in Insert(c, next, ConnectionLeq) <==> d == c || d in next
    ensures forall id ::
      id in ConnectionIds(Insert(c, next, ConnectionLeq)) <==> id == c.id || id in ConnectionIds(next)
  {
    ConnectionOrder();
    assert forall i, j :: 0 <= i < j < |next| ==> ConnectionLeq(next[i], next[j]);
    InsertSorts(c, next, ConnectionLeq);
    SameMembersOfInsert(c, next, ConnectionLeq);
    DistinctIds(Insert(c, next, ConnectionLeq), [c] + next);
    var r := Insert(c, next, ConnectionLeq);
    assert forall i, j :: 0 <= i < j < |r| ==> ConnectionLeq(r[i], r[j]);
  }

  lemma DistinctIds(r: seq<Connection>, q: seq<Connection>)
    requires multiset(r) == multiset(q)
    requires forall i, j :: 0 <= i < j < |q| ==> q[i].id != q[j].id
    ensures forall i, j :: 0 <= i < j < |r| ==> r[i].id != r[j].id
  {
    assert NoRepeats(q);
    NoRepeatsPermuted(q, r);
    SameMembers(r, q);
    assert forall d, e :: d in q && e in q && d.id == e.id ==> d == e;
    assert forall i :: 0 <= i < |r| ==> r[i] in q;
  }

  class TopologyBuilder {
    var current: seq<Connection>

    ghost predicate Valid()
      reads this
    {
      Keyed(current)
    }

    constructor ()
      ensures Valid() && current == []
    {
      current := [];
    }

    method Collect(services: seq<Service>, established: seq<Socket>, at: Time) returns (next: seq<Connection>)
      requires Valid()
      ensures Continues(current, next, Edges(services, established), at)
    {
      hide Keyed, Continued, Find, Edge, EdgeFor, Indexes;
      var index := BuildIndex(services);
      NothingYet(current, services, at);
      next := [];
      assert established[..0] == [];
      for i := 0 to |established|
        invariant Continues(current, next, Edges(services, established[..i]), at)
      {
        var edge := EdgeFor(index, established[i]);
        IndexedEdge(index, services, established[i]);
        EdgesStep(services, established, i);
        if edge.None? || edge.value in ConnectionIds(next) {
          continue;
        }
        var id := edge.value;
        var connection := Continued(Find(current, ConnectionKey, id), id, at);
        ContinuedId(Find(current, ConnectionKey, id), id, at);
        InsertKeyed(connection, next);
        next := Insert(connection, next, ConnectionLeq);
      }
      assert established[..|established|] == established;
    }

    method Compare(next: seq<Connection>) returns (delta: TopologyDelta)
      requires Valid() && Keyed(next)
      ensures Reports(delta, current, next)
    {
      var added: seq<Connection> := [];
      for i := 0 to |next|
        invariant Keyed(added)
        invariant forall c :: c in added <==> c in next[..i] && c.id !in ConnectionIds(current)
      {
        FindsEdge(current, next[i].id);
        if Find(current, ConnectionKey, next[i].id).None? {
          added := added + [next[i]];
        }
      }
      var removed: seq<ConnectionId> := [];
      for i := 0 to |current|
        invariant IdsAscend(removed)
        invariant forall id :: id in removed <==> id in ConnectionIds(current[..i]) && id !in ConnectionIds(next)
      {
        IdsStep(current, i);
        if current[i].id !in ConnectionIds(next) {
          forall k | 0 <= k < |removed| ensures IdLeq(removed[k], current[i].id) && removed[k] != current[i].id {
            assert removed[k] in removed;
          }
          removed := removed + [current[i].id];
        }
      }
      assert next[..|next|] == next && current[..|current|] == current;
      delta := TopologyDelta(added, removed);
    }

    /** Take over the edges there is evidence of now, and say what changed. */
    method Observe(services: seq<Service>, established: seq<Socket>, at: Time) returns (delta: TopologyDelta)
      requires Valid()
      modifies this
      ensures Valid()
      ensures Continues(old(current), current, Edges(services, established), at)
      ensures Reports(delta, old(current), current)
    {
      var next := Collect(services, established, at);
      delta := Compare(next);
      current := next;
    }
  }

  lemma IdsStep(connections: seq<Connection>, i: nat)
    requires i < |connections|
    ensures ConnectionIds(connections[..i + 1]) == ConnectionIds(connections[..i]) + {connections[i].id}
    ensures forall id :: id in ConnectionIds(connections[..i]) <==> exists j :: 0 <= j < i && connections[j].id == id
  {
    assert connections[..i + 1] == connections[..i] + [connections[i]];
    forall id | id in ConnectionIds(connections[..i]) ensures exists j :: 0 <= j < i && connections[j].id == id {
      var c :| c in connections[..i] && c.id == id;
    }
    forall j | 0 <= j < i ensures connections[j].id in ConnectionIds(connections[..i]) {
      assert connections[..i][j] == connections[j];
    }
  }

  lemma NothingYet(before: seq<Connection>, services: seq<Service>, at: Time)
    ensures Continues(before, [], Edges(services, []), at)
  {
  }

  lemma IndexedEdge(index: ServiceIndex, services: seq<Service>, socket: Socket)
    requires Indexes(index, services)
    ensures EdgeFor(index, socket) == Edge(services, socket)
  {
  }

  lemma EdgesStep(services: seq<Service>, established: seq<Socket>, i: nat)
    requires i < |established|
    ensures var edge := Edge(services, established[i]);
      Edges(services, established[..i + 1])
        == Edges(services, established[..i]) + (if edge.Some? then {edge.value} else {})
  {
    hide Edge;
    assert established[..i + 1] == established[..i] + [established[i]];
  }

  lemma ContinuedId(previous: Option<Connection>, id: ConnectionId, at: Time)
    ensures Continued(previous, id, at).id == id
  {
  }
}
