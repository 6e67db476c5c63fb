/** The registry: what a batch of observations makes of the services that are
    already known, and an exact account of what changed. */
module Registry {
  import opened Basics
  import opened Model
  import opened Sorting

  const MAX_STOPPED_SERVICES := 256
  const STOPPED_PORTLESS_RETENTION: Time := 90 * SECOND
  const RESTART_LOOP_WINDOW: Time := 60 * SECOND
  const RESTART_LOOP_THRESHOLD := 3
  const U32_MAX := 0xFFFF_FFFF

  // ------------------------------------------------------------ observations

  /** One running process or container, already attributed to a service. */
  datatype Observation = Observation(
    id: ServiceId,
    name: string,
    projectId: Option<ProjectId>,
    kind: ServiceKind,
    runtime: nat,
    instance: Option<ProcessInstance>,
    endpoints: seq<Endpoint>,
    measuredCpu: Option<nat>,
    measuredMemory: Option<nat>)

  /** Observations of one service being folded together. */
  datatype Merged = Merged(
    metaPid: Option<Pid>,
    name: string,
    projectId: Option<ProjectId>,
    kind: ServiceKind,
    runtime: nat,
    instances: seq<ProcessInstance>,
    endpoints: seq<Endpoint>,
    measuredCpu: Option<nat>,
    measuredMemory: Option<nat>)

  /** A folded, normalised observation set. */
  datatype Finished = Finished(
    primaryPid: Option<Pid>,
    name: string,
    projectId: Option<ProjectId>,
    kind: ServiceKind,
    runtime: nat,
    instances: seq<ProcessInstance>,
    endpoints: seq<Endpoint>,
    measuredCpu: Option<nat>,
    measuredMemory: Option<nat>,
    ports: seq<Port>)

  function ToSeq<T>(o: Option<T>): seq<T> {
    match o case None => [] case Some(x) => [x]
  }

  function PidOf(o: Observation): Option<Pid> {
    match o.instance case None => None case Some(i) => Some(i.pid)
  }

  function NewMerged(o: Observation): Merged {
    Merged(PidOf(o), o.name, o.projectId, o.kind, o.runtime, ToSeq(o.instance), o.endpoints, o.measuredCpu,
      o.measuredMemory)
  }

  /** The lowest PID owns the display metadata. */
  function Absorb(m: Merged, o: Observation): Merged {
    var pid := PidOf(o);
    var wins := match (pid, m.metaPid)
      case (Some(a), Some(b)) => a < b
      case (Some(_), None) => true
      case _ => false;
    var meta :=
      if wins
      then m.(metaPid := pid, name := o.name, projectId := o.projectId, kind := o.kind, runtime := o.runtime)
      else m;
    meta.(
      instances := m.instances + ToSeq(o.instance),
      endpoints := m.endpoints + o.endpoints,
      measuredCpu := if o.measuredCpu.Some? then o.measuredCpu else m.measuredCpu,
      measuredMemory := if o.measuredMemory.Some? then o.measuredMemory else m.measuredMemory)
  }

  function AddObservation(observed: map<ServiceId, Merged>, o: Observation): map<ServiceId, Merged> {
    observed[o.id := if o.id in observed then Absorb(observed[o.id], o) else NewMerged(o)]
  }

  function Fold(observations: seq<Observation>): map<ServiceId, Merged> {
    if observations == [] then map[] else
      var n := |observations| - 1;
      AddObservation(Fold(observations[..n]), observations[n])
  }

  /** Total order over endpoints; every field takes part. */
  predicate EndpointLeq(a: Endpoint, b: Endpoint) {
    if a.port != b.port then a.port < b.port
    else if a.address != b.address then AddressLess(a.address, b.address)
    else if a.udp != b.udp then !a.udp
    else match (a.pid, b.pid)
      case (None, _) => true
      case (Some(_), None) => false
      case (Some(x), Some(y)) => x <= y
  }

  predicate AddressLess(a: Address, b: Address) {
    match (a, b)
    case (V4(x), V4(y)) => x < y
    case (V4(_), V6(_)) => true
    case (V6(_), V4(_)) => false
    case (V6(x), V6(y)) => x < y
  }

  /** Removes adjacent repetitions of a key. */
  function DedupBy<T, K(==)>(q: seq<T>, key: T -> K): seq<T> {
    if |q| <= 1 then q
    else
      var n := |q| - 1;
      var front := DedupBy(q[..n], key);
      if key(q[n]) == key(q[n - 1]) then front else front + [q[n]]
  }

  /** The oldest process, ties broken by PID. */
  function PrimaryInstance(instances: seq<ProcessInstance>): (r: ProcessInstance)
    requires instances != []
  {
    var n := |instances| - 1;
    if n == 0 then instances[0] else
      var best := PrimaryInstance(instances[..n]);
      var next := instances[n];
      if next.startedAt < best.startedAt || (next.startedAt == best.startedAt && next.pid < best.pid) then next
        else best
  }

  function PrimaryPid(instances: seq<ProcessInstance>): Option<Pid> {
    if instances == [] then None else Some(PrimaryInstance(instances).pid)
  }

  function SortedInstances(instances: seq<ProcessInstance>): seq<ProcessInstance> {
    DedupBy(SortBy(instances, (a: ProcessInstance, b: ProcessInstance) => a.pid <= b.pid),
      (i: ProcessInstance) => i.pid)
  }

  function SortedEndpoints(endpoints: seq<Endpoint>): seq<Endpoint> {
    DedupBy(SortBy(endpoints, EndpointLeq), (e: Endpoint) => e)
  }

  /** Distinct ports of endpoints that are sorted by port. */
  function AscendingPorts(endpoints: seq<Endpoint>): seq<Port> {
    if endpoints == [] then [] else
      var n := |endpoints| - 1;
      var ports := AscendingPorts(endpoints[..n]);
      if ports != [] && ports[|ports| - 1] == endpoints[n].port then ports else ports + [endpoints[n].port]
  }

  function Finish(m: Merged): Finished {
    var instances := SortedInstances(m.instances);
    var endpoints := SortedEndpoints(m.endpoints);
    var primary := PrimaryPid(instances);
    Finished(if primary.Some? then primary else m.metaPid, m.name, m.projectId, m.kind, m.runtime,
             instances, endpoints, m.measuredCpu, m.measuredMemory, AscendingPorts(endpoints))
  }

  function FinishAll(merged: map<ServiceId, Merged>): map<ServiceId, Finished> {
    map id | id in merged :: Finish(merged[id])
  }

  function Observed(observations: seq<Observation>): map<ServiceId, Finished> {
    FinishAll(Fold(observations))
  }

  // --------------------------------------------------------- held services

  /** What the registry remembers of a service besides what it shows. */
  datatype Entered = Entered(service: Service, restarts: seq<Time>, everListened: bool)

  function IntoService(f: Finished, id: ServiceId, at: Time): Service {
    Service(id, f.projectId, f.name, f.kind, f.runtime, Healthy, f.instances, f.endpoints, at, at, 0, f.measuredCpu,
      f.measuredMemory)
  }

  predicate RetainWhenStopped(e: Entered) {
    e.everListened || e.service.kind.Container?
  }

  function SaturatingIncrement(n: nat): nat {
    if n < U32_MAX then n + 1 else n
  }

  function RecordRestart(e: Entered, at: Time): Entered {
    var kept := if |e.restarts| == RESTART_LOOP_THRESHOLD then e.restarts[1..] else e.restarts;
    e.(service := e.service.(restartCount := SaturatingIncrement(e.service.restartCount)), restarts := kept + [at])
  }

  function RunningHealth(restarts: seq<Time>): Health {
    if |restarts| < RESTART_LOOP_THRESHOLD then Healthy
    else
      var span := restarts[|restarts| - 1] - restarts[0];
      if 0 <= span <= RESTART_LOOP_WINDOW then Degraded else Healthy
  }

  /** What one batch did to the life of one service. */
  datatype Change =
    | Quiet
    | Start(pid: Option<Pid>)
    | Stop(lastPid: Option<Pid>)
    | Restart(oldPid: Option<Pid>, newPid: Option<Pid>)

  predicate Overlaps(e: Entered, f: Finished) {
    exists i :: i in f.instances && i.pid in PidsOf(e.service.instances)
  }

  function ChangeOf(held: Option<Entered>, seen: Option<Finished>): Change {
    match (held, seen)
    case (None, None) => Quiet
    case (None, Some(f)) => Start(f.primaryPid)
    case (Some(e), None) => if IsRunning(e.service) then Stop(PrimaryPid(e.service.instances)) else Quiet
    case (Some(e), Some(f)) =>
      if !IsRunning(e.service) then Start(f.primaryPid)
      else if !Overlaps(e, f) && (f.instances != [] || e.service.instances != [])
      then Restart(PrimaryPid(e.service.instances), f.primaryPid)
      else Quiet
  }

  /** An observed service that was already known. */
  function Updated(e: Entered, f: Finished, at: Time): Entered {
    var listened := e.(everListened := e.everListened || f.ports != []);
    var counted := if ChangeOf(Some(e), Some(f)).Quiet? then listened else RecordRestart(listened, at);
    counted.(service := counted.service.(
      name := f.name, projectId := f.projectId, kind := f.kind, runtime := f.runtime,
      instances := f.instances, endpoints := f.endpoints,
      measuredCpu := f.measuredCpu, measuredMemory := f.measuredMemory,
      lastSeen := at, health := RunningHealth(counted.restarts)))
  }

  /** A running service that was not observed. */
  function Halted(e: Entered): Entered {
    Entered(
      e.service.(instances := [], endpoints := [], measuredCpu := None, measuredMemory := None, health := Stopped),
      [], e.everListened)
  }

  function Reconcile(id: ServiceId, held: Option<Entered>, seen: Option<Finished>, at: Time): Option<Entered> {
    match (held, seen)
    case (None, None) => None
    case (None, Some(f)) => Some(Entered(IntoService(f, id, at), [], f.ports != []))
    case (Some(e), Some(f)) => Some(Updated(e, f, at))
    case (Some(e), None) => Some(if IsRunning(e.service) then Halted(e) else e)
  }

  /** Everything held after one batch, before eviction. */
  function Reconciled(held: map<ServiceId, Entered>, seen: map<ServiceId, Finished>, at: Time): map<ServiceId, Entered>
  {
    map id | id in held.Keys + seen.Keys :: Reconcile(id, Lookup(held, id), Lookup(seen, id), at).value
  }

  // ----------------------------------------------------------------- eviction

  function StoppedIds(held: map<ServiceId, Entered>): set<ServiceId> {
    set id | id in held && !IsRunning(held[id].service)
  }

  /** Stopped host processes that never listened and have been silent too long. */
  function Expired(held: map<ServiceId, Entered>, at: Time): set<ServiceId> {
    set id | id in held && !IsRunning(held[id].service) && !RetainWhenStopped(held[id])
             && at - held[id].service.lastSeen > STOPPED_PORTLESS_RETENTION
  }

  /** Eviction order: least recently seen first, ties broken by id. */
  predicate EvictedBefore(held: map<ServiceId, Entered>, a: ServiceId, b: ServiceId)
    requires a in held && b in held
  {
    var (x, y) := (held[a].service.lastSeen, held[b].service.lastSeen);
    x < y || (x == y && a < b)
  }

  /** The stopped services that more recent ones crowd out. */
  function Crowded(held: map<ServiceId, Entered>): set<ServiceId> {
    var stopped := StoppedIds(held);
    set id | id in stopped && |set other | other in stopped && EvictedBefore(held, id, other)| >= MAX_STOPPED_SERVICES
  }

  function Evicted(held: map<ServiceId, Entered>, at: Time): set<ServiceId> {
    var expired := Expired(held, at);
    expired + Crowded(held - expired)
  }

  /** The whole effect of one batch on the registry. */
  function After(held: map<ServiceId, Entered>, seen: map<ServiceId, Finished>, at: Time): map<ServiceId, Entered> {
    var reconciled := Reconciled(held, seen, at);
    reconciled - Evicted(reconciled, at)
  }

  // ------------------------------------------------------------------- deltas

  datatype RegistryDelta = RegistryDelta(
    started: seq<(ServiceId, Option<Pid>)>,
    stopped: seq<(ServiceId, Option<Pid>)>,
    restarted: seq<(ServiceId, Option<Pid>, Option<Pid>)>,
    portsOpened: seq<(ServiceId, Port)>,
    portsClosed: seq<(ServiceId, Port)>,
    healthChanged: seq<(ServiceId, Health, Health)>,
    evicted: seq<ServiceId>,
    projects: map<ServiceId, Option<ProjectId>>)

  const EMPTY_DELTA := RegistryDelta([], [], [], [], [], [], [], map[])

  /** What a delta has to say about one service. */
  datatype Piece = Piece(
    change: Change,
    portsOpened: set<Port>,
    portsClosed: set<Port>,
    health: Option<(Health, Health)>)

  function PortSet(e: Option<Entered>): set<Port> {
    match e case None => {} case Some(e) => PortsOf(e.service.endpoints)
  }

  function PieceOf(id: ServiceId, held: Option<Entered>, seen: Option<Finished>, at: Time): Piece {
    var next := Reconcile(id, held, seen, at);
    Piece(
      ChangeOf(held, seen),
      PortSet(next) - PortSet(held),
      PortSet(held) - PortSet(next),
      if held.Some? && held.value.service.health != next.value.service.health
      then Some((held.value.service.health, next.value.service.health)) else None)
  }

  function Pieces(held: map<ServiceId, Entered>, seen: map<ServiceId, Finished>, at: Time): map<ServiceId, Piece> {
    map id | id in held.Keys + seen.Keys :: PieceOf(id, Lookup(held, id), Lookup(seen, id), at)
  }

  ghost predicate RecordsStarts(q: seq<(ServiceId, Option<Pid>)>, pieces: map<ServiceId, Piece>) {
    NoRepeats(q) && forall id, pid :: (id, pid) in q <==> id in pieces && pieces[id].change == Start(pid)
  }

  ghost predicate RecordsStops(q: seq<(ServiceId, Option<Pid>)>, pieces: map<ServiceId, Piece>) {
    NoRepeats(q) && forall id, pid :: (id, pid) in q <==> id in pieces && pieces[id].change == Stop(pid)
  }

  ghost predicate RecordsRestarts(q: seq<(ServiceId, Option<Pid>, Option<Pid>)>, pieces: map<ServiceId, Piece>) {
    NoRepeats(q) && forall id, a, b :: (id, a, b) in q <==> id in pieces && pieces[id].change == Restart(a, b)
  }

  ghost predicate RecordsOpened(q: seq<(ServiceId, Port)>, pieces: map<ServiceId, Piece>) {
    NoRepeats(q) && forall id, port :: (id, port) in q <==> id in pieces && port in pieces[id].portsOpened
  }

  ghost predicate RecordsClosed(q: seq<(ServiceId, Port)>, pieces: map<ServiceId, Piece>) {
    NoRepeats(q) && forall id, port :: (id, port) in q <==> id in pieces && port in pieces[id].portsClosed
  }

  ghost predicate RecordsHealth(q: seq<(ServiceId, Health, Health)>, pieces: map<ServiceId, Piece>) {
    NoRepeats(q) && forall id, a, b :: (id, a, b) in q <==> id in pieces && pieces[id].health == Some((a, b))
  }

  /** The vectors of a delta hold exactly what the pieces say, each fact once. */
  ghost predicate Records(delta: RegistryDelta, pieces: map<ServiceId, Piece>) {
    && RecordsStarts(delta.started, pieces)
    && RecordsStops(delta.stopped, pieces)
    && RecordsRestarts(delta.restarted, pieces)
    && RecordsOpened(delta.portsOpened, pieces)
    && RecordsClosed(delta.portsClosed, pieces)
    && RecordsHealth(delta.healthChanged, pieces)
  }

  predicate PortLess(a: (ServiceId, Port), b: (ServiceId, Port)) {
    a.0 < b.0 || (a.0 == b.0 && a.1 < b.1)
  }

  predicate PairsAscend<T>(q: seq<(ServiceId, T)>) {
    forall i, j :: 0 <= i < j < |q| ==> q[i].0 < q[j].0
  }

  predicate TriplesAscend<T, U>(q: seq<(ServiceId, T, U)>) {
    forall i, j :: 0 <= i < j < |q| ==> q[i].0 < q[j].0
  }

  predicate PortsAscend(q: seq<(ServiceId, Port)>) {
    forall i, j :: 0 <= i < j < |q| ==> PortLess(q[i], q[j])
  }

  /** Every vector is in ascending order of service. */
  predicate InOrder(delta: RegistryDelta) {
    && PairsAscend(delta.started) && PairsAscend(delta.stopped) && TriplesAscend(delta.restarted)
    && PortsAscend(delta.portsOpened) && PortsAscend(delta.portsClosed) && TriplesAscend(delta.healthChanged)
    && StrictlyAscending(delta.evicted)
  }

  /** The delta of one batch, completely determined. */
  ghost predicate Describes(delta: RegistryDelta, held: map<ServiceId, Entered>, seen: map<ServiceId, Finished>,
          at: Time)
  {
    && Records(delta, Pieces(held, seen, at))
    && InOrder(delta)
    && (forall id :: id in delta.evicted <==> id in Evicted(Reconciled(held, seen, at), at))
    && delta.projects == ProjectsOf(After(held, seen, at))
  }

  function ProjectsOf(held: map<ServiceId, Entered>): map<ServiceId, Option<ProjectId>> {
    map id | id in held :: held[id].service.projectId
  }

  // --------------------------------------------------------------- invariants

  predicate PortAscending(endpoints: seq<Endpoint>) {
    forall i, j :: 0 <= i < j < |endpoints| ==> endpoints[i].port <= endpoints[j].port
  }

  /** What holds of every held service, in every reachable state. */
  predicate WfEntered(id: ServiceId, e: Entered) {
    && e.service.id == id
    && |e.restarts| <= RESTART_LOOP_THRESHOLD
    && PortAscending(e.service.endpoints)
    && (e.service.endpoints != [] ==> e.everListened)
    && (e.service.kind.HostProcess? ==> (e.service.instances != [] <==> e.service.health != Stopped))
    && (e.service.kind.Container? ==> e.service.instances == [])
    && (if e.service.health == Stopped
        then e.service.instances == [] && e.service.endpoints == [] && e.restarts == []
        else e.service.health == RunningHealth(e.restarts))
  }

  predicate Wf(held: map<ServiceId, Entered>) {
    forall id :: id in held ==> WfEntered(id, held[id])
  }

  predicate WfFinished(f: Finished) {
    && (f.kind.HostProcess? <==> f.instances != [])
    && PortAscending(f.endpoints)
    && f.ports == AscendingPorts(f.endpoints)
  }

  predicate SameKind(a: ServiceKind, b: ServiceKind) {
    a.Container? <==> b.Container?
  }

  /** A folded batch that may follow `held`. */
  predicate Sound(held: map<ServiceId, Entered>, seen: map<ServiceId, Finished>) {
    forall id :: id in seen ==> WfFinished(seen[id]) && (id in held ==> SameKind(held[id].service.kind, seen[id].kind))
  }

  /** Host processes come with their instance, containers without one, and an
      identity never changes from one to the other. */
  predicate WellFormed(observations: seq<Observation>, held: map<ServiceId, Entered>) {
    && (forall o :: o in observations ==> (o.instance.Some? <==> o.kind.HostProcess?))
    && (forall o, p :: o in observations && p in observations && o.id == p.id ==> SameKind(o.kind, p.kind))
    && (forall o :: o in observations && o.id in held ==> SameKind(held[o.id].service.kind, o.kind))
  }

  lemma RunningByHealth(id: ServiceId, e: Entered)
    requires WfEntered(id, e)
    ensures IsRunning(e.service) <==> e.service.health != Stopped
  {
  }

  lemma ReconcileKeepsWf(id: ServiceId, held: Option<Entered>, seen: Option<Finished>, at: Time)
    requires held.Some? ==> WfEntered(id, held.value)
    requires seen.Some? ==> WfFinished(seen.value)
    requires held.Some? && seen.Some? ==> SameKind(held.value.service.kind, seen.value.kind)
    requires held.Some? || seen.Some?
    ensures WfEntered(id, Reconcile(id, held, seen, at).value)
    ensures IsRunning(Reconcile(id, held, seen, at).value.service) <==> seen.Some?
  {
    if seen.Some? { PortsExist(seen.value.endpoints); }
  }

  lemma PortsExist(endpoints: seq<Endpoint>)
    ensures AscendingPorts(endpoints) == [] <==> endpoints == []
  {
  }

  lemma AfterKeepsWf(held: map<ServiceId, Entered>, seen: map<ServiceId, Finished>, at: Time)
    requires Wf(held) && Sound(held, seen)
    ensures Wf(Reconciled(held, seen, at)) && Wf(After(held, seen, at))
  {
    hide WfEntered, WfFinished;
    forall id | id in held.Keys + seen.Keys
      ensures WfEntered(id, Reconcile(id, Lookup(held, id), Lookup(seen, id), at).value)
    {
      ReconcileKeepsWf(id, Lookup(held, id), Lookup(seen, id), at);
    }
  }

  // ------------------------------------------------------- folding, in order

  lemma {:induction false} AscendingPortsAscend(endpoints: seq<Endpoint>)
    requires PortAscending(endpoints)
    ensures StrictlyAscending(AscendingPorts(endpoints))
    ensures endpoints != [] ==>
      var p := AscendingPorts(endpoints); p != [] && p[|p| - 1] == endpoints[|endpoints| - 1].port
  {
    if endpoints != [] {
      hide StrictlyAscending;
      var n := |endpoints| - 1;
      AscendingPortsAscend(endpoints[..n]);
      var ports := AscendingPorts(endpoints[..n]);
      if n == 0 || endpoints[n - 1].port < endpoints[n].port {
        AppendAscends(ports, endpoints[n].port);
      }
    }
  }

  lemma AppendAscends(q: seq<int>, x: int)
    requires StrictlyAscending(q) && (q != [] ==> q[|q| - 1] < x)
    ensures StrictlyAscending(q + [x])
  {
  }

  lemma {:induction false} AscendingPortsListsPorts(endpoints: seq<Endpoint>)
    ensures Elements(AscendingPorts(endpoints)) == PortsOf(endpoints)
  {
    if endpoints != [] {
      var n := |endpoints| - 1;
      var (front, last) := (endpoints[..n], endpoints[n]);
      AscendingPortsListsPorts(front);
      PortsOfAppend(front, last);
      assert endpoints == front + [last];
      var ports := AscendingPorts(front);
      assert Elements(ports + [last.port]) == Elements(ports) + {last.port};
    }
  }

  lemma PortsOfAppend(front: seq<Endpoint>, last: Endpoint)
    ensures PortsOf(front + [last]) == PortsOf(front) + {last.port}
  {
    assert forall e :: e in front + [last] <==> e in front || e == last;
  }

  lemma EndpointLeqTotal(a: Endpoint, b: Endpoint, c: Endpoint)
    ensures EndpointLeq(a, b) || EndpointLeq(b, a)
    ensures EndpointLeq(a, b) && EndpointLeq(b, a) ==> a == b
    ensures EndpointLeq(a, b) && EndpointLeq(b, c) ==> EndpointLeq(a, c)
  {
  }

  lemma EndpointOrder()
    ensures TotalOrder(EndpointLeq) && Antisymmetric(EndpointLeq)
  {
    forall a, b ensures EndpointLeq(a, b) || EndpointLeq(b, a) { EndpointLeqTotal(a, b, b); }
    forall a, b | EndpointLeq(a, b) && EndpointLeq(b, a) ensures a == b { EndpointLeqTotal(a, b, b); }
    forall a, b, c | EndpointLeq(a, b) && EndpointLeq(b, c) ensures EndpointLeq(a, c) { EndpointLeqTotal(a, b, c); }
  }

  lemma {:induction false} DedupKeeps<T(!new), K>(q: seq<T>, key: T -> K, leq: (T, T) -> bool)
    requires SortedBy(q, leq)
    ensures SortedBy(DedupBy(q, key), leq)
    ensures forall x :: x in DedupBy(q, key) ==> x in q
    ensures q != [] ==> DedupBy(q, key) != []
  {
    if |q| > 1 {
      var n := |q| - 1;
      DedupKeeps(q[..n], key, leq);
      var front := DedupBy(q[..n], key);
      forall i | 0 <= i < |front| ensures leq(front[i], q[n]) {
        assert front[i] in q[..n];
      }
    }
  }

  lemma SortedEndpointsAscend(endpoints: seq<Endpoint>)
    ensures PortAscending(SortedEndpoints(endpoints))
  {
    EndpointOrder();
    SortBySorts(endpoints, EndpointLeq);
    DedupKeeps(SortBy(endpoints, EndpointLeq), (e: Endpoint) => e, EndpointLeq);
    var q := SortedEndpoints(endpoints);
    assert forall i, j :: 0 <= i < j < |q| ==> EndpointLeq(q[i], q[j]);
  }

  lemma SortedInstancesNonEmpty(instances: seq<ProcessInstance>)
    ensures SortedInstances(instances) == [] <==> instances == []
  {
    var leq := (a: ProcessInstance, b: ProcessInstance) => a.pid <= b.pid;
    assert TotalOrder(leq);
    SortBySorts(instances, leq);
    DedupKeeps(SortBy(instances, leq), (i: ProcessInstance) => i.pid, leq);
  }

  lemma {:induction false} FoldKinds(observations: seq<Observation>, id: ServiceId)
    requires forall o :: o in observations ==> (o.instance.Some? <==> o.kind.HostProcess?)
    requires forall o, p :: o in observations && p in observations && o.id == p.id ==> SameKind(o.kind, p.kind)
    requires id in Fold(observations)
    ensures Fold(observations)[id].kind.HostProcess? <==> Fold(observations)[id].instances != []
    ensures exists o :: o in observations && o.id == id && SameKind(o.kind, Fold(observations)[id].kind)
  {
    var n := |observations| - 1;
    var (front, o) := (observations[..n], observations[n]);
    assert observations == front + [o];
    if id in Fold(front) {
      FoldKinds(front, id);
      var p :| p in front && p.id == id && SameKind(p.kind, Fold(front)[id].kind);
      assert p in observations;
    }
    if o.id == id {
      assert o in observations;
    }
  }

  lemma ObservedIsSound(observations: seq<Observation>, held: map<ServiceId, Entered>)
    requires WellFormed(observations, held)
    ensures Sound(held, Observed(observations))
  {
    var seen := Observed(observations);
    forall id | id in seen
      ensures WfFinished(seen[id]) && (id in held ==> SameKind(held[id].service.kind, seen[id].kind))
    {
      var m := Fold(observations)[id];
      FoldKinds(observations, id);
      SortedEndpointsAscend(m.endpoints);
      SortedInstancesNonEmpty(m.instances);
    }
  }
}
