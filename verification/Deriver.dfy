/** Event derivation: registry and topology deltas become timeline events, and
    a stop that is quickly followed by a start becomes a restart. */
module Deriver {
  import opened Basics
  import opened Model
  import opened Sorting
  import opened Registry
  import opened EventIds
  import opened Digits

  /** Down no longer than this, a service counts as restarted. */
  const RESTART_DEBOUNCE_WINDOW: Time := 2 * SECOND

  datatype StopInfo = StopInfo(at: Time, pid: Option<Pid>)

  datatype EventKind =
    | ServiceStarted(service: ServiceId, pid: Option<Pid>)
    | ServiceStopped(service: ServiceId, pid: Option<Pid>)
    | ServiceRestarted(service: ServiceId, oldPid: Option<Pid>, newPid: Option<Pid>)
    | PortOpened(service: ServiceId, port: Port)
    | PortClosed(service: ServiceId, port: Port)
    | HealthChanged(service: ServiceId, from: Health, to: Health)
    | ConnectionStarted(connection: ConnectionId)
    | ConnectionEnded(connection: ConnectionId)
    | ProjectDetected(project: ProjectId)
    | FileChanged(project: ProjectId, path: string)

  datatype Event = Event(id: string, at: Time, projectId: Option<ProjectId>, kind: EventKind)

  /** An event before it gets its identifier and time. */
  datatype Item = Item(projectId: Option<ProjectId>, kind: EventKind)

  type Pending = map<ServiceId, StopInfo>
  type Projects = map<ServiceId, Option<ProjectId>>

  predicate Settled(stop: StopInfo, at: Time) {
    Age(at, stop.at) > RESTART_DEBOUNCE_WINDOW
  }

  function ProjectFor(projects: Projects, id: ServiceId): Option<ProjectId> {
    if id in projects then projects[id] else None
  }

  // ---------------------------------------------------------- specification

  function AddStops(pending: Pending, stopped: seq<(ServiceId, Option<Pid>)>, at: Time): Pending {
    if stopped == [] then pending else
      var n := |stopped| - 1;
      AddStops(pending, stopped[..n], at)[stopped[n].0 := StopInfo(at, stopped[n].1)]
  }

  function WithoutStarted(pending: Pending, started: seq<(ServiceId, Option<Pid>)>): Pending {
    if started == [] then pending else
      var n := |started| - 1;
      WithoutStarted(pending, started[..n]) - {started[n].0}
  }

  /** What one start is reported as, given the stop that may be waiting. */
  function StartItems(id: ServiceId, pid: Option<Pid>, waiting: Option<StopInfo>, project: Option<ProjectId>,
          at: Time): seq<Item>
  {
    match waiting
    case None => [Item(project, ServiceStarted(id, pid))]
    case Some(stop) =>
      if Settled(stop, at)
      then [Item(project, ServiceStopped(id, stop.pid)), Item(project, ServiceStarted(id, pid))]
      else [Item(project, ServiceRestarted(id, stop.pid, pid))]
  }

  function AllStartItems(pending: Pending, started: seq<(ServiceId, Option<Pid>)>, projects: Projects,
          at: Time): seq<Item>
  {
    if started == [] then [] else
      var n := |started| - 1;
      var (id, pid) := started[n];
      AllStartItems(pending, started[..n], projects, at)
      + StartItems(id, pid, Lookup(WithoutStarted(pending, started[..n]), id), ProjectFor(projects, id), at)
  }

  function RestartItems(restarted: seq<(ServiceId, Option<Pid>, Option<Pid>)>, projects: Projects): seq<Item> {
    seq(|restarted|, i requires 0 <= i < |restarted| =>
      Item(ProjectFor(projects, restarted[i].0), ServiceRestarted(restarted[i].0, restarted[i].1, restarted[i].2)))
  }

  function FlushItem(id: ServiceId, stop: StopInfo, projects: Projects, at: Time): seq<Item> {
    if Settled(stop, at) then [Item(ProjectFor(projects, id), ServiceStopped(id, stop.pid))] else []
  }

  /** Stops that have waited long enough, in the given order. */
  function FlushItems(pending: Pending, keys: seq<ServiceId>, projects: Projects, at: Time): seq<Item>
    requires forall id :: id in keys ==> id in pending
  {
    if keys == [] then [] else
      var n := |keys| - 1;
      FlushItems(pending, keys[..n], projects, at) + FlushItem(keys[n], pending[keys[n]], projects, at)
  }

  function StillPending(pending: Pending, at: Time): Pending {
    map id | id in pending && !Settled(pending[id], at) :: pending[id]
  }

  /** The stops among `keys` that keep waiting. */
  function Partial(pending: Pending, keys: seq<ServiceId>, at: Time): Pending {
    map id | id in pending && id in keys && !Settled(pending[id], at) :: pending[id]
  }

  lemma PartialStep(pending: Pending, keys: seq<ServiceId>, i: nat, at: Time)
    requires i < |keys| && keys[i] in pending
    ensures Partial(pending, keys[..i + 1], at)
         == if Settled(pending[keys[i]], at) then Partial(pending, keys[..i], at)
            else Partial(pending, keys[..i], at)[keys[i] := pending[keys[i]]]
  {
    assert keys[..i + 1] == keys[..i] + [keys[i]];
  }

  lemma PartialEnds(pending: Pending, at: Time)
    ensures forall id :: id in Keys(pending.Keys) ==> id in pending
    ensures Partial(pending, [], at) == map[]
    ensures Partial(pending, Keys(pending.Keys), at) == StillPending(pending, at)
  {
    assert forall id :: id in Keys(pending.Keys) <==> id in Elements(Keys(pending.Keys));
  }

  function OpenedItems(ports: seq<(ServiceId, Port)>, projects: Projects): seq<Item> {
    seq(|ports|, i requires 0 <= i < |ports| =>
      Item(ProjectFor(projects, ports[i].0), PortOpened(ports[i].0, ports[i].1)))
  }

  function ClosedItems(ports: seq<(ServiceId, Port)>, projects: Projects): seq<Item> {
    seq(|ports|, i requires 0 <= i < |ports| =>
      Item(ProjectFor(projects, ports[i].0), PortClosed(ports[i].0, ports[i].1)))
  }

  function HealthItems(changed: seq<(ServiceId, Health, Health)>, projects: Projects): seq<Item> {
    seq(|changed|, i requires 0 <= i < |changed| =>
      Item(ProjectFor(projects, changed[i].0), HealthChanged(changed[i].0, changed[i].1, changed[i].2)))
  }

  function AddedItems(added: seq<Connection>): seq<Item> {
    seq(|added|, i requires 0 <= i < |added| => Item(None, ConnectionStarted(added[i].id)))
  }

  function RemovedItems(removed: seq<ConnectionId>): seq<Item> {
    seq(|removed|, i requires 0 <= i < |removed| => Item(None, ConnectionEnded(removed[i])))
  }

  function TopologyItems(topology: TopologyDelta): seq<Item> {
    AddedItems(topology.added) + RemovedItems(topology.removed)
  }

  /** The lifecycle part of one derivation. */
  function LifeItems(pending: Pending, delta: RegistryDelta, at: Time): seq<Item> {
    var waiting := AddStops(pending, delta.stopped, at);
    var left := WithoutStarted(waiting, delta.started);
    AllStartItems(waiting, delta.started, delta.projects, at)
    + RestartItems(delta.restarted, delta.projects)
    + FlushItems(left, Keys(left.Keys), delta.projects, at)
  }

  function Items(pending: Pending, delta: RegistryDelta, topology: TopologyDelta, at: Time): seq<Item> {
    LifeItems(pending, delta, at)
    + OpenedItems(delta.portsOpened, delta.projects) + ClosedItems(delta.portsClosed, delta.projects)
    + HealthItems(delta.healthChanged, delta.projects) + TopologyItems(topology)
  }

  function PendingAfter(pending: Pending, delta: RegistryDelta, at: Time): Pending {
    StillPending(WithoutStarted(AddStops(pending, delta.stopped, at), delta.started), at)
  }

  function Millis(at: Time): (millis: nat)
    ensures if at < 0 then millis == 0 else millis * 1_000_000 <= at < (millis + 1) * 1_000_000
  {
    if at < 0 then 0 else at / 1_000_000
  }

  /** The `n`th identifier a deriver mints, counting from zero. */
  function NthId(n: nat, at: Time): string {
    EventId(Millis(at), (n + 1) % U32_LIMIT)
  }

  /** Items with the identifiers minted from `first` on. */
  function Stamp(items: seq<Item>, first: nat, at: Time): seq<Event> {
    seq(|items|, i requires 0 <= i < |items| => Event(NthId(first + i, at), at, items[i].projectId, items[i].kind))
  }

  // --------------------------------------------------- what a derivation tells

  function Kinds(events: seq<Event>): seq<EventKind> {
    seq(|events|, i requires 0 <= i < |events| => events[i].kind)
  }

  /** What events of one sort tell, in order. */
  function Pick<T>(kinds: seq<EventKind>, sort: EventKind -> Option<T>): seq<T> {
    if kinds == [] then [] else
      var n := |kinds| - 1;
      Pick(kinds[..n], sort) + (match sort(kinds[n]) case None => [] case Some(x) => [x])
  }

  function AsOpened(kind: EventKind): Option<(ServiceId, Port)> {
    match kind case PortOpened(id, port) => Some((id, port)) case _ => None
  }

  function AsClosed(kind: EventKind): Option<(ServiceId, Port)> {
    match kind case PortClosed(id, port) => Some((id, port)) case _ => None
  }

  function AsHealth(kind: EventKind): Option<(ServiceId, Health, Health)> {
    match kind case HealthChanged(id, from, to) => Some((id, from, to)) case _ => None
  }

  function AsConnected(kind: EventKind): Option<ConnectionId> {
    match kind case ConnectionStarted(id) => Some(id) case _ => None
  }

  function AsDisconnected(kind: EventKind): Option<ConnectionId> {
    match kind case ConnectionEnded(id) => Some(id) case _ => None
  }

  function IdsOf(added: seq<Connection>): seq<ConnectionId> {
    seq(|added|, i requires 0 <= i < |added| => added[i].id)
  }

  /** An event happens at the time of the derivation, in the project the delta
      names for its service, and a connection in none. */
  predicate Placed(e: Event, projects: Projects, at: Time) {
    && e.at == at && !e.kind.ProjectDetected? && !e.kind.FileChanged?
    && (if e.kind.ConnectionStarted? || e.kind.ConnectionEnded? then e.projectId == None
        else e.projectId == if e.kind.service in projects then projects[e.kind.service] else None)
  }

  /** The events tell every port, health and connection of the deltas, once and
      in order, and none besides. */
  ghost predicate TellsDeltas(events: seq<Event>, delta: RegistryDelta, topology: TopologyDelta, at: Time) {
    && Pick(Kinds(events), AsOpened) == delta.portsOpened
    && Pick(Kinds(events), AsClosed) == delta.portsClosed
    && Pick(Kinds(events), AsHealth) == delta.healthChanged
    && Pick(Kinds(events), AsConnected) == IdsOf(topology.added)
    && Pick(Kinds(events), AsDisconnected) == topology.removed
    && forall e :: e in events ==> Placed(e, delta.projects, at)
  }

  lemma {:induction false} PickConcat<T>(a: seq<EventKind>, b: seq<EventKind>, sort: EventKind -> Option<T>)
    ensures Pick(a + b, sort) == Pick(a, sort) + Pick(b, sort)
  {
    if b == [] {
      assert a + b == a;
    } else {
      var n := |b| - 1;
      assert (a + b)[..|a + b| - 1] == a + b[..n];
      PickConcat(a, b[..n], sort);
    }
  }

  lemma {:induction false} PickNone<T>(kinds: seq<EventKind>, sort: EventKind -> Option<T>)
    requires forall i :: 0 <= i < |kinds| ==> sort(kinds[i]) == None
    ensures Pick(kinds, sort) == []
  {
    if kinds != [] {
      PickNone(kinds[..|kinds| - 1], sort);
    }
  }

  lemma {:induction false} PickAll<T>(kinds: seq<EventKind>, sort: EventKind -> Option<T>, q: seq<T>)
    requires |kinds| == |q| && forall i :: 0 <= i < |q| ==> sort(kinds[i]) == Some(q[i])
    ensures Pick(kinds, sort) == q
  {
    if kinds != [] {
      var n := |kinds| - 1;
      PickAll(kinds[..n], sort, q[..n]);
      assert q == q[..n] + [q[n]];
    }
  }

  function KindsOf(items: seq<Item>): seq<EventKind> {
    seq(|items|, i requires 0 <= i < |items| => items[i].kind)
  }

  /** The parts of a derivation, one after the other. */
  function Parts(life: seq<Item>, o: seq<Item>, c: seq<Item>, h: seq<Item>, a: seq<Item>, r: seq<Item>): seq<EventKind>
  {
    KindsOf(life) + KindsOf(o) + KindsOf(c) + KindsOf(h) + KindsOf(a) + KindsOf(r)
  }

  lemma PickParts<T>(life: seq<Item>, o: seq<Item>, c: seq<Item>, h: seq<Item>, a: seq<Item>, r: seq<Item>,
          sort: EventKind -> Option<T>)
    ensures Pick(Parts(life, o, c, h, a, r), sort)
         == Pick(KindsOf(life), sort) + Pick(KindsOf(o), sort) + Pick(KindsOf(c), sort) + Pick(KindsOf(h), sort)
            + Pick(KindsOf(a), sort) + Pick(KindsOf(r), sort)
  {
    hide KindsOf, Pick;
    var (l, o, c, h, a, r) := (KindsOf(life), KindsOf(o), KindsOf(c), KindsOf(h), KindsOf(a), KindsOf(r));
    PickConcat(l, o, sort);
    PickConcat(l + o, c, sort);
    PickConcat(l + o + c, h, sort);
    PickConcat(l + o + c + h, a, sort);
    PickConcat(l + o + c + h + a, r, sort);
  }

  predicate IsLife(kind: EventKind) {
    kind.ServiceStarted? || kind.ServiceStopped? || kind.ServiceRestarted?
  }

  /** An item says where it belongs. */
  predicate InPlace(item: Item, projects: Projects) {
    Placed(Event("", 0, item.projectId, item.kind), projects, 0)
  }

  lemma {:induction false} StartsAreLife(pending: Pending, started: seq<(ServiceId, Option<Pid>)>, projects: Projects,
          at: Time)
    ensures forall item :: item in AllStartItems(pending, started, projects, at) ==>
      IsLife(item.kind) && InPlace(item, projects)
  {
    if started != [] {
      hide Settled;
      StartsAreLife(pending, started[..|started| - 1], projects, at);
    }
  }

  lemma {:induction false} FlushesAreLife(pending: Pending, keys: seq<ServiceId>, projects: Projects, at: Time)
    requires forall id :: id in keys ==> id in pending
    ensures forall item :: item in FlushItems(pending, keys, projects, at) ==>
      IsLife(item.kind) && InPlace(item, projects)
  {
    if keys != [] {
      hide Settled;
      FlushesAreLife(pending, keys[..|keys| - 1], projects, at);
    }
  }

  lemma LifeIsLife(pending: Pending, delta: RegistryDelta, at: Time)
    ensures forall item :: item in LifeItems(pending, delta, at) ==>
      IsLife(item.kind) && InPlace(item, delta.projects)
  {
    hide AllStartItems, FlushItems, AddStops, WithoutStarted;
    var waiting := AddStops(pending, delta.stopped, at);
    var left := WithoutStarted(waiting, delta.started);
    PartialEnds(left, at);
    StartsAreLife(waiting, delta.started, delta.projects, at);
    FlushesAreLife(left, Keys(left.Keys), delta.projects, at);
  }

  lemma StampKinds(items: seq<Item>, first: nat, at: Time)
    ensures Kinds(Stamp(items, first, at)) == KindsOf(items)
  {
    hide NthId;
  }

  lemma KindsInParts(life: seq<Item>, o: seq<Item>, c: seq<Item>, h: seq<Item>, a: seq<Item>, r: seq<Item>)
    ensures KindsOf(life + o + c + h + (a + r)) == Parts(life, o, c, h, a, r)
  {
  }

  lemma PartsTell(life: seq<Item>, delta: RegistryDelta, topology: TopologyDelta)
    requires forall item :: item in life ==> IsLife(item.kind)
    ensures var kinds := Parts(life, OpenedItems(delta.portsOpened, delta.projects),
                               ClosedItems(delta.portsClosed, delta.projects),
                               HealthItems(delta.healthChanged, delta.projects),
                               AddedItems(topology.added), RemovedItems(topology.removed));
      && Pick(kinds, AsOpened) == delta.portsOpened
      && Pick(kinds, AsClosed) == delta.portsClosed
      && Pick(kinds, AsHealth) == delta.healthChanged
      && Pick(kinds, AsConnected) == IdsOf(topology.added)
      && Pick(kinds, AsDisconnected) == topology.removed
  {
    hide Pick, Parts;
    var o, c := OpenedItems(delta.portsOpened, delta.projects), ClosedItems(delta.portsClosed, delta.projects);
    var h := HealthItems(delta.healthChanged, delta.projects);
    var a, r := AddedItems(topology.added), RemovedItems(topology.removed);
    assert forall i :: 0 <= i < |life| ==> life[i] in life;
    PickParts(life, o, c, h, a, r, AsOpened);
    PickNone(KindsOf(life), AsOpened);
    PickAll(KindsOf(o), AsOpened, delta.portsOpened);
    PickNone(KindsOf(c), AsOpened);
    PickNone(KindsOf(h), AsOpened);
    PickNone(KindsOf(a), AsOpened);
    PickNone(KindsOf(r), AsOpened);
    PickParts(life, o, c, h, a, r, AsClosed);
    PickNone(KindsOf(life), AsClosed);
    PickNone(KindsOf(o), AsClosed);
    PickAll(KindsOf(c), AsClosed, delta.portsClosed);
    PickNone(KindsOf(h), AsClosed);
    PickNone(KindsOf(a), AsClosed);
    PickNone(KindsOf(r), AsClosed);
    PickParts(life, o, c, h, a, r, AsHealth);
    PickNone(KindsOf(life), AsHealth);
    PickNone(KindsOf(o), AsHealth);
    PickNone(KindsOf(c), AsHealth);
    PickAll(KindsOf(h), AsHealth, delta.healthChanged);
    PickNone(KindsOf(a), AsHealth);
    PickNone(KindsOf(r), AsHealth);
    PickParts(life, o, c, h, a, r, AsConnected);
    PickNone(KindsOf(life), AsConnected);
    PickNone(KindsOf(o), AsConnected);
    PickNone(KindsOf(c), AsConnected);
    PickNone(KindsOf(h), AsConnected);
    PickAll(KindsOf(a), AsConnected, IdsOf(topology.added));
    PickNone(KindsOf(r), AsConnected);
    PickParts(life, o, c, h, a, r, AsDisconnected);
    PickNone(KindsOf(life), AsDisconnected);
    PickNone(KindsOf(o), AsDisconnected);
    PickNone(KindsOf(c), AsDisconnected);
    PickNone(KindsOf(h), AsDisconnected);
    PickNone(KindsOf(a), AsDisconnected);
    PickAll(KindsOf(r), AsDisconnected, topology.removed);
  }

  /** The items of a derivation tell the deltas, however they are numbered. */
  lemma ItemsTell(pending: Pending, delta: RegistryDelta, topology: TopologyDelta, at: Time, first: nat)
    ensures TellsDeltas(Stamp(Items(pending, delta, topology, at), first, at), delta, topology, at)
  {
    var items := Items(pending, delta, topology, at);
    LifeIsLife(pending, delta, at);
    ItemsInPlace(pending, delta, topology, at);
    StampPlaced(items, delta.projects, first, at);
    hide LifeItems, Pick, NthId, Stamp, KindsOf, Kinds, InPlace, Placed;
    StampKinds(items, first, at);
    KindsInParts(LifeItems(pending, delta, at), OpenedItems(delta.portsOpened, delta.projects),
      ClosedItems(delta.portsClosed, delta.projects), HealthItems(delta.healthChanged, delta.projects),
      AddedItems(topology.added), RemovedItems(topology.removed));
    PartsTell(LifeItems(pending, delta, at), delta, topology);
  }

  lemma ItemsInPlace(pending: Pending, delta: RegistryDelta, topology: TopologyDelta, at: Time)
    ensures forall item :: item in Items(pending, delta, topology, at) ==> InPlace(item, delta.projects)
  {
    LifeIsLife(pending, delta, at);
    hide LifeItems;
  }

  lemma StampPlaced(items: seq<Item>, projects: Projects, first: nat, at: Time)
    requires forall item :: item in items ==> InPlace(item, projects)
    ensures forall e :: e in Stamp(items, first, at) ==> Placed(e, projects, at)
  {
    hide NthId;
    forall i | 0 <= i < |items| ensures Placed(Stamp(items, first, at)[i], projects, at) {
      assert items[i] in items;
    }
  }

  // ----------------------------------------------------------------- object

  lemma NextRemainder(n: nat)
    ensures (n % U32_LIMIT + 1) % U32_LIMIT == (n + 1) % U32_LIMIT
  {
  }

  class EventDeriver {
    var sequence: nat
    var pendingStop: Pending
    var announcedProjects: set<ProjectId>

    /** Times at which identifiers were minted, in order. */
    ghost var minted: seq<Time>

    ghost predicate Valid()
      reads this`sequence, this`minted
    {
      sequence == |minted| % U32_LIMIT
    }

    constructor ()
      ensures Valid() && pendingStop == map[] && announcedProjects == {} && minted == []
    {
      sequence, pendingStop, announcedProjects, minted := 0, map[], {}, [];
    }

    method NextId(at: Time) returns (id: string)
      requires Valid()
      modifies this`sequence, this`minted
      ensures Valid() && id == NthId(|old(minted)|, at) && minted == old(minted) + [at]
    {
      NextRemainder(|minted|);
      hide EventId, Millis;
      sequence := (sequence + 1) % U32_LIMIT;
      minted := minted + [at];
      id := EventId(Millis(at), sequence);
    }

    /** What every loop of `Derive` keeps: the events so far are the items so
        far, stamped in order. */
    ghost predicate Emitted(events: seq<Event>, items: seq<Item>, before: seq<Time>, at: Time)
      reads this`sequence, this`minted
    {
      && Valid()
      && events == Stamp(items, |before|, at)
      && minted == before + seq(|items|, _ => at)
    }

    method Push(events: seq<Event>, projectId: Option<ProjectId>, kind: EventKind, at: Time, ghost items: seq<Item>,
            ghost before: seq<Time>)
      returns (out: seq<Event>)
      requires Emitted(events, items, before, at)
      modifies this`sequence, this`minted
      ensures Emitted(out, items + [Item(projectId, kind)], before, at)
    {
      var id := NextId(at);
      out := events + [Event(id, at, projectId, kind)];
    }

    method RecordStops(stopped: seq<(ServiceId, Option<Pid>)>, at: Time)
      modifies this`pendingStop
      ensures pendingStop == AddStops(old(pendingStop), stopped, at)
    {
      for i := 0 to |stopped|
        invariant pendingStop == AddStops(old(pendingStop), stopped[..i], at)
      {
        assert stopped[..i + 1][..i] == stopped[..i];
        pendingStop := pendingStop[stopped[i].0 := StopInfo(at, stopped[i].1)];
      }
      assert stopped[..|stopped|] == stopped;
    }

    method ResolveStart(events: seq<Event>, id: ServiceId, pid: Option<Pid>, projects: Projects, at: Time,
            ghost items: seq<Item>, ghost before: seq<Time>)
      returns (out: seq<Event>, debounced: bool)
      requires Emitted(events, items, before, at)
      modifies this`sequence, this`minted, this`pendingStop
      ensures pendingStop == old(pendingStop) - {id}
      ensures Emitted(out,
          items + StartItems(id, pid, Lookup(old(pendingStop), id), ProjectFor(projects, id), at), before, at)
    {
      var project := ProjectFor(projects, id);
      var wasPending := Lookup(pendingStop, id);
      pendingStop := pendingStop - {id};
      debounced := false;
      if wasPending.Some? && Age(at, wasPending.value.at) <= RESTART_DEBOUNCE_WINDOW {
        out := Push(events, project, ServiceRestarted(id, wasPending.value.pid, pid), at, items, before);
        debounced := true;
      } else if wasPending.Some? {
        var stopped := Item(project, ServiceStopped(id, wasPending.value.pid));
        out := Push(events, project, ServiceStopped(id, wasPending.value.pid), at, items, before);
        out := Push(out, project, ServiceStarted(id, pid), at, items + [stopped], before);
        assert items + [stopped] + [Item(project, ServiceStarted(id, pid))]
          == items + [stopped, Item(project, ServiceStarted(id, pid))];
      } else {
        out := Push(events, project, ServiceStarted(id, pid), at, items, before);
      }
    }

    method ResolveStarts(events: seq<Event>, started: seq<(ServiceId, Option<Pid>)>, projects: Projects, at: Time,
            ghost items: seq<Item>, ghost before: seq<Time>)
      returns (out: seq<Event>, resolved: seq<ServiceId>)
      requires Emitted(events, items, before, at)
      modifies this`sequence, this`minted, this`pendingStop
      ensures pendingStop == WithoutStarted(old(pendingStop), started)
      ensures Emitted(out, items + AllStartItems(old(pendingStop), started, projects, at), before, at)
      ensures forall id :: id in resolved ==> id !in pendingStop
    {
      hide StartItems, Emitted;
      out, resolved := events, [];
      assert items + [] == items;
      for i := 0 to |started|
        invariant pendingStop == WithoutStarted(old(pendingStop), started[..i])
        invariant Emitted(out, items + AllStartItems(old(pendingStop), started[..i], projects, at), before, at)
        invariant forall id :: id in resolved ==> id !in pendingStop
      {
        var (id, pid) := started[i];
        ghost var done := AllStartItems(old(pendingStop), started[..i], projects, at);
        ghost var next := StartItems(id, pid, Lookup(pendingStop, id), ProjectFor(projects, id), at);
        assert started[..i + 1][..i] == started[..i];
        assert items + done + next == items + (done + next);
        var debounced;
        out, debounced := ResolveStart(out, id, pid, projects, at, items + done, before);
        if debounced {
          resolved := resolved + [id];
        }
      }
      assert started[..|started|] == started;
    }

    method EmitRestarts(events: seq<Event>, restarted: seq<(ServiceId, Option<Pid>, Option<Pid>)>, projects: Projects,
            at: Time, ghost items: seq<Item>, ghost before: seq<Time>)
      returns (out: seq<Event>)
      requires Emitted(events, items, before, at)
      modifies this`sequence, this`minted
      ensures Emitted(out, items + RestartItems(restarted, projects), before, at)
    {
      hide Emitted;
      out := events;
      assert items + RestartItems(restarted[..0], projects) == items;
      for i := 0 to |restarted|
        invariant Emitted(out, items + RestartItems(restarted[..i], projects), before, at)
      {
        var (id, oldPid, newPid) := restarted[i];
        ghost var done := RestartItems(restarted[..i], projects);
        ghost var next := Item(ProjectFor(projects, id), ServiceRestarted(id, oldPid, newPid));
        assert items + done + [next] == items + RestartItems(restarted[..i + 1], projects);
        out := Push(out, ProjectFor(projects, id), ServiceRestarted(id, oldPid, newPid), at, items + done, before);
      }
      assert restarted[..|restarted|] == restarted;
    }

    method FlushStop(events: seq<Event>, id: ServiceId, stopped: StopInfo, projects: Projects, at: Time,
            ghost items: seq<Item>, ghost before: seq<Time>)
      returns (out: seq<Event>)
      requires Emitted(events, items, before, at)
      modifies this`sequence, this`minted, this`pendingStop
      ensures pendingStop == if Settled(stopped, at) then old(pendingStop) else old(pendingStop)[id := stopped]
      ensures Emitted(out, items + FlushItem(id, stopped, projects, at), before, at)
    {
      assert items + [] == items;
      out := events;
      if Age(at, stopped.at) > RESTART_DEBOUNCE_WINDOW {
        out := Push(events, ProjectFor(projects, id), ServiceStopped(id, stopped.pid), at, items, before);
      } else {
        pendingStop := pendingStop[id := stopped];
      }
    }

    method FlushStops(events: seq<Event>, resolved: seq<ServiceId>, projects: Projects, at: Time,
            ghost items: seq<Item>, ghost before: seq<Time>)
      returns (out: seq<Event>)
      requires Emitted(events, items, before, at)
      requires forall id :: id in resolved ==> id !in pendingStop
      modifies this`sequence, this`minted, this`pendingStop
      ensures pendingStop == StillPending(old(pendingStop), at)
      ensures Emitted(out, items + FlushItems(old(pendingStop), Keys(old(pendingStop).Keys), projects, at), before, at)
    {
      hide Emitted, FlushItem, Settled, Partial, StillPending, Keys, StrictlyAscending;
      out := events;
      var taken := pendingStop;
      pendingStop := map[];
      var keys := Keys(taken.Keys);
      PartialEnds(taken, at);
      assert items + [] == items && keys[..0] == [];
      for i := 0 to |keys|
        invariant pendingStop == Partial(taken, keys[..i], at)
        invariant forall id :: id in resolved ==> id !in taken
        invariant Emitted(out, items + FlushItems(taken, keys[..i], projects, at), before, at)
      {
        var id := keys[i];
        PartialStep(taken, keys, i, at);
        assert keys[..i + 1][..i] == keys[..i];
        ghost var done := FlushItems(taken, keys[..i], projects, at);
        assert items + done + FlushItem(id, taken[id], projects, at)
          == items + (done + FlushItem(id, taken[id], projects, at));
        if id in resolved {
          continue;
        }
        out := FlushStop(out, id, taken[id], projects, at, items + done, before);
      }
      assert keys[..|keys|] == keys;
    }

    method EmitOpened(events: seq<Event>, ports: seq<(ServiceId, Port)>, projects: Projects, at: Time,
            ghost items: seq<Item>, ghost before: seq<Time>)
      returns (out: seq<Event>)
      requires Emitted(events, items, before, at)
      modifies this`sequence, this`minted
      ensures Emitted(out, items + OpenedItems(ports, projects), before, at)
    {
      hide Emitted;
      out := events;
      assert items + OpenedItems(ports[..0], projects) == items;
      for i := 0 to |ports|
        invariant Emitted(out, items + OpenedItems(ports[..i], projects), before, at)
      {
        var (id, port) := ports[i];
        ghost var done := OpenedItems(ports[..i], projects);
        assert items + done + [Item(ProjectFor(projects, id), PortOpened(id, port))]
          == items + OpenedItems(ports[..i + 1], projects);
        out := Push(out, ProjectFor(projects, id), PortOpened(id, port), at, items + done, before);
      }
      assert ports[..|ports|] == ports;
    }

    method EmitClosed(events: seq<Event>, closed: seq<(ServiceId, Port)>, projects: Projects, at: Time,
            ghost items: seq<Item>, ghost before: seq<Time>)
      returns (out: seq<Event>)
      requires Emitted(events, items, before, at)
      modifies this`sequence, this`minted
      ensures Emitted(out, items + ClosedItems(closed, projects), before, at)
    {
      hide Emitted;
      out := events;
      assert items + ClosedItems(closed[..0], projects) == items;
      for i := 0 to |closed|
        invariant Emitted(out, items + ClosedItems(closed[..i], projects), before, at)
      {
        var (id, port) := closed[i];
        ghost var done := ClosedItems(closed[..i], projects);
        assert items + done + [Item(ProjectFor(projects, id), PortClosed(id, port))]
          == items + ClosedItems(closed[..i + 1], projects);
        out := Push(out, ProjectFor(projects, id), PortClosed(id, port), at, items + done, before);
      }
      assert closed[..|closed|] == closed;
    }

    method EmitHealth(events: seq<Event>, changed: seq<(ServiceId, Health, Health)>, projects: Projects, at: Time,
            ghost items: seq<Item>, ghost before: seq<Time>)
      returns (out: seq<Event>)
      requires Emitted(events, items, before, at)
      modifies this`sequence, this`minted
      ensures Emitted(out, items + HealthItems(changed, projects), before, at)
    {
      hide Emitted;
      out := events;
      assert items + HealthItems(changed[..0], projects) == items;
      for i := 0 to |changed|
        invariant Emitted(out, items + HealthItems(changed[..i], projects), before, at)
      {
        var (id, from, to) := changed[i];
        ghost var done := HealthItems(changed[..i], projects);
        assert items + done + [Item(ProjectFor(projects, id), HealthChanged(id, from, to))]
          == items + HealthItems(changed[..i + 1], projects);
        out := Push(out, ProjectFor(projects, id), HealthChanged(id, from, to), at, items + done, before);
      }
      assert changed[..|changed|] == changed;
    }

    method EmitTopology(events: seq<Event>, topology: TopologyDelta, at: Time, ghost items: seq<Item>,
            ghost before: seq<Time>)
      returns (out: seq<Event>)
      requires Emitted(events, items, before, at)
      modifies this`sequence, this`minted
      ensures Emitted(out, items + TopologyItems(topology), before, at)
    {
      hide Emitted;
      out := events;
      var (added, removed) := (topology.added, topology.removed);
      assert items + AddedItems(added[..0]) == items;
      for i := 0 to |added|
        invariant Emitted(out, items + AddedItems(added[..i]), before, at)
      {
        ghost var done := AddedItems(added[..i]);
        assert items + done + [Item(None, ConnectionStarted(added[i].id))] == items + AddedItems(added[..i + 1]);
        out := Push(out, None, ConnectionStarted(added[i].id), at, items + done, before);
      }
      assert added[..|added|] == added;
      ghost var first := items + AddedItems(added);
      assert first + RemovedItems(removed[..0]) == first;
      for i := 0 to |removed|
        invariant Emitted(out, first + RemovedItems(removed[..i]), before, at)
      {
        ghost var done := RemovedItems(removed[..i]);
        assert first + done + [Item(None, ConnectionEnded(removed[i]))] == first + RemovedItems(removed[..i + 1]);
        out := Push(out, None, ConnectionEnded(removed[i]), at, first + done, before);
      }
      assert removed[..|removed|] == removed;
      assert first + RemovedItems(removed) == items + TopologyItems(topology);
    }

    method EmitLifecycle(delta: RegistryDelta, at: Time) returns (events: seq<Event>)
      requires Valid()
      modifies this`sequence, this`minted, this`pendingStop
      ensures pendingStop == PendingAfter(old(pendingStop), delta, at)
      ensures Emitted(events, LifeItems(old(pendingStop), delta, at), old(minted), at)
    {
      assert Emitted([], [], minted, at);
      hide Emitted, AllStartItems, RestartItems, FlushItems, StillPending, AddStops, WithoutStarted;
      ghost var before := minted;
      var projects := delta.projects;
      RecordStops(delta.stopped, at);
      ghost var waiting := pendingStop;
      var resolved;
      ghost var starts := AllStartItems(waiting, delta.started, projects, at);
      ghost var restarts := RestartItems(delta.restarted, projects);
      assert [] + starts == starts;
      events, resolved := ResolveStarts([], delta.started, projects, at, [], before);
      events := EmitRestarts(events, delta.restarted, projects, at, starts, before);
      events := FlushStops(events, resolved, projects, at, starts + restarts, before);
    }

    /** Events for one tick, and the stops still waiting after it. */
    method Derive(delta: RegistryDelta, topology: TopologyDelta, at: Time) returns (events: seq<Event>)
      requires Valid()
      modifies this
      ensures Valid() && announcedProjects == old(announcedProjects)
      ensures events == Stamp(Items(old(pendingStop), delta, topology, at), |old(minted)|, at)
      ensures TellsDeltas(events, delta, topology, at)
      ensures pendingStop == PendingAfter(old(pendingStop), delta, at)
      ensures minted == old(minted) + seq(|events|, _ => at)
    {
      ghost var before := minted;
      ghost var life := LifeItems(pendingStop, delta, at);
      var projects := delta.projects;
      events := EmitLifecycle(delta, at);
      ghost var o, c := OpenedItems(delta.portsOpened, projects), ClosedItems(delta.portsClosed, projects);
      ghost var h, t := HealthItems(delta.healthChanged, projects), TopologyItems(topology);
      events := EmitOpened(events, delta.portsOpened, projects, at, life, before);
      events := EmitClosed(events, delta.portsClosed, projects, at, life + o, before);
      events := EmitHealth(events, delta.healthChanged, projects, at, life + o + c, before);
      events := EmitTopology(events, topology, at, life + o + c + h, before);
      assert life + o + c + h + t == Items(old(pendingStop), delta, topology, at);
      ItemsTell(old(pendingStop), delta, topology, at, |before|);
    }

    /** Each project is announced once in the life of a deriver. */
    method AnnounceProject(project: ProjectId, at: Time) returns (event: Option<Event>)
      requires Valid()
      modifies this`sequence, this`minted, this`announcedProjects
      ensures Valid() && announcedProjects == old(announcedProjects) + {project}
      ensures event == if project in old(announcedProjects) then None
                       else Some(Event(NthId(|old(minted)|, at), at, Some(project), ProjectDetected(project)))
      ensures minted == old(minted) + (if event.Some? then [at] else [])
    {
      if project in announcedProjects {
        return None;
      }
      announcedProjects := announcedProjects + {project};
      var id := NextId(at);
      return Some(Event(id, at, Some(project), ProjectDetected(project)));
    }

    /** A file event takes its identifier from the same sequence. */
    method FileTouched(project: ProjectId, path: string, at: Time) returns (event: Event)
      requires Valid()
      modifies this`sequence, this`minted
      ensures Valid() && minted == old(minted) + [at]
      ensures event == Event(NthId(|old(minted)|, at), at, Some(project), FileChanged(project, path))
    {
      var id := NextId(at);
      event := Event(id, at, Some(project), FileChanged(project, path));
    }
  }

  // -------------------------------------------------------------- identifiers

  /** Identifiers a deriver mints differ until its counter has gone all the way
      round, whatever the clock did in between. */
  lemma MintedIdsDiffer(minted: seq<Time>, i: nat, j: nat)
    requires i < j < |minted| && j - i < U32_LIMIT
    requires Millis(minted[i]) < MILLIS_FIT && Millis(minted[j]) < MILLIS_FIT
    ensures NthId(i, minted[i]) != NthId(j, minted[j])
  {
    hide EventId;
    if (i + 1) % U32_LIMIT == (j + 1) % U32_LIMIT {
      RemaindersDiffer(i + 1, j - i);
    }
    IdsTellEventsApart(Millis(minted[i]), (i + 1) % U32_LIMIT, Millis(minted[j]), (j + 1) % U32_LIMIT);
  }

  lemma RemaindersDiffer(a: nat, d: nat)
    requires 0 < d < U32_LIMIT
    ensures a % U32_LIMIT != (a + d) % U32_LIMIT
  {
  }

  /** Of two identifiers the one with the earlier millisecond sorts first,
      whenever it was minted; within one millisecond the one minted first does,
      exactly when the sequence numbers still sort as strings. */
  lemma NthIdsSort(i: nat, a: Time, j: nat, b: Time)
    requires i < j && j + 1 < U32_LIMIT && Millis(a) < MILLIS_FIT && Millis(b) < MILLIS_FIT
    ensures StringLess(NthId(i, a), NthId(j, b)) <==>
      Millis(a) < Millis(b) || (Millis(a) == Millis(b) && SequencesKeepOrder(i + 1, j + 1))
    ensures StringLess(NthId(j, b), NthId(i, a)) <==> !StringLess(NthId(i, a), NthId(j, b))
  {
    hide EventId, StringLess, SequencesKeepOrder;
    EventIdOrder(Millis(a), i + 1, Millis(b), j + 1);
    IdsTellEventsApart(Millis(a), i + 1, Millis(b), j + 1);
    Trichotomy(NthId(i, a), NthId(j, b));
  }

  /** So it is for all identifiers a deriver mints, whatever the clock does. */
  lemma MintedIdsSort(minted: seq<Time>, i: nat, j: nat)
    requires i < j < |minted| < U32_LIMIT
    requires Millis(minted[i]) < MILLIS_FIT && Millis(minted[j]) < MILLIS_FIT
    ensures var (a, b) := (NthId(i, minted[i]), NthId(j, minted[j]));
      && (StringLess(a, b) <==>
          || Millis(minted[i]) < Millis(minted[j])
          || (Millis(minted[i]) == Millis(minted[j]) && SequencesKeepOrder(i + 1, j + 1)))
      && (StringLess(b, a) <==> !StringLess(a, b))
  {
    NthIdsSort(i, minted[i], j, minted[j]);
  }

  /** Below 2^24 events sequence numbers sort as strings. */
  lemma EarlySequencesKeepOrder(a: nat, b: nat)
    requires a < b < SEQUENCE_FITS
    ensures SequencesKeepOrder(a, b)
  {
  }
}
