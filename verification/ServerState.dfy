/** What one tick does to the served view, and the frames it produces. */
module ServerState {
  import opened Basics
  import opened Model
  import opened Sorting
  import opened Registry
  import Deriver
  import Warnings
  import opened Frames

  /** Events the view keeps. */
  const EVENT_RING_CAPACITY := 2_000

  type Services = map<ServiceId, Service>

  // ------------------------------------------------------------ specification

  function ProjectOfService(services: Services, id: ServiceId): Option<ProjectId> {
    if id in services then services[id].projectId else None
  }

  /** An edge counts to the project of its source. */
  function ConnectionProject(services: Services, connections: seq<Connection>, id: ConnectionId): Option<ProjectId> {
    var c := Find(connections, ConnectionKey, id);
    if c.Some? then ProjectOfService(services, c.value.id.source) else None
  }

  /** Projects in the order of the frames: the unattributed edges come first. */
  function Rank(project: Option<ProjectId>): nat {
    match project case None => 0 case Some(p) => p + 1
  }

  function ProjectOfRank(rank: nat): Option<ProjectId> {
    if rank == 0 then None else Some(rank - 1)
  }

  /** Services whose observable state changed, sorted and without repetition. */
  function ChangedServices(delta: RegistryDelta): seq<ServiceId> {
    Keys(ChangedIds(delta))
  }

  function ChangedIds(delta: RegistryDelta): set<ServiceId> {
    (set x | x in delta.started :: x.0) + (set x | x in delta.stopped :: x.0) + (set x | x in delta.restarted :: x.0)
    + (set x | x in delta.portsOpened :: x.0) + (set x | x in delta.portsClosed :: x.0)
    + (set x | x in delta.healthChanged :: x.0)
  }

  /** The services still there under `ids`. */
  function Present(services: Services, ids: seq<ServiceId>): seq<Service> {
    if ids == [] then []
    else
      var n := |ids| - 1;
      Present(services, ids[..n]) + (if ids[n] in services then [services[ids[n]]] else [])
  }

  function ServiceFrames(services: Services, delta: RegistryDelta): seq<Frame> {
    var ids := ChangedServices(delta);
    if ids == [] && delta.evicted == [] then [] else [ServicesChanged(Present(services, ids), delta.evicted)]
  }

  function AddedTo(services: Services, added: seq<Connection>, rank: nat): seq<Connection> {
    if added == [] then []
    else
      var n := |added| - 1;
      AddedTo(services, added[..n], rank)
        + (if Rank(ProjectOfService(services, added[n].id.source)) == rank then [added[n]] else [])
  }

  function RemovedFrom(services: Services, connections: seq<Connection>, removed: seq<ConnectionId>,
          rank: nat): seq<ConnectionId>
  {
    if removed == [] then []
    else
      var n := |removed| - 1;
      RemovedFrom(services, connections, removed[..n], rank)
      + (if Rank(ConnectionProject(services, connections, removed[n])) == rank then [removed[n]] else [])
  }

  function AddedRanks(services: Services, added: seq<Connection>): set<nat> {
    set c | c in added :: Rank(ProjectOfService(services, c.id.source))
  }

  function RemovedRanks(services: Services, connections: seq<Connection>, removed: seq<ConnectionId>): set<nat> {
    set id | id in removed :: Rank(ConnectionProject(services, connections, id))
  }

  /** A view as far as topology frames depend on it. */
  datatype Sides = Sides(oldServices: Services, oldConnections: seq<Connection>, services: Services)

  function TopologyFrame(sides: Sides, delta: TopologyDelta, rank: nat): Frame {
    TopologyChanged(ProjectOfRank(rank), AddedTo(sides.services, delta.added, rank),
                    RemovedFrom(sides.oldServices, sides.oldConnections, delta.removed, rank))
  }

  function FramesFor(sides: Sides, delta: TopologyDelta, ranks: seq<nat>): seq<Frame> {
    seq(|ranks|, i requires 0 <= i < |ranks| => TopologyFrame(sides, delta, ranks[i]))
  }

  /** One frame per project whose edges changed. */
  function TopologyFrames(sides: Sides, delta: TopologyDelta): seq<Frame> {
    FramesFor(sides, delta, Keys(AddedRanks(sides.services, delta.added)
                                 + RemovedRanks(sides.oldServices, sides.oldConnections, delta.removed)))
  }

  function EventFrames(events: seq<Deriver.Event>): seq<Frame> {
    if events == [] then [] else [Events(events)]
  }

  function WarningFrames(delta: Warnings.WarningDelta): seq<Frame> {
    if delta.added == [] && delta.removed == [] then [] else [WarningsChanged(delta.added, delta.removed)]
  }

  /** The frames of one tick, in order. */
  function TickFrames(sides: Sides, registry: RegistryDelta, topology: TopologyDelta, events: seq<Deriver.Event>,
          warnings: Warnings.WarningDelta): seq<Frame>
  {
    ServiceFrames(sides.services, registry) + TopologyFrames(sides, topology) + EventFrames(events)
      + WarningFrames(warnings)
  }

  function ById(services: seq<Service>): Services {
    if services == [] then map[] else
      var n := |services| - 1;
      ById(services[..n])[services[n].id := services[n]]
  }

  /** Services in the order a view lists them. */
  function ListOf(services: Services): seq<Service> {
    var keys := Keys(services.Keys);
    seq(|keys|, i requires 0 <= i < |keys| => assert keys[i] in Elements(keys); services[keys[i]])
  }

  function LatestEvents(ring: seq<Deriver.Event>, events: seq<Deriver.Event>): seq<Deriver.Event> {
    var all := ring + events;
    if |all| <= EVENT_RING_CAPACITY then all else all[|all| - EVENT_RING_CAPACITY..]
  }

  /** Of all events exactly the last 2000 are kept. */
  lemma RingKeepsLatest(ring: seq<Deriver.Event>, events: seq<Deriver.Event>, all: seq<Deriver.Event>)
    requires all == ring + events
    ensures |LatestEvents(ring, events)| == if |all| <= 2_000 then |all| else 2_000
    ensures all == all[..|all| - |LatestEvents(ring, events)|] + LatestEvents(ring, events)
  {
    assert all == all[..0] + all;
  }

  // --------------------------------------------------------------- the object

  /** What a tick hands to the view; `fired` stands for what the warning rules
      make of it. */
  datatype TickUpdate = TickUpdate(
    registry: RegistryDelta,
    topology: TopologyDelta,
    services: seq<Service>,
    connections: seq<Connection>,
    events: seq<Deriver.Event>,
    fired: seq<Warning>)

  class RuntimeView {
    var services: Services
    var connections: seq<Connection>
    var warnings: seq<Warning>
    var events: seq<Deriver.Event>

    constructor ()
      ensures services == map[] && connections == [] && warnings == [] && events == []
    {
      services, connections, warnings, events := map[], [], [], [];
    }

    method PushEvents(newEvents: seq<Deriver.Event>)
      requires |events| <= EVENT_RING_CAPACITY
      modifies this`events
      ensures events == LatestEvents(old(events), newEvents) && |events| <= EVENT_RING_CAPACITY
    {
      for i := 0 to |newEvents|
        invariant |events| <= EVENT_RING_CAPACITY
        invariant events == LatestEvents(old(events), newEvents[..i])
      {
        assert newEvents[..i + 1] == newEvents[..i] + [newEvents[i]];
        assert old(events) + newEvents[..i + 1] == old(events) + newEvents[..i] + [newEvents[i]];
        if |events| == EVENT_RING_CAPACITY {
          events := events[1..];
        }
        events := events + [newEvents[i]];
      }
      assert newEvents[..|newEvents|] == newEvents;
    }

    /** Seed the view with history from disk. The warning engine is not told. */
    method Restore(pastEvents: seq<Deriver.Event>, pastWarnings: seq<Warning>)
      requires |events| <= EVENT_RING_CAPACITY
      modifies this`warnings, this`events
      ensures warnings == pastWarnings
      ensures events == LatestEvents(old(events), pastEvents) && |events| <= EVENT_RING_CAPACITY
    {
      warnings := pastWarnings;
      PushEvents(pastEvents);
    }

    method GroupRemoved(removed: seq<ConnectionId>) returns (groups: map<nat, seq<ConnectionId>>)
      ensures groups.Keys == RemovedRanks(services, connections, removed)
      ensures RemovedGrouped(groups, services, connections, removed)
    {
      hide ConnectionProject, Rank;
      groups := map[];
      for i := 0 to |removed|
        invariant groups.Keys == RemovedRanks(services, connections, removed[..i])
        invariant RemovedGrouped(groups, services, connections, removed[..i])
      {
        assert removed[..i + 1] == removed[..i] + [removed[i]];
        var rank := Rank(ConnectionProject(services, connections, removed[i]));
        RemovedStep(groups, services, connections, removed, i);
        groups := groups[rank := Group(groups, rank) + [removed[i]]];
      }
      assert removed[..|removed|] == removed;
    }

    method GroupAdded(added: seq<Connection>) returns (groups: map<nat, seq<Connection>>)
      ensures groups.Keys == AddedRanks(services, added)
      ensures AddedGrouped(groups, services, added)
    {
      hide ProjectOfService, Rank;
      groups := map[];
      for i := 0 to |added|
        invariant groups.Keys == AddedRanks(services, added[..i])
        invariant AddedGrouped(groups, services, added[..i])
      {
        assert added[..i + 1] == added[..i] + [added[i]];
        var rank := Rank(ProjectOfService(services, added[i].id.source));
        AddedStep(groups, services, added, i);
        groups := groups[rank := Group(groups, rank) + [added[i]]];
      }
      assert added[..|added|] == added;
    }

    /** The view takes over what the tick brings, and tells it in frames. An edge
        that is gone belongs to the project it had in the old view. */
    method ApplyTick(update: TickUpdate, engine: Warnings.WarningEngine)
      returns (frames: seq<Frame>, ghost delta: Warnings.WarningDelta)
      requires engine.Valid() && |events| <= EVENT_RING_CAPACITY
      modifies this, engine
      ensures engine.Valid() && Warnings.Evaluated(old(engine.active), engine.active, update.fired, delta)
      ensures services == ById(update.services) && connections == update.connections && warnings == delta.current
      ensures events == LatestEvents(old(events), update.events) && |events| <= EVENT_RING_CAPACITY
      ensures frames == TickFrames(Sides(old(services), old(connections), services), update.registry, update.topology,
          update.events, delta)
    {
      hide RemovedFrom, AddedTo, RemovedRanks, AddedRanks, Keys, Present, ChangedServices, ById, LatestEvents,
           TopologyFrames, RemovedGrouped, AddedGrouped, Warnings.Evaluated;
      var removedBy := GroupRemoved(update.topology.removed);
      ghost var (oldServices, oldConnections) := (services, connections);
      services := Collect(update.services);
      connections := update.connections;
      PushEvents(update.events);
      frames := [];
      var changed := ChangedServices(update.registry);
      if changed != [] || update.registry.evicted != [] {
        frames := [ServicesChanged(Present(services, changed), update.registry.evicted)];
      }
      var addedBy := GroupAdded(update.topology.added);
      var topologyFrames :=
        ByProject(Sides(oldServices, oldConnections, services), update.topology, addedBy, removedBy);
      frames := frames + topologyFrames;
      if update.events != [] {
        frames := frames + [Events(update.events)];
      }
      var evaluated := engine.Evaluate(update.fired);
      if evaluated.added != [] || evaluated.removed != [] {
        frames := frames + [WarningsChanged(evaluated.added, evaluated.removed)];
      }
      warnings := evaluated.current;
      delta := evaluated;
    }
  }

  method Collect(services: seq<Service>) returns (byId: Services)
    ensures byId == ById(services)
  {
    byId := map[];
    for i := 0 to |services|
      invariant byId == ById(services[..i])
    {
      assert services[..i + 1][..i] == services[..i];
      byId := byId[services[i].id := services[i]];
    }
    assert services[..|services|] == services;
  }

  method ByProject(ghost sides: Sides, ghost delta: TopologyDelta, addedBy: map<nat, seq<Connection>>,
          removedBy: map<nat, seq<ConnectionId>>)
    returns (frames: seq<Frame>)
    requires addedBy.Keys == AddedRanks(sides.services, delta.added)
    requires removedBy.Keys == RemovedRanks(sides.oldServices, sides.oldConnections, delta.removed)
    requires AddedGrouped(addedBy, sides.services, delta.added)
    requires RemovedGrouped(removedBy, sides.oldServices, sides.oldConnections, delta.removed)
    ensures frames == TopologyFrames(sides, delta)
  {
    var ranks := Keys(addedBy.Keys + removedBy.Keys);
    hide Keys, AddedTo, RemovedFrom, AddedRanks, RemovedRanks, Group;
    frames := [];
    for i := 0 to |ranks|
      invariant frames == FramesFor(sides, delta, ranks[..i])
    {
      assert ranks[..i + 1] == ranks[..i] + [ranks[i]];
      frames := frames
        + [TopologyChanged(ProjectOfRank(ranks[i]), Group(addedBy, ranks[i]), Group(removedBy, ranks[i]))];
    }
    assert ranks[..|ranks|] == ranks;
  }

  function Group<T>(groups: map<nat, seq<T>>, rank: nat): seq<T> {
    if rank in groups then groups[rank] else []
  }

  ghost predicate RemovedGrouped(groups: map<nat, seq<ConnectionId>>, services: Services, connections: seq<Connection>,
          removed: seq<ConnectionId>)
  {
    forall rank :: Group(groups, rank) == RemovedFrom(services, connections, removed, rank)
  }

  ghost predicate AddedGrouped(groups: map<nat, seq<Connection>>, services: Services, added: seq<Connection>) {
    forall rank :: Group(groups, rank) == AddedTo(services, added, rank)
  }

  lemma RemovedStep(groups: map<nat, seq<ConnectionId>>, services: Services, connections: seq<Connection>,
          removed: seq<ConnectionId>, i: nat)
    requires i < |removed|
    requires RemovedGrouped(groups, services, connections, removed[..i])
    ensures var here := Rank(ConnectionProject(services, connections, removed[i]));
      RemovedGrouped(groups[here := Group(groups, here) + [removed[i]]], services, connections, removed[..i + 1])
  {
    hide ConnectionProject, Rank;
    assert removed[..i + 1][..i] == removed[..i];
    var here := Rank(ConnectionProject(services, connections, removed[i]));
    var next := groups[here := Group(groups, here) + [removed[i]]];
    forall rank ensures Group(next, rank) == RemovedFrom(services, connections, removed[..i + 1], rank) {
      assert Group(groups, rank) == RemovedFrom(services, connections, removed[..i], rank);
    }
  }

  lemma AddedStep(groups: map<nat, seq<Connection>>, services: Services, added: seq<Connection>, i: nat)
    requires i < |added|
    requires AddedGrouped(groups, services, added[..i])
    ensures var here := Rank(ProjectOfService(services, added[i].id.source));
      AddedGrouped(groups[here := Group(groups, here) + [added[i]]], services, added[..i + 1])
  {
    hide ProjectOfService, Rank;
    assert added[..i + 1][..i] == added[..i];
    var here := Rank(ProjectOfService(services, added[i].id.source));
    var next := groups[here := Group(groups, here) + [added[i]]];
    forall rank ensures Group(next, rank) == AddedTo(services, added[..i + 1], rank) {
      assert Group(groups, rank) == AddedTo(services, added[..i], rank);
    }
  }
}
