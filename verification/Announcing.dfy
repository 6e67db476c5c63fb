/** Every observable change of one tick is announced by its frames. */
module Announcing {
  import opened Basics
  import opened Model
  import opened Sorting
  import opened Registry
  import opened Frames
  import opened ServerState
  import Deriver
  import Topology
  import Warnings

  /** What a view is compared on: edges by when they were first seen, services
      by health, restart count and ports, warnings by being there. */
  datatype Look =
    | ServiceLook(health: Health, restartCount: nat, ports: set<Port>)
    | ConnectionLook(firstSeen: Time)
    | WarningLook

  function LookOf(entry: Entry): Look {
    match entry
    case ServiceEntry(s) => ServiceLook(s.health, s.restartCount, PortsOf(s.endpoints))
    case ConnectionEntry(c) => ConnectionLook(c.firstSeen)
    case WarningEntry(_) => WarningLook
  }

  function Appearance(entry: Option<Entry>): Option<Look> {
    if entry.Some? then Some(LookOf(entry.value)) else None
  }

  /** The daemon behind the view: registry, topology, warnings. */
  datatype World = World(
    held: map<ServiceId, Entered>,
    connections: seq<Connection>,
    active: Warnings.Active,
    warnings: seq<Warning>)

  /** What always holds, also right after warnings were restored from disk:
      the engine has not heard of those. */
  ghost predicate WorldSound(w: World) {
    && Wf(w.held)
    && Topology.Keyed(w.connections)
    && Distinct(w.warnings, WarningKey)
    && w.active.Keys <= Warnings.FiredIds(w.warnings)
  }

  ghost predicate WorldOk(w: World) {
    WorldSound(w) && Warnings.FiredIds(w.warnings) <= w.active.Keys
  }

  function ServicesOf(held: map<ServiceId, Entered>): Services {
    map id | id in held :: held[id].service
  }

  /** The view served, as a snapshot lists it. */
  function Served(w: World): ClientView {
    ClientView(ListOf(ServicesOf(w.held)), w.connections, w.warnings, [])
  }

  /** One tick: what was observed, and what each stage reports about it. */
  datatype Tick = Tick(
    seen: map<ServiceId, Finished>, at: Time, registry: RegistryDelta,
    edges: set<ConnectionId>, connections: seq<Connection>, topology: TopologyDelta,
    fired: seq<Warning>, active: Warnings.Active, warnings: Warnings.WarningDelta,
    events: seq<Deriver.Event>)

  ghost predicate TickOk(w: World, t: Tick) {
    && Sound(w.held, t.seen) && Describes(t.registry, w.held, t.seen, t.at)
    && Topology.Continues(w.connections, t.connections, t.edges, t.at)
    && Topology.Reports(t.topology, w.connections, t.connections)
    && Warnings.Evaluated(w.active, t.active, t.fired, t.warnings)
  }

  function Ticked(w: World, t: Tick): World {
    World(After(w.held, t.seen, t.at), t.connections, t.active, t.warnings.current)
  }

  function FramesOf(w: World, t: Tick): seq<Frame> {
    TickFrames(Sides(ServicesOf(w.held), w.connections, ServicesOf(Ticked(w, t).held)), t.registry, t.topology,
      t.events, t.warnings)
  }

  /** The frames carry one view to the other, key by key. */
  ghost predicate Announces(frames: seq<Frame>, before: ClientView, after: ClientView) {
    AllClean(frames) && forall key :: Carries(frames, before, after, key)
  }

  ghost predicate Carries(frames: seq<Frame>, before: ClientView, after: ClientView, key: Key) {
    Appearance(Overlay(At(before, key), LastMention(frames, key))) == Appearance(At(after, key))
  }

  // ----------------------------------------------------------------- services

  lemma {:induction false} FindPresent(services: Services, ids: seq<ServiceId>, id: ServiceId)
    requires forall i :: i in services ==> services[i].id == i
    ensures Find(Present(services, ids), ServiceKey, id)
        == if id in ids && id in services then Some(services[id]) else None
  {
    if ids != [] {
      var n := |ids| - 1;
      assert ids == ids[..n] + [ids[n]];
      FindPresent(services, ids[..n], id);
      FindConcat(Present(services, ids[..n]), if ids[n] in services then [services[ids[n]]] else [], ServiceKey, id);
    }
  }

  lemma {:induction false} PresentDistinct(services: Services, ids: seq<ServiceId>)
    requires forall i :: i in services ==> services[i].id == i
    requires StrictlyAscending(ids)
    ensures Distinct(Present(services, ids), ServiceKey)
    ensures forall s :: s in Present(services, ids) ==> s.id in services && s.id in ids
  {
    if ids != [] {
      var n := |ids| - 1;
      assert ids == ids[..n] + [ids[n]];
      PresentDistinct(services, ids[..n]);
      DistinctConcat(Present(services, ids[..n]), if ids[n] in services then [services[ids[n]]] else [], ServiceKey);
    }
  }

  lemma {:induction false} FindByIndex<T, K>(q: seq<T>, key: T -> K, i: nat)
    requires i < |q| && Distinct(q, key)
    ensures Find(q, key, key(q[i])) == Some(q[i])
  {
    if i > 0 {
      FindByIndex(q[1..], key, i - 1);
    }
  }

  lemma ListedAt(services: Services)
    requires forall i :: i in services ==> services[i].id == i
    ensures var (keys, list) := (Keys(services.Keys), ListOf(services));
      && |list| == |keys|
      && forall i :: 0 <= i < |keys| ==>
        keys[i] in services && list[i] == services[keys[i]] && list[i].id == keys[i]
    ensures Distinct(ListOf(services), ServiceKey)
  {
    var keys := Keys(services.Keys);
    assert forall i :: 0 <= i < |keys| ==> keys[i] in Elements(keys);
  }

  lemma FindListed(services: Services, id: ServiceId)
    requires forall i :: i in services ==> services[i].id == i
    ensures Find(ListOf(services), ServiceKey, id) == Lookup(services, id)
    ensures Distinct(ListOf(services), ServiceKey)
  {
    hide ListOf, Distinct, StrictlyAscending, Find;
    ListedAt(services);
    var keys := Keys(services.Keys);
    var list := ListOf(services);
    if id in services {
      assert id in Elements(keys);
      var i :| 0 <= i < |keys| && keys[i] == id;
      FindByIndex(list, ServiceKey, i);
    } else {
      FindIs(list, ServiceKey, id);
    }
  }

  /** A service the delta does not list looks as it did before. */
  lemma UnchangedLooks(held: map<ServiceId, Entered>, seen: map<ServiceId, Finished>, at: Time, delta: RegistryDelta,
          id: ServiceId)
    requires Wf(held) && Sound(held, seen) && Describes(delta, held, seen, at)
    requires id !in ChangedIds(delta) && id !in delta.evicted
    ensures id in held <==> id in After(held, seen, at)
    ensures id in held ==>
      LookOf(ServiceEntry(held[id].service)) == LookOf(ServiceEntry(After(held, seen, at)[id].service))
  {
    hide Evicted, InOrder, Reconcile, PieceOf, WfEntered, WfFinished, Records;
    var pieces := Pieces(held, seen, at);
    if id in held.Keys + seen.Keys {
      assert pieces[id] == PieceOf(id, Lookup(held, id), Lookup(seen, id), at);
      ListedIfChanged(delta, pieces, id);
      QuietLooks(id, Lookup(held, id), Lookup(seen, id), at);
    }
  }

  lemma ListedIfChanged(delta: RegistryDelta, pieces: map<ServiceId, Piece>, id: ServiceId)
    requires Records(delta, pieces) && id in pieces
    ensures id in ChangedIds(delta) || pieces[id] == Piece(Quiet, {}, {}, None)
  {
    var piece := pieces[id];
    match piece.change {
      case Start(pid) => assert (id, pid) in delta.started;
      case Stop(pid) => assert (id, pid) in delta.stopped;
      case Restart(a, b) => assert (id, a, b) in delta.restarted;
      case Quiet =>
    }
    assert forall port :: port in piece.portsOpened ==> (id, port) in delta.portsOpened;
    assert forall port :: port in piece.portsClosed ==> (id, port) in delta.portsClosed;
    if piece.health.Some? {
      assert (id, piece.health.value.0, piece.health.value.1) in delta.healthChanged;
    }
  }

  lemma QuietLooks(id: ServiceId, held: Option<Entered>, seen: Option<Finished>, at: Time)
    requires held.Some? || seen.Some?
    requires PieceOf(id, held, seen, at) == Piece(Quiet, {}, {}, None)
    ensures held.Some?
    ensures LookOf(ServiceEntry(held.value.service))
        == LookOf(ServiceEntry(Reconcile(id, held, seen, at).value.service))
  {
    var next := Reconcile(id, held, seen, at);
    assert PortSet(next) - PortSet(held) == {} && PortSet(held) - PortSet(next) == {};
    assert PortSet(next) == PortSet(held);
  }

  lemma ServicesKeyed(held: map<ServiceId, Entered>)
    requires Wf(held)
    ensures forall id :: id in ServicesOf(held) ==> ServicesOf(held)[id].id == id
  {
    assert forall id :: id in held ==> WfEntered(id, held[id]);
  }

  lemma ServiceMention(services: Services, delta: RegistryDelta, id: ServiceId)
    requires forall i :: i in services ==> services[i].id == i
    ensures LastMention(ServiceFrames(services, delta), OfService(id))
         == Changed(
           if id in ChangedIds(delta) && id in services then Some(ServiceEntry(services[id])) else None,
           id in delta.evicted)
  {
    var ids := ChangedServices(delta);
    assert id in ids <==> id in Elements(ids);
    hide Keys, ChangedIds, ChangedServices, Present;
    FindPresent(services, ids, id);
    OneFrame(ServicesChanged(Present(services, ids), delta.evicted), OfService(id));
  }

  lemma ServicesAnnounced(held: map<ServiceId, Entered>, seen: map<ServiceId, Finished>, at: Time, delta: RegistryDelta,
          id: ServiceId)
    requires Wf(held) && Sound(held, seen) && Describes(delta, held, seen, at)
    ensures var (before, after) := (ServicesOf(held), ServicesOf(After(held, seen, at)));
      Appearance(Overlay(InServices(ListOf(before), id), LastMention(ServiceFrames(after, delta), OfService(id))))
      == Appearance(InServices(ListOf(after), id))
  {
    hide Records, InOrder, Evicted, Wf, Sound, ListOf, Reconciled, ServiceFrames, ChangedIds;
    var next := After(held, seen, at);
    AfterKeepsWf(held, seen, at);
    ServicesKeyed(held);
    ServicesKeyed(next);
    FindListed(ServicesOf(held), id);
    FindListed(ServicesOf(next), id);
    ServiceMention(ServicesOf(next), delta, id);
    if id !in delta.evicted && id !in ChangedIds(delta) {
      UnchangedLooks(held, seen, at, delta, id);
    }
    if id !in delta.evicted && id in ChangedIds(delta) {
      ChangedAreKept(held, seen, at, delta, id);
    }
  }

  lemma ChangedAreKept(held: map<ServiceId, Entered>, seen: map<ServiceId, Finished>, at: Time, delta: RegistryDelta,
          id: ServiceId)
    requires Describes(delta, held, seen, at) && id in ChangedIds(delta)
    ensures id in After(held, seen, at) || id in delta.evicted
  {
    hide Evicted, InOrder, Reconcile, PieceOf;
    var pieces := Pieces(held, seen, at);
    ListedArePieces(delta, pieces, id);
  }

  lemma ListedArePieces(delta: RegistryDelta, pieces: map<ServiceId, Piece>, id: ServiceId)
    requires Records(delta, pieces) && id in ChangedIds(delta)
    ensures id in pieces
  {
    if x :| x in delta.started && x.0 == id { assert (x.0, x.1) in delta.started; }
    if x :| x in delta.stopped && x.0 == id { assert (x.0, x.1) in delta.stopped; }
    if x :| x in delta.restarted && x.0 == id { assert (x.0, x.1, x.2) in delta.restarted; }
    if x :| x in delta.portsOpened && x.0 == id { assert (x.0, x.1) in delta.portsOpened; }
    if x :| x in delta.portsClosed && x.0 == id { assert (x.0, x.1) in delta.portsClosed; }
    if x :| x in delta.healthChanged && x.0 == id { assert (x.0, x.1, x.2) in delta.healthChanged; }
  }

  // -------------------------------------------------------------- connections

  lemma {:induction false} AddedToFinds(services: Services, added: seq<Connection>, rank: nat, id: ConnectionId)
    ensures Find(AddedTo(services, added, rank), ConnectionKey, id)
         == if Rank(ProjectOfService(services, id.source)) == rank then Find(added, ConnectionKey, id) else None
  {
    if added != [] {
      hide Rank, ProjectOfService;
      var n := |added| - 1;
      var last := if Rank(ProjectOfService(services, added[n].id.source)) == rank then [added[n]] else [];
      AddedToFinds(services, added[..n], rank, id);
      FindConcat(AddedTo(services, added[..n], rank), last, ConnectionKey, id);
      FindConcat(added[..n], [added[n]], ConnectionKey, id);
      assert added == added[..n] + [added[n]];
    }
  }

  lemma {:induction false} AddedToDistinct(services: Services, added: seq<Connection>, rank: nat)
    requires Distinct(added, ConnectionKey)
    ensures Distinct(AddedTo(services, added, rank), ConnectionKey)
    ensures forall c :: c in AddedTo(services, added, rank) ==> c in added
  {
    if added != [] {
      hide Rank, ProjectOfService;
      var n := |added| - 1;
      assert added == added[..n] + [added[n]];
      AddedToDistinct(services, added[..n], rank);
      DistinctConcat(AddedTo(services, added[..n], rank),
                     if Rank(ProjectOfService(services, added[n].id.source)) == rank then [added[n]] else [],
                     ConnectionKey);
    }
  }

  lemma {:induction false} RemovedFromHas(services: Services, connections: seq<Connection>, removed: seq<ConnectionId>,
          rank: nat, id: ConnectionId)
    ensures id in RemovedFrom(services, connections, removed, rank)
       <==> id in removed && Rank(ConnectionProject(services, connections, id)) == rank
  {
    if removed != [] {
      hide Rank, ConnectionProject;
      var n := |removed| - 1;
      assert removed == removed[..n] + [removed[n]];
      RemovedFromHas(services, connections, removed[..n], rank, id);
    }
  }

  /** Frames that say one thing about a key, or nothing. */
  lemma {:induction false} OneVoice(frames: seq<Frame>, key: Key, mention: Mention)
    requires forall f :: f in frames ==> Mentioned(f, key).Silent? || Mentioned(f, key) == mention
    ensures LastMention(frames, key)
        == if exists f :: f in frames && !Mentioned(f, key).Silent? then mention else Silent
  {
    hide Mentioned;
    if frames != [] {
      var n := |frames| - 1;
      assert frames == frames[..n] + [frames[n]];
      OneVoice(frames[..n], key, mention);
    }
  }

  predicate Apart(added: seq<Connection>, removed: seq<ConnectionId>) {
    forall c :: c in added ==> c.id !in removed
  }

  lemma TopologyFrameSays(sides: Sides, delta: TopologyDelta, rank: nat, id: ConnectionId)
    requires Apart(delta.added, delta.removed)
    ensures var f := Mentioned(TopologyFrame(sides, delta, rank), OfConnection(id));
      if id in delta.removed
      then f == (if Rank(ConnectionProject(sides.oldServices, sides.oldConnections, id)) == rank then Gone else Silent)
      else (
        f == if Rank(ProjectOfService(sides.services, id.source)) == rank
             then Changed(InConnections(delta.added, id), false)
             else Silent)
  {
    hide Rank, ConnectionProject, ProjectOfService;
    AddedToFinds(sides.services, delta.added, rank, id);
    RemovedFromHas(sides.oldServices, sides.oldConnections, delta.removed, rank, id);
    FindIs(delta.added, ConnectionKey, id);
  }

  /** Split over however many projects, the topology frames of one tick say
      about each edge what its delta says. */
  lemma TopologyMention(sides: Sides, delta: TopologyDelta, id: ConnectionId)
    requires Apart(delta.added, delta.removed)
    ensures LastMention(TopologyFrames(sides, delta), OfConnection(id))
        == Changed(InConnections(delta.added, id), id in delta.removed)
  {
    hide Mentioned, Rank, ConnectionProject, ProjectOfService, Keys, TopologyFrame;
    var added := AddedRanks(sides.services, delta.added);
    var removed := RemovedRanks(sides.oldServices, sides.oldConnections, delta.removed);
    var ranks := Keys(added + removed);
    var frames := TopologyFrames(sides, delta);
    var mention := Changed(InConnections(delta.added, id), id in delta.removed);
    FindIs(delta.added, ConnectionKey, id);
    forall f | f in frames ensures Mentioned(f, OfConnection(id)).Silent? || Mentioned(f, OfConnection(id)) == mention {
      var i :| 0 <= i < |ranks| && f == TopologyFrame(sides, delta, ranks[i]);
      TopologyFrameSays(sides, delta, ranks[i], id);
    }
    OneVoice(frames, OfConnection(id), mention);
    if !mention.Silent? {
      var rank := if id in delta.removed then Rank(ConnectionProject(sides.oldServices, sides.oldConnections, id))
                  else Rank(ProjectOfService(sides.services, id.source));
      TopologyFrameSays(sides, delta, rank, id);
      SpokenFor(sides, delta, id);
      assert rank in Elements(ranks);
      var i :| 0 <= i < |ranks| && ranks[i] == rank;
      assert frames[i] == TopologyFrame(sides, delta, rank);
    }
  }

  lemma SpokenFor(sides: Sides, delta: TopologyDelta, id: ConnectionId)
    ensures id in delta.removed ==>
      Rank(ConnectionProject(sides.oldServices, sides.oldConnections, id))
        in RemovedRanks(sides.oldServices, sides.oldConnections, delta.removed)
    ensures Find(delta.added, ConnectionKey, id).Some? ==>
      Rank(ProjectOfService(sides.services, id.source)) in AddedRanks(sides.services, delta.added)
  {
    FindIs(delta.added, ConnectionKey, id);
  }

  lemma ConnectionsAnnounced(before: seq<Connection>, next: seq<Connection>, edges: set<ConnectionId>, at: Time,
          delta: TopologyDelta, id: ConnectionId)
    requires Topology.Keyed(before) && Topology.Continues(before, next, edges, at)
        && Topology.Reports(delta, before, next)
    ensures Appearance(Overlay(InConnections(before, id), Changed(InConnections(delta.added, id), id in delta.removed)))
        == Appearance(InConnections(next, id))
  {
    hide Topology.Keyed;
    Topology.FindsEdge(before, id);
    Topology.FindsEdge(next, id);
    Topology.FindsEdge(delta.added, id);
    var now := Find(next, ConnectionKey, id);
    if Find(delta.added, ConnectionKey, id).Some? {
      Topology.FindsHeld(next, Find(delta.added, ConnectionKey, id).value);
    } else if now.Some? {
      assert now.value in next && now.value !in delta.added;
      assert now.value == Topology.Continued(Find(before, ConnectionKey, id), id, at);
    }
  }

  // ----------------------------------------------------------------- warnings

  lemma {:induction false} FindsFired(list: seq<Warning>, id: WarningId)
    ensures InWarnings(list, id).Some? <==> id in Warnings.FiredIds(list)
    ensures InWarnings(list, id).Some? ==> InWarnings(list, id).value.WarningEntry?
  {
    FindIs(list, WarningKey, id);
  }

  lemma WarningsAnnounced(w: World, t: Tick, id: WarningId)
    requires WorldSound(w) && TickOk(w, t)
    ensures Appearance(Overlay(InWarnings(w.warnings, id), LastMention(WarningFrames(t.warnings), OfWarning(id))))
        == Appearance(InWarnings(t.warnings.current, id))
       <==> (id in Warnings.FiredIds(w.warnings) ==> id in w.active || id in Warnings.FiredIds(t.fired))
  {
    hide Wf, Sound, Describes, Topology.Continues, Topology.Reports, Topology.Keyed, Warnings.Evaluated;
    var delta := t.warnings;
    Warnings.ChangeOfIds(w.active, t.active, t.fired, delta);
    CurrentIsActive(w.active, t.active, t.fired, delta, id);
    FindsFired(w.warnings, id);
    FindsFired(delta.added, id);
    FindsFired(delta.current, id);
    var frames := WarningFrames(delta);
    if frames != [] {
      assert frames[..0] == [];
    }
    assert id in Elements(delta.removed) <==> id in delta.removed;
  }

  /** A tick mentions a warning when it begins or ceases to fire. */
  lemma WarningMention(w: World, t: Tick, id: WarningId)
    requires TickOk(w, t)
    ensures LastMention(FramesOf(w, t), OfWarning(id)).Silent? <==>
      (id in w.active <==> id in Warnings.FiredIds(t.fired))
    ensures t.active.Keys == Warnings.FiredIds(t.fired)
  {
    TickMention(w, t, OfWarning(id));
    hide Sound, Describes, Topology.Continues, Topology.Reports, Warnings.Evaluated, FramesOf;
    var delta := t.warnings;
    Warnings.ChangeOfIds(w.active, t.active, t.fired, delta);
    ActiveFires(w, t);
    FindsFired(delta.added, id);
    var frames := WarningFrames(delta);
    if frames != [] {
      assert frames[..0] == [];
    }
    assert id in Elements(delta.removed) <==> id in delta.removed;
  }

  lemma ActiveFires(w: World, t: Tick)
    requires Warnings.Evaluated(w.active, t.active, t.fired, t.warnings)
    ensures t.active.Keys == Warnings.FiredIds(t.fired)
  {
  }

  lemma CurrentIsActive(before: Warnings.Active, after: Warnings.Active, fired: seq<Warning>,
          delta: Warnings.WarningDelta, id: WarningId)
    requires Warnings.Evaluated(before, after, fired, delta)
    ensures id in after <==> id in Warnings.FiredIds(delta.current)
    ensures id in after <==> id in Warnings.FiredIds(fired)
    ensures Distinct(delta.current, WarningKey) && Distinct(delta.added, WarningKey)
  {
    Warnings.FiredIsFired(fired, id);
    if id in after {
      assert Warnings.Entry(before, fired, id) == Some(after[id]);
      assert after[id] in delta.current;
    }
    var (c, a) := (delta.current, delta.added);
    forall i, j | 0 <= i < j < |c| ensures c[i].id != c[j].id {
      assert c[i] in c && c[j] in c;
    }
    forall i, j | 0 <= i < j < |a| ensures a[i].id != a[j].id {
      assert a[i] in a && a[j] in a;
    }
  }

  // ---------------------------------------------------------------- the tick

  /** From the first tick on, the engine knows every warning in the view. */
  lemma TickKeepsWorld(w: World, t: Tick)
    requires WorldSound(w) && TickOk(w, t)
    ensures WorldOk(Ticked(w, t))
  {
    hide Wf, Sound, Describes, Topology.Reports, Warnings.Evaluated, Distinct;
    AfterKeepsWf(w.held, t.seen, t.at);
    forall id ensures id in t.active <==> id in Warnings.FiredIds(t.warnings.current) {
      CurrentIsActive(w.active, t.active, t.fired, t.warnings, id);
    }
    CurrentIsActive(w.active, t.active, t.fired, t.warnings, 0);
  }

  lemma ReportsApart(delta: TopologyDelta, before: seq<Connection>, next: seq<Connection>)
    requires Topology.Reports(delta, before, next)
    ensures Apart(delta.added, delta.removed) && Distinct(delta.added, ConnectionKey)
  {
  }

  lemma AllSilent(frames: seq<Frame>, key: Key)
    requires forall f :: f in frames ==>
      f.Events? || (f.ServicesChanged? && !key.OfService?) || (f.TopologyChanged? && !key.OfConnection?)
        || (f.WarningsChanged? && !key.OfWarning?)
    ensures LastMention(frames, key).Silent?
  {
    OneVoice(frames, key, Silent);
  }

  lemma OtherFramesSilent(w: World, t: Tick, key: Key)
    ensures !key.OfService? ==> LastMention(ServiceFrames(ServicesOf(Ticked(w, t).held), t.registry), key).Silent?
    ensures !key.OfConnection? ==> LastMention(TopologyFramesOf(w, t), key).Silent?
    ensures LastMention(EventFrames(t.events), key).Silent?
    ensures !key.OfWarning? ==> LastMention(WarningFrames(t.warnings), key).Silent?
  {
    hide Keys, ServicesOf, AddedRanks, RemovedRanks, AddedTo, RemovedFrom, Present, ChangedServices, Ticked,
         LastMention, ProjectOfRank;
    if !key.OfService? { AllSilent(ServiceFrames(ServicesOf(Ticked(w, t).held), t.registry), key); }
    if !key.OfConnection? { AllSilent(TopologyFramesOf(w, t), key); }
    AllSilent(EventFrames(t.events), key);
    if !key.OfWarning? { AllSilent(WarningFrames(t.warnings), key); }
  }

  function TopologyFramesOf(w: World, t: Tick): seq<Frame> {
    TopologyFrames(Sides(ServicesOf(w.held), w.connections, ServicesOf(Ticked(w, t).held)), t.topology)
  }

  /** The frames about one kind of key are the only ones that speak of it. */
  lemma TickMention(w: World, t: Tick, key: Key)
    ensures LastMention(FramesOf(w, t), key) == match key
      case OfService(_) => LastMention(ServiceFrames(ServicesOf(Ticked(w, t).held), t.registry), key)
      case OfConnection(_) => LastMention(TopologyFramesOf(w, t), key)
      case OfWarning(_) => LastMention(WarningFrames(t.warnings), key)
  {
    OtherFramesSilent(w, t, key);
    hide LastMention, ServicesOf, Ticked, ServiceFrames, TopologyFrames, EventFrames, WarningFrames;
    var s := ServiceFrames(ServicesOf(Ticked(w, t).held), t.registry);
    var c := TopologyFramesOf(w, t);
    var e := EventFrames(t.events);
    LastMentionConcat(s, c, key);
    LastMentionConcat(s + c, e, key);
    LastMentionConcat(s + c + e, WarningFrames(t.warnings), key);
  }

  lemma ServiceFramesClean(services: Services, delta: RegistryDelta)
    requires forall i :: i in services ==> services[i].id == i
    requires forall id :: id in delta.evicted ==> id !in services
    ensures AllClean(ServiceFrames(services, delta))
  {
    hide ChangedIds;
    PresentDistinct(services, ChangedServices(delta));
  }

  lemma TopologyFramesClean(sides: Sides, delta: TopologyDelta)
    requires Distinct(delta.added, ConnectionKey)
    ensures AllClean(TopologyFrames(sides, delta))
  {
    hide Distinct, AddedTo, RemovedFrom, Keys;
    forall rank: nat ensures Distinct(AddedTo(sides.services, delta.added, rank), ConnectionKey) {
      AddedToDistinct(sides.services, delta.added, rank);
    }
  }

  lemma WarningFramesClean(delta: Warnings.WarningDelta)
    requires Distinct(delta.added, WarningKey)
    ensures AllClean(WarningFrames(delta))
  {
  }

  lemma TickFramesClean(w: World, t: Tick)
    requires WorldSound(w) && TickOk(w, t)
    ensures AllClean(FramesOf(w, t))
  {
    var services := ServicesOf(Ticked(w, t).held);
    TickKeepsWorld(w, t);
    ServicesKeyed(Ticked(w, t).held);
    EvictedAreGone(w, t);
    ReportsApart(t.topology, w.connections, t.connections);
    CurrentIsActive(w.active, t.active, t.fired, t.warnings, 0);
    hide AllClean, WorldSound, TickOk, Ticked, ServicesOf, ServiceFrames, TopologyFrames, WarningFrames, Distinct;
    ServiceFramesClean(services, t.registry);
    TopologyFramesClean(Sides(ServicesOf(w.held), w.connections, services), t.topology);
    WarningFramesClean(t.warnings);
    EventFramesClean(t.events);
    var s, c := ServiceFrames(services, t.registry), TopologyFramesOf(w, t);
    CleanConcat(s, c);
    CleanConcat(s + c, EventFrames(t.events));
    CleanConcat(s + c + EventFrames(t.events), WarningFrames(t.warnings));
  }

  lemma EventFramesClean(events: seq<Deriver.Event>)
    ensures AllClean(EventFrames(events))
  {
  }

  lemma EvictedAreGone(w: World, t: Tick)
    requires TickOk(w, t)
    ensures forall id :: id in t.registry.evicted ==> id !in ServicesOf(Ticked(w, t).held)
  {
    hide Evicted, Records, InOrder, Reconciled;
  }

  /** No warning in the view is one the engine has not heard of, unless it
      fires in this very tick. */
  predicate EngineKnows(w: World, t: Tick) {
    forall x :: x in w.warnings ==> x.id in w.active || x.id in Warnings.FiredIds(t.fired)
  }

  lemma ServiceOrConnectionAnnounced(w: World, t: Tick, key: Key)
    requires WorldSound(w) && TickOk(w, t) && !key.OfWarning?
    ensures Carries(FramesOf(w, t), Served(w), Served(Ticked(w, t)), key)
  {
    TickMention(w, t, key);
    ReportsApart(t.topology, w.connections, t.connections);
    hide Wf, Describes, Sound, Topology.Continues, Topology.Reports, Topology.Keyed, Warnings.Evaluated, LastMention,
         FramesOf, Overlay, Appearance, InServices, InConnections;
    match key {
      case OfService(id) => ServicesAnnounced(w.held, t.seen, t.at, t.registry, id);
      case OfConnection(id) =>
        TopologyMention(Sides(ServicesOf(w.held), w.connections, ServicesOf(Ticked(w, t).held)), t.topology, id);
        ConnectionsAnnounced(w.connections, t.connections, t.edges, t.at, t.topology, id);
      case OfWarning(_) =>
    }
  }

  lemma WarningAnnounced(w: World, t: Tick, id: WarningId)
    requires WorldSound(w) && TickOk(w, t)
    ensures Carries(FramesOf(w, t), Served(w), Served(Ticked(w, t)), OfWarning(id))
       <==> (id in Warnings.FiredIds(w.warnings) ==> id in w.active || id in Warnings.FiredIds(t.fired))
  {
    TickMention(w, t, OfWarning(id));
    WarningsAnnounced(w, t, id);
  }

  /** Whatever one tick changes for an observer is in its frames, and nothing
      in its frames is wrong: folded onto the view before, they give the view
      after, for every service, edge and warning. This holds exactly when the
      view had no warning the engine has not heard of: one restored from disk
      that does not fire again vanishes without a word. */
  lemma AnnouncedExactly(w: World, t: Tick)
    requires WorldSound(w) && TickOk(w, t)
    ensures Announces(FramesOf(w, t), Served(w), Served(Ticked(w, t))) <==> EngineKnows(w, t)
  {
    TickFramesClean(w, t);
    hide FramesOf, Served, Ticked, AllClean, Carries;
    forall key: Key ensures Carries(FramesOf(w, t), Served(w), Served(Ticked(w, t)), key) <==> KnownTo(w, t, key) {
      KeyAnnounced(w, t, key);
    }
    hide WorldSound, TickOk;
    AllKnown(w, t);
  }

  /** The engine knows of this warning, if the view has it. */
  ghost predicate KnownTo(w: World, t: Tick, key: Key) {
    key.OfWarning? && key.warning in Warnings.FiredIds(w.warnings) ==>
      key.warning in w.active || key.warning in Warnings.FiredIds(t.fired)
  }

  lemma AllKnown(w: World, t: Tick)
    ensures EngineKnows(w, t) <==> forall key :: KnownTo(w, t, key)
  {
    assert forall x :: x in w.warnings ==> x.id in Warnings.FiredIds(w.warnings);
    if forall key :: KnownTo(w, t, key) {
      forall x | x in w.warnings ensures x.id in w.active || x.id in Warnings.FiredIds(t.fired) {
        assert KnownTo(w, t, OfWarning(x.id));
      }
    }
  }

  lemma KeyAnnounced(w: World, t: Tick, key: Key)
    requires WorldSound(w) && TickOk(w, t)
    ensures Carries(FramesOf(w, t), Served(w), Served(Ticked(w, t)), key) <==> KnownTo(w, t, key)
  {
    hide FramesOf, Served, Ticked, Carries, WorldSound, TickOk;
    if key.OfWarning? {
      WarningAnnounced(w, t, key.warning);
    } else {
      ServiceOrConnectionAnnounced(w, t, key);
    }
  }

  /** Neither the frames of a tick nor what it leads to depend on the warnings
      shown before. */
  lemma TickIgnoresWarnings(w: World, t: Tick)
    requires WorldSound(w) && TickOk(w, t)
    ensures var bare := w.(warnings := []);
      TickOk(bare, t) && Ticked(bare, t) == Ticked(w, t) && FramesOf(bare, t) == FramesOf(w, t)
  {
    hide Wf, Sound, Describes, Topology.Continues, Topology.Reports, Topology.Keyed, Warnings.Evaluated, TickFrames;
  }

  lemma TickIsAnnounced(w: World, t: Tick)
    requires WorldOk(w) && TickOk(w, t)
    ensures Announces(FramesOf(w, t), Served(w), Served(Ticked(w, t)))
  {
    AnnouncedExactly(w, t);
    hide WorldSound, TickOk, Announces, FramesOf, Served, Ticked;
    assert forall x :: x in w.warnings ==> x.id in Warnings.FiredIds(w.warnings);
  }

  /** A tick that sees nothing. */
  function IdleTick(at: Time): Tick {
    Tick(map[], at, EMPTY_DELTA, {}, [], TopologyDelta([], []),
         [], map[], Warnings.WarningDelta([], [], []), [])
  }

  lemma NothingObserved(at: Time)
    ensures Sound(map[], map[]) && Describes(EMPTY_DELTA, map[], map[], at) && After(map[], map[], at) == map[]
  {
    assert Evicted(Reconciled(map[], map[], at), at) == {};
  }

  lemma IdleTickOk(x: Warning, at: Time)
    ensures var (w, t) := (World(map[], [], map[], [x]), IdleTick(at));
      WorldSound(w) && TickOk(w, t) && Ticked(w, t) == World(map[], [], map[], [])
  {
    NothingObserved(at);
    hide Sound, Describes, After, Reconciled, Evicted;
    assert Topology.Keyed([]);
    assert Topology.Continues([], [], {}, at) && Topology.Reports(TopologyDelta([], []), [], []);
    assert Warnings.Evaluated(map[], map[], [], Warnings.WarningDelta([], [], []));
  }

  lemma NothingToTell(at: Time)
    ensures TickFrames(Sides(map[], [], map[]), EMPTY_DELTA, TopologyDelta([], []), [],
        Warnings.WarningDelta([], [], [])) == []
  {
    var delta := EMPTY_DELTA;
    assert ChangedIds(delta) == {} && AddedRanks(map[], []) + RemovedRanks(map[], [], []) == {};
  }

  /** The condition is needed: a daemon that restored one warning and sees
      nothing drops it in its first tick, and sends no frame at all. */
  lemma VanishesSilently(x: Warning, at: Time)
    ensures var (w, t) := (World(map[], [], map[], [x]), IdleTick(at));
      && WorldSound(w) && TickOk(w, t)
      && Served(w).warnings == [x] && Ticked(w, t) == World(map[], [], map[], []) && FramesOf(w, t) == []
      && !Announces(FramesOf(w, t), Served(w), Served(Ticked(w, t)))
  {
    var (w, t) := (World(map[], [], map[], [x]), IdleTick(at));
    IdleTickOk(x, at);
    assert ServicesOf(map[]) == map[];
    assert FramesOf(w, t) == [] by {
      hide TickFrames, TickOk, WorldSound, After;
      NothingToTell(at);
    }
    AnnouncedExactly(w, t);
    hide TickOk, WorldSound, Announces, FramesOf, Ticked;
    assert x in w.warnings && x.id !in w.active && x.id !in Warnings.FiredIds(t.fired);
  }
}
