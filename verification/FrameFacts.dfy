/** What the frames of a tick carry, told without the functions that make them:
    every change under its project, every event once, and nothing else. */
module FrameFacts {
  import opened Basics
  import opened Model
  import opened Sorting
  import opened Registry
  import opened Frames
  import opened ServerState
  import opened Announcing
  import Deriver
  import Topology
  import Warnings

  // ------------------------------------------------------------------- events

  /** The events these frames carry, in the order they are sent. */
  function EventsIn(frames: seq<Frame>): seq<Deriver.Event> {
    if frames == [] then [] else
      var n := |frames| - 1;
      EventsIn(frames[..n]) + (match frames[n] case Events(events) => events case _ => [])
  }

  /** A list shows the last 500 of the events there were before and those told
      since, the newest first. */
  predicate NewestFirst(shown: seq<Deriver.Event>, told: seq<Deriver.Event>, before: seq<Deriver.Event>) {
    && |shown| == (if |told| + |before| <= 500 then |told| + |before| else 500)
    && (forall i :: 0 <= i < |shown| && i < |told| ==> shown[i] == told[|told| - 1 - i])
    && (forall i :: |told| <= i < |shown| ==> shown[i] == before[i - |told|])
  }

  lemma {:induction false} EventsConcat(a: seq<Frame>, b: seq<Frame>)
    ensures EventsIn(a + b) == EventsIn(a) + EventsIn(b)
  {
    if b == [] {
      assert a + b == a;
    } else {
      var n := |b| - 1;
      assert (a + b)[..|a + b| - 1] == a + b[..n];
      EventsConcat(a, b[..n]);
    }
  }

  lemma EventsOfOne(frame: Frame)
    ensures EventsIn([frame]) == match frame case Events(events) => events case _ => []
  {
    assert [frame][..0] == [];
  }

  lemma {:induction false} ReversedAt(q: seq<Deriver.Event>)
    ensures |Reversed(q)| == |q| && forall i :: 0 <= i < |q| ==> Reversed(q)[i] == q[|q| - 1 - i]
  {
    if q != [] {
      ReversedAt(q[1..]);
    }
  }

  /** New events go on top, and what no longer fits falls off the end. */
  lemma PutOnTop(all: seq<Deriver.Event>, events: seq<Deriver.Event>, view: seq<Deriver.Event>,
          told: seq<Deriver.Event>, before: seq<Deriver.Event>)
    requires NewestFirst(view, told, before)
    requires |all| == |events| + |view| && all[|events|..] == view
    requires forall i :: 0 <= i < |events| ==> all[i] == events[|events| - 1 - i]
    ensures NewestFirst(if |all| <= 500 then all else all[..500], told + events, before)
  {
    var shown := if |all| <= 500 then all else all[..500];
    forall i | 0 <= i < |shown|
      ensures if i < |told + events| then shown[i] == (told + events)[|told + events| - 1 - i]
              else shown[i] == before[i - |told + events|]
    {
      assert shown[i] == all[i];
      if i < |events| {
        assert (told + events)[|told + events| - 1 - i] == events[|events| - 1 - i];
      } else {
        var k := i - |events|;
        assert all[i] == all[|events|..][k] == view[k];
        if k < |told| {
          assert (told + events)[|told + events| - 1 - i] == told[|told| - 1 - k];
        }
      }
    }
  }

  lemma ReduceShows(view: ClientView, frame: Frame, told: seq<Deriver.Event>, before: seq<Deriver.Event>)
    requires NewestFirst(view.events, told, before)
    ensures NewestFirst(Reduce(view, frame).events, told + EventsIn([frame]), before)
  {
    hide NewestFirst, EventsIn, Reversed, ReduceServices, ReduceConnections, ReduceWarnings;
    EventsOfOne(frame);
    match frame {
      case Events(events) =>
        ReversedAt(events);
        PutOnTop(Reversed(events) + view.events, events, view.events, told, before);
      case _ => assert told + [] == told;
    }
  }

  /** Whatever else they carry, frames leave a view with the newest of the
      events they bring and those it had. */
  lemma {:induction false} FoldShows(view: ClientView, frames: seq<Frame>)
    requires |view.events| <= 500
    ensures NewestFirst(ReduceAll(view, frames).events, EventsIn(frames), view.events)
  {
    hide Reduce;
    if frames == [] {
      assert NewestFirst(view.events, [], view.events);
    } else {
      var n := |frames| - 1;
      FoldShows(view, frames[..n]);
      hide NewestFirst;
      ReduceShows(ReduceAll(view, frames[..n]), frames[n], EventsIn(frames[..n]), view.events);
      EventsOfOne(frames[n]);
    }
  }

  // ------------------------------------------------------------------ a frame

  /** Frames come in this order. */
  function Turn(frame: Frame): nat {
    match frame
    case Snapshot(_, _, _) => 0
    case ServicesChanged(_, _) => 1
    case TopologyChanged(_, _, _) => 2
    case Events(_) => 3
    case WarningsChanged(_, _) => 4
  }

  /** Edges of no project come first, then one project after the other. */
  predicate ProjectBefore(f: Frame, g: Frame) {
    && f.TopologyChanged? && g.TopologyChanged? && g.project.Some?
    && (f.project.Some? ==> f.project.value < g.project.value)
  }

  /** The project of the service an edge comes from. */
  function SourceProject(held: map<ServiceId, Entered>, id: ConnectionId): Option<ProjectId> {
    if id.source in held then held[id.source].service.projectId else None
  }

  predicate NamedLife(delta: RegistryDelta, id: ServiceId) {
    || (exists x :: x in delta.started && x.0 == id) || (exists x :: x in delta.stopped && x.0 == id)
    || (exists x :: x in delta.restarted && x.0 == id)
  }

  predicate NamedOther(delta: RegistryDelta, id: ServiceId) {
    || (exists x :: x in delta.portsOpened && x.0 == id) || (exists x :: x in delta.portsClosed && x.0 == id)
    || (exists x :: x in delta.healthChanged && x.0 == id)
  }

  /** Some vector of the delta names the service. */
  predicate Named(delta: RegistryDelta, id: ServiceId) {
    NamedLife(delta, id) || NamedOther(delta, id)
  }

  /** A frame carries what it should, whole: the records of the services the
      delta names, the edges that came and went in one project, by where they
      come from now and where they came from before, the events, the warnings. */
  ghost predicate IsWhole(w: World, t: Tick, frame: Frame) {
    match frame
    case Snapshot(_, _, _) => false
    case ServicesChanged(services, removed) =>
      && removed == t.registry.evicted
      && (forall s :: s in services <==>
           Named(t.registry, s.id) && s.id in Ticked(w, t).held && s == Ticked(w, t).held[s.id].service)
    case TopologyChanged(project, added, removed) =>
      && (added != [] || removed != [])
      && (forall c :: c in added <==>
           && c in t.connections && c.id !in Topology.ConnectionIds(w.connections)
           && SourceProject(Ticked(w, t).held, c.id) == project)
      && (forall id :: id in removed <==>
           && id in Topology.ConnectionIds(w.connections) && id !in Topology.ConnectionIds(t.connections)
           && SourceProject(w.held, id) == project)
    case Events(events) => events == t.events
    case WarningsChanged(warnings, removed) => warnings == t.warnings.added && removed == t.warnings.removed
  }

  /** There is a frame of this kind only if there is something to tell. */
  ghost predicate Needed(t: Tick, turn: nat) {
    || (turn == 1 && (t.registry.evicted != [] || exists id :: Named(t.registry, id)))
    || (turn == 2 && (t.topology.added != [] || t.topology.removed != []))
    || (turn == 3 && t.events != [])
    || (turn == 4 && (t.warnings.added != [] || t.warnings.removed != []))
  }

  lemma {:induction false} PresentIs(services: Services, ids: seq<ServiceId>, s: Service)
    requires forall i :: i in services ==> services[i].id == i
    ensures s in Present(services, ids) <==> s.id in ids && s.id in services && s == services[s.id]
  {
    if ids != [] {
      var n := |ids| - 1;
      assert ids == ids[..n] + [ids[n]];
      PresentIs(services, ids[..n], s);
    }
  }

  lemma NamedIsChanged(delta: RegistryDelta, id: ServiceId)
    ensures id in ChangedIds(delta) <==> Named(delta, id)
  {
    var life :=
      (set x | x in delta.started :: x.0) + (set x | x in delta.stopped :: x.0) + (set x | x in delta.restarted :: x.0);
    var other :=
      (set x | x in delta.portsOpened :: x.0) + (set x | x in delta.portsClosed :: x.0)
      + (set x | x in delta.healthChanged :: x.0);
    assert NamedLife(delta, id) <==> id in life;
    assert NamedOther(delta, id) <==> id in other;
    hide NamedLife, NamedOther;
  }

  lemma ChangedAreNamed(delta: RegistryDelta)
    ensures forall id :: id in ChangedServices(delta) <==> Named(delta, id)
    ensures ChangedServices(delta) == [] <==> forall id :: !Named(delta, id)
  {
    hide ChangedIds, Named, Keys;
    var ids := ChangedServices(delta);
    forall id ensures id in ids <==> Named(delta, id) {
      NamedIsChanged(delta, id);
      assert id in ids <==> id in Elements(ids);
    }
    if ids != [] { assert ids[0] in ids; }
  }

  lemma ServiceFramesAre(services: Services, delta: RegistryDelta)
    requires forall i :: i in services ==> services[i].id == i
    ensures var frames := ServiceFrames(services, delta);
      && |frames| == (if delta.evicted != [] || exists id :: Named(delta, id) then 1 else 0)
      && forall f :: f in frames ==>
        && f.ServicesChanged? && f.removedServices == delta.evicted
        && forall s: Service :: s in f.services <==> Named(delta, s.id) && s.id in services && s == services[s.id]
  {
    hide Named, ChangedServices, Present;
    ChangedAreNamed(delta);
    var ids := ChangedServices(delta);
    forall s: Service ensures s in Present(services, ids) <==>
        Named(delta, s.id) && s.id in services && s == services[s.id]
    {
      PresentIs(services, ids, s);
    }
  }

  lemma ServiceFramesCarry(w: World, t: Tick)
    requires Wf(w.held) && Sound(w.held, t.seen)
    ensures var frames := ServiceFrames(ServicesOf(Ticked(w, t).held), t.registry);
      && (forall f :: f in frames ==> Turn(f) == 1 && IsWhole(w, t, f))
      && |frames| == if Needed(t, 1) then 1 else 0
  {
    hide Named, Wf, Sound, After, ServiceFrames;
    AfterKeepsWf(w.held, t.seen, t.at);
    ServicesKeyed(Ticked(w, t).held);
    ServiceFramesAre(ServicesOf(Ticked(w, t).held), t.registry);
  }

  lemma RankUndone(project: Option<ProjectId>, rank: nat)
    ensures Rank(project) == rank <==> project == ProjectOfRank(rank)
  {
  }

  lemma AddedProject(held: map<ServiceId, Entered>, id: ConnectionId)
    ensures ProjectOfService(ServicesOf(held), id.source) == SourceProject(held, id)
  {
  }

  lemma RemovedProject(w: World, id: ConnectionId)
    requires id in Topology.ConnectionIds(w.connections)
    ensures ConnectionProject(ServicesOf(w.held), w.connections, id) == SourceProject(w.held, id)
  {
    Topology.FindsEdge(w.connections, id);
  }

  lemma {:induction false} AddedToIs(services: Services, added: seq<Connection>, rank: nat, c: Connection)
    ensures c in AddedTo(services, added, rank)
       <==> c in added && Rank(ProjectOfService(services, c.id.source)) == rank
  {
    if added != [] {
      hide Rank, ProjectOfService;
      var n := |added| - 1;
      assert added == added[..n] + [added[n]];
      AddedToIs(services, added[..n], rank, c);
    }
  }

  lemma TopologyFrameCarries(w: World, t: Tick, rank: nat)
    requires Topology.Reports(t.topology, w.connections, t.connections)
    requires rank in AddedRanks(ServicesOf(Ticked(w, t).held), t.topology.added)
                   + RemovedRanks(ServicesOf(w.held), w.connections, t.topology.removed)
    ensures IsWhole(w, t, TopologyFrame(Sides(ServicesOf(w.held), w.connections, ServicesOf(Ticked(w, t).held)),
                                        t.topology, rank))
  {
    hide Ticked, Topology.ConnectionIds, ConnectionProject, Rank, ProjectOfRank, Topology.Keyed, Topology.IdsAscend,
         AddedTo, RemovedFrom, ProjectOfService;
    var (before, now, delta) := (ServicesOf(w.held), ServicesOf(Ticked(w, t).held), t.topology);
    var (added, removed) := (AddedTo(now, delta.added, rank), RemovedFrom(before, w.connections, delta.removed, rank));
    forall c ensures c in added <==> c in delta.added && SourceProject(Ticked(w, t).held, c.id) == ProjectOfRank(rank) {
      AddedToIs(now, delta.added, rank, c);
      AddedProject(Ticked(w, t).held, c.id);
      RankUndone(SourceProject(Ticked(w, t).held, c.id), rank);
    }
    forall id ensures id in removed <==> id in delta.removed && SourceProject(w.held, id) == ProjectOfRank(rank) {
      RemovedFromHas(before, w.connections, delta.removed, rank, id);
      RankUndone(SourceProject(w.held, id), rank);
      if id in delta.removed { RemovedProject(w, id); }
    }
    if c :| c in delta.added && Rank(ProjectOfService(now, c.id.source)) == rank {
      AddedToIs(now, delta.added, rank, c);
    } else {
      var id :| id in delta.removed && Rank(ConnectionProject(before, w.connections, id)) == rank;
      RemovedFromHas(before, w.connections, delta.removed, rank, id);
    }
  }

  function AllRanks(sides: Sides, delta: TopologyDelta): set<nat> {
    AddedRanks(sides.services, delta.added) + RemovedRanks(sides.oldServices, sides.oldConnections, delta.removed)
  }

  lemma SomeRank(sides: Sides, delta: TopologyDelta)
    ensures AllRanks(sides, delta) != {} <==> delta.added != [] || delta.removed != []
  {
    hide Rank, ConnectionProject, ProjectOfService;
    if delta.added != [] {
      var c := delta.added[0];
      assert c in delta.added && Rank(ProjectOfService(sides.services, c.id.source)) in AllRanks(sides, delta);
    }
    if delta.removed != [] {
      var id := delta.removed[0];
      assert id in delta.removed
        && Rank(ConnectionProject(sides.oldServices, sides.oldConnections, id)) in AllRanks(sides, delta);
    }
  }

  lemma ProjectsAscend(ranks: seq<nat>, i: nat, j: nat)
    requires StrictlyAscending(ranks) && i < j < |ranks|
    ensures var (p, q) := (ProjectOfRank(ranks[i]), ProjectOfRank(ranks[j]));
      q.Some? && (p.Some? ==> p.value < q.value)
  {
  }

  lemma TopologyFramesAre(sides: Sides, delta: TopologyDelta)
    ensures var frames := TopologyFrames(sides, delta);
      && (forall f :: f in frames ==>
           exists rank :: rank in AllRanks(sides, delta) && f == TopologyFrame(sides, delta, rank))
      && (forall i, j :: 0 <= i < j < |frames| ==> ProjectBefore(frames[i], frames[j]))
      && (frames != [] <==> delta.added != [] || delta.removed != [])
  {
    SomeRank(sides, delta);
    hide AddedTo, RemovedFrom, AddedRanks, RemovedRanks, ProjectOfRank, StrictlyAscending;
    var ranks := Keys(AllRanks(sides, delta));
    var frames := TopologyFrames(sides, delta);
    forall i, j | 0 <= i < j < |frames| ensures ProjectBefore(frames[i], frames[j]) {
      ProjectsAscend(ranks, i, j);
    }
    forall i | 0 <= i < |frames| ensures ranks[i] in AllRanks(sides, delta) {
      assert ranks[i] in Elements(ranks);
    }
    if ranks == [] {
      assert Elements(ranks) == {};
    } else {
      assert ranks[0] in Elements(ranks);
    }
  }

  lemma TopologyFramesCarry(w: World, t: Tick)
    requires Topology.Reports(t.topology, w.connections, t.connections)
    ensures var frames := TopologyFramesOf(w, t);
      && (forall f :: f in frames ==> Turn(f) == 2 && IsWhole(w, t, f))
      && (forall i, j :: 0 <= i < j < |frames| ==> ProjectBefore(frames[i], frames[j]))
      && (frames != [] <==> Needed(t, 2))
  {
    hide Ticked, IsWhole, AddedTo, RemovedFrom, AddedRanks, RemovedRanks, Topology.Reports, TopologyFrames,
         ProjectBefore;
    var sides := Sides(ServicesOf(w.held), w.connections, ServicesOf(Ticked(w, t).held));
    TopologyFramesAre(sides, t.topology);
    forall f | f in TopologyFramesOf(w, t) ensures Turn(f) == 2 && IsWhole(w, t, f) {
      var rank :| rank in AllRanks(sides, t.topology) && f == TopologyFrame(sides, t.topology, rank);
      TopologyFrameCarries(w, t, rank);
    }
  }

  /** The frames of a tick, exactly: at most one for the services, one for each
      project with an edge that came or went, one for the events and one for the
      warnings, in this order; none without anything to tell, and each carrying
      all there is to tell. */
  lemma FramesExactly(w: World, t: Tick)
    requires WorldSound(w) && TickOk(w, t)
    ensures var frames := FramesOf(w, t);
      && (forall f :: f in frames ==> IsWhole(w, t, f))
      && (forall i, j :: 0 <= i < j < |frames| ==>
           Turn(frames[i]) < Turn(frames[j])
           || (Turn(frames[i]) == Turn(frames[j]) == 2 && ProjectBefore(frames[i], frames[j])))
      && (forall turn :: Needed(t, turn) <==> exists f :: f in frames && Turn(f) == turn)
  {
    hide IsWhole, Needed, Ticked, ServiceFrames, TopologyFrames, EventFrames, WarningFrames, Turn, ProjectBefore, Wf,
         Sound, Describes, Topology.Continues, Topology.Reports, Warnings.Evaluated, ServicesOf;
    ServiceFramesCarry(w, t);
    TopologyFramesCarry(w, t);
    OtherFramesCarry(w, t);
    var (a, b) := (ServiceFrames(ServicesOf(Ticked(w, t).held), t.registry), TopologyFramesOf(w, t));
    var (c, d) := (EventFrames(t.events), WarningFrames(t.warnings));
    InTurn(a, b, c, d);
    EachTurn(t, a, b, c, d);
  }

  lemma EachTurn(t: Tick, a: seq<Frame>, b: seq<Frame>, c: seq<Frame>, d: seq<Frame>)
    requires (forall f :: f in a ==> Turn(f) == 1) && (forall f :: f in b ==> Turn(f) == 2)
    requires (forall f :: f in c ==> Turn(f) == 3) && (forall f :: f in d ==> Turn(f) == 4)
    requires (a != [] <==> Needed(t, 1)) && (b != [] <==> Needed(t, 2))
    requires (c != [] <==> Needed(t, 3)) && (d != [] <==> Needed(t, 4))
    ensures forall turn :: Needed(t, turn) <==> exists f :: f in a + b + c + d && Turn(f) == turn
  {
    hide Needed, Turn;
    forall turn ensures Needed(t, turn) <==> exists f :: f in a + b + c + d && Turn(f) == turn {
      NeededTurn(t, turn);
      if a != [] { assert a[0] in a; }
      if b != [] { assert b[0] in b; }
      if c != [] { assert c[0] in c; }
      if d != [] { assert d[0] in d; }
    }
  }

  lemma NeededTurn(t: Tick, turn: nat)
    ensures Needed(t, turn) ==> 1 <= turn <= 4
  {
  }

  lemma OtherFramesCarry(w: World, t: Tick)
    ensures var frames := EventFrames(t.events);
      (forall f :: f in frames ==> Turn(f) == 3 && IsWhole(w, t, f)) && |frames| == if Needed(t, 3) then 1 else 0
    ensures var frames := WarningFrames(t.warnings);
      (forall f :: f in frames ==> Turn(f) == 4 && IsWhole(w, t, f)) && |frames| == if Needed(t, 4) then 1 else 0
  {
  }

  lemma InTurn(a: seq<Frame>, b: seq<Frame>, c: seq<Frame>, d: seq<Frame>)
    requires |a| <= 1 && |c| <= 1 && |d| <= 1
    requires (forall f :: f in a ==> Turn(f) == 1) && (forall f :: f in b ==> Turn(f) == 2)
    requires (forall f :: f in c ==> Turn(f) == 3) && (forall f :: f in d ==> Turn(f) == 4)
    requires forall i, j :: 0 <= i < j < |b| ==> ProjectBefore(b[i], b[j])
    ensures var frames := a + b + c + d;
      forall i, j :: 0 <= i < j < |frames| ==>
        Turn(frames[i]) < Turn(frames[j])
        || (Turn(frames[i]) == Turn(frames[j]) == 2 && ProjectBefore(frames[i], frames[j]))
  {
    hide Turn, ProjectBefore;
    assert forall i :: 0 <= i < |b| ==> b[i] in b && Turn(b[i]) == 2;
  }

  /** The frames of a tick carry the events of the tick, once and in order. */
  lemma TickEvents(w: World, t: Tick)
    ensures EventsIn(FramesOf(w, t)) == t.events
  {
    hide Ticked, ServiceFrames, TopologyFrames;
    var sides := Sides(ServicesOf(w.held), w.connections, ServicesOf(Ticked(w, t).held));
    var (a, b) := (ServiceFrames(sides.services, t.registry), TopologyFrames(sides, t.topology));
    var (c, d) := (EventFrames(t.events), WarningFrames(t.warnings));
    EventsConcat(a + b + c, d);
    EventsConcat(a + b, c);
    QuietServices(sides.services, t.registry);
    QuietTopology(sides, t.topology);
    NoEvents(a + b);
    NoEvents(d);
    if t.events != [] {
      EventsOfOne(Events(t.events));
    }
  }

  lemma QuietServices(services: Services, delta: RegistryDelta)
    ensures forall f :: f in ServiceFrames(services, delta) ==> !f.Events?
  {
    hide ChangedServices, Present;
  }

  lemma QuietTopology(sides: Sides, delta: TopologyDelta)
    ensures forall f :: f in TopologyFrames(sides, delta) ==> !f.Events?
  {
    hide AddedTo, RemovedFrom, AddedRanks, RemovedRanks;
  }

  lemma {:induction false} NoEvents(frames: seq<Frame>)
    requires forall f :: f in frames ==> !f.Events?
    ensures EventsIn(frames) == []
  {
    if frames != [] {
      NoEvents(frames[..|frames| - 1]);
    }
  }

  lemma {:induction false} ReduceConcat(view: ClientView, a: seq<Frame>, b: seq<Frame>)
    ensures ReduceAll(view, a + b) == ReduceAll(ReduceAll(view, a), b)
  {
    hide Reduce;
    if b == [] {
      assert a + b == a;
    } else {
      var n := |b| - 1;
      assert (a + b)[..|a + b| - 1] == a + b[..n];
      ReduceConcat(view, a, b[..n]);
    }
  }

  lemma OneReduced(view: ClientView, frame: Frame)
    ensures ReduceAll(view, [frame]) == Reduce(view, frame)
  {
    hide Reduce;
    assert [frame][..0] == [];
  }

  lemma {:induction false} QuietFrames(view: ClientView, frames: seq<Frame>)
    requires forall f :: f in frames ==> !f.Events?
    ensures ReduceAll(view, frames).events == view.events
  {
    if frames != [] {
      hide ReduceServices, ReduceConnections, ReduceWarnings, Reversed;
      var n := |frames| - 1;
      assert frames[n] in frames;
      QuietFrames(view, frames[..n]);
    }
  }

  /** However many a view showed, a frame of events leaves the last 500. */
  lemma OneEventFrame(view: ClientView, events: seq<Deriver.Event>)
    ensures NewestFirst(Reduce(view, Events(events)).events, events, view.events)
  {
    ReversedAt(events);
    hide Reversed;
    var all := Reversed(events) + view.events;
    assert forall i :: |events| <= i < |all| ==> all[i] == view.events[i - |events|];
  }

  /** A client that folds the frames of a tick shows the events of the tick on
      top of those it showed, the newest first, and the last 500 of them all;
      without an event it shows what it did. */
  lemma TickShows(w: World, t: Tick, view: ClientView)
    ensures t.events == [] ==> ReduceAll(view, FramesOf(w, t)).events == view.events
    ensures t.events != [] || |view.events| <= 500 ==>
      NewestFirst(ReduceAll(view, FramesOf(w, t)).events, t.events, view.events)
  {
    hide NewestFirst, Ticked, ServiceFrames, TopologyFrames, ReduceAll, Reduce;
    var sides := Sides(ServicesOf(w.held), w.connections, ServicesOf(Ticked(w, t).held));
    var (a, b) := (ServiceFrames(sides.services, t.registry), TopologyFrames(sides, t.topology));
    var (c, d) := (EventFrames(t.events), WarningFrames(t.warnings));
    QuietServices(sides.services, t.registry);
    QuietTopology(sides, t.topology);
    ReduceConcat(view, a + b + c, d);
    ReduceConcat(view, a + b, c);
    QuietFrames(view, a + b);
    QuietFrames(ReduceAll(view, a + b + c), d);
    if t.events == [] {
      QuietFrames(ReduceAll(view, a + b), c);
      NothingTold(view.events);
    } else {
      OneReduced(ReduceAll(view, a + b), Events(t.events));
      OneEventFrame(ReduceAll(view, a + b), t.events);
    }
  }

  lemma NothingTold(shown: seq<Deriver.Event>)
    ensures |shown| <= 500 ==> NewestFirst(shown, [], shown)
  {
  }
}
