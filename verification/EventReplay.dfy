/** What a reader of the timeline alone can know: the ports and the health of
    every service, and the connections there are. */
module EventReplay {
  import opened Basics
  import opened Model
  import opened Sorting
  import opened Registry
  import opened RegistryRuns
  import opened Deriver
  import RegistryBounds
  import Timeline
  import Topology
  import TopologyFacts

  // ------------------------------------------------------ reading one service

  /** What the events so far say about one service. */
  datatype Known = Known(health: Health, ports: set<Port>)

  const UNKNOWN_YET := Known(Healthy, {})

  function Read(known: Known, kind: EventKind, id: ServiceId): Known {
    match kind
    case PortOpened(s, port) => if s == id then known.(ports := known.ports + {port}) else known
    case PortClosed(s, port) => if s == id then known.(ports := known.ports - {port}) else known
    case HealthChanged(s, _, to) => if s == id then known.(health := to) else known
    case ServiceStarted(s, _) => if s == id then Back(known) else known
    case ServiceRestarted(s, _, _) => if s == id then Back(known) else known
    case _ => known
  }

  /** A service that is back has not stopped. */
  function Back(known: Known): Known {
    if known.health == Stopped then known.(health := Healthy) else known
  }

  function ReadAll(known: Known, kinds: seq<EventKind>, id: ServiceId): Known {
    if kinds == [] then known else
      var n := |kinds| - 1;
      Read(ReadAll(known, kinds[..n], id), kinds[n], id)
  }

  lemma {:induction false} ReadConcat(known: Known, a: seq<EventKind>, b: seq<EventKind>, id: ServiceId)
    ensures ReadAll(known, a + b, id) == ReadAll(ReadAll(known, a, id), b, id)
  {
    if b == [] {
      assert a + b == a;
    } else {
      var n := |b| - 1;
      assert (a + b)[..|a + b| - 1] == a + b[..n];
      ReadConcat(known, a, b[..n], id);
    }
  }

  // ------------------------------------------------------- one part at a time

  lemma {:induction false} ReadOpened(known: Known, ports: seq<(ServiceId, Port)>, projects: Projects, id: ServiceId)
    ensures ReadAll(known, KindsOf(OpenedItems(ports, projects)), id)
         == known.(ports := known.ports + set x | x in ports && x.0 == id :: x.1)
  {
    if ports == [] {
      assert KindsOf(OpenedItems(ports, projects)) == [];
    } else {
      var n := |ports| - 1;
      ReadOpened(known, ports[..n], projects, id);
      assert ports == ports[..n] + [ports[n]];
      assert KindsOf(OpenedItems(ports, projects))[..n] == KindsOf(OpenedItems(ports[..n], projects));
      assert forall x :: x in ports <==> x in ports[..n] || x == ports[n];
    }
  }

  lemma {:induction false} ReadClosed(known: Known, ports: seq<(ServiceId, Port)>, projects: Projects, id: ServiceId)
    ensures ReadAll(known, KindsOf(ClosedItems(ports, projects)), id)
         == known.(ports := known.ports - set x | x in ports && x.0 == id :: x.1)
  {
    if ports == [] {
      assert KindsOf(ClosedItems(ports, projects)) == [];
    } else {
      var n := |ports| - 1;
      ReadClosed(known, ports[..n], projects, id);
      assert ports == ports[..n] + [ports[n]];
      assert KindsOf(ClosedItems(ports, projects))[..n] == KindsOf(ClosedItems(ports[..n], projects));
      assert forall x :: x in ports <==> x in ports[..n] || x == ports[n];
    }
  }

  lemma {:induction false} ReadHealth(known: Known, changed: seq<(ServiceId, Health, Health)>, projects: Projects,
          id: ServiceId)
    ensures ReadAll(known, KindsOf(HealthItems(changed, projects)), id)
         == match HealthBy(changed, id) case None => known case Some(h) => known.(health := h)
  {
    if changed == [] {
      assert KindsOf(HealthItems(changed, projects)) == [];
    } else {
      var n := |changed| - 1;
      ReadHealth(known, changed[..n], projects, id);
      assert KindsOf(HealthItems(changed, projects))[..n] == KindsOf(HealthItems(changed[..n], projects));
    }
  }

  lemma {:induction false} ReadNothing(known: Known, kinds: seq<EventKind>, id: ServiceId)
    requires forall i :: 0 <= i < |kinds| ==>
      kinds[i].ConnectionStarted? || kinds[i].ConnectionEnded? || kinds[i].ServiceStopped?
    ensures ReadAll(known, kinds, id) == known
  {
    if kinds != [] {
      ReadNothing(known, kinds[..|kinds| - 1], id);
    }
  }

  predicate Names<T(==)>(q: seq<(ServiceId, T)>, id: ServiceId) {
    exists x :: x in q && x.0 == id
  }

  predicate NamesAgain<T(==), U(==)>(q: seq<(ServiceId, T, U)>, id: ServiceId) {
    exists x :: x in q && x.0 == id
  }

  lemma NamesSnoc<T>(q: seq<(ServiceId, T)>, id: ServiceId)
    requires q != []
    ensures Names(q, id) <==> Names(q[..|q| - 1], id) || q[|q| - 1].0 == id
  {
    assert q == q[..|q| - 1] + [q[|q| - 1]];
  }

  lemma NamesAgainSnoc<T, U>(q: seq<(ServiceId, T, U)>, id: ServiceId)
    requires q != []
    ensures NamesAgain(q, id) <==> NamesAgain(q[..|q| - 1], id) || q[|q| - 1].0 == id
  {
    assert q == q[..|q| - 1] + [q[|q| - 1]];
  }

  /** Every start brings a service back, told as a start or as a restart. */
  lemma {:induction false} ReadStarts(known: Known, pending: Pending, started: seq<(ServiceId, Option<Pid>)>,
          projects: Projects, at: Time, id: ServiceId)
    ensures ReadAll(known, KindsOf(AllStartItems(pending, started, projects, at)), id)
         == if Names(started, id) then Back(known) else known
  {
    if started == [] {
      assert KindsOf(AllStartItems(pending, started, projects, at)) == [];
    } else {
      hide AllStartItems, StartItems, ReadAll, Names, KindsOf, WithoutStarted, ProjectFor;
      var n := |started| - 1;
      var (other, pid) := started[n];
      var front := AllStartItems(pending, started[..n], projects, at);
      var waiting := Lookup(WithoutStarted(pending, started[..n]), other);
      var here := StartItems(other, pid, waiting, ProjectFor(projects, other), at);
      ReadStarts(known, pending, started[..n], projects, at, id);
      KindsConcat(front, here);
      AllStartsSnoc(pending, started, projects, at);
      ReadConcat(known, KindsOf(front), KindsOf(here), id);
      ReadStart(ReadAll(known, KindsOf(front), id), other, pid, waiting, ProjectFor(projects, other), at, id);
      NamesSnoc(started, id);
    }
  }

  lemma KindsConcat(a: seq<Item>, b: seq<Item>)
    ensures KindsOf(a + b) == KindsOf(a) + KindsOf(b)
  {
  }

  lemma AllStartsSnoc(pending: Pending, started: seq<(ServiceId, Option<Pid>)>, projects: Projects, at: Time)
    requires started != []
    ensures var n := |started| - 1;
      var (other, pid) := started[n];
      AllStartItems(pending, started, projects, at)
      == AllStartItems(pending, started[..n], projects, at)
         + StartItems(other, pid, Lookup(WithoutStarted(pending, started[..n]), other), ProjectFor(projects, other), at)
  {
  }

  lemma ReadStart(known: Known, other: ServiceId, pid: Option<Pid>, waiting: Option<StopInfo>,
          project: Option<ProjectId>, at: Time, id: ServiceId)
    ensures ReadAll(known, KindsOf(StartItems(other, pid, waiting, project, at)), id)
         == if other == id then Back(known) else known
  {
    hide Settled;
    var kinds := KindsOf(StartItems(other, pid, waiting, project, at));
    if |kinds| == 1 {
      assert kinds[..0] == [] && kinds == [kinds[0]];
    } else {
      assert kinds[..1] == [kinds[0]] && [kinds[0]][..0] == [];
      assert ReadAll(known, [kinds[0]], id) == known;
    }
  }

  lemma {:induction false} ReadRestarts(known: Known, restarted: seq<(ServiceId, Option<Pid>, Option<Pid>)>,
          projects: Projects, id: ServiceId)
    ensures ReadAll(known, KindsOf(RestartItems(restarted, projects)), id)
         == if NamesAgain(restarted, id) then Back(known) else known
  {
    if restarted == [] {
      assert KindsOf(RestartItems(restarted, projects)) == [];
    } else {
      hide NamesAgain, ProjectFor;
      var n := |restarted| - 1;
      ReadRestarts(known, restarted[..n], projects, id);
      NamesAgainSnoc(restarted, id);
      assert KindsOf(RestartItems(restarted, projects))[..n] == KindsOf(RestartItems(restarted[..n], projects));
    }
  }

  lemma {:induction false} FlushesAreStops(pending: Pending, keys: seq<ServiceId>, projects: Projects, at: Time)
    requires forall id :: id in keys ==> id in pending
    ensures forall item :: item in FlushItems(pending, keys, projects, at) ==> item.kind.ServiceStopped?
  {
    if keys != [] {
      hide Settled;
      FlushesAreStops(pending, keys[..|keys| - 1], projects, at);
    }
  }

  lemma ReadLife(known: Known, pending: Pending, delta: RegistryDelta, at: Time, id: ServiceId)
    ensures ReadAll(known, KindsOf(LifeItems(pending, delta, at)), id)
         == if id in StartedIds(delta) + RestartedIds(delta) then Back(known) else known
  {
    hide AllStartItems, RestartItems, FlushItems, AddStops, WithoutStarted, ReadAll;
    var waiting := AddStops(pending, delta.stopped, at);
    var left := WithoutStarted(waiting, delta.started);
    PartialEnds(left, at);
    var s := AllStartItems(waiting, delta.started, delta.projects, at);
    var r := RestartItems(delta.restarted, delta.projects);
    var f := FlushItems(left, Keys(left.Keys), delta.projects, at);
    assert KindsOf(s + r + f) == KindsOf(s) + KindsOf(r) + KindsOf(f);
    ReadStarts(known, waiting, delta.started, delta.projects, at, id);
    ReadConcat(known, KindsOf(s), KindsOf(r), id);
    ReadRestarts(ReadAll(known, KindsOf(s), id), delta.restarted, delta.projects, id);
    ReadConcat(known, KindsOf(s) + KindsOf(r), KindsOf(f), id);
    FlushesAreStops(left, Keys(left.Keys), delta.projects, at);
    assert forall i :: 0 <= i < |f| ==> f[i] in f;
    ReadNothing(ReadAll(known, KindsOf(s) + KindsOf(r), id), KindsOf(f), id);
  }

  /** One derivation, read for one service. */
  lemma ReadItems(known: Known, pending: Pending, delta: RegistryDelta, topology: TopologyDelta, at: Time,
          id: ServiceId)
    ensures var life := if id in StartedIds(delta) + RestartedIds(delta) then Back(known) else known;
      ReadAll(known, KindsOf(Items(pending, delta, topology, at)), id)
      == Known(match HealthBy(delta.healthChanged, id) case None => life.health case Some(h) => h,
               known.ports + OpenedBy(delta, id) - ClosedBy(delta, id))
  {
    hide LifeItems, ReadAll, StartedIds, RestartedIds, HealthBy;
    var life := LifeItems(pending, delta, at);
    var o, c := OpenedItems(delta.portsOpened, delta.projects), ClosedItems(delta.portsClosed, delta.projects);
    var h, t := HealthItems(delta.healthChanged, delta.projects), TopologyItems(topology);
    var (l, ko, kc, kh, kt) := (KindsOf(life), KindsOf(o), KindsOf(c), KindsOf(h), KindsOf(t));
    assert KindsOf(life + o + c + h + t) == l + ko + kc + kh + kt;
    ReadConcat(known, l + ko + kc + kh, kt, id);
    ReadConcat(known, l + ko + kc, kh, id);
    ReadConcat(known, l + ko, kc, id);
    ReadConcat(known, l, ko, id);
    ReadLife(known, pending, delta, at, id);
    var known1 := ReadAll(known, l, id);
    ReadOpened(known1, delta.portsOpened, delta.projects, id);
    var known2 := ReadAll(known1, ko, id);
    ReadClosed(known2, delta.portsClosed, delta.projects, id);
    var known3 := ReadAll(known2, kc, id);
    ReadHealth(known3, delta.healthChanged, delta.projects, id);
    ReadNothing(ReadAll(known3, kh, id), kt, id);
  }

  // --------------------------------------------------------------------- runs

  /** Every event of a run, with the topology deltas of its ticks. */
  function Told(steps: seq<Step>, topologies: seq<TopologyDelta>): seq<EventKind>
    requires |steps| == |topologies|
  {
    if steps == [] then [] else
      var n := |steps| - 1;
      Told(steps[..n], topologies[..n])
      + KindsOf(Items(Timeline.PendingOf(steps[..n]), steps[n].delta, topologies[n], steps[n].at))
  }

  /** What is known of a service and what is held of it. */
  predicate Knows(known: Known, held: Option<Entered>) {
    match held
    case Some(e) => known == Known(e.service.health, PortsOf(e.service.endpoints))
    case None => known.ports == {} && (known.health == Healthy || known.health == Stopped)
  }

  lemma KnowsStep(id: ServiceId, held: Option<Entered>, seen: Option<Finished>, at: Time, known: Known, piece: Piece)
    requires held.Some? ==> WfEntered(id, held.value)
    requires seen.Some? ==> WfFinished(seen.value)
    requires held.Some? && seen.Some? ==> SameKind(held.value.service.kind, seen.value.kind)
    requires held.Some? || seen.Some?
    requires Knows(known, held) && piece == PieceOf(id, held, seen, at)
    ensures var life := if piece.change.Start? || piece.change.Restart? then Back(known) else known;
      Knows(Known(match piece.health case None => life.health case Some(ab) => ab.1,
                  known.ports + piece.portsOpened - piece.portsClosed),
            Reconcile(id, held, seen, at))
    ensures Reconcile(id, held, seen, at).Some?
  {
    ReconcileKeepsWf(id, held, seen, at);
    if held.Some? { RunningByHealth(id, held.value); }
    hide Overlaps;
  }

  lemma GoneIsStopped(id: ServiceId, e: Entered, known: Known)
    requires WfEntered(id, e) && !IsRunning(e.service) && Knows(known, Some(e))
    ensures Knows(known, None)
  {
    RunningByHealth(id, e);
  }

  lemma NothingRecorded(delta: RegistryDelta, pieces: map<ServiceId, Piece>, id: ServiceId)
    requires Records(delta, pieces) && id !in pieces
    ensures id !in StartedIds(delta) + RestartedIds(delta)
    ensures HealthBy(delta.healthChanged, id) == None && OpenedBy(delta, id) == {} && ClosedBy(delta, id) == {}
  {
    HealthRecorded(delta.healthChanged, id);
    forall x | x in delta.started ensures x.0 != id { assert (x.0, x.1) in delta.started; }
    forall x | x in delta.restarted ensures x.0 != id { assert (x.0, x.1, x.2) in delta.restarted; }
    forall x | x in delta.portsOpened ensures x.0 != id { assert (x.0, x.1) in delta.portsOpened; }
    forall x | x in delta.portsClosed ensures x.0 != id { assert (x.0, x.1) in delta.portsClosed; }
  }

  lemma ReadStep(held: map<ServiceId, Entered>, step: Step, pending: Pending, topology: TopologyDelta, known: Known,
          id: ServiceId)
    requires Wf(held) && Sound(held, step.seen) && Describes(step.delta, held, step.seen, step.at)
    requires Knows(known, Lookup(held, id))
    ensures Knows(ReadAll(known, KindsOf(Items(pending, step.delta, topology, step.at)), id),
              Lookup(After(held, step.seen, step.at), id))
  {
    hide Items, ReadAll, Knows, WfEntered, After, Reconciled, Describes, IsRunning, Wf, Sound, KindsOf;
    ReadReconciled(held, step, pending, topology, known, id);
    var next := ReadAll(known, KindsOf(Items(pending, step.delta, topology, step.at)), id);
    AfterOne(held, step.seen, step.at, id);
    if Lookup(After(held, step.seen, step.at), id) != Lookup(Reconciled(held, step.seen, step.at), id) {
      GoneIsStopped(id, Reconciled(held, step.seen, step.at)[id], next);
    }
  }

  /** Only what does not run is evicted. */
  lemma AfterOne(held: map<ServiceId, Entered>, seen: map<ServiceId, Finished>, at: Time, id: ServiceId)
    requires Wf(held) && Sound(held, seen)
    ensures var (reconciled, after) := (Reconciled(held, seen, at), After(held, seen, at));
      || Lookup(after, id) == Lookup(reconciled, id)
      || (Lookup(after, id) == None && id in reconciled && Lookup(reconciled, id) == Some(reconciled[id])
          && WfEntered(id, reconciled[id]) && !IsRunning(reconciled[id].service))
  {
    hide Reconciled, WfEntered, IsRunning, Sound, Expired, Crowded;
    AfterKeepsWf(held, seen, at);
    RegistryBounds.RetentionIsBounded(held, seen, at);
  }

  lemma ReadReconciled(held: map<ServiceId, Entered>, step: Step, pending: Pending, topology: TopologyDelta,
          known: Known, id: ServiceId)
    requires Wf(held) && Sound(held, step.seen) && Describes(step.delta, held, step.seen, step.at)
    requires Knows(known, Lookup(held, id))
    ensures Knows(ReadAll(known, KindsOf(Items(pending, step.delta, topology, step.at)), id),
              Lookup(Reconciled(held, step.seen, step.at), id))
  {
    hide Records, StartedIds, RestartedIds, OpenedBy, ClosedBy, HealthBy, Evicted, InOrder, Reconcile, PieceOf,
         WfEntered, WfFinished, Items, ReadAll, Knows, After;
    var pieces := Pieces(held, step.seen, step.at);
    ReadItems(known, pending, step.delta, topology, step.at, id);
    if id in held.Keys + step.seen.Keys {
      ReadBack(step.delta, pieces, id);
      KnowsStep(id, Lookup(held, id), Lookup(step.seen, id), step.at, known, pieces[id]);
    } else {
      NothingRecorded(step.delta, pieces, id);
      assert known.ports + {} - {} == known.ports;
    }
  }

  /** Folding the events of a run, and nothing else, gives the health and the
      ports of every service that is held, and no ports for any other. */
  lemma {:induction false} EventsRebuildTheServices(steps: seq<Step>, topologies: seq<TopologyDelta>, id: ServiceId)
    requires IsRun(steps) && |steps| == |topologies|
    ensures Knows(ReadAll(UNKNOWN_YET, Told(steps, topologies), id), Lookup(Held(steps), id))
  {
    hide Items, After, Describes, Wf, Sound, KindsOf, Knows;
    if steps == [] {
      assert Knows(UNKNOWN_YET, None) by { KnowsNothing(); }
    } else {
      var n := |steps| - 1;
      var (front, step) := (steps[..n], steps[n]);
      EventsRebuildTheServices(front, topologies[..n], id);
      RunKeepsWf(front);
      var pending := Timeline.PendingOf(front);
      ReadConcat(UNKNOWN_YET, Told(front, topologies[..n]), KindsOf(Items(pending, step.delta, topologies[n], step.at)),
        id);
      ReadStep(Held(front), step, pending, topologies[n], ReadAll(UNKNOWN_YET, Told(front, topologies[..n]), id), id);
    }
  }

  lemma KnowsNothing()
    ensures Knows(UNKNOWN_YET, None)
  {
  }

  // -------------------------------------------------------------- connections

  /** The connections there are after these events. */
  function Connected(known: set<ConnectionId>, kinds: seq<EventKind>): set<ConnectionId> {
    if kinds == [] then known else
      var n := |kinds| - 1;
      var before := Connected(known, kinds[..n]);
      match kinds[n]
      case ConnectionStarted(id) => before + {id}
      case ConnectionEnded(id) => before - {id}
      case _ => before
  }

  lemma {:induction false} ConnectedConcat(known: set<ConnectionId>, a: seq<EventKind>, b: seq<EventKind>)
    ensures Connected(known, a + b) == Connected(Connected(known, a), b)
  {
    if b == [] {
      assert a + b == a;
    } else {
      var n := |b| - 1;
      assert (a + b)[..|a + b| - 1] == a + b[..n];
      ConnectedConcat(known, a, b[..n]);
    }
  }

  lemma {:induction false} NoConnections(known: set<ConnectionId>, kinds: seq<EventKind>)
    requires forall i :: 0 <= i < |kinds| ==> !kinds[i].ConnectionStarted? && !kinds[i].ConnectionEnded?
    ensures Connected(known, kinds) == known
  {
    if kinds != [] {
      NoConnections(known, kinds[..|kinds| - 1]);
    }
  }

  lemma {:induction false} AddedConnected(known: set<ConnectionId>, added: seq<Connection>)
    ensures Connected(known, KindsOf(AddedItems(added))) == known + Topology.ConnectionIds(added)
  {
    if added == [] {
      assert KindsOf(AddedItems(added)) == [];
    } else {
      var n := |added| - 1;
      AddedConnected(known, added[..n]);
      assert added == added[..n] + [added[n]];
      assert KindsOf(AddedItems(added))[..n] == KindsOf(AddedItems(added[..n]));
      assert forall c :: c in added <==> c in added[..n] || c == added[n];
    }
  }

  lemma {:induction false} RemovedConnected(known: set<ConnectionId>, removed: seq<ConnectionId>)
    ensures Connected(known, KindsOf(RemovedItems(removed))) == known - Elements(removed)
  {
    if removed == [] {
      assert KindsOf(RemovedItems(removed)) == [];
    } else {
      var n := |removed| - 1;
      RemovedConnected(known, removed[..n]);
      assert removed == removed[..n] + [removed[n]];
      assert KindsOf(RemovedItems(removed))[..n] == KindsOf(RemovedItems(removed[..n]));
      assert forall id :: id in removed <==> id in removed[..n] || id == removed[n];
    }
  }

  lemma ItemsConnected(known: set<ConnectionId>, pending: Pending, delta: RegistryDelta, topology: TopologyDelta,
          at: Time)
    ensures Connected(known, KindsOf(Items(pending, delta, topology, at)))
         == known + Topology.ConnectionIds(topology.added) - Elements(topology.removed)
  {
    LifeIsLife(pending, delta, at);
    hide LifeItems, Connected, Topology.ConnectionIds, InPlace;
    var life := LifeItems(pending, delta, at);
    var o, c := OpenedItems(delta.portsOpened, delta.projects), ClosedItems(delta.portsClosed, delta.projects);
    var h := HealthItems(delta.healthChanged, delta.projects);
    var first := KindsOf(life + o + c + h);
    var (a, r) := (KindsOf(AddedItems(topology.added)), KindsOf(RemovedItems(topology.removed)));
    assert KindsOf(life + o + c + h + TopologyItems(topology)) == first + a + r;
    assert forall i :: 0 <= i < |life| ==> life[i] in life;
    NoConnections(known, first);
    ConnectedConcat(known, first, a);
    AddedConnected(known, topology.added);
    ConnectedConcat(known, first + a, r);
    RemovedConnected(known + Topology.ConnectionIds(topology.added), topology.removed);
  }

  /** The deltas the topology reported, batch by batch. */
  predicate Deltas(topologies: seq<TopologyDelta>, batches: seq<TopologyFacts.Batch>) {
    |topologies| == |batches| && forall i :: 0 <= i < |batches| ==> topologies[i] == batches[i].delta
  }

  /** Folding the events of a run gives the connections there are. */
  lemma {:induction false} EventsRebuildTheTopology(steps: seq<Step>, topologies: seq<TopologyDelta>,
          batches: seq<TopologyFacts.Batch>)
    requires TopologyFacts.IsRun(batches) && |steps| == |batches| && Deltas(topologies, batches)
    ensures Connected({}, Told(steps, topologies)) == Topology.ConnectionIds(TopologyFacts.Current(batches))
  {
    hide Items, KindsOf, Topology.ConnectionIds, Topology.Reports, Topology.Continues, Timeline.PendingOf;
    if batches == [] {
      NoneConnected();
    } else {
      var n := |batches| - 1;
      var (front, before) := (batches[..n], Told(steps[..n], topologies[..n]));
      EventsRebuildTheTopology(steps[..n], topologies[..n], front);
      var (pending, step) := (Timeline.PendingOf(steps[..n]), steps[n]);
      ConnectedConcat({}, before, KindsOf(Items(pending, step.delta, topologies[n], step.at)));
      hide Connected;
      ItemsConnected(Connected({}, before), pending, step.delta, topologies[n], step.at);
      ReportsSum(TopologyFacts.Current(front), batches[n].current, batches[n].delta);
    }
  }

  lemma NoneConnected()
    ensures Topology.ConnectionIds([]) == {}
  {
  }

  lemma ReportsSum(before: seq<Connection>, next: seq<Connection>, delta: TopologyDelta)
    requires Topology.Reports(delta, before, next)
    ensures Topology.ConnectionIds(before) + Topology.ConnectionIds(delta.added) - Elements(delta.removed)
         == Topology.ConnectionIds(next)
  {
    forall c | c in next && c.id !in Topology.ConnectionIds(before)
      ensures c.id in Topology.ConnectionIds(delta.added)
    {
      assert c in delta.added;
    }
  }
}
