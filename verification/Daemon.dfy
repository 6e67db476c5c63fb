/** The snapshot loop: registry, topology, events, warnings and the served view
    driven in lock-step. */
module Daemon {
  import opened Basics
  import opened Model
  import opened Sorting
  import Registry
  import RegistryService
  import Runs = RegistryRuns
  import Topology
  import Deriver
  import opened Digits
  import opened EventIds
  import Timeline
  import Warnings
  import Frames
  import Projects
  import opened ServerState
  import opened Announcing

  /** One step of the protocol's world, and the frames it produces. */
  ghost predicate Stepped(before: World, tick: Announcing.Tick, after: World, frames: seq<Frames.Frame>) {
    TickOk(before, tick) && after == Ticked(before, tick) && frames == FramesOf(before, tick)
  }

  datatype Project = Project(id: ProjectId, root: Projects.Path)

  /** A file that changed under a watched root. */
  datatype FileChange = FileChange(root: Projects.Path, path: string, at: Time)

  /** Everything a tick is handed: what was collected, what the watcher saw and
      what the warning rules fire. */
  datatype Collected = Collected(
    observations: seq<Registry.Observation>,
    sockets: seq<Topology.Socket>,
    projects: seq<Project>,
    changes: seq<FileChange>,
    fired: seq<Frames.Warning>,
    at: Time)

  /** A tick is about exactly what was handed in. */
  ghost predicate Takes(tick: Announcing.Tick, input: Collected, after: World) {
    && tick.seen == Registry.Observed(input.observations) && tick.at == input.at && tick.fired == input.fired
    && tick.edges == Topology.Edges(ListOf(ServicesOf(after.held)), input.sockets)
  }

  // ------------------------------------------------------------------- events

  function ProjectIds(projects: seq<Project>): set<ProjectId> {
    set p | p in projects :: p.id
  }

  /** The projects nobody has announced yet, in order. */
  function Unannounced(announced: set<ProjectId>, projects: seq<Project>): seq<Deriver.Item> {
    if projects == [] then []
    else
      var (n, id) := (|projects| - 1, projects[|projects| - 1].id);
      Unannounced(announced, projects[..n])
      + (if id in announced + ProjectIds(projects[..n]) then []
        else [Deriver.Item(Some(id), Deriver.ProjectDetected(id))])
  }

  /** The first project at a root. */
  function ProjectAt(projects: seq<Project>, root: Projects.Path): Option<ProjectId> {
    if projects == [] then None
    else if projects[0].root == root then Some(projects[0].id)
    else ProjectAt(projects[1..], root)
  }

  /** Changed files of known projects, each stamped with the time it changed. */
  function FileEvents(projects: seq<Project>, changes: seq<FileChange>, first: nat): seq<Deriver.Event> {
    if changes == [] then []
    else
      var (n, change) := (|changes| - 1, changes[|changes| - 1]);
      var before := FileEvents(projects, changes[..n], first);
      match ProjectAt(projects, change.root)
      case None => before
      case Some(p) => before + [Deriver.Event(Deriver.NthId(first + |before|, change.at), change.at, Some(p),
                                              Deriver.FileChanged(p, change.path))]
  }

  /** All events of a tick, numbered from `first` on: what the deriver makes of
      the deltas, then new projects, then changed files. */
  function EventsOf(pending: Deriver.Pending, announced: set<ProjectId>, registry: Registry.RegistryDelta,
          topology: TopologyDelta, input: Collected, first: nat): seq<Deriver.Event>
  {
    var items := Deriver.Items(pending, registry, topology, input.at) + Unannounced(announced, input.projects);
    Deriver.Stamp(items, first, input.at) + FileEvents(input.projects, input.changes, first + |items|)
  }

  // ------------------------------------------------- what a tick tells

  function AsDetected(kind: Deriver.EventKind): Option<ProjectId> {
    match kind case ProjectDetected(p) => Some(p) case _ => None
  }

  function AsFile(kind: Deriver.EventKind): Option<(ProjectId, string)> {
    match kind case FileChanged(p, path) => Some((p, path)) case _ => None
  }

  /** The first project listed at a root. */
  ghost predicate OwnsRoot(projects: seq<Project>, root: Projects.Path, id: ProjectId) {
    exists i :: 0 <= i < |projects| && projects[i].root == root && projects[i].id == id
      && forall j :: 0 <= j < i ==> projects[j].root != root
  }

  /** Of the changed files those under a known root, in order. */
  ghost predicate Touches(files: seq<(ProjectId, string)>, projects: seq<Project>, changes: seq<FileChange>) {
    if changes == [] then files == []
    else
      var (n, last) := (|changes| - 1, changes[|changes| - 1]);
      if forall p :: p in projects ==> p.root != last.root then Touches(files, projects, changes[..n])
      else
        && files != [] && OwnsRoot(projects, last.root, files[|files| - 1].0) && files[|files| - 1].1 == last.path
        && Touches(files[..|files| - 1], projects, changes[..n])
  }

  /** Whose project an event of a tick carries, and when it happened. */
  ghost predicate Situated(e: Deriver.Event, registry: Registry.RegistryDelta, input: Collected) {
    match e.kind
    case ProjectDetected(p) => e.at == input.at && e.projectId == Some(p)
    case FileChanged(p, path) =>
      e.projectId == Some(p)
      && exists c :: c in input.changes && c.at == e.at && c.path == path && OwnsRoot(input.projects, c.root, p)
    case _ => Deriver.Placed(e, registry.projects, input.at)
  }

  /** The events of a tick tell each change of its deltas once and in order, each
      project nobody knew of once, and each changed file of a known project. */
  ghost predicate TellsTick(events: seq<Deriver.Event>, announced: set<ProjectId>, registry: Registry.RegistryDelta,
          topology: TopologyDelta, input: Collected)
  {
    var kinds := Deriver.Kinds(events);
    && Deriver.Pick(kinds, Deriver.AsOpened) == registry.portsOpened
    && Deriver.Pick(kinds, Deriver.AsClosed) == registry.portsClosed
    && Deriver.Pick(kinds, Deriver.AsHealth) == registry.healthChanged
    && Deriver.Pick(kinds, Deriver.AsConnected) == Deriver.IdsOf(topology.added)
    && Deriver.Pick(kinds, Deriver.AsDisconnected) == topology.removed
    && NoRepeats(Deriver.Pick(kinds, AsDetected))
    && Elements(Deriver.Pick(kinds, AsDetected)) == (set p | p in input.projects :: p.id) - announced
    && Touches(Deriver.Pick(kinds, AsFile), input.projects, input.changes)
    && forall e :: e in events ==> Situated(e, registry, input)
  }

  function TimesOf(events: seq<Deriver.Event>): seq<Time> {
    seq(|events|, i requires 0 <= i < |events| => events[i].at)
  }

  class SnapshotLoop {
    const registry: RegistryService.ServiceRegistry
    const builder: Topology.TopologyBuilder
    const deriver: Deriver.EventDeriver
    const engine: Warnings.WarningEngine
    const view: RuntimeView

    /** Every batch so far, with the delta the registry reported. */
    ghost var steps: seq<Runs.Step>

    /** Every tick so far, with the events it told. */
    ghost var told: seq<Telling>

    ghost function Now(): World
      reads registry, builder, engine, view
    {
      World(registry.services, builder.current, engine.active, view.warnings)
    }

    /** The stages are sound and the view shows what they hold. */
    ghost predicate Linked()
      reads registry, builder, deriver, engine, view
    {
      && builder.Valid() && deriver.Valid() && engine.Valid()
      && view.services == ServicesOf(registry.services) && view.connections == builder.current
      && |view.events| <= EVENT_RING_CAPACITY
      && WorldSound(Now())
    }

    ghost predicate Valid()
      reads this, registry, builder, deriver, engine, view
    {
      && Linked()
      && Runs.IsRun(steps) && registry.services == Runs.Held(steps)
      && deriver.pendingStop == Timeline.PendingOf(steps)
      && Narrates(told, deriver.minted) && Detects(told, deriver.announcedProjects)
    }

    /** A daemon that starts with the history it stored. */
    constructor (pastEvents: seq<Deriver.Event>, pastWarnings: seq<Frames.Warning>)
      requires Frames.Distinct(pastWarnings, Frames.WarningKey)
      ensures Valid() && steps == [] && fresh(registry) && fresh(builder) && fresh(deriver) && fresh(engine)
          && fresh(view)
      ensures Now() == World(map[], [], map[], pastWarnings) && view.events == LatestEvents([], pastEvents)
      ensures deriver.minted == [] && deriver.announcedProjects == {} && told == []
    {
      registry := new RegistryService.ServiceRegistry();
      builder := new Topology.TopologyBuilder();
      deriver := new Deriver.EventDeriver();
      engine := new Warnings.WarningEngine();
      view := new RuntimeView();
      steps, told := [], [];
      new;
      view.Restore(pastEvents, pastWarnings);
    }

    method Announce(projects: seq<Project>, at: Time) returns (events: seq<Deriver.Event>)
      requires deriver.Valid()
      modifies deriver
      ensures deriver.Valid() && deriver.pendingStop == old(deriver.pendingStop)
      ensures deriver.announcedProjects == old(deriver.announcedProjects) + ProjectIds(projects)
      ensures events == Deriver.Stamp(Unannounced(old(deriver.announcedProjects), projects), |old(deriver.minted)|, at)
      ensures deriver.minted == old(deriver.minted) + TimesOf(events)
    {
      hide *;
      events := [];
      NoneYet(deriver.announcedProjects, |deriver.minted|, at);
      assert projects[..0] == [] && projects[..|projects|] == projects;
      for i := 0 to |projects|
        invariant deriver.Valid() && deriver.pendingStop == old(deriver.pendingStop)
        invariant deriver.announcedProjects == old(deriver.announcedProjects) + ProjectIds(projects[..i])
        invariant events
            == Deriver.Stamp(Unannounced(old(deriver.announcedProjects), projects[..i]), |old(deriver.minted)|, at)
        invariant deriver.minted == old(deriver.minted) + TimesOf(events) && |TimesOf(events)| == |events|
      {
        AnnounceStep(old(deriver.announcedProjects), projects, i, |old(deriver.minted)|, at);
        var event := deriver.AnnounceProject(projects[i].id, at);
        if event.Some? {
          TimesSnoc(events, event.value);
          assert old(deriver.minted) + TimesOf(events) + [at] == old(deriver.minted) + (TimesOf(events) + [at]);
          events := events + [event.value];
        }
      }
    }

    /** Files changed under roots nobody knows are passed over. */
    method Touch(projects: seq<Project>, changes: seq<FileChange>) returns (events: seq<Deriver.Event>)
      requires deriver.Valid()
      modifies deriver
      ensures deriver.Valid() && deriver.pendingStop == old(deriver.pendingStop)
      ensures deriver.announcedProjects == old(deriver.announcedProjects)
      ensures events == FileEvents(projects, changes, |old(deriver.minted)|)
      ensures deriver.minted == old(deriver.minted) + TimesOf(events)
    {
      hide *;
      events := [];
      NoneTouched(projects, |deriver.minted|);
      assert changes[..0] == [] && changes[..|changes|] == changes;
      for i := 0 to |changes|
        invariant deriver.Valid() && deriver.pendingStop == old(deriver.pendingStop)
        invariant deriver.announcedProjects == old(deriver.announcedProjects)
        invariant events == FileEvents(projects, changes[..i], |old(deriver.minted)|)
        invariant deriver.minted == old(deriver.minted) + TimesOf(events) && |TimesOf(events)| == |events|
      {
        TouchStep(projects, changes, i, |old(deriver.minted)|);
        var project := ProjectAt(projects, changes[i].root);
        if project.None? {
          continue;
        }
        var event := deriver.FileTouched(project.value, changes[i].path, changes[i].at);
        TimesSnoc(events, event);
        assert old(deriver.minted) + TimesOf(events) + [event.at]
          == old(deriver.minted) + (TimesOf(events) + [event.at]);
        events := events + [event];
      }
    }

    /** All events of a tick, in the order they are minted. */
    method Narrate(registryDelta: Registry.RegistryDelta, topologyDelta: TopologyDelta, input: Collected)
      returns (events: seq<Deriver.Event>)
      requires deriver.Valid()
      modifies deriver
      ensures deriver.Valid()
      ensures deriver.pendingStop == Deriver.PendingAfter(old(deriver.pendingStop), registryDelta, input.at)
      ensures deriver.announcedProjects == old(deriver.announcedProjects) + ProjectIds(input.projects)
      ensures events == EventsOf(old(deriver.pendingStop), old(deriver.announcedProjects), registryDelta,
          topologyDelta, input,
                                 |old(deriver.minted)|)
      ensures deriver.minted == old(deriver.minted) + TimesOf(events)
    {
      hide Deriver.EventDeriver.Valid, Deriver.PendingAfter, Deriver.Items, Deriver.Stamp, Unannounced, FileEvents,
           TimesOf, ProjectIds;
      ghost var before := deriver.minted;
      ghost var items := Deriver.Items(deriver.pendingStop, registryDelta, topologyDelta, input.at);
      ghost var more := Unannounced(deriver.announcedProjects, input.projects);
      StampTimes(items, |before|, input.at);
      var derived := deriver.Derive(registryDelta, topologyDelta, input.at);
      assert |deriver.minted| == |before| + |items|;
      StampTimes(more, |before| + |items|, input.at);
      var announced := Announce(input.projects, input.at);
      assert |deriver.minted| == |before| + |items| + |more|;
      var touched := Touch(input.projects, input.changes);
      events := derived + announced + touched;
      StampConcat(items, more, |before|, input.at);
      TimesConcat(derived, announced);
      TimesConcat(derived + announced, touched);
      assert |items + more| == |items| + |more|;
      assert before + TimesOf(derived) + TimesOf(announced) + TimesOf(touched)
          == before + (TimesOf(derived) + TimesOf(announced) + TimesOf(touched));
    }

    /** The first half of a tick: what happened, and the events it makes. */
    method Reconcile(input: Collected)
      returns (registryDelta: Registry.RegistryDelta, topologyDelta: TopologyDelta, events: seq<Deriver.Event>)
      requires Registry.Wf(registry.services) && Registry.WellFormed(input.observations, registry.services)
      requires builder.Valid() && deriver.Valid()
      modifies registry, builder, deriver
      ensures Registry.Wf(registry.services) && builder.Valid() && deriver.Valid()
      ensures Registry.Sound(old(registry.services), Registry.Observed(input.observations))
      ensures Registry.Describes(registryDelta, old(registry.services), Registry.Observed(input.observations), input.at)
      ensures registry.services
          == Registry.After(old(registry.services), Registry.Observed(input.observations), input.at)
      ensures var edges := Topology.Edges(ListOf(ServicesOf(registry.services)), input.sockets);
        Topology.Continues(old(builder.current), builder.current, edges, input.at)
      ensures Topology.Reports(topologyDelta, old(builder.current), builder.current)
      ensures deriver.pendingStop == Deriver.PendingAfter(old(deriver.pendingStop), registryDelta, input.at)
      ensures deriver.announcedProjects == old(deriver.announcedProjects) + ProjectIds(input.projects)
      ensures events == EventsOf(old(deriver.pendingStop), old(deriver.announcedProjects), registryDelta,
          topologyDelta, input,
                                 |old(deriver.minted)|)
      ensures deriver.minted == old(deriver.minted) + TimesOf(events)
    {
      Registry.ObservedIsSound(input.observations, registry.services);
      hide *;
      registryDelta := registry.Apply(input.observations, input.at);
      topologyDelta := builder.Observe(ListOf(ServicesOf(registry.services)), input.sockets, input.at);
      events := Narrate(registryDelta, topologyDelta, input);
    }

    /** The second half: the view and its frames. */
    method Serve(update: TickUpdate, ghost seen: map<ServiceId, Registry.Finished>, ghost edges: set<ConnectionId>,
            ghost at: Time)
      returns (frames: seq<Frames.Frame>, ghost tick: Announcing.Tick)
      requires engine.Valid() && |view.events| <= EVENT_RING_CAPACITY
      modifies engine, view
      ensures engine.Valid() && |view.events| <= EVENT_RING_CAPACITY
      ensures Warnings.Evaluated(old(engine.active), engine.active, update.fired, tick.warnings)
      ensures view.services == ById(update.services) && view.connections == update.connections
          && view.warnings == tick.warnings.current
      ensures tick == Announcing.Tick(seen, at, update.registry, edges, update.connections, update.topology,
          update.fired,
                                      engine.active, tick.warnings, update.events)
      ensures frames == TickFrames(Sides(old(view.services), old(view.connections), ById(update.services)),
                                   update.registry, update.topology, update.events, tick.warnings)
    {
      hide *;
      ghost var delta;
      frames, delta := view.ApplyTick(update, engine);
      tick := Announcing.Tick(seen, at, update.registry, edges, update.connections, update.topology, update.fired,
        engine.active, delta, update.events);
    }

    /** Both halves of a tick: from observations to frames. */
    method Advance(input: Collected) returns (frames: seq<Frames.Frame>, ghost tick: Announcing.Tick)
      requires Linked() && Registry.WellFormed(input.observations, registry.services)
      modifies registry, builder, deriver, engine, view
      ensures Linked() && WorldOk(Now())
      ensures Stepped(old(Now()), tick, Now(), frames)
      ensures Takes(tick, input, Now())
      ensures deriver.pendingStop == Deriver.PendingAfter(old(deriver.pendingStop), tick.registry, input.at)
      ensures deriver.announcedProjects == old(deriver.announcedProjects) + ProjectIds(input.projects)
      ensures tick.events
          == EventsOf(old(deriver.pendingStop), old(deriver.announcedProjects), tick.registry, tick.topology, input,
            |old(deriver.minted)|)
      ensures deriver.minted == old(deriver.minted) + TimesOf(tick.events)
    {
      ghost var before := Now();
      hide Registry.Describes, Registry.Sound, Registry.Wf, Registry.WellFormed, Registry.After, Registry.Observed,
           Topology.Continues, Topology.Reports, Topology.Keyed, Topology.Edges, Warnings.Evaluated, Deriver.Items,
           Deriver.Stamp, Deriver.PendingAfter, TickFrames, ListOf, ById, ServicesOf, LatestEvents, Stepped,
           Frames.Distinct, ProjectIds, EventsOf, TimesOf;
      var registryDelta, topologyDelta, events := Reconcile(input);
      var services := ListOf(ServicesOf(registry.services));
      frames, tick := Serve(TickUpdate(registryDelta, topologyDelta, services, builder.current, events, input.fired),
                            Registry.Observed(input.observations), Topology.Edges(services, input.sockets), input.at);
      ListedById(registry.services);
      Completed(before, tick, Now(), frames);
    }

    /** One tick: every stage does its part of the step the protocol and the
        timeline are specified by. From the first tick on the engine knows every
        warning in the view, restored or not. */
    method Tick(input: Collected) returns (frames: seq<Frames.Frame>, ghost tick: Announcing.Tick)
      requires Valid() && Registry.WellFormed(input.observations, registry.services)
      modifies this, registry, builder, deriver, engine, view
      ensures Valid() && WorldOk(Now())
      ensures Stepped(old(Now()), tick, Now(), frames)
      ensures Takes(tick, input, Now())
      ensures steps == old(steps) + [Runs.Step(tick.seen, input.at, tick.registry)]
      ensures told == old(told) + [Telling(input.at, tick.events)]
      ensures TellsTick(tick.events, old(deriver.announcedProjects), tick.registry, tick.topology, input)
      ensures deriver.announcedProjects == old(deriver.announcedProjects) + ProjectIds(input.projects)
      ensures tick.events
          == EventsOf(old(deriver.pendingStop), old(deriver.announcedProjects), tick.registry, tick.topology, input,
            |old(deriver.minted)|)
      ensures deriver.minted == old(deriver.minted) + TimesOf(tick.events)
    {
      hide Linked, Registry.Describes, Registry.Sound, Registry.WellFormed, Registry.After, Registry.Observed,
           Runs.IsRun, Runs.Held, Timeline.PendingOf, Deriver.PendingAfter, EventsOf, WorldOk, ProjectIds, TimesOf,
           Stepped, Narrates, Consecutive, OnTime, Detects, TellsTick;
      ghost var before := Now();
      frames, tick := Advance(input);
      ghost var step := Runs.Step(tick.seen, input.at, tick.registry);
      SteppedRegistry(before, tick, Now(), frames);
      StepTaken(steps, step);
      steps := steps + [step];
      EventsAreTold(old(deriver.pendingStop), old(deriver.announcedProjects), tick.registry, tick.topology, input,
                    |old(deriver.minted)|);
      TickTells(old(deriver.pendingStop), old(deriver.announcedProjects), tick.registry, tick.topology, input,
        |old(deriver.minted)|);
      DetectsMore(told, Telling(input.at, tick.events), old(deriver.announcedProjects), tick.registry, tick.topology,
        input);
      TellingAdded(told, Telling(input.at, tick.events), old(deriver.minted), deriver.minted);
      told := told + [Telling(input.at, tick.events)];
    }
  }

  lemma {:induction false} ProjectAtExactly(projects: seq<Project>, root: Projects.Path)
    ensures forall id: ProjectId :: ProjectAt(projects, root) == Some(id) <==> OwnsRoot(projects, root, id)
    ensures ProjectAt(projects, root) == None <==> forall p :: p in projects ==> p.root != root
  {
    if projects != [] {
      var rest := projects[1..];
      ProjectAtExactly(rest, root);
      assert projects == [projects[0]] + rest;
      if projects[0].root == root {
        assert forall id :: OwnsRoot(projects, root, id) <==> id == projects[0].id;
      } else {
        forall id ensures OwnsRoot(projects, root, id) <==> OwnsRoot(rest, root, id) {
          OwnsLater(projects, root, id);
        }
        hide OwnsRoot;
      }
    }
  }

  lemma OwnsLater(projects: seq<Project>, root: Projects.Path, id: ProjectId)
    requires projects != [] && projects[0].root != root
    ensures OwnsRoot(projects, root, id) <==> OwnsRoot(projects[1..], root, id)
  {
    var rest := projects[1..];
    assert forall i :: 0 < i < |projects| ==> projects[i] == rest[i - 1];
    if i :|
      && 0 <= i < |rest| && rest[i].root == root && rest[i].id == id
      && forall j :: 0 <= j < i ==> rest[j].root != root
    {
      assert projects[i + 1] == rest[i];
    }
    if i :|
      && 0 <= i < |projects| && projects[i].root == root && projects[i].id == id
      && forall j :: 0 <= j < i ==> projects[j].root != root
    {
      assert rest[i - 1] == projects[i];
      assert forall j :: 0 <= j < i - 1 ==> rest[j] == projects[j + 1];
    }
  }

  lemma {:induction false} UnannouncedExactly(announced: set<ProjectId>, projects: seq<Project>)
    ensures var q := Deriver.Pick(Deriver.KindsOf(Unannounced(announced, projects)), AsDetected);
      NoRepeats(q) && Elements(q) == ProjectIds(projects) - announced
    ensures forall item :: item in Unannounced(announced, projects) ==>
      item.kind.ProjectDetected? && item.projectId == Some(item.kind.project)
  {
    if projects == [] {
      assert Deriver.KindsOf(Unannounced(announced, projects)) == [];
    } else {
      var (n, id) := (|projects| - 1, projects[|projects| - 1].id);
      var front := Unannounced(announced, projects[..n]);
      UnannouncedExactly(announced, projects[..n]);
      assert projects[..n + 1] == projects;
      IdsSnoc(projects, n);
      UnannouncedSnoc(announced, projects, n);
      if id !in announced + ProjectIds(projects[..n]) {
        var item := Deriver.Item(Some(id), Deriver.ProjectDetected(id));
        OneDetected(front, item, id);
        hide Deriver.Pick, Deriver.KindsOf, Unannounced, ProjectIds;
        OneMoreId(Deriver.Pick(Deriver.KindsOf(front), AsDetected), id);
      } else {
        hide Deriver.Pick, Deriver.KindsOf, Unannounced, ProjectIds;
      }
    }
  }

  lemma OneDetected(front: seq<Deriver.Item>, item: Deriver.Item, id: ProjectId)
    requires item.kind == Deriver.ProjectDetected(id)
    ensures Deriver.Pick(Deriver.KindsOf(front + [item]), AsDetected)
         == Deriver.Pick(Deriver.KindsOf(front), AsDetected) + [id]
  {
    assert Deriver.KindsOf(front + [item])[..|front|] == Deriver.KindsOf(front);
  }

  lemma OneMoreId(q: seq<ProjectId>, id: ProjectId)
    requires NoRepeats(q) && id !in Elements(q)
    ensures NoRepeats(q + [id]) && Elements(q + [id]) == Elements(q) + {id}
  {
    assert forall i :: 0 <= i < |q| ==> q[i] in Elements(q);
  }

  /** A changed file, told as one of these changes to a known root. */
  ghost predicate TellsFile(e: Deriver.Event, projects: seq<Project>, changes: seq<FileChange>) {
    && e.kind.FileChanged? && e.projectId == Some(e.kind.project)
    && exists c ::
      c in changes && c.at == e.at && c.path == e.kind.path && OwnsRoot(projects, c.root, e.kind.project)
  }

  lemma TellsMore(events: seq<Deriver.Event>, projects: seq<Project>, changes: seq<FileChange>)
    requires changes != [] && forall e :: e in events ==> TellsFile(e, projects, changes[..|changes| - 1])
    ensures forall e :: e in events ==> TellsFile(e, projects, changes)
  {
    hide OwnsRoot;
    assert changes == changes[..|changes| - 1] + [changes[|changes| - 1]];
  }

  lemma PickSnoc<T>(events: seq<Deriver.Event>, e: Deriver.Event, sort: Deriver.EventKind -> Option<T>)
    ensures Deriver.Pick(Deriver.Kinds(events + [e]), sort)
         == Deriver.Pick(Deriver.Kinds(events), sort) + (match sort(e.kind) case None => [] case Some(x) => [x])
  {
    assert Deriver.Kinds(events + [e])[..|events|] == Deriver.Kinds(events);
  }

  lemma {:induction false} FilesTouched(projects: seq<Project>, changes: seq<FileChange>, first: nat)
    ensures Touches(Deriver.Pick(Deriver.Kinds(FileEvents(projects, changes, first)), AsFile), projects, changes)
    ensures forall e :: e in FileEvents(projects, changes, first) ==> TellsFile(e, projects, changes)
  {
    if changes == [] {
      assert Deriver.Kinds(FileEvents(projects, changes, first)) == [];
    } else {
      hide Deriver.NthId, ProjectAt, OwnsRoot, Deriver.Pick, Deriver.Kinds, TellsFile, FileEvents, Touches;
      var (n, last) := (|changes| - 1, changes[|changes| - 1]);
      var before := FileEvents(projects, changes[..n], first);
      FilesTouched(projects, changes[..n], first);
      TellsMore(before, projects, changes);
      assert changes[..n + 1] == changes;
      TouchStep(projects, changes, n, first);
      ProjectAtExactly(projects, last.root);
      var project := ProjectAt(projects, last.root);
      if project.Some? {
        var e := Deriver.Event(Deriver.NthId(first + |before|, last.at), last.at, project,
          Deriver.FileChanged(project.value, last.path));
        PickSnoc(before, e, AsFile);
        LastTells(e, projects, changes);
        TouchesNext(Deriver.Pick(Deriver.Kinds(before), AsFile), projects, changes, project.value);
      } else {
        TouchesSkip(Deriver.Pick(Deriver.Kinds(before), AsFile), projects, changes);
      }
    }
  }

  lemma TouchesNext(files: seq<(ProjectId, string)>, projects: seq<Project>, changes: seq<FileChange>, id: ProjectId)
    requires changes != [] && OwnsRoot(projects, changes[|changes| - 1].root, id)
    requires Touches(files, projects, changes[..|changes| - 1])
    ensures Touches(files + [(id, changes[|changes| - 1].path)], projects, changes)
  {
    var next := files + [(id, changes[|changes| - 1].path)];
    assert next[..|files|] == files;
  }

  lemma TouchesSkip(files: seq<(ProjectId, string)>, projects: seq<Project>, changes: seq<FileChange>)
    requires changes != [] && forall p :: p in projects ==> p.root != changes[|changes| - 1].root
    requires Touches(files, projects, changes[..|changes| - 1])
    ensures Touches(files, projects, changes)
  {
  }

  lemma LastTells(e: Deriver.Event, projects: seq<Project>, changes: seq<FileChange>)
    requires changes != [] && e.kind.FileChanged? && e.projectId == Some(e.kind.project)
    requires ProjectAt(projects, changes[|changes| - 1].root) == e.projectId
    requires e.at == changes[|changes| - 1].at && e.kind.path == changes[|changes| - 1].path
    ensures TellsFile(e, projects, changes)
  {
    hide OwnsRoot, ProjectAt;
    var c := changes[|changes| - 1];
    ProjectAtExactly(projects, c.root);
    assert c in changes && OwnsRoot(projects, c.root, e.kind.project);
  }

  lemma OnlyFiles<T>(events: seq<Deriver.Event>, sort: Deriver.EventKind -> Option<T>)
    requires forall e :: e in events ==> e.kind.FileChanged?
    requires forall kind: Deriver.EventKind :: kind.FileChanged? ==> sort(kind) == None
    ensures Deriver.Pick(Deriver.Kinds(events), sort) == []
  {
    assert forall i :: 0 <= i < |events| ==> events[i] in events;
    Deriver.PickNone(Deriver.Kinds(events), sort);
  }

  lemma OnlyDetections<T>(items: seq<Deriver.Item>, sort: Deriver.EventKind -> Option<T>)
    requires forall item :: item in items ==> item.kind.ProjectDetected?
    requires forall kind: Deriver.EventKind :: kind.ProjectDetected? ==> sort(kind) == None
    ensures Deriver.Pick(Deriver.KindsOf(items), sort) == []
  {
    assert forall i :: 0 <= i < |items| ==> items[i] in items;
    Deriver.PickNone(Deriver.KindsOf(items), sort);
  }

  lemma OnlyDeltas<T>(events: seq<Deriver.Event>, projects: Deriver.Projects, at: Time,
          sort: Deriver.EventKind -> Option<T>)
    requires forall e :: e in events ==> Deriver.Placed(e, projects, at)
    requires forall kind: Deriver.EventKind :: !kind.ProjectDetected? && !kind.FileChanged? ==> sort(kind) == None
    ensures Deriver.Pick(Deriver.Kinds(events), sort) == []
  {
    assert forall i :: 0 <= i < |events| ==> events[i] in events;
    Deriver.PickNone(Deriver.Kinds(events), sort);
  }

  /** A tick in three parts, one sort of event at a time. */
  lemma PickThree<T>(derived: seq<Deriver.Event>, detected: seq<Deriver.Event>, files: seq<Deriver.Event>,
          sort: Deriver.EventKind -> Option<T>)
    ensures Deriver.Pick(Deriver.Kinds(derived + detected + files), sort)
         == Deriver.Pick(Deriver.Kinds(derived), sort) + Deriver.Pick(Deriver.Kinds(detected), sort)
            + Deriver.Pick(Deriver.Kinds(files), sort)
  {
    hide Deriver.Pick;
    var (a, b, c) := (Deriver.Kinds(derived), Deriver.Kinds(detected), Deriver.Kinds(files));
    assert Deriver.Kinds(derived + detected + files) == a + b + c;
    Deriver.PickConcat(a + b, c, sort);
    Deriver.PickConcat(a, b, sort);
  }

  lemma DeltaSort<T>(derived: seq<Deriver.Event>, items: seq<Deriver.Item>, first: nat, at: Time,
          files: seq<Deriver.Event>, sort: Deriver.EventKind -> Option<T>)
    requires forall item :: item in items ==> item.kind.ProjectDetected?
    requires forall e :: e in files ==> e.kind.FileChanged?
    requires forall kind: Deriver.EventKind :: kind.ProjectDetected? || kind.FileChanged? ==> sort(kind) == None
    ensures Deriver.Pick(Deriver.Kinds(derived + Deriver.Stamp(items, first, at) + files), sort)
        == Deriver.Pick(Deriver.Kinds(derived), sort)
  {
    hide Deriver.Pick, Deriver.Stamp, Deriver.Kinds, Deriver.KindsOf;
    Deriver.StampKinds(items, first, at);
    PickThree(derived, Deriver.Stamp(items, first, at), files, sort);
    OnlyDetections(items, sort);
    OnlyFiles(files, sort);
  }

  lemma NewSorts(derived: seq<Deriver.Event>, projects: Deriver.Projects, items: seq<Deriver.Item>, first: nat,
          at: Time, files: seq<Deriver.Event>)
    requires forall e :: e in derived ==> Deriver.Placed(e, projects, at)
    requires forall item :: item in items ==> item.kind.ProjectDetected?
    requires forall e :: e in files ==> e.kind.FileChanged?
    ensures var kinds := Deriver.Kinds(derived + Deriver.Stamp(items, first, at) + files);
      && Deriver.Pick(kinds, AsDetected) == Deriver.Pick(Deriver.KindsOf(items), AsDetected)
      && Deriver.Pick(kinds, AsFile) == Deriver.Pick(Deriver.Kinds(files), AsFile)
  {
    hide Deriver.Pick, Deriver.Stamp, Deriver.Kinds, Deriver.KindsOf, Deriver.Placed;
    var detected := Deriver.Stamp(items, first, at);
    Deriver.StampKinds(items, first, at);
    PickThree(derived, detected, files, AsDetected);
    OnlyDeltas(derived, projects, at, AsDetected);
    OnlyFiles(files, AsDetected);
    PickThree(derived, detected, files, AsFile);
    OnlyDeltas(derived, projects, at, AsFile);
    OnlyDetections(items, AsFile);
  }

  lemma StampedSituated(items: seq<Deriver.Item>, first: nat, registry: Registry.RegistryDelta, input: Collected)
    requires forall item :: item in items ==> item.kind.ProjectDetected? && item.projectId == Some(item.kind.project)
    ensures forall e :: e in Deriver.Stamp(items, first, input.at) ==> Situated(e, registry, input)
  {
    hide Deriver.NthId;
    assert forall i :: 0 <= i < |items| ==> items[i] in items;
  }

  lemma AllSituated(derived: seq<Deriver.Event>, files: seq<Deriver.Event>, registry: Registry.RegistryDelta,
          input: Collected)
    requires forall e :: e in derived ==> Deriver.Placed(e, registry.projects, input.at)
    requires forall e :: e in files ==> TellsFile(e, input.projects, input.changes)
    ensures forall e :: e in derived + files ==> Situated(e, registry, input)
  {
    hide OwnsRoot;
  }

  /** All a tick tells, in the words of what it was handed. */
  lemma TickTells(pending: Deriver.Pending, announced: set<ProjectId>, registry: Registry.RegistryDelta,
          topology: TopologyDelta, input: Collected, first: nat)
    ensures TellsTick(EventsOf(pending, announced, registry, topology, input, first), announced, registry, topology,
              input)
  {
    hide Deriver.Items, Deriver.Stamp, Deriver.Pick, Deriver.Kinds, Deriver.KindsOf, Deriver.Placed, Unannounced,
         FileEvents, Touches, OwnsRoot, Situated, NoRepeats, Elements;
    var (items, more) := (Deriver.Items(pending, registry, topology, input.at), Unannounced(announced, input.projects));
    var derived := Deriver.Stamp(items, first, input.at);
    var detected := Deriver.Stamp(more, first + |items|, input.at);
    var files := FileEvents(input.projects, input.changes, first + |items + more|);
    StampConcat(items, more, first, input.at);
    Deriver.ItemsTell(pending, registry, topology, input.at, first);
    UnannouncedExactly(announced, input.projects);
    FilesTouched(input.projects, input.changes, first + |items + more|);
    DeltaSort(derived, more, first + |items|, input.at, files, Deriver.AsOpened);
    DeltaSort(derived, more, first + |items|, input.at, files, Deriver.AsClosed);
    DeltaSort(derived, more, first + |items|, input.at, files, Deriver.AsHealth);
    DeltaSort(derived, more, first + |items|, input.at, files, Deriver.AsConnected);
    DeltaSort(derived, more, first + |items|, input.at, files, Deriver.AsDisconnected);
    NewSorts(derived, registry.projects, more, first + |items|, input.at, files);
    StampedSituated(more, first + |items|, registry, input);
    AllSituated(derived, files, registry, input);
  }

  // ------------------------------------------------------ projects over a run

  /** The projects announced by the ticks so far, in order. */
  function Detections(told: seq<Telling>): seq<ProjectId> {
    if told == [] then [] else
      var n := |told| - 1;
      Detections(told[..n]) + Deriver.Pick(Deriver.Kinds(told[n].events), AsDetected)
  }

  /** The ticks so far have announced these projects, each of them once. */
  ghost predicate Detects(told: seq<Telling>, announced: set<ProjectId>) {
    NoRepeats(Detections(told)) && Elements(Detections(told)) == announced
  }

  lemma DetectsMore(told: seq<Telling>, last: Telling, announced: set<ProjectId>, registry: Registry.RegistryDelta,
          topology: TopologyDelta, input: Collected)
    requires Detects(told, announced) && TellsTick(last.events, announced, registry, topology, input)
    ensures Detects(told + [last], announced + ProjectIds(input.projects))
  {
    var (before, now) := (Detections(told), Deriver.Pick(Deriver.Kinds(last.events), AsDetected));
    assert (told + [last])[..|told|] == told;
    hide Detections, Deriver.Pick, Touches, Situated;
    assert Elements(before + now) == Elements(before) + Elements(now);
    assert forall i :: 0 <= i < |before| ==> before[i] in Elements(before);
    assert forall i :: 0 <= i < |now| ==> now[i] in Elements(now);
    assert announced + ((set p | p in input.projects :: p.id) - announced) == announced + ProjectIds(input.projects);
  }

  lemma TimesSnoc(events: seq<Deriver.Event>, event: Deriver.Event)
    ensures TimesOf(events + [event]) == TimesOf(events) + [event.at] && |TimesOf(events)| == |events|
  {
  }

  lemma NoneYet(announced: set<ProjectId>, first: nat, at: Time)
    ensures Deriver.Stamp(Unannounced(announced, []), first, at) == [] && TimesOf([]) == [] && ProjectIds([]) == {}
  {
  }

  lemma NoneTouched(projects: seq<Project>, first: nat)
    ensures FileEvents(projects, [], first) == [] && TimesOf([]) == []
  {
  }

  lemma AnnounceStep(announced: set<ProjectId>, projects: seq<Project>, i: nat, first: nat, at: Time)
    requires i < |projects|
    ensures ProjectIds(projects[..i + 1]) == ProjectIds(projects[..i]) + {projects[i].id}
    ensures var (id, before) := (projects[i].id, Deriver.Stamp(Unannounced(announced, projects[..i]), first, at));
      Deriver.Stamp(Unannounced(announced, projects[..i + 1]), first, at)
      == if id in announced + ProjectIds(projects[..i]) then before
         else before + [Deriver.Event(Deriver.NthId(first + |before|, at), at, Some(id), Deriver.ProjectDetected(id))]
  {
    hide *;
    IdsSnoc(projects, i);
    UnannouncedSnoc(announced, projects, i);
    var id := projects[i].id;
    StampSnoc(Unannounced(announced, projects[..i]), Deriver.Item(Some(id), Deriver.ProjectDetected(id)), first, at);
  }

  lemma IdsSnoc(projects: seq<Project>, i: nat)
    requires i < |projects|
    ensures ProjectIds(projects[..i + 1]) == ProjectIds(projects[..i]) + {projects[i].id}
  {
    assert projects[..i + 1] == projects[..i] + [projects[i]];
  }

  lemma UnannouncedSnoc(announced: set<ProjectId>, projects: seq<Project>, i: nat)
    requires i < |projects|
    ensures var (id, before) := (projects[i].id, Unannounced(announced, projects[..i]));
      Unannounced(announced, projects[..i + 1])
      == if id in announced + ProjectIds(projects[..i]) then before
         else before + [Deriver.Item(Some(id), Deriver.ProjectDetected(id))]
  {
    hide ProjectIds;
    assert projects[..i + 1][..i] == projects[..i];
  }

  lemma StampSnoc(items: seq<Deriver.Item>, item: Deriver.Item, first: nat, at: Time)
    ensures Deriver.Stamp(items + [item], first, at)
         == Deriver.Stamp(items, first, at)
           + [Deriver.Event(Deriver.NthId(first + |items|, at), at, item.projectId, item.kind)]
    ensures |Deriver.Stamp(items, first, at)| == |items|
  {
    hide Deriver.NthId;
  }

  lemma TouchStep(projects: seq<Project>, changes: seq<FileChange>, i: nat, first: nat)
    requires i < |changes|
    ensures var (before, project) := (FileEvents(projects, changes[..i], first), ProjectAt(projects, changes[i].root));
      FileEvents(projects, changes[..i + 1], first)
      == if project.None? then before
         else before + [Deriver.Event(Deriver.NthId(first + |before|, changes[i].at), changes[i].at, project,
                                      Deriver.FileChanged(project.value, changes[i].path))]
  {
    hide Deriver.NthId, ProjectAt;
    assert changes[..i + 1][..i] == changes[..i];
  }

  lemma StampTimes(items: seq<Deriver.Item>, first: nat, at: Time)
    ensures |Deriver.Stamp(items, first, at)| == |items|
    ensures |TimesOf(Deriver.Stamp(items, first, at))| == |items|
    ensures TimesOf(Deriver.Stamp(items, first, at)) == seq(|items|, _ => at)
  {
  }

  lemma StampConcat(a: seq<Deriver.Item>, b: seq<Deriver.Item>, first: nat, at: Time)
    ensures Deriver.Stamp(a + b, first, at) == Deriver.Stamp(a, first, at) + Deriver.Stamp(b, first + |a|, at)
  {
  }

  lemma TimesConcat(a: seq<Deriver.Event>, b: seq<Deriver.Event>)
    ensures TimesOf(a + b) == TimesOf(a) + TimesOf(b)
  {
  }

  /** Events numbered one after the other, from `first` on. */
  predicate Consecutive(events: seq<Deriver.Event>, first: nat) {
    forall i :: 0 <= i < |events| ==> events[i].id == Deriver.NthId(first + i, events[i].at)
  }

  lemma ConsecutiveConcat(a: seq<Deriver.Event>, b: seq<Deriver.Event>, first: nat)
    requires Consecutive(a, first) && Consecutive(b, first + |a|)
    ensures Consecutive(a + b, first)
  {
    hide Deriver.NthId;
    forall i | 0 <= i < |a + b| ensures (a + b)[i].id == Deriver.NthId(first + i, (a + b)[i].at) {
      if i >= |a| {
        assert (a + b)[i] == b[i - |a|] && first + |a| + (i - |a|) == first + i;
      }
    }
  }

  lemma StampConsecutive(items: seq<Deriver.Item>, first: nat, at: Time)
    ensures Consecutive(Deriver.Stamp(items, first, at), first) && |Deriver.Stamp(items, first, at)| == |items|
  {
    hide Deriver.NthId;
  }

  /** Every event of a tick carries the next identifier of one sequence. */
  lemma IdsAreConsecutive(pending: Deriver.Pending, announced: set<ProjectId>, registry: Registry.RegistryDelta,
          topology: TopologyDelta, input: Collected, first: nat)
    ensures Consecutive(EventsOf(pending, announced, registry, topology, input, first), first)
  {
    hide Deriver.NthId, Deriver.Items, Unannounced, Consecutive, Deriver.Stamp, FileEvents;
    var items := Deriver.Items(pending, registry, topology, input.at) + Unannounced(announced, input.projects);
    StampConsecutive(items, first, input.at);
    FilesAreConsecutive(input.projects, input.changes, first + |items|);
    ConsecutiveConcat(Deriver.Stamp(items, first, input.at), FileEvents(input.projects, input.changes, first + |items|),
      first);
  }

  lemma {:induction false} FilesAreConsecutive(projects: seq<Project>, changes: seq<FileChange>, first: nat)
    ensures Consecutive(FileEvents(projects, changes, first), first)
  {
    hide Deriver.NthId, ProjectAt;
    if changes != [] {
      var n := |changes| - 1;
      FilesAreConsecutive(projects, changes[..n], first);
      assert changes[..n + 1] == changes;
      TouchStep(projects, changes, n, first);
      var before := FileEvents(projects, changes[..n], first);
      var all := FileEvents(projects, changes, first);
      assert |all| > |before| ==> all == before + [all[|before|]] && Consecutive([all[|before|]], first + |before|);
      if |all| > |before| {
        ConsecutiveConcat(before, [all[|before|]], first);
      }
    }
  }

  // -------------------------------------------------- identifiers over a run

  /** The events one tick told. */
  datatype Telling = Telling(at: Time, events: seq<Deriver.Event>)

  function CountBefore(told: seq<Telling>, k: nat): nat
    requires k <= |told|
  {
    if k == 0 then 0 else CountBefore(told, k - 1) + |told[k - 1].events|
  }

  /** Everything but a changed file is told at the time of the tick. */
  predicate OnTime(telling: Telling) {
    forall e :: e in telling.events ==> e.kind.FileChanged? || e.at == telling.at
  }

  /** All events of a run are numbered one after the other. */
  predicate IsNarration(told: seq<Telling>) {
    forall k :: 0 <= k < |told| ==> Consecutive(told[k].events, CountBefore(told, k)) && OnTime(told[k])
  }

  /** The run has told one event for each identifier minted. */
  predicate Narrates(told: seq<Telling>, minted: seq<Time>) {
    IsNarration(told) && CountBefore(told, |told|) == |minted|
  }

  lemma {:induction false} CountOfFront(told: seq<Telling>, more: seq<Telling>, k: nat)
    requires k <= |told|
    ensures CountBefore(told + more, k) == CountBefore(told, k)
  {
    if k > 0 {
      CountOfFront(told, more, k - 1);
    }
  }

  lemma {:induction false} TellingAdded(told: seq<Telling>, last: Telling, before: seq<Time>, minted: seq<Time>)
    requires Narrates(told, before) && minted == before + TimesOf(last.events)
    requires Consecutive(last.events, |before|) && OnTime(last)
    ensures Narrates(told + [last], minted)
  {
    hide Consecutive, OnTime, CountBefore, TimesOf;
    var all := told + [last];
    CountOfAll(told, last);
    TimesCount(last.events);
    forall k | 0 <= k < |all| ensures Consecutive(all[k].events, CountBefore(all, k)) && OnTime(all[k]) {
      CountOfFront(told, [last], k);
    }
  }

  lemma CountOfAll(told: seq<Telling>, last: Telling)
    ensures CountBefore(told + [last], |told| + 1) == CountBefore(told, |told|) + |last.events|
  {
    CountOfFront(told, [last], |told|);
  }

  lemma TimesCount(events: seq<Deriver.Event>)
    ensures |TimesOf(events)| == |events|
  {
  }

  lemma {:induction false} EventsAreTold(pending: Deriver.Pending, announced: set<ProjectId>,
          registry: Registry.RegistryDelta, topology: TopologyDelta, input: Collected, first: nat)
    ensures var events := EventsOf(pending, announced, registry, topology, input, first);
      Consecutive(events, first) && OnTime(Telling(input.at, events))
  {
    hide Deriver.NthId, Deriver.Items, Unannounced, Consecutive;
    IdsAreConsecutive(pending, announced, registry, topology, input, first);
    var items := Deriver.Items(pending, registry, topology, input.at) + Unannounced(announced, input.projects);
    FilesAreFiles(input.projects, input.changes, first + |items|);
  }

  lemma {:induction false} FilesAreFiles(projects: seq<Project>, changes: seq<FileChange>, first: nat)
    ensures forall e :: e in FileEvents(projects, changes, first) ==> e.kind.FileChanged?
  {
    hide Deriver.NthId, ProjectAt;
    if changes != [] {
      FilesAreFiles(projects, changes[..|changes| - 1], first);
    }
  }

  /** The event with index `i` of tick `a` is told before that with index `j` of
      tick `b`. */
  predicate ToldBefore(told: seq<Telling>, a: nat, i: nat, b: nat, j: nat) {
    && a < |told| && b < |told| && i < |told[a].events| && j < |told[b].events|
    && (a < b || (a == b && i < j))
  }

  lemma {:induction false} CountGrows(told: seq<Telling>, a: nat, b: nat)
    requires a < b <= |told|
    ensures CountBefore(told, a) + |told[a].events| <= CountBefore(told, b)
  {
    if a + 1 < b {
      CountGrows(told, a, b - 1);
    }
  }

  lemma {:induction false} NumbersGrow(told: seq<Telling>, a: nat, i: nat, b: nat, j: nat)
    requires ToldBefore(told, a, i, b, j)
    ensures CountBefore(told, a) + i < CountBefore(told, b) + j < CountBefore(told, |told|)
  {
    CountGrows(told, b, |told|);
    if a < b {
      CountGrows(told, a, b);
    }
  }

  /** Over a whole run, two events sort by the millisecond they carry, a changed
      file by when it changed; within one millisecond in the order they were
      told, exactly when their sequence numbers still sort as strings. */
  lemma {:induction false} ToldIdsSort(told: seq<Telling>, a: nat, i: nat, b: nat, j: nat)
    requires IsNarration(told) && ToldBefore(told, a, i, b, j) && CountBefore(told, |told|) < U32_LIMIT
    requires Deriver.Millis(told[a].events[i].at) < MILLIS_FIT && Deriver.Millis(told[b].events[j].at) < MILLIS_FIT
    ensures var (e, f) := (told[a].events[i], told[b].events[j]);
      var (n, m) := (CountBefore(told, a) + i, CountBefore(told, b) + j);
      var inOrder := Deriver.Millis(e.at) < Deriver.Millis(f.at)
        || (Deriver.Millis(e.at) == Deriver.Millis(f.at) && SequencesKeepOrder(n + 1, m + 1));
      if inOrder then StringLess(e.id, f.id) && !StringLess(f.id, e.id)
      else StringLess(f.id, e.id) && !StringLess(e.id, f.id)
  {
    hide Deriver.NthId, Deriver.Millis, SequencesKeepOrder, StringLess, CountBefore;
    NumbersGrow(told, a, i, b, j);
    Deriver.NthIdsSort(CountBefore(told, a) + i, told[a].events[i].at, CountBefore(told, b) + j, told[b].events[j].at);
  }

  /** Changed files aside, while the times of the ticks do not go back, the
      first 2^24 events sort in the order they were told. */
  lemma {:induction false} TickIdsSort(told: seq<Telling>, a: nat, i: nat, b: nat, j: nat)
    requires IsNarration(told) && ToldBefore(told, a, i, b, j) && CountBefore(told, |told|) < SEQUENCE_FITS
    requires forall k, l :: 0 <= k < l < |told| ==> told[k].at <= told[l].at
    requires !told[a].events[i].kind.FileChanged? && !told[b].events[j].kind.FileChanged?
    requires Deriver.Millis(told[b].at) < MILLIS_FIT
    ensures StringLess(told[a].events[i].id, told[b].events[j].id)
  {
    hide Consecutive, SequencesKeepOrder, StringLess, CountBefore;
    var (e, f) := (told[a].events[i], told[b].events[j]);
    assert e in told[a].events && f in told[b].events;
    assert OnTime(told[a]) && OnTime(told[b]);
    assert e.at <= f.at;
    NumbersGrow(told, a, i, b, j);
    ToldIdsSort(told, a, i, b, j);
    Deriver.EarlySequencesKeepOrder(CountBefore(told, a) + i + 1, CountBefore(told, b) + j + 1);
  }

  lemma SteppedRegistry(before: World, tick: Announcing.Tick, after: World, frames: seq<Frames.Frame>)
    requires Stepped(before, tick, after, frames)
    ensures Registry.Sound(before.held, tick.seen) && Registry.Describes(tick.registry, before.held, tick.seen, tick.at)
    ensures after.held == Registry.After(before.held, tick.seen, tick.at)
  {
  }

  lemma Completed(before: World, tick: Announcing.Tick, after: World, frames: seq<Frames.Frame>)
    requires WorldSound(before) && TickOk(before, tick)
    requires after == Ticked(before, tick) && frames == FramesOf(before, tick)
    ensures Stepped(before, tick, after, frames) && WorldOk(after)
  {
    TickKeepsWorld(before, tick);
  }

  lemma StepTaken(steps: seq<Runs.Step>, step: Runs.Step)
    requires Runs.IsRun(steps)
    requires Registry.Sound(Runs.Held(steps), step.seen)
        && Registry.Describes(step.delta, Runs.Held(steps), step.seen, step.at)
    ensures Runs.IsRun(steps + [step])
    ensures Runs.Held(steps + [step]) == Registry.After(Runs.Held(steps), step.seen, step.at)
    ensures Timeline.PendingOf(steps + [step]) == Deriver.PendingAfter(Timeline.PendingOf(steps), step.delta, step.at)
  {
    hide Registry.Sound, Registry.Describes, Registry.After, Deriver.PendingAfter;
    assert (steps + [step])[..|steps|] == steps;
  }

  lemma {:induction false} ByIdIs(services: seq<Service>, id: ServiceId)
    ensures id in ById(services) ==> ById(services)[id] in services && ById(services)[id].id == id
    ensures (exists s :: s in services && s.id == id) ==> id in ById(services)
  {
    if services != [] {
      var n := |services| - 1;
      assert services == services[..n] + [services[n]];
      ByIdIs(services[..n], id);
    }
  }

  lemma FindMember(services: seq<Service>, s: Service)
    requires Frames.Distinct(services, Frames.ServiceKey) && s in services
    ensures Find(services, Frames.ServiceKey, s.id) == Some(s)
  {
    var i :| 0 <= i < |services| && services[i] == s;
    FindByIndex(services, Frames.ServiceKey, i);
  }

  lemma ListedOne(services: Services, id: ServiceId)
    requires forall i :: i in services ==> services[i].id == i
    ensures id in ById(ListOf(services)) <==> id in services
    ensures id in services ==> ById(ListOf(services))[id] == services[id]
  {
    hide ListOf, ById;
    var list := ListOf(services);
    FindListed(services, id);
    ByIdIs(list, id);
    FindIs(list, Frames.ServiceKey, id);
    if id in ById(list) {
      FindMember(list, ById(list)[id]);
    }
  }

  /** Listing the services and collecting them again changes nothing. */
  lemma ListedById(held: map<ServiceId, Registry.Entered>)
    requires Registry.Wf(held)
    ensures ById(ListOf(ServicesOf(held))) == ServicesOf(held)
  {
    hide ListOf, ById;
    ServicesKeyed(held);
    forall id {
      ListedOne(ServicesOf(held), id);
    }
  }
}
