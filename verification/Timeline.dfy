/** The registry and the event deriver driven in lock-step: what the timeline
    says about the life of each service, over whole runs. */
module Timeline {
  import opened Basics
  import opened Model
  import opened Sorting
  import opened Registry
  import opened RegistryRuns
  import opened Deriver

  predicate IsLifeOf(kind: EventKind, id: ServiceId) {
    (kind.ServiceStarted? || kind.ServiceStopped? || kind.ServiceRestarted?) && kind.service == id
  }

  /** The lifecycle events of one service, in order. */
  function About(items: seq<Item>, id: ServiceId): seq<EventKind> {
    if items == [] then [] else
      var n := |items| - 1;
      About(items[..n], id) + (if IsLifeOf(items[n].kind, id) then [items[n].kind] else [])
  }

  lemma {:induction false} AboutConcat(a: seq<Item>, b: seq<Item>, id: ServiceId)
    ensures About(a + b, id) == About(a, id) + About(b, id)
  {
    if b == [] {
      assert a + b == a;
    } else {
      var n := |b| - 1;
      assert (a + b)[..|a + b| - 1] == a + b[..n];
      AboutConcat(a, b[..n], id);
    }
  }

  lemma {:induction false} NothingAbout(items: seq<Item>, id: ServiceId)
    requires forall i :: 0 <= i < |items| ==> !IsLifeOf(items[i].kind, id)
    ensures About(items, id) == []
  {
    if items != [] {
      NothingAbout(items[..|items| - 1], id);
    }
  }

  // --------------------------------------------- one service, one derivation

  datatype Reported = Reported(events: seq<EventKind>, waiting: Option<StopInfo>)

  /** A stop that may have waited long enough. */
  function Flushed(id: ServiceId, waiting: Option<StopInfo>, at: Time): Reported {
    if waiting.Some? && Settled(waiting.value, at)
    then Reported([ServiceStopped(id, waiting.value.pid)], None)
    else Reported([], waiting)
  }

  /** What one derivation says about one service whose stop may be waiting. */
  function Report(id: ServiceId, waiting: Option<StopInfo>, change: Change, at: Time): Reported {
    match change
    case Stop(pid) => Reported([], Some(StopInfo(at, pid)))
    case Restart(a, b) =>
      var flushed := Flushed(id, waiting, at);
      flushed.(events := [ServiceRestarted(id, a, b)] + flushed.events)
    case Quiet => Flushed(id, waiting, at)
    case Start(pid) =>
      Reported(
        match waiting
        case None => [ServiceStarted(id, pid)]
        case Some(stop) =>
          if Settled(stop, at) then [ServiceStopped(id, stop.pid), ServiceStarted(id, pid)]
          else [ServiceRestarted(id, stop.pid, pid)],
        None)
  }

  /** The delta's vectors say `change` about `id`, at most once. */
  ghost predicate Tells(delta: RegistryDelta, id: ServiceId, change: Change) {
    && PairsAscend(delta.started) && PairsAscend(delta.stopped) && TriplesAscend(delta.restarted)
    && (forall pid :: (id, pid) in delta.started <==> change == Start(pid))
    && (forall pid :: (id, pid) in delta.stopped <==> change == Stop(pid))
    && (forall a, b :: (id, a, b) in delta.restarted <==> change == Restart(a, b))
  }

  lemma {:induction false} StopsOf(pending: Pending, stopped: seq<(ServiceId, Option<Pid>)>, at: Time, id: ServiceId)
    requires PairsAscend(stopped)
    ensures forall pid :: (id, pid) in stopped ==> Lookup(AddStops(pending, stopped, at), id) == Some(StopInfo(at, pid))
    ensures (forall pid :: (id, pid) !in stopped) ==> Lookup(AddStops(pending, stopped, at), id) == Lookup(pending, id)
  {
    if stopped != [] {
      var n := |stopped| - 1;
      var last := stopped[n];
      assert stopped == stopped[..n] + [last];
      assert last == (last.0, last.1);
      StopsOf(pending, stopped[..n], at, id);
    }
  }

  lemma {:induction false} NotStartedHere(pending: Pending, started: seq<(ServiceId, Option<Pid>)>, projects: Projects,
          at: Time, id: ServiceId)
    requires forall i :: 0 <= i < |started| ==> started[i].0 != id
    ensures Lookup(WithoutStarted(pending, started), id) == Lookup(pending, id)
    ensures About(AllStartItems(pending, started, projects, at), id) == []
  {
    if started != [] {
      var n := |started| - 1;
      NotStartedHere(pending, started[..n], projects, at, id);
      var other := started[n].0;
      var waiting := Lookup(WithoutStarted(pending, started[..n]), other);
      var items := StartItems(other, started[n].1, waiting, ProjectFor(projects, other), at);
      OtherStartItems(other, started[n].1, waiting, ProjectFor(projects, other), at, id);
      hide StartItems, About, ProjectFor;
      AboutConcat(AllStartItems(pending, started[..n], projects, at), items, id);
    }
  }

  lemma AboutStartItems(id: ServiceId, pid: Option<Pid>, waiting: Option<StopInfo>, project: Option<ProjectId>,
          at: Time)
    ensures About(StartItems(id, pid, waiting, project, at), id) == Report(id, waiting, Start(pid), at).events
  {
    var items := StartItems(id, pid, waiting, project, at);
    if |items| == 2 {
      assert items == [items[0]] + [items[1]];
      AboutConcat([items[0]], [items[1]], id);
    }
  }

  lemma {:induction false} StartsOf(pending: Pending, started: seq<(ServiceId, Option<Pid>)>, projects: Projects,
          at: Time, id: ServiceId, pid: Option<Pid>)
    requires PairsAscend(started) && (id, pid) in started
    ensures Lookup(WithoutStarted(pending, started), id) == None
    ensures About(AllStartItems(pending, started, projects, at), id)
        == Report(id, Lookup(pending, id), Start(pid), at).events
  {
    hide Report, StartItems;
    var n := |started| - 1;
    var (other, otherPid) := started[n];
    var waiting := Lookup(WithoutStarted(pending, started[..n]), other);
    var items := StartItems(other, otherPid, waiting, ProjectFor(projects, other), at);
    AboutConcat(AllStartItems(pending, started[..n], projects, at), items, id);
    assert started == started[..n] + [started[n]];
    if other == id {
      NotStartedHere(pending, started[..n], projects, at, id);
      AboutStartItems(id, otherPid, waiting, ProjectFor(projects, other), at);
    } else {
      StartsOf(pending, started[..n], projects, at, id, pid);
      OtherStartItems(other, otherPid, waiting, ProjectFor(projects, other), at, id);
    }
  }

  lemma OtherStartItems(other: ServiceId, pid: Option<Pid>, waiting: Option<StopInfo>, project: Option<ProjectId>,
          at: Time, id: ServiceId)
    requires other != id
    ensures About(StartItems(other, pid, waiting, project, at), id) == []
  {
    NothingAbout(StartItems(other, pid, waiting, project, at), id);
  }

  lemma {:induction false} RestartsOf(restarted: seq<(ServiceId, Option<Pid>, Option<Pid>)>, projects: Projects,
          id: ServiceId)
    requires TriplesAscend(restarted)
    ensures forall a, b ::
      (id, a, b) in restarted ==> About(RestartItems(restarted, projects), id) == [ServiceRestarted(id, a, b)]
    ensures (forall a, b :: (id, a, b) !in restarted) ==> About(RestartItems(restarted, projects), id) == []
  {
    if restarted != [] {
      var n := |restarted| - 1;
      var last := restarted[n];
      assert restarted == restarted[..n] + [last];
      assert last == (last.0, last.1, last.2);
      assert RestartItems(restarted, projects)[..n] == RestartItems(restarted[..n], projects);
      RestartsOf(restarted[..n], projects, id);
    }
  }

  lemma AboutFlushItem(other: ServiceId, stop: StopInfo, projects: Projects, at: Time, id: ServiceId)
    ensures About(FlushItem(other, stop, projects, at), id)
        == if other == id then Flushed(id, Some(stop), at).events else []
  {
  }

  lemma {:induction false} FlushesOf(pending: Pending, keys: seq<ServiceId>, projects: Projects, at: Time,
          id: ServiceId)
    requires StrictlyAscending(keys) && forall k :: k in keys ==> k in pending
    ensures About(FlushItems(pending, keys, projects, at), id)
         == if id in keys then Flushed(id, Some(pending[id]), at).events else []
  {
    hide FlushItem, Flushed;
    if keys != [] {
      var n := |keys| - 1;
      assert keys == keys[..n] + [keys[n]];
      FlushesOf(pending, keys[..n], projects, at, id);
      AboutConcat(FlushItems(pending, keys[..n], projects, at), FlushItem(keys[n], pending[keys[n]], projects, at), id);
      AboutFlushItem(keys[n], pending[keys[n]], projects, at, id);
    }
  }

  lemma FlushedAll(pending: Pending, projects: Projects, at: Time, id: ServiceId)
    ensures forall k :: k in Keys(pending.Keys) ==> k in pending
    ensures About(FlushItems(pending, Keys(pending.Keys), projects, at), id)
        == Flushed(id, Lookup(pending, id), at).events
    ensures Lookup(StillPending(pending, at), id) == Flushed(id, Lookup(pending, id), at).waiting
  {
    PartialEnds(pending, at);
    var keys := Keys(pending.Keys);
    assert id in keys <==> id in Elements(keys);
    FlushesOf(pending, keys, projects, at, id);
  }

  lemma StartsEffect(pending: Pending, started: seq<(ServiceId, Option<Pid>)>, projects: Projects, at: Time,
          id: ServiceId, change: Change)
    requires PairsAscend(started) && forall pid :: (id, pid) in started <==> change == Start(pid)
    ensures change.Start? ==>
      && Lookup(WithoutStarted(pending, started), id) == None
      && About(AllStartItems(pending, started, projects, at), id) == Report(id, Lookup(pending, id), change, at).events
    ensures !change.Start? ==>
      && Lookup(WithoutStarted(pending, started), id) == Lookup(pending, id)
      && About(AllStartItems(pending, started, projects, at), id) == []
  {
    hide Report, AllStartItems, WithoutStarted;
    if change.Start? {
      StartsOf(pending, started, projects, at, id, change.pid);
    } else {
      assert forall i :: 0 <= i < |started| ==> started[i] == (started[i].0, started[i].1) && started[i] in started;
      NotStartedHere(pending, started, projects, at, id);
    }
  }

  lemma StopsEffect(pending: Pending, stopped: seq<(ServiceId, Option<Pid>)>, at: Time, id: ServiceId, change: Change)
    requires PairsAscend(stopped) && forall pid :: (id, pid) in stopped <==> change == Stop(pid)
    ensures Lookup(AddStops(pending, stopped, at), id)
        == if change.Stop? then Some(StopInfo(at, change.lastPid)) else Lookup(pending, id)
  {
    hide AddStops, PairsAscend, Lookup;
    StopsOf(pending, stopped, at, id);
    if change.Stop? {
      assert (id, change.lastPid) in stopped;
    }
  }

  lemma RestartsEffect(restarted: seq<(ServiceId, Option<Pid>, Option<Pid>)>, projects: Projects, id: ServiceId,
          change: Change)
    requires TriplesAscend(restarted) && forall a, b :: (id, a, b) in restarted <==> change == Restart(a, b)
    ensures About(RestartItems(restarted, projects), id)
        == if change.Restart? then [ServiceRestarted(id, change.oldPid, change.newPid)] else []
  {
    hide RestartItems, TriplesAscend, About;
    RestartsOf(restarted, projects, id);
    if change.Restart? {
      assert (id, change.oldPid, change.newPid) in restarted;
    }
  }

  /** Stops recorded, starts resolved, restarts told, the rest flushed. */
  lemma ReportInSteps(id: ServiceId, waiting: Option<StopInfo>, change: Change, at: Time)
    ensures var recorded := if change.Stop? then Some(StopInfo(at, change.lastPid)) else waiting;
      var starts := if change.Start? then Report(id, recorded, change, at).events else [];
      var restarts := if change.Restart? then [ServiceRestarted(id, change.oldPid, change.newPid)] else [];
      var flushed := Flushed(id, if change.Start? then None else recorded, at);
      Report(id, waiting, change, at) == Reported(starts + restarts + flushed.events, flushed.waiting)
  {
    assert forall q: seq<EventKind> :: q + [] == q && [] + q == q;
  }

  /** One derivation treats every service on its own: its lifecycle events and
      its waiting stop depend on its own change and nothing else. */
  lemma DerivationIsPerService(pending: Pending, delta: RegistryDelta, topology: TopologyDelta, at: Time, id: ServiceId,
          change: Change)
    requires Tells(delta, id, change)
    ensures About(Items(pending, delta, topology, at), id) == Report(id, Lookup(pending, id), change, at).events
    ensures Lookup(PendingAfter(pending, delta, at), id) == Report(id, Lookup(pending, id), change, at).waiting
  {
    hide AllStartItems, WithoutStarted, AddStops, RestartItems, FlushItems, StillPending, PairsAscend, TriplesAscend,
         Report, Flushed, About, Items, LifeItems, Keys, Lookup;
    var waiting := AddStops(pending, delta.stopped, at);
    var left := WithoutStarted(waiting, delta.started);
    StopsEffect(pending, delta.stopped, at, id, change);
    StartsEffect(waiting, delta.started, delta.projects, at, id, change);
    RestartsEffect(delta.restarted, delta.projects, id, change);
    FlushedAll(left, delta.projects, at, id);
    LifeItemsAbout(pending, delta, at, id);
    LifeIsInLifeItems(pending, delta, topology, at, id);
    ReportInSteps(id, Lookup(pending, id), change, at);
  }

  lemma LifeItemsAbout(pending: Pending, delta: RegistryDelta, at: Time, id: ServiceId)
    ensures var waiting := AddStops(pending, delta.stopped, at);
      var left := WithoutStarted(waiting, delta.started);
      && (forall k :: k in Keys(left.Keys) ==> k in left)
      && About(LifeItems(pending, delta, at), id)
         == About(AllStartItems(waiting, delta.started, delta.projects, at), id)
            + About(RestartItems(delta.restarted, delta.projects), id)
            + About(FlushItems(left, Keys(left.Keys), delta.projects, at), id)
  {
    hide AllStartItems, WithoutStarted, AddStops, RestartItems, FlushItems, About;
    var waiting := AddStops(pending, delta.stopped, at);
    var left := WithoutStarted(waiting, delta.started);
    PartialEnds(left, at);
    var starts := AllStartItems(waiting, delta.started, delta.projects, at);
    var restarts := RestartItems(delta.restarted, delta.projects);
    AboutConcat(starts, restarts, id);
    AboutConcat(starts + restarts, FlushItems(left, Keys(left.Keys), delta.projects, at), id);
  }

  lemma LifeIsInLifeItems(pending: Pending, delta: RegistryDelta, topology: TopologyDelta, at: Time, id: ServiceId)
    ensures About(Items(pending, delta, topology, at), id) == About(LifeItems(pending, delta, at), id)
  {
    hide LifeItems;
    var life := LifeItems(pending, delta, at);
    var o, c := OpenedItems(delta.portsOpened, delta.projects), ClosedItems(delta.portsClosed, delta.projects);
    var h, t := HealthItems(delta.healthChanged, delta.projects), TopologyItems(topology);
    NothingAbout(o, id);
    NothingAbout(c, id);
    NothingAbout(h, id);
    NothingAbout(t, id);
    AboutConcat(life, o, id);
    AboutConcat(life + o, c, id);
    AboutConcat(life + o + c, h, id);
    AboutConcat(life + o + c + h, t, id);
  }

  // --------------------------------------------------------------------- runs

  /** The stops waiting after a run. */
  function PendingOf(steps: seq<Step>): Pending {
    if steps == [] then map[] else
      var n := |steps| - 1;
      PendingAfter(PendingOf(steps[..n]), steps[n].delta, steps[n].at)
  }

  function WaitingFor(steps: seq<Step>, id: ServiceId): Option<StopInfo> {
    Lookup(PendingOf(steps), id)
  }

  /** What really happened to a service in one batch of a run. */
  function ChangeAt(steps: seq<Step>, j: nat, id: ServiceId): Change
    requires j < |steps|
  {
    ChangeOf(Lookup(Held(steps[..j]), id), Lookup(steps[j].seen, id))
  }

  /** What the deriver said about it in the same tick. */
  function EventsAt(steps: seq<Step>, j: nat, id: ServiceId): seq<EventKind>
    requires j < |steps|
  {
    About(LifeItems(PendingOf(steps[..j]), steps[j].delta, steps[j].at), id)
  }

  /** The lifecycle events of one service over a run. */
  function Word(steps: seq<Step>, id: ServiceId): seq<EventKind> {
    if steps == [] then [] else
      var n := |steps| - 1;
      Word(steps[..n], id) + EventsAt(steps, n, id)
  }

  predicate Running(held: map<ServiceId, Entered>, id: ServiceId) {
    id in held && IsRunning(held[id].service)
  }

  /** After a batch exactly the observed services run; the change says what
      that means for a service. */
  lemma StepLife(held: map<ServiceId, Entered>, seen: map<ServiceId, Finished>, at: Time, id: ServiceId)
    requires Wf(held) && Sound(held, seen)
    ensures Running(After(held, seen, at), id) <==> id in seen
    ensures match ChangeOf(Lookup(held, id), Lookup(seen, id))
      case Start(_) => !Running(held, id) && id in seen
      case Stop(_) => Running(held, id) && id !in seen
      case Restart(_, _) => Running(held, id) && id in seen
      case Quiet => Running(held, id) <==> id in seen
  {
    hide WfEntered, WfFinished, Reconcile, Overlaps, RetainWhenStopped, EvictedBefore;
    if id in held.Keys + seen.Keys {
      ReconcileKeepsWf(id, Lookup(held, id), Lookup(seen, id), at);
    }
  }

  lemma DescribesTells(held: map<ServiceId, Entered>, seen: map<ServiceId, Finished>, at: Time, delta: RegistryDelta,
          id: ServiceId)
    requires Describes(delta, held, seen, at)
    ensures Tells(delta, id, ChangeOf(Lookup(held, id), Lookup(seen, id)))
  {
    hide Evicted, ChangeOf, Reconcile, PairsAscend, TriplesAscend, PortsAscend, NoRepeats;
    var pieces := Pieces(held, seen, at);
    var change := ChangeOf(Lookup(held, id), Lookup(seen, id));
    NothingChanges();
    assert id in pieces ==> pieces[id].change == change;
    assert id !in pieces ==> change == Quiet;
  }

  lemma NothingChanges()
    ensures ChangeOf(None, None) == Quiet
  {
  }

  lemma StepReports(steps: seq<Step>, id: ServiceId)
    requires IsRun(steps) && steps != []
    ensures var n := |steps| - 1;
      && EventsAt(steps, n, id) == Report(id, WaitingFor(steps[..n], id), ChangeAt(steps, n, id), steps[n].at).events
      && WaitingFor(steps, id) == Report(id, WaitingFor(steps[..n], id), ChangeAt(steps, n, id), steps[n].at).waiting
  {
    hide Report, PendingAfter, LifeItems, Items, Describes, Sound, Tells, ChangeOf;
    var n := |steps| - 1;
    var (front, step) := (steps[..n], steps[n]);
    DescribesTells(Held(front), step.seen, step.at, step.delta, id);
    DerivationIsPerService(PendingOf(front), step.delta, TopologyDelta([], []), step.at, id, ChangeAt(steps, n, id));
    LifeIsInLifeItems(PendingOf(front), step.delta, TopologyDelta([], []), step.at, id);
  }

  // ----------------------------------------------------------------- legality

  datatype Life = Down | Up | Broken

  /** What an event may follow, and what it leads to. */
  function Advance(life: Life, kind: EventKind): Life {
    match (life, kind)
    case (Down, ServiceStarted(_, _)) => Up
    case (Up, ServiceRestarted(_, _, _)) => Up
    case (Up, ServiceStopped(_, _)) => Down
    case _ => Broken
  }

  function Follow(life: Life, word: seq<EventKind>): Life {
    if word == [] then life else Advance(Follow(life, word[..|word| - 1]), word[|word| - 1])
  }

  lemma {:induction false} FollowConcat(life: Life, a: seq<EventKind>, b: seq<EventKind>)
    ensures Follow(life, a + b) == Follow(Follow(life, a), b)
  {
    if b == [] {
      assert a + b == a;
    } else {
      assert (a + b)[..|a + b| - 1] == a + b[..|b| - 1];
      FollowConcat(life, a, b[..|b| - 1]);
    }
  }

  /** Where a service stands, to a reader of the timeline: running, or stopped
      so recently that the stop has not been told. */
  function Standing(steps: seq<Step>, id: ServiceId): Life {
    if Running(Held(steps), id) || WaitingFor(steps, id).Some? then Up else Down
  }

  lemma FollowOne(life: Life, kind: EventKind)
    ensures Follow(life, [kind]) == Advance(life, kind)
  {
    assert [kind][..0] == [];
  }

  lemma ReportIsLegal(id: ServiceId, waiting: Option<StopInfo>, change: Change, at: Time, was: bool, now: bool)
    requires !(was && waiting.Some?)
    requires match change
      case Start(_) => !was && now
      case Stop(_) => was && !now
      case Restart(_, _) => was && now
      case Quiet => was <==> now
    ensures var report := Report(id, waiting, change, at);
      && !(now && report.waiting.Some?)
      && Follow(if was || waiting.Some? then Up else Down, report.events)
        == if now || report.waiting.Some? then Up else Down
  {
    var report := Report(id, waiting, change, at);
    var life := if was || waiting.Some? then Up else Down;
    if |report.events| == 1 {
      assert report.events == [report.events[0]];
      FollowOne(life, report.events[0]);
    } else if |report.events| == 2 {
      assert report.events == [report.events[0]] + [report.events[1]];
      FollowConcat(life, [report.events[0]], [report.events[1]]);
      FollowOne(life, report.events[0]);
      FollowOne(Advance(life, report.events[0]), report.events[1]);
    }
  }

  /** Over every run the lifecycle events of a service alternate as they
      should, and say Up exactly while it runs or its stop is still waiting;
      never both. */
  lemma {:induction false} TimelineIsLegal(steps: seq<Step>, id: ServiceId)
    requires IsRun(steps)
    ensures Follow(Down, Word(steps, id)) == Standing(steps, id)
    ensures !(Running(Held(steps), id) && WaitingFor(steps, id).Some?)
  {
    hide Report, After, EventsAt, ChangeAt, Describes, Wf, Sound, IsRunning, WaitingFor, PendingOf;
    if steps == [] {
      NoneWaitsAtFirst(id);
    } else {
      var n := |steps| - 1;
      var (front, step) := (steps[..n], steps[n]);
      TimelineIsLegal(front, id);
      RunKeepsWf(front);
      StepLife(Held(front), step.seen, step.at, id);
      ChangeIs(steps, n, id);
      StepReports(steps, id);
      FollowConcat(Down, Word(front, id), EventsAt(steps, n, id));
      ReportIsLegal(id, WaitingFor(front, id), ChangeAt(steps, n, id), step.at, Running(Held(front), id),
        Running(Held(steps), id));
    }
  }

  lemma NoneWaitsAtFirst(id: ServiceId)
    ensures WaitingFor([], id) == None
  {
  }

  lemma ChangeIs(steps: seq<Step>, j: nat, id: ServiceId)
    requires j < |steps|
    ensures ChangeAt(steps, j, id) == ChangeOf(Lookup(Held(steps[..j]), id), Lookup(steps[j].seen, id))
  {
  }

  // ------------------------------------------------------------- conservation

  datatype Tally = Tally(starts: nat, stops: nat, restarts: nat)

  function Plus(a: Tally, b: Tally): Tally {
    Tally(a.starts + b.starts, a.stops + b.stops, a.restarts + b.restarts)
  }

  function Weight(kind: EventKind): Tally {
    match kind
    case ServiceStarted(_, _) => Tally(1, 0, 0)
    case ServiceStopped(_, _) => Tally(0, 1, 0)
    case ServiceRestarted(_, _, _) => Tally(0, 0, 1)
    case _ => Tally(0, 0, 0)
  }

  /** How often each kind of lifecycle event occurs. */
  function TallyOf(word: seq<EventKind>): Tally {
    if word == [] then Tally(0, 0, 0) else Plus(TallyOf(word[..|word| - 1]), Weight(word[|word| - 1]))
  }

  /** Transitions the registry reported for one service. */
  function Transitions(steps: seq<Step>, id: ServiceId): Tally {
    if steps == [] then Tally(0, 0, 0) else
      var n := |steps| - 1;
      var before := Transitions(steps[..n], id);
      match ChangeAt(steps, n, id)
      case Start(_) => before.(starts := before.starts + 1)
      case Stop(_) => before.(stops := before.stops + 1)
      case Restart(_, _) => before.(restarts := before.restarts + 1)
      case Quiet => before
  }

  /** Starts that came soon enough after a stop to be told as one restart. */
  function Debounced(steps: seq<Step>, id: ServiceId): nat {
    if steps == [] then 0 else
      var n := |steps| - 1;
      Debounced(steps[..n], id) + MergedNow(ChangeAt(steps, n, id), WaitingFor(steps[..n], id), steps[n].at)
  }

  lemma {:induction false} TallyConcat(a: seq<EventKind>, b: seq<EventKind>)
    ensures TallyOf(a + b) == Plus(TallyOf(a), TallyOf(b))
  {
    hide Weight;
    if b == [] {
      assert a + b == a;
    } else {
      assert (a + b)[..|a + b| - 1] == a + b[..|b| - 1];
      TallyConcat(a, b[..|b| - 1]);
    }
  }

  lemma TallyOne(kind: EventKind)
    ensures TallyOf([kind]) == Weight(kind)
  {
    assert [kind][..0] == [];
  }

  lemma TallyTwo(first: EventKind, second: EventKind)
    ensures TallyOf([first, second]) == Plus(Weight(first), Weight(second))
  {
    hide Weight;
    TallyOne(first);
    TallyOne(second);
    assert [first, second] == [first] + [second];
    TallyConcat([first], [second]);
  }

  function Pending01(waiting: Option<StopInfo>): nat {
    if waiting.Some? then 1 else 0
  }

  function FlushTally(waiting: Option<StopInfo>, at: Time): Tally {
    Tally(0, if waiting.Some? && Settled(waiting.value, at) then 1 else 0, 0)
  }

  lemma FlushedTally(id: ServiceId, waiting: Option<StopInfo>, at: Time)
    ensures TallyOf(Flushed(id, waiting, at).events) == FlushTally(waiting, at)
  {
    hide TallyOf;
    TallyNone();
    if waiting.Some? { TallyOne(ServiceStopped(id, waiting.value.pid)); }
  }

  lemma RestartTally(id: ServiceId, waiting: Option<StopInfo>, a: Option<Pid>, b: Option<Pid>, at: Time)
    ensures TallyOf(Report(id, waiting, Restart(a, b), at).events) == Plus(Tally(0, 0, 1), FlushTally(waiting, at))
  {
    hide TallyOf, FlushTally;
    FlushedTally(id, waiting, at);
    TallyOne(ServiceRestarted(id, a, b));
    TallyConcat([ServiceRestarted(id, a, b)], Flushed(id, waiting, at).events);
  }

  lemma StartTally(id: ServiceId, waiting: Option<StopInfo>, pid: Option<Pid>, at: Time)
    ensures TallyOf(Report(id, waiting, Start(pid), at).events)
         == if waiting.None? then Tally(1, 0, 0)
            else if Settled(waiting.value, at) then Tally(1, 1, 0)
            else Tally(0, 0, 1)
  {
    hide TallyOf, Settled;
    TallyOne(ServiceStarted(id, pid));
    if waiting.Some? {
      TallyOne(ServiceRestarted(id, waiting.value.pid, pid));
      TallyTwo(ServiceStopped(id, waiting.value.pid), ServiceStarted(id, pid));
    }
  }

  function MergedNow(change: Change, waiting: Option<StopInfo>, at: Time): nat {
    if change.Start? && waiting.Some? && !Settled(waiting.value, at) then 1 else 0
  }

  lemma ReportTally(id: ServiceId, waiting: Option<StopInfo>, change: Change, at: Time)
    requires change.Stop? ==> waiting.None?
    ensures var report := Report(id, waiting, change, at); var told := TallyOf(report.events);
      && told.starts + MergedNow(change, waiting, at) == (if change.Start? then 1 else 0)
      && told.restarts == (if change.Restart? then 1 else 0) + MergedNow(change, waiting, at)
      && told.stops + MergedNow(change, waiting, at) + Pending01(report.waiting)
        == (if change.Stop? then 1 else 0) + Pending01(waiting)
  {
    ReportToldBy(id, waiting, change, at);
    StillWaits(id, waiting, change, at);
    hide TallyOf, Settled, Report;
  }

  /** What a report tells, counted. */
  function ToldBy(waiting: Option<StopInfo>, change: Change, at: Time): Tally {
    match change
    case Stop(_) => Tally(0, 0, 0)
    case Quiet => FlushTally(waiting, at)
    case Restart(_, _) => Plus(Tally(0, 0, 1), FlushTally(waiting, at))
    case Start(_) =>
      if waiting.None? then Tally(1, 0, 0)
      else if Settled(waiting.value, at) then Tally(1, 1, 0)
      else Tally(0, 0, 1)
  }

  lemma ReportToldBy(id: ServiceId, waiting: Option<StopInfo>, change: Change, at: Time)
    ensures TallyOf(Report(id, waiting, change, at).events) == ToldBy(waiting, change, at)
  {
    hide TallyOf, Settled, FlushTally, Flushed, Plus;
    match change {
      case Stop(_) => TallyNone();
      case Quiet => FlushedTally(id, waiting, at);
      case Restart(a, b) => RestartTally(id, waiting, a, b, at);
      case Start(pid) => StartTally(id, waiting, pid, at);
    }
  }

  lemma StillWaits(id: ServiceId, waiting: Option<StopInfo>, change: Change, at: Time)
    ensures Pending01(Report(id, waiting, change, at).waiting)
         == if change.Stop? then 1 else if change.Start? then 0 else Pending01(waiting) - FlushTally(waiting, at).stops
  {
    hide Settled;
  }

  lemma TallyNone()
    ensures TallyOf([]) == Tally(0, 0, 0)
  {
  }

  /** Nothing is lost and nothing is told twice: every stop is told as a stop,
      as half of a restart, or still waits; every start is told as a start or
      as the other half. */
  lemma {:induction false} EventsAreConserved(steps: seq<Step>, id: ServiceId)
    requires IsRun(steps)
    ensures var happened := Transitions(steps, id);
      var told := TallyOf(Word(steps, id));
      var merged := Debounced(steps, id);
      && happened.stops == told.stops + merged + Pending01(WaitingFor(steps, id))
      && happened.starts == told.starts + merged
      && happened.restarts + merged == told.restarts
  {
    hide Report, EventsAt, ChangeAt, WaitingFor, PendingOf, Held, Wf, Sound, Describes, Running, Settled;
    if steps == [] {
      NoneWaitsAtFirst(id);
    } else {
      var n := |steps| - 1;
      var front := steps[..n];
      EventsAreConserved(front, id);
      TimelineIsLegal(front, id);
      RunKeepsWf(front);
      StepLife(Held(front), steps[n].seen, steps[n].at, id);
      ChangeIs(steps, n, id);
      StepReports(steps, id);
      TallyConcat(Word(front, id), EventsAt(steps, n, id));
      ReportTally(id, WaitingFor(front, id), ChangeAt(steps, n, id), steps[n].at);
    }
  }

  // ------------------------------------------------------------ fate of a stop

  lemma {:induction false} PrefixRuns(steps: seq<Step>, m: nat)
    requires IsRun(steps) && m <= |steps|
    ensures IsRun(steps[..m])
  {
    hide Sound, Describes;
    if m == |steps| {
      assert steps[..m] == steps;
    } else {
      var front := steps[..|steps| - 1];
      PrefixRuns(front, m);
      assert front[..m] == steps[..m];
    }
  }

  lemma ReportsAt(steps: seq<Step>, j: nat, id: ServiceId)
    requires IsRun(steps) && j < |steps|
    ensures EventsAt(steps, j, id) == Report(id, WaitingFor(steps[..j], id), ChangeAt(steps, j, id), steps[j].at).events
    ensures WaitingFor(steps[..j + 1], id)
        == Report(id, WaitingFor(steps[..j], id), ChangeAt(steps, j, id), steps[j].at).waiting
  {
    hide Report, WaitingFor, LifeItems, ChangeOf, IsRun;
    PrefixRuns(steps, j + 1);
    assert steps[..j + 1][..j] == steps[..j];
    StepReports(steps[..j + 1], id);
  }

  predicate TooLate(steps: seq<Step>, k: nat, j: nat)
    requires k < |steps| && j < |steps|
  {
    steps[j].at - steps[k].at > 2_000_000_000
  }

  /** Some tick after `k` and before `m` came more than two seconds later. */
  predicate Overdue(steps: seq<Step>, k: nat, m: nat)
    requires k < m <= |steps|
  {
    exists j :: k < j < m && TooLate(steps, k, j)
  }

  /** A stop at `k` not followed by a start before `m`. */
  predicate StaysDown(steps: seq<Step>, k: nat, m: nat, id: ServiceId)
    requires k < m <= |steps|
  {
    ChangeAt(steps, k, id).Stop? && forall j :: k < j < m ==> !ChangeAt(steps, j, id).Start?
  }

  lemma DownStep(steps: seq<Step>, j: nat, id: ServiceId)
    requires IsRun(steps) && j < |steps|
    ensures ChangeAt(steps, j, id).Stop? ==> !Running(Held(steps[..j + 1]), id) && WaitingFor(steps[..j], id) == None
    ensures !ChangeAt(steps, j, id).Start? && !Running(Held(steps[..j]), id) ==>
              ChangeAt(steps, j, id).Quiet? && !Running(Held(steps[..j + 1]), id)
  {
    hide WaitingFor, Report, After, Describes, Wf, Sound, IsRunning;
    PrefixRuns(steps, j);
    PrefixRuns(steps, j + 1);
    assert steps[..j + 1][..j] == steps[..j];
    RunKeepsWf(steps[..j]);
    TimelineIsLegal(steps[..j], id);
    StepLife(Held(steps[..j]), steps[j].seen, steps[j].at, id);
    ChangeIs(steps, j, id);
  }

  lemma {:induction false} StopWaits(steps: seq<Step>, k: nat, m: nat, id: ServiceId)
    requires IsRun(steps) && k < m <= |steps| && StaysDown(steps, k, m, id)
    ensures !Running(Held(steps[..m]), id)
    ensures WaitingFor(steps[..m], id)
        == if Overdue(steps, k, m) then None else Some(StopInfo(steps[k].at, ChangeAt(steps, k, id).lastPid))
  {
    hide WaitingFor, ChangeAt, EventsAt, IsRun, Running, Held;
    if m == k + 1 {
      DownStep(steps, k, id);
      ReportsAt(steps, k, id);
    } else {
      StopWaits(steps, k, m - 1, id);
      DownStep(steps, m - 1, id);
      ReportsAt(steps, m - 1, id);
      assert Overdue(steps, k, m) <==> Overdue(steps, k, m - 1) || TooLate(steps, k, m - 1);
    }
  }

  /** A stop is told once, with its own PID, by the first derivation more than
      two seconds later, if the service has not come back by then; every other
      derivation while it stays down says nothing about it. */
  lemma StopIsToldOnce(steps: seq<Step>, k: nat, j: nat, id: ServiceId)
    requires IsRun(steps) && k < j < |steps| && StaysDown(steps, k, j + 1, id)
    ensures EventsAt(steps, j, id)
         == if TooLate(steps, k, j) && !Overdue(steps, k, j) then [ServiceStopped(id, ChangeAt(steps, k, id).lastPid)]
           else []
    ensures EventsAt(steps, k, id) == []
  {
    hide WaitingFor, ChangeAt, EventsAt, IsRun, Running, Held;
    assert StaysDown(steps, k, j, id);
    StopWaits(steps, k, j, id);
    DownStep(steps, j, id);
    ReportsAt(steps, j, id);
    ReportsAt(steps, k, id);
  }

  /** The first start after a stop: one restart with both PIDs when it comes in
      time, otherwise a start, preceded by the stop if that is still untold. */
  lemma ReturnIsTold(steps: seq<Step>, k: nat, m: nat, id: ServiceId)
    requires IsRun(steps) && k < m < |steps| && StaysDown(steps, k, m, id) && ChangeAt(steps, m, id).Start?
    ensures var (oldPid, newPid) := (ChangeAt(steps, k, id).lastPid, ChangeAt(steps, m, id).pid);
      EventsAt(steps, m, id) ==
        if Overdue(steps, k, m) then [ServiceStarted(id, newPid)]
        else if TooLate(steps, k, m) then [ServiceStopped(id, oldPid), ServiceStarted(id, newPid)]
        else [ServiceRestarted(id, oldPid, newPid)]
  {
    hide WaitingFor, ChangeAt, EventsAt, IsRun, Running, Held;
    StopWaits(steps, k, m, id);
    ReportsAt(steps, m, id);
  }
}
