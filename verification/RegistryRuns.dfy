/** Properties of the registry over whole runs of batches. */
module RegistryRuns {
  import opened Basics
  import opened Model
  import opened Sorting
  import opened Registry

  /** One batch, with the delta the registry reported for it. */
  datatype Step = Step(seen: map<ServiceId, Finished>, at: Time, delta: RegistryDelta)

  /** The services held after a run. */
  function Held(steps: seq<Step>): map<ServiceId, Entered> {
    if steps == [] then map[] else
      var n := |steps| - 1;
      After(Held(steps[..n]), steps[n].seen, steps[n].at)
  }

  /** A run of the registry: sound batches, and the deltas it reports. */
  ghost predicate IsRun(steps: seq<Step>) {
    steps == [] ||
    var n := |steps| - 1;
    && IsRun(steps[..n])
    && Sound(Held(steps[..n]), steps[n].seen)
    && Describes(steps[n].delta, Held(steps[..n]), steps[n].seen, steps[n].at)
  }

  lemma {:induction false} RunKeepsWf(steps: seq<Step>)
    requires IsRun(steps)
    ensures Wf(Held(steps))
  {
    if steps != [] {
      var n := |steps| - 1;
      RunKeepsWf(steps[..n]);
      AfterKeepsWf(Held(steps[..n]), steps[n].seen, steps[n].at);
    }
  }

  // ------------------------------------------------------------- delta replay

  /** What a consumer that only sees deltas can know of a service. */
  datatype Shown = Shown(running: bool, health: Health, ports: set<Port>)

  function View(held: map<ServiceId, Entered>): map<ServiceId, Shown> {
    map id | id in held :: ShownOf(held[id])
  }

  function ShownOf(e: Entered): Shown {
    Shown(IsRunning(e.service), e.service.health, PortsOf(e.service.endpoints))
  }

  function StartedIds(delta: RegistryDelta): set<ServiceId> { set x | x in delta.started :: x.0 }
  function StoppedNow(delta: RegistryDelta): set<ServiceId> { set x | x in delta.stopped :: x.0 }
  function RestartedIds(delta: RegistryDelta): set<ServiceId> { set x | x in delta.restarted :: x.0 }
  function OpenedBy(delta: RegistryDelta, id: ServiceId): set<Port> {
    set x | x in delta.portsOpened && x.0 == id :: x.1
  }

  function ClosedBy(delta: RegistryDelta, id: ServiceId): set<Port> {
    set x | x in delta.portsClosed && x.0 == id :: x.1
  }

  /** The last health reported for `id`, if any. */
  function HealthBy(q: seq<(ServiceId, Health, Health)>, id: ServiceId): Option<Health> {
    if q == [] then None
    else if q[|q| - 1].0 == id then Some(q[|q| - 1].2)
    else HealthBy(q[..|q| - 1], id)
  }

  function ReplayOne(was: Option<Shown>, delta: RegistryDelta, id: ServiceId): Shown {
    var base := match was case Some(s) => s case None => Shown(false, Healthy, {});
    Shown(
      if id in StartedIds(delta) then true else if id in StoppedNow(delta) then false else base.running,
      match HealthBy(delta.healthChanged, id) case Some(h) => h case None => base.health,
      base.ports - ClosedBy(delta, id) + OpenedBy(delta, id))
  }

  /** A consumer's fold: deltas only, no access to the registry. */
  function Replay(view: map<ServiceId, Shown>, delta: RegistryDelta): map<ServiceId, Shown> {
    map id | id in view.Keys + StartedIds(delta) && id !in delta.evicted :: ReplayOne(Lookup(view, id), delta, id)
  }

  function ReplayAll(steps: seq<Step>): map<ServiceId, Shown> {
    if steps == [] then map[] else
      var n := |steps| - 1;
      Replay(ReplayAll(steps[..n]), steps[n].delta)
  }

  lemma {:induction false} HealthRecorded(q: seq<(ServiceId, Health, Health)>, id: ServiceId)
    ensures HealthBy(q, id) == None ==> forall a, b :: (id, a, b) !in q
    ensures HealthBy(q, id).Some? ==> exists a :: (id, a, HealthBy(q, id).value) in q
  {
    if q != [] {
      var n := |q| - 1;
      HealthRecorded(q[..n], id);
      assert q == q[..n] + [q[n]];
    }
  }

  /** The delta's vectors, read back for one service. */
  lemma ReadBack(delta: RegistryDelta, pieces: map<ServiceId, Piece>, id: ServiceId)
    requires Records(delta, pieces) && id in pieces
    ensures id in StartedIds(delta) <==> pieces[id].change.Start?
    ensures id in StoppedNow(delta) <==> pieces[id].change.Stop?
    ensures id in RestartedIds(delta) <==> pieces[id].change.Restart?
    ensures OpenedBy(delta, id) == pieces[id].portsOpened && ClosedBy(delta, id) == pieces[id].portsClosed
    ensures match pieces[id].health
      case None => HealthBy(delta.healthChanged, id) == None
      case Some(ab) => HealthBy(delta.healthChanged, id) == Some(ab.1)
  {
    match pieces[id].change {
      case Start(pid) => assert (id, pid) in delta.started;
      case Stop(pid) => assert (id, pid) in delta.stopped;
      case Restart(a, b) => assert (id, a, b) in delta.restarted;
      case Quiet =>
    }
    forall port | port in pieces[id].portsOpened ensures port in OpenedBy(delta, id) {
      assert (id, port) in delta.portsOpened;
    }
    forall port | port in pieces[id].portsClosed ensures port in ClosedBy(delta, id) {
      assert (id, port) in delta.portsClosed;
    }
    HealthRecorded(delta.healthChanged, id);
    if pieces[id].health.Some? {
      assert (id, pieces[id].health.value.0, pieces[id].health.value.1) in delta.healthChanged;
    }
  }

  /** One service: applying its piece to what was known gives what is held. */
  lemma PieceReplays(id: ServiceId, held: Option<Entered>, seen: Option<Finished>, at: Time, delta: RegistryDelta,
          pieces: map<ServiceId, Piece>)
    requires held.Some? ==> WfEntered(id, held.value)
    requires seen.Some? ==> WfFinished(seen.value)
    requires held.Some? && seen.Some? ==> SameKind(held.value.service.kind, seen.value.kind)
    requires held.Some? || seen.Some?
    requires Records(delta, pieces) && id in pieces && pieces[id] == PieceOf(id, held, seen, at)
    ensures ReplayOne(match held case None => None case Some(e) => Some(ShownOf(e)), delta, id)
         == ShownOf(Reconcile(id, held, seen, at).value)
    ensures id in StartedIds(delta) <== held.None?
  {
    ReadBack(delta, pieces, id);
    hide Records, StartedIds, StoppedNow, OpenedBy, ClosedBy, HealthBy, WfFinished;
    ReconcileKeepsWf(id, held, seen, at);
    if held.Some? { RunningByHealth(id, held.value); }
  }

  lemma ReplayStep(held: map<ServiceId, Entered>, seen: map<ServiceId, Finished>, at: Time, delta: RegistryDelta)
    requires Wf(held) && Sound(held, seen) && Describes(delta, held, seen, at)
    ensures Replay(View(held), delta) == View(After(held, seen, at))
  {
    hide Records, Reconcile, PieceOf, ShownOf, ReplayOne, WfEntered, WfFinished, Evicted, InOrder, HealthBy,
         StartedIds, StoppedNow, OpenedBy, ClosedBy;
    var pieces := Pieces(held, seen, at);
    var reconciled := Reconciled(held, seen, at);
    forall id | id in held.Keys + seen.Keys
      ensures id in View(held) || id in StartedIds(delta)
      ensures ReplayOne(Lookup(View(held), id), delta, id) == ShownOf(reconciled[id])
    {
      PieceReplays(id, Lookup(held, id), Lookup(seen, id), at, delta, pieces);
    }
    forall id | id in StartedIds(delta) ensures id in held.Keys + seen.Keys {
      StartsArePieces(delta, pieces, id);
    }
  }

  lemma StartsArePieces(delta: RegistryDelta, pieces: map<ServiceId, Piece>, id: ServiceId)
    requires Records(delta, pieces) && id in StartedIds(delta)
    ensures id in pieces
  {
    var x :| x in delta.started && x.0 == id;
    assert (x.0, x.1) in delta.started;
  }

  /** Folding the deltas of a run from nothing rebuilds the running set, the
      health and the ports of exactly the services held. */
  lemma {:induction false} DeltasRebuildTheRegistry(steps: seq<Step>)
    requires IsRun(steps)
    ensures ReplayAll(steps) == View(Held(steps))
  {
    if steps != [] {
      var n := |steps| - 1;
      DeltasRebuildTheRegistry(steps[..n]);
      RunKeepsWf(steps[..n]);
      ReplayStep(Held(steps[..n]), steps[n].seen, steps[n].at, steps[n].delta);
    }
  }

  lemma OneStory(delta: RegistryDelta, pieces: map<ServiceId, Piece>)
    requires Records(delta, pieces)
    ensures StartedIds(delta) !! StoppedNow(delta) !! RestartedIds(delta)
  {
    hide RecordsOpened, RecordsClosed, RecordsHealth, NoRepeats;
    forall x, y | x in delta.started && y in delta.stopped ensures x.0 != y.0 {
      assert (x.0, x.1) in delta.started && (y.0, y.1) in delta.stopped;
    }
    forall x, y | x in delta.started && y in delta.restarted ensures x.0 != y.0 {
      assert (x.0, x.1) in delta.started && (y.0, y.1, y.2) in delta.restarted;
    }
    forall x, y | x in delta.stopped && y in delta.restarted ensures x.0 != y.0 {
      assert (x.0, x.1) in delta.stopped && (y.0, y.1, y.2) in delta.restarted;
    }
  }

  /** A delta tells one story per service, and its health changes start from
      the health last reported. */
  lemma DeltaIsConsistent(held: map<ServiceId, Entered>, seen: map<ServiceId, Finished>, at: Time, delta: RegistryDelta)
    requires Wf(held) && Sound(held, seen) && Describes(delta, held, seen, at)
    ensures StartedIds(delta) !! StoppedNow(delta) !! RestartedIds(delta)
    ensures forall id, a, b ::
      (id, a, b) in delta.healthChanged ==> id in held && held[id].service.health == a && a != b
  {
    var pieces := Pieces(held, seen, at);
    OneStory(delta, pieces);
    hide Wf, Sound, Evicted, InOrder, RecordsStarts, RecordsStops, RecordsRestarts, RecordsOpened, RecordsClosed,
         StartedIds, StoppedNow, RestartedIds, Reconcile;
    forall id, a, b | (id, a, b) in delta.healthChanged
      ensures id in held && held[id].service.health == a && a != b
    {
      assert id in pieces && pieces[id].health == Some((a, b));
    }
  }

  predicate IsEmpty(delta: RegistryDelta) {
    && delta.started == [] && delta.stopped == [] && delta.restarted == [] && delta.portsOpened == []
    && delta.portsClosed == [] && delta.healthChanged == [] && delta.evicted == []
  }

  lemma EmptyReplay(shown: Shown, delta: RegistryDelta, id: ServiceId)
    requires IsEmpty(delta)
    ensures ReplayOne(Some(shown), delta, id) == shown
  {
    assert OpenedBy(delta, id) == {} && ClosedBy(delta, id) == {};
  }

  /** An empty delta means nothing a consumer could see has changed. */
  lemma EmptyDeltaMeansNoChange(held: map<ServiceId, Entered>, seen: map<ServiceId, Finished>, at: Time,
          delta: RegistryDelta)
    requires Wf(held) && Sound(held, seen) && Describes(delta, held, seen, at) && IsEmpty(delta)
    ensures View(After(held, seen, at)) == View(held)
  {
    ReplayStep(held, seen, at, delta);
    hide Wf, Sound, Describes, Replay, After, View;
    EmptyReplayAll(View(held), delta);
  }

  lemma EmptyReplayAll(view: map<ServiceId, Shown>, delta: RegistryDelta)
    requires IsEmpty(delta)
    ensures Replay(view, delta) == view
  {
    hide ReplayOne;
    forall id | id in view ensures ReplayOne(Lookup(view, id), delta, id) == view[id] {
      EmptyReplay(view[id], delta, id);
    }
    assert StartedIds(delta) == {};
  }

  // ----------------------------------------------------------- restart history

  /** The story of one service as told by the deltas alone: the full list of
      restarts since it last stopped, and how often it restarted since it was
      registered. */
  datatype Story = Untold | Told(restarts: seq<Time>, count: nat)

  function Retell(story: Story, delta: RegistryDelta, at: Time, id: ServiceId): Story {
    var next := match story
      case Untold => if id in StartedIds(delta) then Told([], 0) else Untold
      case Told(restarts, count) =>
        if id in StartedIds(delta) || id in RestartedIds(delta) then Told(restarts + [at], count + 1)
        else if id in StoppedNow(delta) then Told([], count)
        else story;
    if id in delta.evicted then Untold else next
  }

  function StoryOf(steps: seq<Step>, id: ServiceId): Story {
    if steps == [] then Untold else
      var n := |steps| - 1;
      Retell(StoryOf(steps[..n], id), steps[n].delta, steps[n].at, id)
  }

  function LastThree(q: seq<Time>): seq<Time> {
    if |q| <= RESTART_LOOP_THRESHOLD then q else q[|q| - RESTART_LOOP_THRESHOLD..]
  }

  function Saturated(n: nat): nat {
    if n <= U32_MAX then n else U32_MAX
  }

  predicate Agrees(held: Option<Entered>, story: Story) {
    match (held, story)
    case (None, Untold) => true
    case (Some(e), Told(restarts, count)) => e.restarts == LastThree(restarts)
      && e.service.restartCount == Saturated(count)
    case _ => false
  }

  lemma RecordRestartAgrees(e: Entered, restarts: seq<Time>, count: nat, at: Time)
    requires Agrees(Some(e), Told(restarts, count))
    ensures Agrees(Some(RecordRestart(e, at)), Told(restarts + [at], count + 1))
  {
  }

  function NextStory(story: Story, change: Change, at: Time): Story {
    match story
    case Untold => if change.Start? then Told([], 0) else Untold
    case Told(restarts, count) =>
      if change.Start? || change.Restart? then Told(restarts + [at], count + 1)
      else if change.Stop? then Told([], count)
      else story
  }

  lemma StoryReconciles(id: ServiceId, held: Option<Entered>, seen: Option<Finished>, at: Time, story: Story)
    requires Agrees(held, story) && (held.Some? || seen.Some?)
    requires held.Some? ==> WfEntered(id, held.value)
    ensures Agrees(Reconcile(id, held, seen, at), NextStory(story, ChangeOf(held, seen), at))
  {
    hide LastThree, Saturated, RecordRestart, WfEntered;
    LastThreeOfNone();
    if held.Some? && seen.Some? {
      var listened := held.value.(everListened := held.value.everListened || seen.value.ports != []);
      RecordRestartAgrees(listened, story.restarts, story.count, at);
    }
  }

  lemma StoryStep(held: map<ServiceId, Entered>, step: Step, story: Story, id: ServiceId)
    requires Wf(held) && Sound(held, step.seen) && Describes(step.delta, held, step.seen, step.at)
    requires Agrees(Lookup(held, id), story)
    ensures Agrees(Lookup(After(held, step.seen, step.at), id), Retell(story, step.delta, step.at, id))
  {
    hide Records, StartedIds, StoppedNow, RestartedIds, LastThree, Saturated, Evicted, InOrder, Reconcile, PieceOf,
         WfEntered, WfFinished, ChangeOf;
    var pieces := Pieces(held, step.seen, step.at);
    if id in pieces {
      ReadBack(step.delta, pieces, id);
      StoryReconciles(id, Lookup(held, id), Lookup(step.seen, id), step.at, story);
      PieceChange(id, Lookup(held, id), Lookup(step.seen, id), step.at);
    } else {
      NotStarted(step.delta, pieces, id);
    }
  }

  lemma PieceChange(id: ServiceId, held: Option<Entered>, seen: Option<Finished>, at: Time)
    requires held.Some? || seen.Some?
    ensures PieceOf(id, held, seen, at).change == ChangeOf(held, seen)
    ensures Reconcile(id, held, seen, at).Some?
  {
  }

  lemma LastThreeOfNone()
    ensures LastThree([]) == [] && Saturated(0) == 0
  {
  }

  lemma NotStarted(delta: RegistryDelta, pieces: map<ServiceId, Piece>, id: ServiceId)
    requires Records(delta, pieces) && id !in pieces
    ensures id !in StartedIds(delta)
  {
    if id in StartedIds(delta) {
      StartsArePieces(delta, pieces, id);
    }
  }

  lemma {:induction false} StoriesAgree(steps: seq<Step>, id: ServiceId)
    requires IsRun(steps)
    ensures Agrees(Lookup(Held(steps), id), StoryOf(steps, id))
  {
    if steps != [] {
      var n := |steps| - 1;
      StoriesAgree(steps[..n], id);
      RunKeepsWf(steps[..n]);
      StoryStep(Held(steps[..n]), steps[n], StoryOf(steps[..n], id), id);
    }
  }

  /** Three restarts, the last three of them within the window. */
  predicate LoopsInWindow(restarts: seq<Time>) {
    |restarts| >= 3 && 0 <= restarts[|restarts| - 1] - restarts[|restarts| - 3] <= RESTART_LOOP_WINDOW
  }

  /** The three-slot deque is as good as the whole history: a service is
      Degraded exactly when it runs, restarted three times since its last stop,
      and the last three of those restarts lie within the window. */
  lemma DegradedExactly(steps: seq<Step>, id: ServiceId)
    requires IsRun(steps) && id in Held(steps)
    ensures StoryOf(steps, id).Told?
    ensures var e := Held(steps)[id];
      && (e.service.health == Degraded <==> IsRunning(e.service) && LoopsInWindow(StoryOf(steps, id).restarts))
      && e.service.restartCount == Saturated(StoryOf(steps, id).count)
  {
    RunKeepsWf(steps);
    StoriesAgree(steps, id);
    hide IsRun, Held, StoryOf, WfEntered, LoopsInWindow, IsRunning;
    assert WfEntered(id, Held(steps)[id]);
    DegradedByStory(id, Held(steps)[id], StoryOf(steps, id));
  }

  lemma DegradedByStory(id: ServiceId, e: Entered, story: Story)
    requires WfEntered(id, e) && Agrees(Some(e), story)
    ensures story.Told?
    ensures e.service.health == Degraded <==> IsRunning(e.service) && LoopsInWindow(story.restarts)
    ensures e.service.restartCount == Saturated(story.count)
  {
    RunningByHealth(id, e);
    hide IsRunning, PortAscending, Saturated;
    var (all, kept) := (story.restarts, e.restarts);
    if |all| >= 3 {
      assert |kept| == 3 && kept[0] == all[|all| - 3] && kept[2] == all[|all| - 1];
    }
  }

  /** A loop that is only ever seen as a stop followed by a start is not
      recognised: the stop forgets the restarts before it. */
  lemma {:induction false} StopStartLoopsStayHealthy(steps: seq<Step>, id: ServiceId)
    requires IsRun(steps) && forall i :: 0 <= i < |steps| ==> id !in RestartedIds(steps[i].delta)
    ensures StoryOf(steps, id).Told? ==> |StoryOf(steps, id).restarts| <= 1
    ensures id in Held(steps) ==> Held(steps)[id].service.health != Degraded
  {
    hide After, Describes, Sound, Wf, RestartedIds, StartedIds, StoppedNow, LastThree;
    if steps != [] {
      var n := |steps| - 1;
      var (front, step) := (steps[..n], steps[n]);
      StopStartLoopsStayHealthy(front, id);
      StoriesAgree(front, id);
      RunKeepsWf(front);
      NoLoopStep(Held(front), step, StoryOf(front, id), id);
    }
    if id in Held(steps) {
      DegradedExactly(steps, id);
    }
  }

  lemma NoLoopStep(held: map<ServiceId, Entered>, step: Step, story: Story, id: ServiceId)
    requires Wf(held) && Sound(held, step.seen) && Describes(step.delta, held, step.seen, step.at)
    requires Agrees(Lookup(held, id), story) && (story.Told? ==> |story.restarts| <= 1)
    requires id !in RestartedIds(step.delta)
    ensures var next := Retell(story, step.delta, step.at, id); next.Told? ==> |next.restarts| <= 1
  {
    hide Wf, Sound, Describes, RestartedIds, StartedIds, StoppedNow;
    if story.Told? && id in StartedIds(step.delta) {
      StartedWasStopped(held, step, id);
      assert |LastThree(story.restarts)| == |story.restarts|;
    }
  }

  lemma StartedWasStopped(held: map<ServiceId, Entered>, step: Step, id: ServiceId)
    requires Wf(held) && Sound(held, step.seen) && Describes(step.delta, held, step.seen, step.at)
    requires id in StartedIds(step.delta) && id in held
    ensures held[id].service.health == Stopped && held[id].restarts == []
  {
    var pieces := Pieces(held, step.seen, step.at);
    ReadBack(step.delta, pieces, id);
    hide Records, StartedIds, Evicted, InOrder;
    RunningByHealth(id, held[id]);
    assert WfEntered(id, held[id]);
  }

  // --------------------------------------------------- a loop nobody notices

  /** A container without ports or measurements, observed once. */
  const LOOPER := Finished(None, "", None, Container(0), 0, [], [], None, None, [])

  predicate Looping(e: Entered, health: Health, count: nat) {
    && WfEntered(0, e) && e.service.kind == Container(0)
    && e.service.health == health && e.service.endpoints == [] && e.service.projectId == None
    && e.service.restartCount == count
  }

  /** Only the looper is held, and it is in this state of health. */
  predicate Holds(held: map<ServiceId, Entered>, health: Health, count: nat) {
    held.Keys == {0} && Looping(held[0], health, count)
  }

  function StartDelta(back: bool): RegistryDelta {
    RegistryDelta([(0, None)], [], [], [], [], if back then [(0, Stopped, Healthy)] else [], [], map[0 := None])
  }

  const STOP_DELTA := RegistryDelta([], [(0, None)], [], [], [], [(0, Healthy, Stopped)], [], map[0 := None])

  lemma RecordsOne(delta: RegistryDelta, piece: Piece)
    requires piece.portsOpened == {} && piece.portsClosed == {}
    requires delta.restarted == [] && delta.portsOpened == [] && delta.portsClosed == [] && !piece.change.Restart?
    requires delta.started == if piece.change.Start? then [(0, piece.change.pid)] else []
    requires delta.stopped == if piece.change.Stop? then [(0, piece.change.lastPid)] else []
    requires delta.healthChanged == if piece.health.Some? then [(0, piece.health.value.0, piece.health.value.1)] else []
    ensures Records(delta, map[0 := piece])
  {
  }

  lemma OneReconciled(held: map<ServiceId, Entered>, seen: map<ServiceId, Finished>, at: Time)
    requires held.Keys + seen.Keys == {0}
    ensures Reconciled(held, seen, at) == map[0 := Reconcile(0, Lookup(held, 0), Lookup(seen, 0), at).value]
    ensures Pieces(held, seen, at) == map[0 := PieceOf(0, Lookup(held, 0), Lookup(seen, 0), at)]
  {
    hide Reconcile, PieceOf;
  }

  /** A container on its own is never evicted. */
  lemma NotEvicted(held: map<ServiceId, Entered>, at: Time)
    requires held.Keys == {0} && held[0].service.kind.Container?
    ensures Evicted(held, at) == {}
  {
    var rest := held - Expired(held, at);
    forall id | id in StoppedIds(rest) ensures id !in Crowded(rest) {
      SubsetSize(set other | other in StoppedIds(rest) && EvictedBefore(rest, id, other), {0});
    }
  }

  lemma OneAfter(held: map<ServiceId, Entered>, seen: map<ServiceId, Finished>, at: Time, delta: RegistryDelta,
          next: Entered, piece: Piece)
    requires held.Keys + seen.Keys == {0} && next.service.kind.Container? && next.service.projectId == None
    requires Reconcile(0, Lookup(held, 0), Lookup(seen, 0), at) == Some(next)
    requires PieceOf(0, Lookup(held, 0), Lookup(seen, 0), at) == piece
    requires Records(delta, map[0 := piece]) && InOrder(delta) && delta.evicted == []
        && delta.projects == map[0 := None]
    ensures Describes(delta, held, seen, at) && After(held, seen, at) == map[0 := next]
  {
    hide Reconcile, PieceOf, Records, InOrder, Reconciled, Pieces, Evicted;
    OneReconciled(held, seen, at);
    NotEvicted(map[0 := next], at);
    assert Reconciled(held, seen, at) == map[0 := next] && Pieces(held, seen, at) == map[0 := piece];
    assert map[0 := next] - {} == map[0 := next];
    assert ProjectsOf(map[0 := next]) == map[0 := None];
  }

  lemma StartsLooping(was: Option<Entered>, at: Time, count: nat)
    requires was.Some? ==> Looping(was.value, Stopped, count)
    ensures Looping(Reconcile(0, was, Some(LOOPER), at).value, Healthy, if was.None? then 0
        else SaturatingIncrement(count))
    ensures PieceOf(0, was, Some(LOOPER), at)
         == Piece(Start(None), {}, {}, if was.None? then None else Some((Stopped, Healthy)))
  {
  }

  lemma StopsLooping(was: Entered, at: Time, count: nat)
    requires Looping(was, Healthy, count)
    ensures Looping(Reconcile(0, Some(was), None, at).value, Stopped, count)
    ensures PieceOf(0, Some(was), None, at) == Piece(Stop(None), {}, {}, Some((Healthy, Stopped)))
  {
  }

  lemma LooperIsFinished()
    ensures WfFinished(LOOPER) && LOOPER.kind.Container?
  {
  }

  lemma LoopStart(held: map<ServiceId, Entered>, at: Time, count: nat)
    requires held == map[] || Holds(held, Stopped, count)
    ensures var seen := map[0 := LOOPER];
      && Sound(held, seen) && Describes(StartDelta(held != map[]), held, seen, at)
      && Holds(After(held, seen, at), Healthy, if held == map[] then 0 else SaturatingIncrement(count))
  {
    hide PieceOf, Records, Describes, After, WfFinished, WfEntered, Updated, Halted, IsRunning;
    var seen := map[0 := LOOPER];
    LooperIsFinished();
    StartsLooping(Lookup(held, 0), at, count);
    RecordsOne(StartDelta(held != map[]), PieceOf(0, Lookup(held, 0), Some(LOOPER), at));
    assert held.Keys + seen.Keys == {0} && Lookup(seen, 0) == Some(LOOPER);
    OneAfter(held, seen, at, StartDelta(held != map[]), Reconcile(0, Lookup(held, 0), Some(LOOPER), at).value,
      PieceOf(0, Lookup(held, 0), Some(LOOPER), at));
  }

  lemma LoopStop(held: map<ServiceId, Entered>, at: Time, count: nat)
    requires Holds(held, Healthy, count)
    ensures Sound(held, map[]) && Describes(STOP_DELTA, held, map[], at)
    ensures Holds(After(held, map[], at), Stopped, count)
  {
    hide PieceOf, Records, Describes, After, WfFinished, WfEntered, Updated, Halted, IsRunning;
    var seen: map<ServiceId, Finished> := map[];
    StopsLooping(held[0], at, count);
    RecordsOne(STOP_DELTA, PieceOf(0, Lookup(held, 0), None, at));
    assert held.Keys + seen.Keys == {0} && Lookup(held, 0) == Some(held[0]);
    OneAfter(held, seen, at, STOP_DELTA, Reconcile(0, Some(held[0]), None, at).value,
      PieceOf(0, Some(held[0]), None, at));
  }

  /** Any number of stops and starts, one nanosecond apart: a run that no
      registry reports as degraded. */
  lemma {:induction false} LoopGoesUnnoticed(loops: nat) returns (steps: seq<Step>)
    ensures IsRun(steps) && |steps| == 2 * loops + 1 && forall i :: 0 <= i < |steps| ==> steps[i].at == i
    ensures forall i :: 0 <= i < loops ==>
      (0, None) in steps[2 * i + 1].delta.stopped && (0, None) in steps[2 * i + 2].delta.started
    ensures Holds(Held(steps), Healthy, Saturated(loops))
  {
    hide Describes, After, Holds, Sound;
    if loops == 0 {
      LoopStart(map[], 0, 0);
      steps := [Step(map[0 := LOOPER], 0, StartDelta(false))];
      assert steps[..0] == [];
    } else {
      var front := LoopGoesUnnoticed(loops - 1);
      var n := |front|;
      LoopStop(Held(front), n, Saturated(loops - 1));
      var stopped := front + [Step(map[], n, STOP_DELTA)];
      assert stopped[..n] == front;
      HoldsSomething(Held(stopped), Stopped, Saturated(loops - 1));
      LoopStart(Held(stopped), n + 1, Saturated(loops - 1));
      steps := stopped + [Step(map[0 := LOOPER], n + 1, StartDelta(true))];
      assert steps[..n + 1] == stopped;
    }
  }

  lemma HoldsSomething(held: map<ServiceId, Entered>, health: Health, count: nat)
    requires Holds(held, health, count)
    ensures held != map[]
  {
    assert 0 in held;
  }
}
