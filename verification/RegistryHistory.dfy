/** What the registry reports and holds, told by nothing but the batches it was
    given: which services were in them, with which processes and ports. */
module RegistryHistory {
  import opened Basics
  import opened Model
  import opened Sorting
  import opened Registry
  import opened RegistryRuns
  import RegistryBounds

  // ------------------------------------------------------ what a batch shows

  predicate SeenIn(batch: seq<Observation>, id: ServiceId) {
    exists o :: o in batch && o.id == id
  }

  function PidsIn(batch: seq<Observation>, id: ServiceId): set<Pid> {
    set o | o in batch && o.id == id && o.instance.Some? :: o.instance.value.pid
  }

  function PortsIn(batch: seq<Observation>, id: ServiceId): set<Port> {
    set o, e | o in batch && o.id == id && e in o.endpoints :: e.port
  }

  function InstancesIn(batch: seq<Observation>, id: ServiceId): set<ProcessInstance> {
    set o | o in batch && o.id == id && o.instance.Some? :: o.instance.value
  }

  /** The batch shows no PID as two processes of the service. */
  predicate OneProcessPerPid(batch: seq<Observation>, id: ServiceId) {
    forall i, j :: i in InstancesIn(batch, id) && j in InstancesIn(batch, id) && i.pid == j.pid ==> i == j
  }

  /** A PID of the batch, that of its oldest process where PIDs tell processes. */
  predicate PrimaryIn(pid: Option<Pid>, batch: seq<Observation>, id: ServiceId) {
    if PidsIn(batch, id) == {} then pid.None?
    else exists i ::
      && i in InstancesIn(batch, id) && pid == Some(i.pid)
      && (OneProcessPerPid(batch, id) ==> forall j :: j in InstancesIn(batch, id) ==> NotAfter(i, j))
  }

  /** The oldest process, the lowest PID among those of one age; none of none. */
  predicate IsPrimary(pid: Option<Pid>, instances: seq<ProcessInstance>) {
    if instances == [] then pid.None?
    else exists i :: i in instances && pid == Some(i.pid) && forall j :: j in instances ==> NotAfter(i, j)
  }

  predicate NotAfter(i: ProcessInstance, j: ProcessInstance) {
    i.startedAt < j.startedAt || (i.startedAt == j.startedAt && i.pid <= j.pid)
  }

  // --------------------------------------------------- the fold keeps it all

  lemma {:induction false} DedupFrom<T, K>(q: seq<T>, key: T -> K, x: T)
    requires x in DedupBy(q, key)
    ensures x in q
  {
    if |q| > 1 {
      var n := |q| - 1;
      if x in DedupBy(q[..n], key) {
        DedupFrom(q[..n], key, x);
      }
    }
  }

  lemma {:induction false} DedupFinds<T, K>(q: seq<T>, key: T -> K, x: T) returns (y: T)
    requires x in q
    ensures y in DedupBy(q, key) && key(y) == key(x)
  {
    if |q| <= 1 {
      y := x;
    } else {
      var n := |q| - 1;
      if x in q[..n] {
        y := DedupFinds(q[..n], key, x);
      } else if key(q[n]) == key(q[n - 1]) {
        y := DedupFinds(q[..n], key, q[n - 1]);
      } else {
        y := q[n];
      }
    }
  }

  lemma SortedPids(instances: seq<ProcessInstance>)
    ensures PidsOf(SortedInstances(instances)) == PidsOf(instances)
    ensures forall i :: i in SortedInstances(instances) ==> i in instances
  {
    var leq := (a: ProcessInstance, b: ProcessInstance) => a.pid <= b.pid;
    var key := (i: ProcessInstance) => i.pid;
    SameMembers(SortBy(instances, leq), instances);
    forall i | i in SortedInstances(instances) ensures i in instances {
      DedupFrom(SortBy(instances, leq), key, i);
    }
    forall i | i in instances ensures i.pid in PidsOf(SortedInstances(instances)) {
      var j := DedupFinds(SortBy(instances, leq), key, i);
    }
  }

  lemma SortedPorts(endpoints: seq<Endpoint>)
    ensures PortsOf(SortedEndpoints(endpoints)) == PortsOf(endpoints)
  {
    SameMembers(SortBy(endpoints, EndpointLeq), endpoints);
    var same := (e: Endpoint) => e;
    forall e | e in SortedEndpoints(endpoints) ensures e in endpoints {
      DedupFrom(SortBy(endpoints, EndpointLeq), same, e);
    }
    forall e | e in endpoints ensures e in SortedEndpoints(endpoints) {
      var f := DedupFinds(SortBy(endpoints, EndpointLeq), same, e);
    }
  }

  lemma {:induction false} FoldShows(batch: seq<Observation>, id: ServiceId)
    ensures id in Fold(batch) <==> SeenIn(batch, id)
    ensures id in Fold(batch) ==> PidsOf(Fold(batch)[id].instances) == PidsIn(batch, id)
    ensures id in Fold(batch) ==> PortsOf(Fold(batch)[id].endpoints) == PortsIn(batch, id)
    ensures id in Fold(batch) && Fold(batch)[id].instances == [] ==> Fold(batch)[id].metaPid == None
    ensures id !in Fold(batch) ==> PidsIn(batch, id) == {} && PortsIn(batch, id) == {}
  {
    if batch != [] {
      var n := |batch| - 1;
      var (front, o) := (batch[..n], batch[n]);
      assert batch == front + [o];
      FoldShows(front, id);
      OneMoreShown(front, o, id);
      hide PidsIn, PortsIn, SeenIn;
      if o.id == id {
        var was := if id in Fold(front) then Fold(front)[id].instances else [];
        PidsAppend(was, ToSeq(o.instance));
        PortsAppend(if id in Fold(front) then Fold(front)[id].endpoints else [], o.endpoints);
        assert [] + ToSeq(o.instance) == ToSeq(o.instance) && [] + o.endpoints == o.endpoints;
      }
    }
  }

  lemma OneMoreShown(front: seq<Observation>, o: Observation, id: ServiceId)
    ensures SeenIn(front + [o], id) <==> SeenIn(front, id) || o.id == id
    ensures PidsIn(front + [o], id) == PidsIn(front, id) + if o.id == id then PidsOf(ToSeq(o.instance)) else {}
    ensures PortsIn(front + [o], id) == PortsIn(front, id) + if o.id == id then PortsOf(o.endpoints) else {}
  {
    assert forall p :: p in front + [o] <==> p in front || p == o;
  }

  lemma PidsAppend(a: seq<ProcessInstance>, b: seq<ProcessInstance>)
    ensures PidsOf(a + b) == PidsOf(a) + PidsOf(b)
  {
  }

  lemma PortsAppend(a: seq<Endpoint>, b: seq<Endpoint>)
    ensures PortsOf(a + b) == PortsOf(a) + PortsOf(b)
  {
  }

  lemma {:induction false} PrimaryIsLeast(instances: seq<ProcessInstance>)
    requires instances != []
    ensures PrimaryInstance(instances) in instances
    ensures forall j :: j in instances ==> NotAfter(PrimaryInstance(instances), j)
  {
    var n := |instances| - 1;
    if n == 0 {
      assert instances == [instances[0]];
    } else {
      var (front, last) := (instances[..n], instances[n]);
      assert instances == front + [last];
      PrimaryIsLeast(front);
      OlderOf(PrimaryInstance(front), last, PrimaryInstance(instances));
      hide PrimaryInstance, NotAfter;
      forall j | j in instances ensures NotAfter(PrimaryInstance(instances), j) {
        if j in front {
          NotAfterAll(PrimaryInstance(instances), PrimaryInstance(front), j);
        }
      }
    }
  }

  lemma OlderOf(best: ProcessInstance, next: ProcessInstance, older: ProcessInstance)
    requires older == if next.startedAt < best.startedAt || (next.startedAt == best.startedAt && next.pid < best.pid)
                      then next else best
    ensures NotAfter(older, best) && NotAfter(older, next) && (older == best || older == next)
  {
  }

  lemma NotAfterAll(i: ProcessInstance, j: ProcessInstance, k: ProcessInstance)
    requires NotAfter(i, j) && NotAfter(j, k)
    ensures NotAfter(i, k)
  {
  }

  lemma PrimaryPidIsPrimary(instances: seq<ProcessInstance>)
    ensures IsPrimary(PrimaryPid(instances), instances)
  {
    if instances != [] {
      PrimaryIsLeast(instances);
      assert PrimaryInstance(instances) in instances;
    }
  }

  /** A batch shows a service exactly if it observes it, with exactly the
      processes and ports observed, and its oldest process first. */
  lemma ObservedShows(batch: seq<Observation>, id: ServiceId)
    ensures id in Observed(batch) <==> SeenIn(batch, id)
    ensures id in Observed(batch) ==>
      var f := Observed(batch)[id];
      && PidsOf(f.instances) == PidsIn(batch, id) && PortsOf(f.endpoints) == PortsIn(batch, id)
      && IsPrimary(f.primaryPid, f.instances)
    ensures id !in Observed(batch) ==> PidsIn(batch, id) == {} && PortsIn(batch, id) == {}
  {
    FoldShows(batch, id);
    if id in Fold(batch) {
      var m := Fold(batch)[id];
      SortedPids(m.instances);
      SortedPorts(m.endpoints);
      SortedInstancesNonEmpty(m.instances);
      PrimaryPidIsPrimary(SortedInstances(m.instances));
      hide Fold, SortedInstances, SortedEndpoints, PidsIn, PortsIn, SeenIn, IsPrimary;
    }
  }

  predicate PidsAscend(instances: seq<ProcessInstance>) {
    forall i, j :: 0 <= i < j < |instances| ==> instances[i].pid < instances[j].pid
  }

  lemma {:induction false} DedupAscends(q: seq<ProcessInstance>, key: ProcessInstance -> Pid)
    requires forall i :: key(i) == i.pid
    requires PidsRise(q)
    ensures PidsAscend(DedupBy(q, key))
    ensures forall x :: x in DedupBy(q, key) ==> x in q
  {
    if |q| > 1 {
      hide PidsAscend, PidsRise;
      var n := |q| - 1;
      RisesBelow(q);
      DedupAscends(q[..n], key);
      if q[n].pid != q[n - 1].pid {
        OneMoreAscends(DedupBy(q[..n], key), q[n]);
      }
    } else {
      assert PidsAscend(q);
    }
  }

  predicate PidsRise(q: seq<ProcessInstance>) {
    forall i, j :: 0 <= i < j < |q| ==> q[i].pid <= q[j].pid
  }

  lemma RisesBelow(q: seq<ProcessInstance>)
    requires |q| > 1 && PidsRise(q)
    ensures var n := |q| - 1;
      && PidsRise(q[..n])
      && (q[n].pid != q[n - 1].pid ==> forall x :: x in q[..n] ==> x.pid < q[n].pid)
  {
    var n := |q| - 1;
    forall x | x in q[..n] ensures x.pid <= q[n - 1].pid <= q[n].pid {
      var i :| 0 <= i < n && q[..n][i] == x;
      assert q[i] == x;
    }
  }

  lemma OneMoreAscends(front: seq<ProcessInstance>, last: ProcessInstance)
    requires PidsAscend(front) && forall x :: x in front ==> x.pid < last.pid
    ensures PidsAscend(front + [last])
  {
    assert forall i :: 0 <= i < |front| ==> front[i] in front;
  }

  lemma SortedPidsAscend(instances: seq<ProcessInstance>)
    ensures PidsAscend(SortedInstances(instances))
  {
    var leq := (a: ProcessInstance, b: ProcessInstance) => a.pid <= b.pid;
    assert TotalOrder(leq);
    SortBySorts(instances, leq);
    var q := SortBy(instances, leq);
    assert forall i, j :: 0 <= i < j < |q| ==> leq(q[i], q[j]);
    DedupAscends(q, (i: ProcessInstance) => i.pid);
  }

  /** Where a PID tells a process, every process shown is kept and no other. */
  lemma InstancesExactly(batch: seq<Observation>, id: ServiceId)
    requires id in Observed(batch)
    ensures Elements(Observed(batch)[id].instances) <= InstancesIn(batch, id)
    ensures OneProcessPerPid(batch, id) ==> Elements(Observed(batch)[id].instances) == InstancesIn(batch, id)
    ensures PidsAscend(Observed(batch)[id].instances)
  {
    var m := Fold(batch)[id];
    FoldKeeps(batch, id);
    SortedPidsAscend(m.instances);
    SortedPids(m.instances);
    hide Fold, SortedInstances;
    if OneProcessPerPid(batch, id) {
      forall i | i in m.instances ensures i in SortedInstances(m.instances) {
        assert i.pid in PidsOf(SortedInstances(m.instances));
      }
    }
  }

  lemma {:induction false} FoldKeeps(batch: seq<Observation>, id: ServiceId)
    ensures InstancesIn(batch, id) == if id in Fold(batch) then Elements(Fold(batch)[id].instances) else {}
  {
    if batch != [] {
      var n := |batch| - 1;
      var (front, o) := (batch[..n], batch[n]);
      assert batch == front + [o];
      FoldKeeps(front, id);
      assert InstancesIn(batch, id)
        == InstancesIn(front, id) + if o.id == id then Elements(ToSeq(o.instance)) else {} by {
        assert forall p :: p in front + [o] <==> p in front || p == o;
      }
      hide InstancesIn;
    }
  }

  lemma PrimaryShown(batch: seq<Observation>, id: ServiceId, pid: Option<Pid>)
    requires id in Observed(batch) && IsPrimary(pid, Observed(batch)[id].instances)
    ensures PrimaryIn(pid, batch, id)
  {
    InstancesExactly(batch, id);
    var instances := Observed(batch)[id].instances;
    ObservedShows(batch, id);
    hide Observed, OneProcessPerPid, InstancesIn;
    NoPids(instances);
  }

  // ------------------------------------------------------------- whole runs

  /** A run of the registry over these batches. */
  ghost predicate Batched(steps: seq<Step>, batches: seq<seq<Observation>>) {
    && IsRun(steps) && |batches| == |steps|
    && forall j :: 0 <= j < |steps| ==> steps[j].seen == Observed(batches[j])
  }

  /** What the last batch showed. */
  function LastSeen(steps: seq<Step>): map<ServiceId, Finished> {
    if steps == [] then map[] else steps[|steps| - 1].seen
  }

  lemma ReconciledShows(id: ServiceId, held: Option<Entered>, seen: Option<Finished>, at: Time)
    requires held.Some? ==> WfEntered(id, held.value)
    requires seen.Some? ==> WfFinished(seen.value)
    requires held.Some? && seen.Some? ==> SameKind(held.value.service.kind, seen.value.kind)
    requires held.Some? || seen.Some?
    ensures var s := Reconcile(id, held, seen, at).value.service;
      && (IsRunning(s) <==> seen.Some?)
      && s.instances == (if seen.Some? then seen.value.instances else [])
      && s.endpoints == (if seen.Some? then seen.value.endpoints else [])
  {
    ReconcileKeepsWf(id, held, seen, at);
    hide PortAscending, RunningHealth, ChangeOf;
  }

  /** The services that run are those of the last batch, as it showed them. */
  lemma HeldAsSeen(steps: seq<Step>, id: ServiceId)
    requires IsRun(steps)
    ensures id in LastSeen(steps) ==> id in Held(steps)
    ensures id in Held(steps) ==>
      var (s, seen) := (Held(steps)[id].service, Lookup(LastSeen(steps), id));
      && (IsRunning(s) <==> seen.Some?)
      && s.instances == (if seen.Some? then seen.value.instances else [])
      && s.endpoints == (if seen.Some? then seen.value.endpoints else [])
  {
    if steps != [] {
      var n := |steps| - 1;
      var (front, step) := (steps[..n], steps[n]);
      RunKeepsWf(front);
      if id in Held(front) || id in step.seen {
        StepShows(Held(front), step.seen, step.at, id);
        hide WfEntered, WfFinished, Reconcile, IsRunning, Describes, Evicted, After;
        ReconciledShows(id, Lookup(Held(front), id), Lookup(step.seen, id), step.at);
      } else {
        hide Wf, Sound, Describes, Evicted, Reconcile;
      }
    }
  }

  lemma StepShows(held: map<ServiceId, Entered>, seen: map<ServiceId, Finished>, at: Time, id: ServiceId)
    requires Wf(held) && Sound(held, seen) && (id in held || id in seen)
    ensures id in seen ==> id in After(held, seen, at)
    ensures id in After(held, seen, at) ==>
      After(held, seen, at)[id] == Reconcile(id, Lookup(held, id), Lookup(seen, id), at).value
  {
    RegistryBounds.RetentionIsBounded(held, seen, at);
    hide Wf, Sound, Reconcile, Evicted;
  }

  lemma AfterFrom(held: map<ServiceId, Entered>, seen: map<ServiceId, Finished>, at: Time, id: ServiceId)
    ensures id in After(held, seen, at) ==> id in held || id in seen
  {
    hide Reconcile, Evicted;
  }

  /** The pieces of a batch, by what was seen before and now. */
  lemma PieceShows(id: ServiceId, held: Option<Entered>, seen: Option<Finished>, at: Time)
    requires held.Some? ==> WfEntered(id, held.value)
    requires seen.Some? ==> WfFinished(seen.value)
    requires held.Some? && seen.Some? ==> SameKind(held.value.service.kind, seen.value.kind)
    requires held.Some? || seen.Some?
    ensures var piece := PieceOf(id, held, seen, at);
      var ran := held.Some? && IsRunning(held.value.service);
      var was := if held.Some? then held.value.service.instances else [];
      && (piece.change.Start? <==> !ran && seen.Some?)
      && (piece.change.Stop? <==> ran && seen.None?)
      && (piece.change.Restart? <==>
          && ran && seen.Some?
          && PidsOf(was) !! PidsOf(seen.value.instances)
          && PidsOf(was) + PidsOf(seen.value.instances) != {})
      && (piece.change.Start? ==> piece.change.pid == seen.value.primaryPid)
      && (piece.change.Stop? ==> piece.change.lastPid == PrimaryPid(was))
      && (piece.change.Restart? ==>
        piece.change.oldPid == PrimaryPid(was) && piece.change.newPid == seen.value.primaryPid)
      && (var before := if held.Some? then PortsOf(held.value.service.endpoints) else {};
          var now := if seen.Some? then PortsOf(seen.value.endpoints) else {};
          piece.portsOpened == now - before && piece.portsClosed == before - now)
  {
    ReconciledShows(id, held, seen, at);
    hide Reconcile, PrimaryPid, WfFinished, WfEntered;
    if held.Some? && seen.Some? {
      NoOverlap(held.value.service.instances, seen.value.instances);
    }
  }

  lemma NoPids(instances: seq<ProcessInstance>)
    ensures PidsOf(instances) == {} <==> instances == []
  {
    if instances != [] {
      assert instances[0].pid in PidsOf(instances);
    }
  }

  lemma NoOverlap(was: seq<ProcessInstance>, now: seq<ProcessInstance>)
    ensures (exists i :: i in now && i.pid in PidsOf(was)) <==> !(PidsOf(was) !! PidsOf(now))
    ensures PidsOf(was) + PidsOf(now) != {} <==> was != [] || now != []
  {
    NoPids(was);
    NoPids(now);
    if pid :| pid in PidsOf(was) * PidsOf(now) {
      var i :| i in now && i.pid == pid;
    }
  }

  // ------------------------------------------------------ deltas by batches

  /** The batch before the last. */
  function Before(batches: seq<seq<Observation>>): seq<Observation> {
    if |batches| < 2 then [] else batches[|batches| - 2]
  }

  function PieceFor(pieces: map<ServiceId, Piece>, id: ServiceId): Piece {
    if id in pieces then pieces[id] else Piece(Quiet, {}, {}, None)
  }

  lemma HeldShows(steps: seq<Step>, batches: seq<seq<Observation>>, id: ServiceId)
    requires Batched(steps, batches)
    ensures var last := if batches == [] then [] else batches[|batches| - 1];
      && (SeenIn(last, id) ==> id in Held(steps))
      && (id in Held(steps) ==>
          var s := Held(steps)[id].service;
          && (IsRunning(s) <==> SeenIn(last, id))
          && PidsOf(s.instances) == PidsIn(last, id) && PortsOf(s.endpoints) == PortsIn(last, id)
          && (SeenIn(last, id) ==> PrimaryIn(PrimaryPid(s.instances), last, id)))
      && (!SeenIn(last, id) ==> PidsIn(last, id) == {} && PortsIn(last, id) == {})
  {
    hide IsRun, Held, Observed, PidsIn, PortsIn, SeenIn, IsPrimary, PrimaryIn, PrimaryPid, IsRunning, PidsOf, PortsOf;
    HeldAsSeen(steps, id);
    if batches == [] {
      NothingSeen(id);
    } else {
      var last := batches[|batches| - 1];
      ObservedShows(last, id);
      if SeenIn(last, id) {
        PrimaryPidIsPrimary(Held(steps)[id].service.instances);
        PrimaryShown(last, id, PrimaryPid(Held(steps)[id].service.instances));
      }
    }
    if id in Held(steps) && id !in LastSeen(steps) {
      NothingShown(Held(steps)[id].service);
    }
  }

  lemma NothingSeen(id: ServiceId)
    ensures !SeenIn([], id) && PidsIn([], id) == {} && PortsIn([], id) == {}
  {
  }

  lemma NothingShown(s: Service)
    requires s.instances == [] && s.endpoints == []
    ensures PidsOf(s.instances) == {} && PortsOf(s.endpoints) == {}
  {
  }

  /** What the last batch did to one service, by what it and the batch before
      it showed. */
  lemma PieceOfBatches(steps: seq<Step>, batches: seq<seq<Observation>>, id: ServiceId)
    requires Batched(steps, batches) && steps != []
    ensures var n := |steps| - 1;
      var (was, now) := (Before(batches), batches[n]);
      var piece := PieceFor(Pieces(Held(steps[..n]), steps[n].seen, steps[n].at), id);
      && (piece.change.Start? <==> SeenIn(now, id) && !SeenIn(was, id))
      && (piece.change.Stop? <==> SeenIn(was, id) && !SeenIn(now, id))
      && (piece.change.Restart? <==>
          && SeenIn(was, id) && SeenIn(now, id)
          && PidsIn(was, id) !! PidsIn(now, id) && PidsIn(was, id) + PidsIn(now, id) != {})
      && (piece.change.Start? ==> PrimaryIn(piece.change.pid, now, id))
      && (piece.change.Stop? ==> PrimaryIn(piece.change.lastPid, was, id))
      && (piece.change.Restart? ==>
          PrimaryIn(piece.change.oldPid, was, id) && PrimaryIn(piece.change.newPid, now, id))
      && piece.portsOpened == PortsIn(now, id) - PortsIn(was, id)
      && piece.portsClosed == PortsIn(was, id) - PortsIn(now, id)
  {
    hide Held, Observed, PidsIn, PortsIn, SeenIn, PrimaryIn, IsPrimary, IsRunning, PrimaryPid, PieceOf, Describes,
         WfEntered, WfFinished, PidsOf, PortsOf;
    var n := |steps| - 1;
    var (front, step, now) := (steps[..n], steps[n], batches[n]);
    RunKeepsWf(front);
    FrontBatched(steps, batches);
    HeldShows(front, batches[..n], id);
    ObservedShows(now, id);
    var (held, seen) := (Lookup(Held(front), id), Lookup(step.seen, id));
    if held.Some? || seen.Some? {
      PieceShows(id, held, seen, step.at);
    }
    if seen.Some? {
      PrimaryShown(now, id, seen.value.primaryPid);
    }
  }

  lemma FrontBatched(steps: seq<Step>, batches: seq<seq<Observation>>)
    requires Batched(steps, batches) && steps != []
    ensures var n := |steps| - 1;
      Batched(steps[..n], batches[..n]) && Before(batches) == (if n == 0 then [] else batches[..n][n - 1])
  {
    hide Observed, Describes, Sound, Held;
  }

  predicate Once<T(==)>(q: seq<T>) {
    forall i, j :: 0 <= i < j < |q| ==> q[i] != q[j]
  }

  /** The deltas in the words of the batches. A service has started if it is
      seen and was not, has stopped if it was seen and is not, and has restarted
      if it is seen again and no process of it is the same, one of them having
      shown any; the oldest process is the one told. Ports are told as they
      come and go. Every fact is told once. */
  lemma DeltaExactly(steps: seq<Step>, batches: seq<seq<Observation>>, id: ServiceId)
    requires Batched(steps, batches) && steps != []
    ensures var (was, now) := (Before(batches), batches[|steps| - 1]);
      var delta := steps[|steps| - 1].delta;
      && ((exists pid :: (id, pid) in delta.started) <==> SeenIn(now, id) && !SeenIn(was, id))
      && ((exists pid :: (id, pid) in delta.stopped) <==> SeenIn(was, id) && !SeenIn(now, id))
      && ((exists a, b :: (id, a, b) in delta.restarted) <==>
          && SeenIn(was, id) && SeenIn(now, id)
          && PidsIn(was, id) !! PidsIn(now, id) && PidsIn(was, id) + PidsIn(now, id) != {})
      && (forall pid :: (id, pid) in delta.started ==> PrimaryIn(pid, now, id))
      && (forall pid :: (id, pid) in delta.stopped ==> PrimaryIn(pid, was, id))
      && (forall a, b :: (id, a, b) in delta.restarted ==> PrimaryIn(a, was, id) && PrimaryIn(b, now, id))
      && (forall port :: (id, port) in delta.portsOpened <==> port in PortsIn(now, id) - PortsIn(was, id))
      && (forall port :: (id, port) in delta.portsClosed <==> port in PortsIn(was, id) - PortsIn(now, id))
      && Once(delta.started) && Once(delta.stopped) && Once(delta.restarted)
      && Once(delta.portsOpened) && Once(delta.portsClosed) && Once(delta.healthChanged)
  {
    var n := |steps| - 1;
    var (was, now, delta) := (Before(batches), batches[n], steps[n].delta);
    PieceOfBatches(steps, batches, id);
    var pieces := Pieces(Held(steps[..n]), steps[n].seen, steps[n].at);
    assert Records(delta, pieces) by {
      hide Held, Observed, Pieces, Records, Sound;
    }
    hide Held, Observed, Pieces, PidsIn, PortsIn, SeenIn, PrimaryIn, Batched;
    var piece := PieceFor(pieces, id);
    match piece.change {
      case Start(pid) => assert (id, pid) in delta.started;
      case Stop(pid) => assert (id, pid) in delta.stopped;
      case Restart(a, b) => assert (id, a, b) in delta.restarted;
      case Quiet =>
    }
  }

  /** A delta names the project of every service that is held and of no other,
      and lists its facts in order of service. */
  lemma ProjectsToldExactly(steps: seq<Step>)
    requires IsRun(steps) && steps != []
    ensures var (held, delta) := (Held(steps), steps[|steps| - 1].delta);
      && (forall id :: id in delta.projects <==> id in held)
      && (forall id :: id in held ==> delta.projects[id] == held[id].service.projectId)
      && (forall i, j :: 0 <= i < j < |delta.started| ==> delta.started[i].0 < delta.started[j].0)
      && (forall i, j :: 0 <= i < j < |delta.stopped| ==> delta.stopped[i].0 < delta.stopped[j].0)
      && (forall i, j :: 0 <= i < j < |delta.restarted| ==> delta.restarted[i].0 < delta.restarted[j].0)
      && (forall i, j :: 0 <= i < j < |delta.healthChanged| ==> delta.healthChanged[i].0 < delta.healthChanged[j].0)
      && (forall i, j :: 0 <= i < j < |delta.evicted| ==> delta.evicted[i] < delta.evicted[j])
      && ByServiceAndPort(delta.portsOpened) && ByServiceAndPort(delta.portsClosed)
  {
    hide After, Records, Pieces, Evicted;
  }

  predicate ByServiceAndPort(q: seq<(ServiceId, Port)>) {
    forall i, j :: 0 <= i < j < |q| ==> q[i].0 < q[j].0 || (q[i].0 == q[j].0 && q[i].1 < q[j].1)
  }

  /** A container is never told to have restarted. */
  lemma ContainersNeverRestart(steps: seq<Step>, batches: seq<seq<Observation>>, id: ServiceId)
    requires Batched(steps, batches) && steps != []
    requires PidsIn(batches[|steps| - 1], id) == {}
    ensures forall a, b :: (id, a, b) !in steps[|steps| - 1].delta.restarted
  {
    hide Held, Observed, SeenIn, PrimaryIn, PidsIn, PortsIn, Describes, Once, WfEntered, WfFinished, IsRunning,
         PidsOf, PortsOf;
    var n := |steps| - 1;
    DeltaExactly(steps, batches, id);
    if SeenIn(batches[n], id) && SeenIn(Before(batches), id) {
      FrontBatched(steps, batches);
      HeldShows(steps[..n], batches[..n], id);
      ObservedShows(batches[n], id);
      RunKeepsWf(steps[..n]);
      NoProcess(id, Held(steps[..n])[id], Observed(batches[n])[id]);
    }
  }

  lemma NoProcess(id: ServiceId, e: Entered, f: Finished)
    requires WfEntered(id, e) && WfFinished(f) && SameKind(e.service.kind, f.kind) && PidsOf(f.instances) == {}
    ensures PidsOf(e.service.instances) == {}
  {
    NoPids(f.instances);
  }

  // ------------------------------------------------------- what is held, why

  /** How a held service came to be what it is: registered by step `a` and held
      since, last seen by step `b`. */
  ghost predicate HeldSince(steps: seq<Step>, id: ServiceId, a: nat, b: nat) {
    && a <= b < |steps|
    && id in steps[a].seen && id !in Held(steps[..a])
    && (forall k :: a < k <= |steps| ==> id in Held(steps[..k]))
    && id in steps[b].seen
    && (forall k :: b < k < |steps| ==> id !in steps[k].seen)
  }

  /** A service held since `first`, last seen as `f`, running or not. */
  predicate Reflects(id: ServiceId, e: Entered, f: Finished, first: Time, last: Time, running: bool, listened: bool) {
    && e.service.id == id && e.service.firstSeen == first && e.service.lastSeen == last
    && e.service.name == f.name && e.service.projectId == f.projectId
    && e.service.kind == f.kind && e.service.runtime == f.runtime
    && e.service.instances == (if running then f.instances else [])
    && e.service.endpoints == (if running then f.endpoints else [])
    && e.service.measuredCpu == (if running then f.measuredCpu else None)
    && e.service.measuredMemory == (if running then f.measuredMemory else None)
    && (e.service.health == Stopped <==> !running)
    && e.everListened == listened
  }

  lemma NewReflects(id: ServiceId, f: Finished, at: Time)
    requires WfFinished(f)
    ensures Reflects(id, Reconcile(id, None, Some(f), at).value, f, at, at, true, f.endpoints != [])
  {
    PortsExist(f.endpoints);
  }

  lemma SeenReflects(id: ServiceId, e: Entered, was: Finished, first: Time, last: Time, running: bool, listened: bool,
          f: Finished, at: Time)
    requires WfFinished(f) && Reflects(id, e, was, first, last, running, listened)
    ensures Reflects(id, Reconcile(id, Some(e), Some(f), at).value, f, first, at, true, listened || f.endpoints != [])
  {
    PortsExist(f.endpoints);
    hide ChangeOf;
  }

  lemma UnseenReflects(id: ServiceId, e: Entered, f: Finished, first: Time, last: Time, running: bool, listened: bool,
          at: Time)
    requires Reflects(id, e, f, first, last, running, listened) && WfEntered(id, e)
    ensures Reflects(id, Reconcile(id, Some(e), None, at).value, f, first, last, false, listened)
  {
  }

  predicate ListensAt(steps: seq<Step>, k: nat, id: ServiceId) {
    k < |steps| && id in steps[k].seen && steps[k].seen[id].endpoints != []
  }

  ghost predicate ListenedIn(steps: seq<Step>, id: ServiceId, a: nat, b: nat) {
    exists k :: a <= k <= b && ListensAt(steps, k, id)
  }

  /** Everything known of a held service, by the steps that registered it and
      saw it last. */
  lemma {:induction false} HeldExactly(steps: seq<Step>, id: ServiceId) returns (a: nat, b: nat)
    requires IsRun(steps) && id in Held(steps)
    ensures HeldSince(steps, id, a, b)
    ensures Reflects(id, Held(steps)[id], steps[b].seen[id], steps[a].at, steps[b].at, b == |steps| - 1,
              ListenedIn(steps, id, a, b))
  {
    hide Reconcile, After, Reflects, WfEntered, WfFinished, Describes, ListenedIn, HeldSince;
    var n := |steps| - 1;
    var (front, step) := (steps[..n], steps[n]);
    RunKeepsWf(front);
    AfterFrom(Held(front), step.seen, step.at, id);
    StepShows(Held(front), step.seen, step.at, id);
    if id in Held(front) {
      a, b := HeldExactly(front, id);
      SinceOn(steps, id, a, b);
      var (e, f, listened) := (Held(front)[id], front[b].seen[id], ListenedIn(front, id, a, b));
      if id in step.seen {
        SeenReflects(id, e, f, front[a].at, front[b].at, b == n - 1, listened, step.seen[id], step.at);
        b := n;
      } else {
        UnseenReflects(id, e, f, front[a].at, front[b].at, b == n - 1, listened, step.at);
      }
    } else {
      a, b := n, n;
      NewReflects(id, step.seen[id], step.at);
      SinceNow(steps, id);
    }
  }

  lemma SinceNow(steps: seq<Step>, id: ServiceId)
    requires steps != [] && id in steps[|steps| - 1].seen && id in Held(steps)
    requires id !in Held(steps[..|steps| - 1])
    ensures var n := |steps| - 1;
      && HeldSince(steps, id, n, n)
      && (ListenedIn(steps, id, n, n) <==> steps[n].seen[id].endpoints != [])
  {
    hide Held;
    assert steps[..|steps|] == steps;
    ListensNow(steps, id);
  }

  /** What holds of a run holds of it with one more step. */
  lemma SinceOn(steps: seq<Step>, id: ServiceId, a: nat, b: nat)
    requires steps != [] && id in Held(steps) && HeldSince(steps[..|steps| - 1], id, a, b)
    ensures var n := |steps| - 1;
      && a <= b < n && steps[..n][a] == steps[a] && steps[..n][b] == steps[b] && id in steps[b].seen
      && (id in steps[n].seen ==> HeldSince(steps, id, a, n))
      && (id !in steps[n].seen ==> HeldSince(steps, id, a, b))
      && (id in steps[n].seen ==>
          (ListenedIn(steps, id, a, n) <==> ListenedIn(steps[..n], id, a, b) || steps[n].seen[id].endpoints != []))
      && (id !in steps[n].seen ==> ListenedIn(steps, id, a, b) == ListenedIn(steps[..n], id, a, b))
  {
    hide Held, HeldSince, ListensAt, ListenedIn;
    SinceBounds(steps[..|steps| - 1], id, a, b);
    assert steps == steps[..|steps| - 1] + [steps[|steps| - 1]];
    HeldOn(steps[..|steps| - 1], steps[|steps| - 1], id, a, b);
    SameListening(steps[..|steps| - 1], steps, id, a, b);
    if id in steps[|steps| - 1].seen {
      ListensOn(steps, id, a, b);
    }
  }

  lemma SinceBounds(steps: seq<Step>, id: ServiceId, a: nat, b: nat)
    requires HeldSince(steps, id, a, b)
    ensures a <= b < |steps| && id in steps[b].seen && forall k :: b < k < |steps| ==> id !in steps[k].seen
  {
    hide Held;
  }

  lemma HeldOn(front: seq<Step>, last: Step, id: ServiceId, a: nat, b: nat)
    requires id in Held(front + [last]) && HeldSince(front, id, a, b)
    ensures HeldSince(front + [last], id, a, if id in last.seen then |front| else b)
  {
    hide Held;
    var steps := front + [last];
    forall k | 0 <= k <= |front| ensures steps[..k] == front[..k] {
    }
    assert steps[..|steps|] == steps;
  }

  lemma SameListening(front: seq<Step>, steps: seq<Step>, id: ServiceId, a: nat, b: nat)
    requires steps != [] && front == steps[..|steps| - 1] && b < |front|
    ensures ListenedIn(steps, id, a, b) == ListenedIn(front, id, a, b)
  {
    assert forall k :: 0 <= k <= b ==> ListensAt(steps, k, id) == ListensAt(front, k, id);
  }

  lemma ListensNow(steps: seq<Step>, id: ServiceId)
    requires steps != [] && id in steps[|steps| - 1].seen
    ensures var n := |steps| - 1; ListenedIn(steps, id, n, n) <==> steps[n].seen[id].endpoints != []
  {
    assert ListensAt(steps, |steps| - 1, id) <==> steps[|steps| - 1].seen[id].endpoints != [];
  }

  lemma ListensOn(steps: seq<Step>, id: ServiceId, a: nat, b: nat)
    requires a <= b < |steps| - 1 && id in steps[|steps| - 1].seen
    requires forall k :: b < k < |steps| - 1 ==> id !in steps[k].seen
    ensures ListenedIn(steps, id, a, |steps| - 1)
        <==> ListenedIn(steps, id, a, b) || steps[|steps| - 1].seen[id].endpoints != []
  {
    assert ListensAt(steps, |steps| - 1, id) <==> steps[|steps| - 1].seen[id].endpoints != [];
  }

  // ---------------------------------------------------------------- eviction

  /** Silent for more than ninety seconds, a host process that never listened. */
  predicate Outlasted(held: map<ServiceId, Entered>, seen: map<ServiceId, Finished>, at: Time, id: ServiceId) {
    && id in held && id !in seen
    && held[id].service.kind.HostProcess? && !held[id].everListened
    && at - held[id].service.lastSeen > 90_000_000_000
  }

  /** The stopped services that stay longer than `id`, were there no cap. */
  function Ahead(held: map<ServiceId, Entered>, seen: map<ServiceId, Finished>, at: Time, id: ServiceId)
    : set<ServiceId>
    requires id in held
  {
    set other | other in held && other !in seen && !Outlasted(held, seen, at, other)
      && (held[id].service.lastSeen < held[other].service.lastSeen
          || (held[id].service.lastSeen == held[other].service.lastSeen && id < other))
  }

  /** A service goes exactly if it is not seen and has been silent too long or
      has 256 others ahead of it; the delta says so, and no other goes. */
  lemma EvictedExactly(held: map<ServiceId, Entered>, seen: map<ServiceId, Finished>, at: Time, id: ServiceId)
    requires Wf(held) && Sound(held, seen)
    ensures id in After(held, seen, at) <==>
      id in seen || (id in held && !Outlasted(held, seen, at, id) && |Ahead(held, seen, at, id)| < 256)
    ensures id in Evicted(Reconciled(held, seen, at), at) <==>
      id in held && id !in seen && (Outlasted(held, seen, at, id) || |Ahead(held, seen, at, id)| >= 256)
  {
    hide Wf, Sound, Expired, StoppedIds, EvictedBefore, Outlasted, Ahead, Reconciled;
    RegistryBounds.ObservedRun(held, seen, at);
    var reconciled := Reconciled(held, seen, at);
    assert reconciled.Keys == held.Keys + seen.Keys by { ReconciledKeys(held, seen, at); }
    ExpiredExactly(held, seen, at);
    var rest := reconciled - Expired(reconciled, at);
    StoppedLeft(reconciled, at);
    if id in StoppedIds(rest) {
      AheadExactly(held, seen, at, id);
    }
  }

  lemma ReconciledKeys(held: map<ServiceId, Entered>, seen: map<ServiceId, Finished>, at: Time)
    ensures Reconciled(held, seen, at).Keys == held.Keys + seen.Keys
  {
    hide Reconcile;
  }

  lemma StoppedLeft(reconciled: map<ServiceId, Entered>, at: Time)
    ensures Expired(reconciled, at) <= StoppedIds(reconciled)
    ensures StoppedIds(reconciled - Expired(reconciled, at)) == StoppedIds(reconciled) - Expired(reconciled, at)
  {
  }

  lemma ExpiredExactly(held: map<ServiceId, Entered>, seen: map<ServiceId, Finished>, at: Time)
    requires Wf(held) && Sound(held, seen)
    ensures forall id :: id in Expired(Reconciled(held, seen, at), at) <==> Outlasted(held, seen, at, id)
  {
    hide Wf, Sound, Reconcile, IsRunning;
    RegistryBounds.ObservedRun(held, seen, at);
    var reconciled := Reconciled(held, seen, at);
    forall id ensures id in Expired(reconciled, at) <==> Outlasted(held, seen, at, id) {
      assert id in StoppedIds(reconciled) <==> id in held && id !in seen;
      if id in held && id !in seen {
        StoppedKeeps(id, held[id], at);
      }
    }
  }

  lemma AheadExactly(held: map<ServiceId, Entered>, seen: map<ServiceId, Finished>, at: Time, id: ServiceId)
    requires Wf(held) && Sound(held, seen) && id in held && id !in seen
    ensures var reconciled := Reconciled(held, seen, at);
      var rest := reconciled - Expired(reconciled, at);
      id in rest ==>
        (set other | other in StoppedIds(rest) && EvictedBefore(rest, id, other)) == Ahead(held, seen, at, id)
  {
    hide Wf, Sound, Reconcile, IsRunning, Outlasted, Expired, StoppedIds;
    RegistryBounds.ObservedRun(held, seen, at);
    ExpiredExactly(held, seen, at);
    var reconciled := Reconciled(held, seen, at);
    StoppedLeft(reconciled, at);
    forall other | other in held && other !in seen
      ensures reconciled[other].service.lastSeen == held[other].service.lastSeen
    {
      StoppedKeeps(other, held[other], at);
    }
  }

  lemma StoppedKeeps(id: ServiceId, e: Entered, at: Time)
    ensures var next := Reconcile(id, Some(e), None, at).value;
      && next.service.lastSeen == e.service.lastSeen && next.service.kind == e.service.kind
      && next.everListened == e.everListened
  {
  }

  // ------------------------------------------------------------------ health

  /** A service that is seen is degraded exactly if the last three of the
      restarts told since it stopped lie within a minute, and one that is not
      seen has stopped. */
  lemma HealthExactly(steps: seq<Step>, batches: seq<seq<Observation>>, id: ServiceId)
    requires Batched(steps, batches) && steps != [] && id in Held(steps)
    ensures StoryOf(steps, id).Told?
    ensures var (q, health) := (StoryOf(steps, id).restarts, Held(steps)[id].service.health);
      if !SeenIn(batches[|steps| - 1], id) then health == Stopped
      else if |q| >= 3 && 0 <= q[|q| - 1] - q[|q| - 3] <= 60_000_000_000 then health == Degraded
      else health == Healthy
  {
    hide Held, StoryOf, SeenIn, Observed, Describes, Sound, PrimaryIn, PidsIn, PortsIn, PidsOf, PortsOf, IsRunning,
         WfEntered;
    HeldShows(steps, batches, id);
    DegradedExactly(steps, id);
    RunKeepsWf(steps);
    HealthOf(id, Held(steps)[id]);
    RunningByHealth(id, Held(steps)[id]);
  }

  lemma HealthOf(id: ServiceId, e: Entered)
    requires WfEntered(id, e)
    ensures e.service.health in {Healthy, Degraded, Stopped}
  {
  }

  /** A change of health is told for the services held before and after it, from
      what it was to what it is. */
  lemma HealthToldExactly(steps: seq<Step>, id: ServiceId, a: Health, b: Health)
    requires IsRun(steps) && steps != []
    ensures var n := |steps| - 1;
      var (held, next) := (Held(steps[..n]), Held(steps));
      (id, a, b) in steps[n].delta.healthChanged <==>
        && id in held && held[id].service.health == a && a != b
        && b == if id in next then next[id].service.health else Stopped
  {
    hide Outlasted, Ahead, Evicted, Reconcile, Wf, Sound, Pieces, Records, Describes, InOrder, After;
    var n := |steps| - 1;
    var (front, step) := (steps[..n], steps[n]);
    RunKeepsWf(front);
    HealthPiece(Held(front), step.seen, step.at, step.delta, id, a, b);
    AfterFrom(Held(front), step.seen, step.at, id);
    if id in Held(front) || id in step.seen {
      StepShows(Held(front), step.seen, step.at, id);
      if id in Held(front) && id !in step.seen {
        assert WfEntered(id, Held(front)[id]) by { WfAt(Held(front), id); }
        UnseenHasStopped(id, Held(front)[id], step.at);
      }
    }
  }

  lemma WfAt(held: map<ServiceId, Entered>, id: ServiceId)
    requires Wf(held) && id in held
    ensures WfEntered(id, held[id])
  {
  }

  lemma HealthPiece(held: map<ServiceId, Entered>, seen: map<ServiceId, Finished>, at: Time, delta: RegistryDelta,
          id: ServiceId, a: Health, b: Health)
    requires Describes(delta, held, seen, at)
    ensures (id, a, b) in delta.healthChanged <==>
      && id in held && held[id].service.health == a && a != b
      && Reconcile(id, Some(held[id]), Lookup(seen, id), at).value.service.health == b
  {
    hide Evicted, Reconcile, ChangeOf, RecordsStarts, RecordsStops, RecordsRestarts, RecordsOpened, RecordsClosed,
         InOrder, NoRepeats, PortSet;
  }

  lemma UnseenHasStopped(id: ServiceId, e: Entered, at: Time)
    requires WfEntered(id, e)
    ensures Reconcile(id, Some(e), None, at).value.service.health == Stopped
  {
    RunningByHealth(id, e);
  }
}
