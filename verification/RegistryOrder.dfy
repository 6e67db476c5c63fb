/** The registry does not care in which order a batch lists its observations. */
module RegistryOrder {
  import opened Basics
  import opened Model
  import opened Sorting
  import opened Registry

  /** What the collectors hand over: processes of one service have different
      PIDs, containers have none, and only containers carry measurements. A
      scaled Compose service has several containers under one identity. */
  predicate Plausible(observations: seq<Observation>) {
    && (forall o :: o in observations ==> (o.instance.Some? <==> o.kind.HostProcess?))
    && (forall o :: o in observations && o.instance.Some? ==> o.measuredCpu.None? && o.measuredMemory.None?)
    && (forall i, j :: 0 <= i < j < |observations| && observations[i].id == observations[j].id ==>
          Apart(observations[i], observations[j]))
  }

  /** Two processes with their own PIDs, or two containers. */
  predicate Apart(o: Observation, p: Observation) {
    (o.instance.Some? <==> p.instance.Some?) && (o.instance.Some? ==> PidOf(o) != PidOf(p))
  }

  /** Nothing that is folded tells the two containers apart. */
  predicate Alike(o: Observation, p: Observation) {
    && o.name == p.name && o.projectId == p.projectId && o.kind == p.kind && o.runtime == p.runtime
    && (o.measuredCpu.Some? && p.measuredCpu.Some? ==> o.measuredCpu == p.measuredCpu)
    && (o.measuredMemory.Some? && p.measuredMemory.Some? ==> o.measuredMemory == p.measuredMemory)
  }

  /** Containers that share an identity are alike. */
  predicate ReplicasAlike(observations: seq<Observation>) {
    forall o, p :: o in observations && p in observations && o.id == p.id && o.instance.None? && p.instance.None? ==>
      Alike(o, p)
  }

  predicate Unambiguous(observations: seq<Observation>) {
    Plausible(observations) && ReplicasAlike(observations)
  }

  predicate PidLeq(a: Option<Pid>, b: Option<Pid>) {
    a.Some? && b.Some? && a.value <= b.value
  }

  /** A fold described by the set of observations it covers. */
  ghost predicate FoldOf(observations: set<Observation>, id: ServiceId, m: Merged) {
    && (exists o :: o in observations && o.id == id && MetaOf(o, m))
    && (forall o :: o in observations && o.id == id ==> PidOf(o) == m.metaPid || PidLeq(m.metaPid, PidOf(o)))
    && (forall i :: i in m.instances <==> exists o :: o in observations && o.id == id && o.instance == Some(i))
    && (forall e :: e in m.endpoints <==> exists o :: o in observations && o.id == id && e in o.endpoints)
    && (forall i, j :: 0 <= i < j < |m.instances| ==> m.instances[i].pid != m.instances[j].pid)
    && MeasuredBy(observations, id, m)
  }

  predicate MetaOf(o: Observation, m: Merged) {
    && PidOf(o) == m.metaPid && o.name == m.name && o.projectId == m.projectId && o.kind == m.kind
    && o.runtime == m.runtime
  }

  /** Each measurement is one that was taken, if any was. */
  ghost predicate MeasuredBy(observations: set<Observation>, id: ServiceId, m: Merged) {
    && (m.measuredCpu.Some? ==> exists o :: o in observations && o.id == id && o.measuredCpu == m.measuredCpu)
    && (m.measuredCpu.None? ==> forall o :: o in observations && o.id == id ==> o.measuredCpu.None?)
    && (m.measuredMemory.Some? ==> exists o :: o in observations && o.id == id && o.measuredMemory == m.measuredMemory)
    && (m.measuredMemory.None? ==> forall o :: o in observations && o.id == id ==> o.measuredMemory.None?)
  }

  lemma AbsorbFolds(observations: set<Observation>, m: Merged, o: Observation)
    requires FoldOf(observations, o.id, m)
    requires forall p :: p in observations && p.id == o.id ==> Apart(p, o)
    ensures FoldOf(observations + {o}, o.id, Absorb(m, o))
  {
    hide MeasuredBy;
    AbsorbMeasures(observations, m, o);
    forall i | 0 <= i < |m.instances| ensures Some(m.instances[i].pid) != PidOf(o) {
      assert m.instances[i] in m.instances;
    }
  }

  lemma AbsorbMeasures(observations: set<Observation>, m: Merged, o: Observation)
    requires MeasuredBy(observations, o.id, m)
    ensures MeasuredBy(observations + {o}, o.id, Absorb(m, o))
  {
    assert o in observations + {o};
  }

  /** The fold has an entry for exactly the services observed, and it is the
      fold of their observations. */
  ghost predicate Described(observations: set<Observation>, id: ServiceId, m: Option<Merged>) {
    match m
    case None => forall o :: o in observations ==> o.id != id
    case Some(m) => FoldOf(observations, id, m)
  }

  lemma DescribedStep(front: set<Observation>, id: ServiceId, m: Option<Merged>, o: Observation)
    requires Described(front, id, m)
    requires forall p :: p in front && p.id == o.id ==> Apart(p, o)
    ensures o.id == id && m.None? ==> Described(front + {o}, id, Some(NewMerged(o)))
    ensures o.id == id && m.Some? ==> Described(front + {o}, id, Some(Absorb(m.value, o)))
    ensures o.id != id ==> Described(front + {o}, id, m)
  {
    hide FoldOf;
    if o.id == id && m.None? {
      FreshFold(front, o);
    } else if o.id == id {
      AbsorbFolds(front, m.value, o);
    } else if m.Some? {
      OthersDoNotMatter(front, id, m.value, o);
    }
  }

  lemma SomeObservation(observations: set<Observation>, id: ServiceId, m: Merged)
    requires FoldOf(observations, id, m)
    ensures exists p :: p in observations && p.id == id
  {
  }

  lemma {:induction false} FoldDescribed(observations: seq<Observation>, id: ServiceId)
    requires Plausible(observations)
    ensures Described(Elements(observations), id, Lookup(Fold(observations), id))
  {
    hide Described, Absorb, NewMerged;
    if observations == [] {
      NothingDescribed(id);
      assert Elements(observations) == {};
    } else {
      var n := |observations| - 1;
      var (front, o) := (observations[..n], observations[n]);
      PlausibleStep(observations);
      FoldDescribed(front, id);
      AppendElements(front, o);
      assert observations == front + [o];
      DescribedStep(Elements(front), id, Lookup(Fold(front), id), o);
    }
  }

  lemma NothingDescribed(id: ServiceId)
    ensures Described({}, id, None)
  {
  }

  lemma PlausibleStep(observations: seq<Observation>)
    requires Plausible(observations) && observations != []
    ensures var (front, o) := (observations[..|observations| - 1], observations[|observations| - 1]);
      Plausible(front) && forall p :: p in front && p.id == o.id ==> Apart(p, o)
  {
    var n := |observations| - 1;
    forall p | p in observations[..n] && p.id == observations[n].id ensures Apart(p, observations[n]) {
      var i :| 0 <= i < n && observations[i] == p;
    }
  }

  lemma AppendElements(front: seq<Observation>, o: Observation)
    ensures Elements(front + [o]) == Elements(front) + {o}
  {
  }

  lemma FreshFold(observations: set<Observation>, o: Observation)
    requires forall p :: p in observations ==> p.id != o.id
    ensures FoldOf(observations + {o}, o.id, NewMerged(o))
  {
    assert o in observations + {o} && MetaOf(o, NewMerged(o));
  }

  lemma OthersDoNotMatter(observations: set<Observation>, id: ServiceId, m: Merged, o: Observation)
    requires FoldOf(observations, id, m) && o.id != id
    ensures FoldOf(observations + {o}, id, m)
  {
  }

  // ------------------------------------------------------ normal forms agree

  /** Processes of a service can be told apart by their PIDs, and its containers
      not at all. */
  ghost predicate Separate(observations: set<Observation>) {
    forall o, p :: o in observations && p in observations && o.id == p.id && o != p ==> Comparable(o, p)
  }

  predicate Comparable(o: Observation, p: Observation) {
    Apart(o, p) && (o.instance.None? ==> Alike(o, p))
  }

  lemma SortedByPidUnique(a: seq<ProcessInstance>, b: seq<ProcessInstance>)
    requires forall i, j :: 0 <= i < j < |a| ==> a[i].pid != a[j].pid
    requires forall i, j :: 0 <= i < j < |b| ==> b[i].pid != b[j].pid
    requires forall x :: x in a <==> x in b
    ensures SortedInstances(a) == SortedInstances(b)
  {
    var leq := (x: ProcessInstance, y: ProcessInstance) => x.pid <= y.pid;
    assert TotalOrder(leq);
    SortBySorts(a, leq);
    SortBySorts(b, leq);
    assert NoRepeats(a) && NoRepeats(b);
    SameCounts(a, b);
    hide NoRepeats, SortBy, TotalOrder;
    PidsStayApart(a, SortBy(a, leq));
    SortedUnique(SortBy(a, leq), SortBy(b, leq), leq);
  }

  lemma PidsStayApart(a: seq<ProcessInstance>, r: seq<ProcessInstance>)
    requires forall i, j :: 0 <= i < j < |a| ==> a[i].pid != a[j].pid
    requires multiset(a) == multiset(r)
    ensures forall x, y :: x in r && y in r && x.pid == y.pid ==> x == y
    ensures NoRepeats(r)
  {
    SameMembers(a, r);
    NoRepeatsPermuted(a, r);
  }

  lemma {:induction false} DedupSorted(q: seq<Endpoint>)
    requires SortedBy(q, EndpointLeq)
    ensures var r := DedupBy(q, (e: Endpoint) => e);
      && NoRepeats(r) && SortedBy(r, EndpointLeq)
      && (forall e :: e in r <==> e in q)
      && (q != [] ==> r != [] && r[|r| - 1] == q[|q| - 1])
  {
    if |q| > 1 {
      hide EndpointLeq;
      EndpointOrder();
      var n := |q| - 1;
      DedupSorted(q[..n]);
      assert q == q[..n] + [q[n]];
      assert EndpointLeq(q[n - 1], q[n]) && q[..n][n - 1] == q[n - 1];
      AfterAll(DedupBy(q[..n], (e: Endpoint) => e), q[n - 1], q[n]);
      hide TotalOrder, Antisymmetric;
    }
  }

  lemma AfterAll(front: seq<Endpoint>, last: Endpoint, next: Endpoint)
    requires SortedBy(front, EndpointLeq) && front != [] && front[|front| - 1] == last && EndpointLeq(last, next)
    ensures forall i :: 0 <= i < |front| ==> EndpointLeq(front[i], next)
    ensures next in front ==> next == last
  {
    EndpointOrder();
    hide EndpointLeq;
    forall i | 0 <= i < |front| ensures EndpointLeq(front[i], next) && (front[i] == next ==> next == last) {
      assert EndpointLeq(last, last);
      assert EndpointLeq(front[i], last);
    }
  }

  lemma SortedEndpointsUnique(a: seq<Endpoint>, b: seq<Endpoint>)
    requires forall e :: e in a <==> e in b
    ensures SortedEndpoints(a) == SortedEndpoints(b)
  {
    EndpointOrder();
    hide EndpointLeq, TotalOrder, Antisymmetric, SortedBy, NoRepeats, SortBy, DedupBy;
    SortBySorts(a, EndpointLeq);
    SortBySorts(b, EndpointLeq);
    DedupSorted(SortBy(a, EndpointLeq));
    DedupSorted(SortBy(b, EndpointLeq));
    SameCounts(SortedEndpoints(a), SortedEndpoints(b));
    SortedUnique(SortedEndpoints(a), SortedEndpoints(b), EndpointLeq);
  }

  /** No process carries a measurement. */
  predicate Unmeasured(observations: set<Observation>) {
    forall o :: o in observations && o.instance.Some? ==> o.measuredCpu.None? && o.measuredMemory.None?
  }

  lemma FinishUnique(observations: set<Observation>, id: ServiceId, m: Merged, w: Merged)
    requires Separate(observations) && Unmeasured(observations)
    requires FoldOf(observations, id, m) && FoldOf(observations, id, w)
    ensures Finish(m) == Finish(w)
  {
    hide SortedInstances, SortedEndpoints, AscendingPorts, Separate, Unmeasured, MetaOf, MeasuredBy, PrimaryPid;
    SortedByPidUnique(m.instances, w.instances);
    SortedEndpointsUnique(m.endpoints, w.endpoints);
    MetaUnique(observations, id, m, w);
    MeasuresUnique(observations, id, m, w);
  }

  lemma MetaUnique(observations: set<Observation>, id: ServiceId, m: Merged, w: Merged)
    requires Separate(observations) && FoldOf(observations, id, m) && FoldOf(observations, id, w)
    ensures m.metaPid == w.metaPid && m.name == w.name && m.projectId == w.projectId && m.kind == w.kind
    ensures m.runtime == w.runtime
  {
    var o :| o in observations && o.id == id && MetaOf(o, m);
    var p :| p in observations && p.id == id && MetaOf(p, w);
    assert o == p || Comparable(o, p);
  }

  lemma MeasuresUnique(observations: set<Observation>, id: ServiceId, m: Merged, w: Merged)
    requires Separate(observations) && MeasuredBy(observations, id, m) && MeasuredBy(observations, id, w)
    requires Unmeasured(observations)
    ensures m.measuredCpu == w.measuredCpu && m.measuredMemory == w.measuredMemory
  {
    if m.measuredCpu.Some? && w.measuredCpu.Some? {
      var o :| o in observations && o.id == id && o.measuredCpu == m.measuredCpu;
      var p :| p in observations && p.id == id && p.measuredCpu == w.measuredCpu;
      assert o == p || Comparable(o, p);
    }
    if m.measuredMemory.Some? && w.measuredMemory.Some? {
      var o :| o in observations && o.id == id && o.measuredMemory == m.measuredMemory;
      var p :| p in observations && p.id == id && p.measuredMemory == w.measuredMemory;
      assert o == p || Comparable(o, p);
    }
  }

  lemma SeparateElements(observations: seq<Observation>)
    requires Unambiguous(observations)
    ensures Separate(Elements(observations)) && Unmeasured(Elements(observations))
  {
    hide Alike;
    forall o, p | o in observations && p in observations && o.id == p.id && o != p ensures Comparable(o, p) {
      var i :| 0 <= i < |observations| && observations[i] == o;
      var j :| 0 <= j < |observations| && observations[j] == p;
      assert Apart(observations[i], observations[j]) || Apart(observations[j], observations[i]);
    }
  }

  /** Whether two observations may share a batch is a matter of the two. */
  lemma PlausiblePermuted(a: seq<Observation>, b: seq<Observation>)
    requires Plausible(a) && multiset(a) == multiset(b)
    ensures Plausible(b)
  {
    SameMembers(a, b);
    forall i, j | 0 <= i < j < |b| && b[i].id == b[j].id ensures Apart(b[i], b[j]) {
      var k, l := TwoPlaces(b, a, i, j);
      assert Apart(a[k], a[l]) || Apart(a[l], a[k]);
    }
  }

  /** Two places of one arrangement hold what two places of another do. */
  lemma TwoPlaces<T>(b: seq<T>, a: seq<T>, i: nat, j: nat) returns (k: nat, l: nat)
    requires multiset(a) == multiset(b) && i < j < |b|
    ensures k < |a| && l < |a| && k != l
    ensures a[k] == b[i] && a[l] == b[j]
  {
    k := Locate(b, a, b[i]);
    WithoutOne(b, i);
    WithoutOne(a, k);
    var (p, q) := (Without(b, i), Without(a, k));
    assert p[j - 1] == b[j] && |q| == |a| - 1;
    assert forall n :: 0 <= n < |q| ==> q[n] == a[if n < k then n else n + 1];
    hide Without;
    l := Locate(p, q, b[j]);
    l := if l < k then l else l + 1;
  }

  /** Permuting a batch changes nothing the registry looks at. */
  lemma OrderDoesNotMatter(a: seq<Observation>, b: seq<Observation>)
    requires Unambiguous(a) && multiset(a) == multiset(b)
    ensures Observed(a) == Observed(b)
  {
    hide Finish, Plausible, Separate, Unmeasured, Fold, ReplicasAlike;
    SameMembers(a, b);
    SeparateElements(a);
    PlausiblePermuted(a, b);
    assert Elements(a) == Elements(b);
    forall id
      ensures id in Fold(a) <==> id in Fold(b)
      ensures id in Fold(a) ==> Finish(Fold(a)[id]) == Finish(Fold(b)[id])
    {
      FoldDescribed(a, id);
      FoldDescribed(b, id);
      SameFold(Elements(a), id, Lookup(Fold(a), id), Lookup(Fold(b), id));
    }
  }

  /** However the batch is arranged, the same is observed. */
  ghost predicate OrderIsHidden(observations: seq<Observation>) {
    forall others :: multiset(others) == multiset(observations) ==> Observed(others) == Observed(observations)
  }

  /** Order is hidden exactly when containers that share an identity, the
      replicas of a scaled service, are alike. */
  lemma ReplicasDecide(observations: seq<Observation>)
    requires Plausible(observations)
    ensures OrderIsHidden(observations) <==> ReplicasAlike(observations)
  {
    hide Plausible, Observed;
    if ReplicasAlike(observations) {
      forall others | multiset(others) == multiset(observations) ensures Observed(others) == Observed(observations) {
        OrderDoesNotMatter(observations, others);
      }
    } else {
      var o, p :| o in observations && p in observations && o.id == p.id && o.instance.None? && p.instance.None?
        && !Alike(o, p);
      ReplicasShowOrder(observations, o, p);
    }
  }

  /** Two containers of one identity that are not alike show the order they come
      in: the first one names the service, the last one measures it. */
  lemma ReplicasShowOrder(observations: seq<Observation>, o: Observation, p: Observation)
    requires Plausible(observations) && o in observations && p in observations
    requires o.id == p.id && o.instance.None? && p.instance.None? && !Alike(o, p)
    ensures !OrderIsHidden(observations)
  {
    hide Plausible, Observed, OrderIsHidden;
    var rest := PairFirst(observations, o, p);
    if o.name == p.name && o.projectId == p.projectId && o.kind == p.kind && o.runtime == p.runtime {
      var (a, b) := (rest + [p] + [o], rest + [o] + [p]);
      LastMeasures(rest + [p], o);
      LastMeasures(rest + [o], p);
      Rotated(o, p, rest);
      ShownByOrder(observations, a, b);
    } else {
      var (a, b) := ([o, p] + rest, [p, o] + rest);
      PlausiblePermuted(observations, a);
      PlausiblePermuted(observations, b);
      FirstNames(a);
      FirstNames(b);
      ShownByOrder(observations, a, b);
    }
  }

  lemma ShownByOrder(observations: seq<Observation>, a: seq<Observation>, b: seq<Observation>)
    requires multiset(a) == multiset(observations) && multiset(b) == multiset(observations)
    requires Observed(a) != Observed(b)
    ensures !OrderIsHidden(observations)
  {
    hide Observed;
  }

  lemma Rotated<T>(o: T, p: T, rest: seq<T>)
    ensures multiset(rest + [p] + [o]) == multiset([o, p] + rest)
    ensures multiset(rest + [o] + [p]) == multiset([o, p] + rest)
  {
  }

  lemma LastMeasures(front: seq<Observation>, last: Observation)
    ensures last.id in Observed(front + [last])
    ensures var f := Observed(front + [last])[last.id];
      && (last.measuredCpu.Some? ==> f.measuredCpu == last.measuredCpu)
      && (last.measuredMemory.Some? ==> f.measuredMemory == last.measuredMemory)
  {
    assert (front + [last])[..|front|] == front;
    hide SortedInstances, SortedEndpoints, AscendingPorts, PrimaryPid;
  }

  lemma {:induction false} FirstNames(observations: seq<Observation>)
    requires Plausible(observations) && observations != [] && observations[0].instance.None?
    ensures var first := observations[0];
      && first.id in Observed(observations)
      && var f := Observed(observations)[first.id];
        f.name == first.name && f.projectId == first.projectId && f.kind == first.kind && f.runtime == first.runtime
  {
    hide SortedInstances, SortedEndpoints, AscendingPorts, PrimaryPid;
    var n := |observations| - 1;
    assert observations == observations[..n] + [observations[n]];
    if n > 0 {
      PlausibleStep(observations);
      FirstNames(observations[..n]);
      assert observations[0] in observations[..n];
    } else {
      assert Fold(observations) == AddObservation(map[], observations[0]);
    }
  }

  lemma SameFold(observations: set<Observation>, id: ServiceId, m: Option<Merged>, w: Option<Merged>)
    requires Separate(observations) && Unmeasured(observations)
    requires Described(observations, id, m) && Described(observations, id, w)
    ensures m.Some? <==> w.Some?
    ensures m.Some? ==> Finish(m.value) == Finish(w.value)
  {
    hide FoldOf, Finish, Separate, Unmeasured;
    if m.Some? { SomeObservation(observations, id, m.value); }
    if w.Some? { SomeObservation(observations, id, w.value); }
    if m.Some? && w.Some? {
      FinishUnique(observations, id, m.value, w.value);
    }
  }

  // ------------------------------------------------------------------- deltas

  lemma PairsUnique<T(!new)>(q: seq<(ServiceId, T)>, r: seq<(ServiceId, T)>)
    requires PairsAscend(q) && PairsAscend(r) && forall id, t :: (id, t) in q <==> (id, t) in r
    ensures q == r
  {
    forall x ensures x in q <==> x in r {
      assert x == (x.0, x.1);
    }
    AscendingUnique(q, r, (a: (ServiceId, T), b: (ServiceId, T)) => a.0 < b.0);
  }

  lemma TriplesUnique<T(!new), U(!new)>(q: seq<(ServiceId, T, U)>, r: seq<(ServiceId, T, U)>)
    requires TriplesAscend(q) && TriplesAscend(r) && forall id, t, u :: (id, t, u) in q <==> (id, t, u) in r
    ensures q == r
  {
    forall x ensures x in q <==> x in r {
      assert x == (x.0, x.1, x.2);
    }
    AscendingUnique(q, r, (a: (ServiceId, T, U), b: (ServiceId, T, U)) => a.0 < b.0);
  }

  lemma PortsUnique(q: seq<(ServiceId, Port)>, r: seq<(ServiceId, Port)>)
    requires PortsAscend(q) && PortsAscend(r) && forall id, port :: (id, port) in q <==> (id, port) in r
    ensures q == r
  {
    forall x ensures x in q <==> x in r {
      assert x == (x.0, x.1);
    }
    AscendingUnique(q, r, PortLess);
  }

  /** A batch has one delta. */
  lemma DeltaUnique(d: RegistryDelta, e: RegistryDelta, held: map<ServiceId, Entered>, seen: map<ServiceId, Finished>,
          at: Time)
    requires Describes(d, held, seen, at) && Describes(e, held, seen, at)
    ensures d == e
  {
    hide After, Evicted, Pieces, ProjectsOf, Reconciled;
    PairsUnique(d.started, e.started);
    PairsUnique(d.stopped, e.stopped);
    TriplesUnique(d.restarted, e.restarted);
    PortsUnique(d.portsOpened, e.portsOpened);
    PortsUnique(d.portsClosed, e.portsClosed);
    TriplesUnique(d.healthChanged, e.healthChanged);
    AscendingUnique(d.evicted, e.evicted, (a: ServiceId, b: ServiceId) => a < b);
  }

  /** Two registries in the same state, given the same batch in any order, end
      in the same state and report the same delta. */
  lemma ApplyIgnoresOrder(held: map<ServiceId, Entered>, a: seq<Observation>, b: seq<Observation>, at: Time,
          d: RegistryDelta, e: RegistryDelta)
    requires Unambiguous(a) && multiset(a) == multiset(b)
    requires Describes(d, held, Observed(a), at) && Describes(e, held, Observed(b), at)
    ensures After(held, Observed(a), at) == After(held, Observed(b), at) && d == e
  {
    hide Describes;
    OrderDoesNotMatter(a, b);
    DeltaUnique(d, e, held, Observed(a), at);
  }
}
