/** The registry object: services held in a map that `Apply` updates in place. */
module RegistryService {
  import opened Basics
  import opened Model
  import opened Sorting
  import opened Registry

  // ------------------------------------------------------------------- ports

  /** The elements of `q` that are not in `r`, in order. */
  function Minus(q: seq<Port>, r: seq<Port>): seq<Port> {
    if q == [] then [] else
      var n := |q| - 1;
      if q[n] in r then Minus(q[..n], r) else Minus(q[..n], r) + [q[n]]
  }

  lemma {:induction false} MinusSubtracts(q: seq<Port>, r: seq<Port>)
    requires StrictlyAscending(q)
    ensures StrictlyAscending(Minus(q, r)) && Elements(Minus(q, r)) == Elements(q) - Elements(r)
  {
    if q != [] {
      var n := |q| - 1;
      MinusSubtracts(q[..n], r);
      var front := Minus(q[..n], r);
      assert Elements(q) == Elements(q[..n]) + {q[n]} by { assert q == q[..n] + [q[n]]; }
      forall i | 0 <= i < |front| ensures front[i] < q[n] {
        assert front[i] in Elements(front);
      }
      assert Elements(front + [q[n]]) == Elements(front) + {q[n]};
    }
  }

  lemma MinusStep(q: seq<Port>, r: seq<Port>, i: nat)
    requires i < |q|
    ensures Minus(q[..i + 1], r) == Minus(q[..i], r) + (if q[i] in r then [] else [q[i]])
  {
    assert q[..i + 1][..i] == q[..i];
  }

  /** Everything behind the pointers is below everything in front of them. */
  predicate Apart(before: seq<Port>, current: seq<Port>, i: nat, j: nat)
    requires i <= |before| && j <= |current|
  {
    && (forall a, b :: 0 <= a < i && j <= b < |current| ==> before[a] < current[b])
    && (forall a, b :: i <= a < |before| && 0 <= b < j ==> current[b] < before[a])
  }

  lemma ApartStep(before: seq<Port>, current: seq<Port>, i: nat, j: nat)
    requires StrictlyAscending(before) && StrictlyAscending(current)
    requires i <= |before| && j <= |current| && Apart(before, current, i, j)
    ensures i < |before| && (j == |current| || before[i] < current[j]) ==>
      before[i] !in current && Apart(before, current, i + 1, j)
    ensures j < |current| && (i == |before| || current[j] < before[i]) ==>
      current[j] !in before && Apart(before, current, i, j + 1)
    ensures i < |before| && j < |current| && before[i] == current[j] ==> Apart(before, current, i + 1, j + 1)
  {
  }

  /** Two-pointer diff of the previous ports against the current ones. */
  method DiffPorts(previous: seq<Endpoint>, current: seq<Port>) returns (gone: seq<Port>, came: seq<Port>)
    requires StrictlyAscending(current)
    ensures StrictlyAscending(gone) && Elements(gone) == PortsOf(previous) - Elements(current)
    ensures StrictlyAscending(came) && Elements(came) == Elements(current) - PortsOf(previous)
  {
    var before: seq<Port> := Ascending(PortsOf(previous));
    assert Elements(before) == PortsOf(previous);
    MinusSubtracts(before, current);
    MinusSubtracts(current, before);
    hide Minus, StrictlyAscending, Elements;
    gone, came := DiffAscending(before, current);
  }

  method DiffAscending(before: seq<Port>, current: seq<Port>) returns (gone: seq<Port>, came: seq<Port>)
    requires StrictlyAscending(before) && StrictlyAscending(current)
    ensures gone == Minus(before, current) && came == Minus(current, before)
  {
    gone, came := [], [];
    var i, j := 0, 0;
    assert Apart(before, current, 0, 0);
    hide StrictlyAscending, Apart;
    while i < |before| || j < |current|
      invariant i <= |before| && j <= |current|
      invariant Apart(before, current, i, j)
      invariant gone == Minus(before[..i], current) && came == Minus(current[..j], before)
      decreases |before| - i + |current| - j
    {
      ApartStep(before, current, i, j);
      if i < |before| { MinusStep(before, current, i); }
      if j < |current| { MinusStep(current, before, j); }
      if i < |before| && j < |current| && before[i] == current[j] {
        i, j := i + 1, j + 1;
      } else if j == |current| || (i < |before| && before[i] < current[j]) {
        gone := gone + [before[i]];
        i := i + 1;
      } else {
        came := came + [current[j]];
        j := j + 1;
      }
    }
    assert before[..i] == before && current[..j] == current;
  }

  function Tag(id: ServiceId, ports: seq<Port>): seq<(ServiceId, Port)> {
    seq(|ports|, i requires 0 <= i < |ports| => (id, ports[i]))
  }

  // ----------------------------------------------- one service at a time

  /** `after` is `before` with the account of one service appended. */
  predicate Extends(before: RegistryDelta, after: RegistryDelta, id: ServiceId, piece: Piece, came: seq<Port>,
          gone: seq<Port>)
  {
    && NoRepeats(came) && Elements(came) == piece.portsOpened
    && NoRepeats(gone) && Elements(gone) == piece.portsClosed
    && after == before.(
         started := before.started + (if piece.change.Start? then [(id, piece.change.pid)] else []),
         stopped := before.stopped + (if piece.change.Stop? then [(id, piece.change.lastPid)] else []),
         restarted := before.restarted
           + (if piece.change.Restart? then [(id, piece.change.oldPid, piece.change.newPid)] else []),
         portsOpened := before.portsOpened + Tag(id, came),
         portsClosed := before.portsClosed + Tag(id, gone),
         healthChanged := before.healthChanged
           + (match piece.health case None => [] case Some((a, b)) => [(id, a, b)]))
  }

  lemma OpenedStep(q: seq<(ServiceId, Port)>, pieces: map<ServiceId, Piece>, id: ServiceId, piece: Piece,
          ports: seq<Port>)
    requires RecordsOpened(q, pieces) && id !in pieces && NoRepeats(ports) && Elements(ports) == piece.portsOpened
    ensures RecordsOpened(q + Tag(id, ports), pieces[id := piece])
  {
    var tagged := Tag(id, ports);
    forall x, port ensures (x, port) in tagged <==> x == id && port in piece.portsOpened {
      if x == id && port in ports {
        var i :| 0 <= i < |ports| && ports[i] == port;
        assert tagged[i] == (x, port);
      }
    }
  }

  lemma ClosedStep(q: seq<(ServiceId, Port)>, pieces: map<ServiceId, Piece>, id: ServiceId, piece: Piece,
          ports: seq<Port>)
    requires RecordsClosed(q, pieces) && id !in pieces && NoRepeats(ports) && Elements(ports) == piece.portsClosed
    ensures RecordsClosed(q + Tag(id, ports), pieces[id := piece])
  {
    var tagged := Tag(id, ports);
    forall x, port ensures (x, port) in tagged <==> x == id && port in piece.portsClosed {
      if x == id && port in ports {
        var i :| 0 <= i < |ports| && ports[i] == port;
        assert tagged[i] == (x, port);
      }
    }
  }

  lemma LifeStep(before: RegistryDelta, after: RegistryDelta, pieces: map<ServiceId, Piece>, id: ServiceId,
          piece: Piece)
    requires RecordsStarts(before.started, pieces) && RecordsStops(before.stopped, pieces)
        && RecordsRestarts(before.restarted, pieces)
    requires RecordsHealth(before.healthChanged, pieces) && id !in pieces
    requires exists came, gone :: Extends(before, after, id, piece, came, gone)
    ensures RecordsStarts(after.started, pieces[id := piece]) && RecordsStops(after.stopped, pieces[id := piece])
    ensures RecordsRestarts(after.restarted, pieces[id := piece])
        && RecordsHealth(after.healthChanged, pieces[id := piece])
  {
  }

  lemma RecordsStep(before: RegistryDelta, after: RegistryDelta, pieces: map<ServiceId, Piece>, id: ServiceId,
          piece: Piece, came: seq<Port>, gone: seq<Port>)
    requires Records(before, pieces) && id !in pieces && Extends(before, after, id, piece, came, gone)
    ensures Records(after, pieces[id := piece])
  {
    hide RecordsOpened, RecordsClosed, RecordsStarts, RecordsStops, RecordsRestarts, RecordsHealth;
    LifeStep(before, after, pieces, id, piece);
    OpenedStep(before.portsOpened, pieces, id, piece, came);
    ClosedStep(before.portsClosed, pieces, id, piece, gone);
  }

  lemma AscendingNoRepeats(q: seq<Port>)
    requires StrictlyAscending(q)
    ensures NoRepeats(q)
  {
  }

  lemma FinishedPorts(f: Finished)
    requires WfFinished(f)
    ensures StrictlyAscending(f.ports) && NoRepeats(f.ports) && Elements(f.ports) == PortsOf(f.endpoints)
  {
    AscendingPortsAscend(f.endpoints);
    AscendingPortsListsPorts(f.endpoints);
  }

  /** A service seen for the first time. */
  method Enter(id: ServiceId, merged: Finished, at: Time, delta: RegistryDelta)
    returns (entered: Entered, out: RegistryDelta)
    requires WfFinished(merged)
    ensures Some(entered) == Reconcile(id, None, Some(merged), at)
    ensures Extends(delta, out, id, PieceOf(id, None, Some(merged), at), merged.ports, [])
  {
    FinishedPorts(merged);
    out := delta.(portsOpened := delta.portsOpened + Tag(id, merged.ports));
    out := out.(started := out.started + [(id, merged.primaryPid)]);
    entered := Entered(IntoService(merged, id, at), [], merged.ports != []);
  }

  /** The lifecycle part of what a delta says about one service. */
  function LifeNoted(delta: RegistryDelta, id: ServiceId, change: Change): RegistryDelta {
    match change
    case Quiet => delta
    case Start(pid) => delta.(started := delta.started + [(id, pid)])
    case Stop(pid) => delta.(stopped := delta.stopped + [(id, pid)])
    case Restart(oldPid, newPid) => delta.(restarted := delta.restarted + [(id, oldPid, newPid)])
  }

  lemma NoPids(instances: seq<ProcessInstance>)
    ensures PidsOf(instances) == {} <==> instances == []
  {
    if instances != [] {
      assert instances[0].pid in PidsOf(instances);
    }
  }

  /** Whether an observed service started again, restarted or just went on. */
  method NoteLife(entered: Entered, id: ServiceId, merged: Finished, at: Time, delta: RegistryDelta)
    returns (updated: Entered, out: RegistryDelta)
    ensures var listened := entered.(everListened := entered.everListened || merged.ports != []);
      updated == if ChangeOf(Some(entered), Some(merged)).Quiet? then listened else RecordRestart(listened, at)
    ensures out == LifeNoted(delta, id, ChangeOf(Some(entered), Some(merged)))
  {
    hide PidsOf, PrimaryPid, RecordRestart, IsRunning;
    NoPids(entered.service.instances);
    out, updated := delta, entered;
    var wasRunning := IsRunning(entered.service);
    var previousPids := PidsOf(entered.service.instances);
    var previousPrimary := PrimaryPid(entered.service.instances);
    if merged.ports != [] {
      updated := updated.(everListened := true);
    }
    if wasRunning {
      var overlaps := exists i :: i in merged.instances && i.pid in previousPids;
      var pidEvidence := merged.instances != [] || previousPids != {};
      if !overlaps && pidEvidence {
        updated := RecordRestart(updated, at);
        out := out.(restarted := out.restarted + [(id, previousPrimary, merged.primaryPid)]);
      }
    } else {
      updated := RecordRestart(updated, at);
      out := out.(started := out.started + [(id, merged.primaryPid)]);
    }
  }

  /** A service that was already known and is observed. */
  method Update(entered: Entered, id: ServiceId, merged: Finished, at: Time, delta: RegistryDelta)
    returns (updated: Entered, out: RegistryDelta, ghost came: seq<Port>, ghost gone: seq<Port>)
    requires WfFinished(merged)
    ensures Some(updated) == Reconcile(id, Some(entered), Some(merged), at)
    ensures Extends(delta, out, id, PieceOf(id, Some(entered), Some(merged), at), came, gone)
  {
    FinishedPorts(merged);
    hide ChangeOf, PortsOf, RunningHealth, WfFinished, StrictlyAscending, PidsOf;
    updated, out := NoteLife(entered, id, merged, at, delta);
    KeepsHealth(entered, merged, at);

    var closed, added := DiffPorts(entered.service.endpoints, merged.ports);
    gone, came := closed, added;
    AscendingNoRepeats(closed);
    AscendingNoRepeats(added);
    out := out.(portsClosed := out.portsClosed + Tag(id, closed), portsOpened := out.portsOpened + Tag(id, added));

    updated := updated.(service := updated.service.(
      name := merged.name, projectId := merged.projectId, kind := merged.kind, runtime := merged.runtime,
      instances := merged.instances, endpoints := merged.endpoints,
      measuredCpu := merged.measuredCpu, measuredMemory := merged.measuredMemory, lastSeen := at));
    var health := RunningHealth(updated.restarts);
    var previous := updated.service.health;
    if previous != health {
      updated := updated.(service := updated.service.(health := health));
      out := out.(healthChanged := out.healthChanged + [(id, previous, health)]);
    }
  }

  lemma KeepsHealth(entered: Entered, merged: Finished, at: Time)
    ensures RecordRestart(entered.(everListened := entered.everListened || merged.ports != []), at).service.health
        == entered.service.health
    ensures !ChangeOf(Some(entered), Some(merged)).Stop?
  {
  }

  function EndpointPorts(endpoints: seq<Endpoint>): seq<Port> {
    seq(|endpoints|, i requires 0 <= i < |endpoints| => endpoints[i].port)
  }

  /** One adjacent dedup is enough, because endpoints are sorted by port. */
  lemma {:induction false} DedupClosed(q: seq<(ServiceId, Port)>, id: ServiceId, endpoints: seq<Endpoint>)
    requires NoRepeats(q) && PortAscending(endpoints)
    requires forall port :: (id, port) !in q
    ensures DedupBy(q + Tag(id, EndpointPorts(endpoints)), (x: (ServiceId, Port)) => x)
        == q + Tag(id, AscendingPorts(endpoints))
  {
    var key := (x: (ServiceId, Port)) => x;
    if endpoints == [] {
      hide DedupBy, NoRepeats;
      assert q + Tag(id, EndpointPorts(endpoints)) == q == q + Tag(id, AscendingPorts(endpoints));
      DedupNothing(q, key);
    } else {
      hide DedupBy, NoRepeats, StrictlyAscending;
      var n := |endpoints| - 1;
      var (front, last) := (endpoints[..n], endpoints[n]);
      assert PortAscending(front);
      DedupClosed(q, id, front);
      AscendingPortsAscend(front);
      var w := q + Tag(id, EndpointPorts(front));
      DedupStep(w, (id, last.port), key);
      LastClosed(q, id, front);
      TagAppend(q, id, EndpointPorts(front), last.port);
      TagAppend(q, id, AscendingPorts(front), last.port);
      assert EndpointPorts(endpoints) == EndpointPorts(front) + [last.port];
    }
  }

  lemma TagAppend(q: seq<(ServiceId, Port)>, id: ServiceId, ports: seq<Port>, port: Port)
    ensures q + Tag(id, ports + [port]) == q + Tag(id, ports) + [(id, port)]
  {
  }

  lemma LastClosed(q: seq<(ServiceId, Port)>, id: ServiceId, front: seq<Endpoint>)
    requires forall port :: (id, port) !in q
    ensures var w := q + Tag(id, EndpointPorts(front));
      && (front != [] ==> w != [] && w[|w| - 1] == (id, front[|front| - 1].port))
      && (front == [] && w != [] ==> w[|w| - 1] in q)
  {
  }

  lemma DedupStep<T, K>(w: seq<T>, x: T, key: T -> K)
    ensures DedupBy(w + [x], key)
         == DedupBy(w, key) + (if w != [] && key(w[|w| - 1]) == key(x) then [] else [x])
  {
    assert (w + [x])[..|w|] == w;
  }

  lemma {:induction false} DedupNothing<T>(q: seq<T>, key: T -> T)
    requires NoRepeats(q) && forall x :: x in q ==> key(x) == x
    ensures DedupBy(q, key) == q
  {
    if |q| > 1 {
      var n := |q| - 1;
      DedupNothing(q[..n], key);
      assert q == q[..n] + [q[n]];
      assert q[n] in q && q[n - 1] in q;
    }
  }

  lemma NothingOpened()
    ensures NoRepeats<Port>([]) && Elements<Port>([]) == {}
    ensures forall id, q: seq<(ServiceId, Port)> :: q + Tag(id, []) == q
  {
  }

  lemma HaltedPiece(id: ServiceId, e: Entered, at: Time)
    requires WfEntered(id, e) && IsRunning(e.service)
    ensures var ports := AscendingPorts(e.service.endpoints);
      && NoRepeats(ports) && Elements(ports) == PortsOf(e.service.endpoints)
      && e.service.health != Stopped
      && Reconcile(id, Some(e), None, at) == Some(Halted(e))
      && PieceOf(id, Some(e), None, at)
         == Piece(Stop(PrimaryPid(e.service.instances)), {}, PortsOf(e.service.endpoints),
           Some((e.service.health, Stopped)))
  {
    AscendingPortsAscend(e.service.endpoints);
    AscendingPortsListsPorts(e.service.endpoints);
    AscendingNoRepeats(AscendingPorts(e.service.endpoints));
    RunningByHealth(id, e);
  }

  /** A running service that was not observed. */
  method Halt(entered: Entered, id: ServiceId, at: Time, delta: RegistryDelta)
    returns (halted: Entered, out: RegistryDelta)
    requires WfEntered(id, entered) && IsRunning(entered.service)
    requires NoRepeats(delta.portsClosed) && forall port :: (id, port) !in delta.portsClosed
    ensures Some(halted) == Reconcile(id, Some(entered), None, at)
    ensures Extends(delta, out, id, PieceOf(id, Some(entered), None, at), [], AscendingPorts(entered.service.endpoints))
  {
    HaltedPiece(id, entered, at);
    DedupClosed(delta.portsClosed, id, entered.service.endpoints);
    hide DedupBy, AscendingPorts, PortAscending, WfEntered, PrimaryPid, EndpointPorts, Reconcile, PieceOf, IsRunning,
         PortsOf, NoRepeats, Elements, Tag;
    NothingOpened();
    var service := entered.service;
    var pid := PrimaryPid(service.instances);
    out := delta.(portsClosed := delta.portsClosed + Tag(id, EndpointPorts(service.endpoints)));
    out := out.(portsClosed := DedupBy(out.portsClosed, (x: (ServiceId, Port)) => x));
    service := service.(instances := [], measuredCpu := None, measuredMemory := None, endpoints := []);
    var previous := service.health;
    service := service.(health := Stopped);
    if previous != Stopped {
      out := out.(healthChanged := out.healthChanged + [(id, previous, Stopped)]);
    }
    out := out.(stopped := out.stopped + [(id, pid)]);
    halted := Entered(service, [], entered.everListened);
  }

  // --------------------------------------------------- a batch, half applied

  /** The held services once the ids in `done` have been reconciled. */
  ghost function Partly(held: map<ServiceId, Entered>, seen: map<ServiceId, Finished>, at: Time,
          done: set<ServiceId>): map<ServiceId, Entered>
    requires done <= held.Keys + seen.Keys
  {
    map id | id in held.Keys + done ::
      if id in done then Reconcile(id, Lookup(held, id), Lookup(seen, id), at).value else held[id]
  }

  ghost function PartPieces(held: map<ServiceId, Entered>, seen: map<ServiceId, Finished>, at: Time,
          done: set<ServiceId>): map<ServiceId, Piece>
    requires done <= held.Keys + seen.Keys
  {
    map id | id in done :: PieceOf(id, Lookup(held, id), Lookup(seen, id), at)
  }

  lemma PartlyStep(held: map<ServiceId, Entered>, seen: map<ServiceId, Finished>, at: Time, done: set<ServiceId>,
          id: ServiceId)
    requires done <= held.Keys + seen.Keys && id in held.Keys + seen.Keys && id !in done
    ensures Partly(held, seen, at, done + {id})
         == Partly(held, seen, at, done)[id := Reconcile(id, Lookup(held, id), Lookup(seen, id), at).value]
    ensures PartPieces(held, seen, at, done + {id})
         == PartPieces(held, seen, at, done)[id := PieceOf(id, Lookup(held, id), Lookup(seen, id), at)]
    ensures id in held ==> id in Partly(held, seen, at, done) && Partly(held, seen, at, done)[id] == held[id]
    ensures id !in held ==> id !in Partly(held, seen, at, done)
  {
    hide Reconcile, PieceOf;
    assert held.Keys + (done + {id}) == held.Keys + done + {id};
  }

  lemma PartlyBounds(held: map<ServiceId, Entered>, seen: map<ServiceId, Finished>, at: Time)
    ensures Partly(held, seen, at, {}) == held
    ensures Records(EMPTY_DELTA, PartPieces(held, seen, at, {}))
    ensures Partly(held, seen, at, held.Keys + seen.Keys) == Reconciled(held, seen, at)
    ensures PartPieces(held, seen, at, held.Keys + seen.Keys) == Pieces(held, seen, at)
  {
    hide Reconcile, PieceOf;
    assert PartPieces(held, seen, at, {}) == map[];
    assert held.Keys + (held.Keys + seen.Keys) == held.Keys + seen.Keys;
  }

  lemma QuietPiece(id: ServiceId, e: Entered, at: Time)
    requires !IsRunning(e.service)
    ensures Reconcile(id, Some(e), None, at) == Some(e)
    ensures PieceOf(id, Some(e), None, at) == Piece(Quiet, {}, {}, None)
  {
  }

  lemma NothingClosedYet(delta: RegistryDelta, pieces: map<ServiceId, Piece>, id: ServiceId)
    requires Records(delta, pieces) && id !in pieces
    ensures NoRepeats(delta.portsClosed) && forall port :: (id, port) !in delta.portsClosed
  {
  }

  lemma PrefixElements(keys: seq<ServiceId>, k: nat)
    requires StrictlyAscending(keys) && k < |keys|
    ensures Elements(keys[..k + 1]) == Elements(keys[..k]) + {keys[k]}
    ensures keys[k] !in Elements(keys[..k])
    ensures Elements(keys[..k + 1]) <= Elements(keys)
  {
    assert keys[..k + 1] == keys[..k] + [keys[k]];
  }

  class ServiceRegistry {
    var services: map<ServiceId, Entered>

    constructor ()
      ensures services == map[]
    {
      services := map[];
    }

    method ObserveOne(ghost held: map<ServiceId, Entered>, ghost seen: map<ServiceId, Finished>,
            ghost done: set<ServiceId>, id: ServiceId, merged: Finished, at: Time, delta: RegistryDelta)
      returns (out: RegistryDelta)
      requires done <= seen.Keys && id !in done && Lookup(seen, id) == Some(merged) && WfFinished(merged)
      requires services == Partly(held, seen, at, done) && Records(delta, PartPieces(held, seen, at, done))
      modifies this
      ensures services == Partly(held, seen, at, done + {id}) && Records(out, PartPieces(held, seen, at, done + {id}))
    {
      hide WfFinished, Reconcile, PieceOf, Records, Partly, PartPieces, Extends;
      assert id in seen;
      PartlyStep(held, seen, at, done, id);
      PartlyKeys(held, seen, at, done);
      ghost var pieces := PartPieces(held, seen, at, done);
      ghost var piece := PieceOf(id, Lookup(held, id), Some(merged), at);
      if id in services {
        var updated; ghost var came, gone;
        updated, out, came, gone := Update(services[id], id, merged, at, delta);
        RecordsStep(delta, out, pieces, id, piece, came, gone);
        services := services[id := updated];
      } else {
        var entered;
        entered, out := Enter(id, merged, at, delta);
        RecordsStep(delta, out, pieces, id, piece, merged.ports, []);
        services := services[id := entered];
      }
    }

    /** First loop of `Apply`: every observed service, in id order. */
    method ObserveAll(observed: map<ServiceId, Merged>, at: Time) returns (delta: RegistryDelta)
      requires Sound(services, FinishAll(observed))
      modifies this
      ensures services == Partly(old(services), FinishAll(observed), at, observed.Keys)
      ensures Records(delta, PartPieces(old(services), FinishAll(observed), at, observed.Keys))
    {
      hide WfFinished, Reconcile, PieceOf, Records, Partly, PartPieces, Finish, StrictlyAscending;
      ghost var held, seen := services, FinishAll(observed);
      delta := EMPTY_DELTA;
      PartlyBounds(held, seen, at);
      var keys := Keys(observed.Keys);
      assert Elements(keys[..0]) == {};
      for k := 0 to |keys|
        invariant Elements(keys[..k]) <= observed.Keys
        invariant services == Partly(held, seen, at, Elements(keys[..k]))
        invariant Records(delta, PartPieces(held, seen, at, Elements(keys[..k])))
      {
        var id := keys[k];
        PrefixElements(keys, k);
        delta := ObserveOne(held, seen, Elements(keys[..k]), id, Finish(observed[id]), at, delta);
      }
      assert keys[..|keys|] == keys;
    }

    method HaltOne(ghost held: map<ServiceId, Entered>, ghost seen: map<ServiceId, Finished>,
            ghost done: set<ServiceId>, id: ServiceId, at: Time, delta: RegistryDelta)
      returns (out: RegistryDelta)
      requires done <= held.Keys + seen.Keys && id !in done && id in held && id !in seen && WfEntered(id, held[id])
      requires services == Partly(held, seen, at, done) && Records(delta, PartPieces(held, seen, at, done))
      modifies this
      ensures services == Partly(held, seen, at, done + {id}) && Records(out, PartPieces(held, seen, at, done + {id}))
    {
      hide WfEntered, Reconcile, PieceOf, Records, Partly, PartPieces, Extends, IsRunning;
      out := delta;
      PartlyStep(held, seen, at, done, id);
      PartlyKeys(held, seen, at, done);
      ghost var pieces := PartPieces(held, seen, at, done);
      if !IsRunning(services[id].service) {
        QuietPiece(id, held[id], at);
        ExtendsByNothing(out, id);
        RecordsStep(out, out, pieces, id, Piece(Quiet, {}, {}, None), [], []);
        assert services[id := held[id]] == services;
      } else {
        NothingClosedYet(out, pieces, id);
        var halted;
        halted, out := Halt(services[id], id, at, out);
        RecordsStep(delta, out, pieces, id, PieceOf(id, Some(held[id]), None, at), [],
          AscendingPorts(held[id].service.endpoints));
        services := services[id := halted];
      }
    }

    /** Second loop of `Apply`: anything still marked running that was not
        observed has stopped. */
    method HaltMissing(ghost held: map<ServiceId, Entered>, ghost seen: map<ServiceId, Finished>,
            observedIds: set<ServiceId>, at: Time, delta: RegistryDelta)
      returns (out: RegistryDelta)
      requires Wf(held) && observedIds == seen.Keys
      requires services == Partly(held, seen, at, seen.Keys)
      requires Records(delta, PartPieces(held, seen, at, seen.Keys))
      modifies this
      ensures services == Reconciled(held, seen, at)
      ensures Records(out, Pieces(held, seen, at))
    {
      PartlyKeys(held, seen, at, seen.Keys);
      PartlyBounds(held, seen, at);
      hide Wf, Reconciled, Pieces, Records, Partly, PartPieces, StrictlyAscending, Halting;
      var keys := Keys(services.Keys);
      HaltingStarts(held, seen, keys);
      out := HaltEach(held, seen, keys, observedIds, at, delta);
    }

    method HaltEach(ghost held: map<ServiceId, Entered>, ghost seen: map<ServiceId, Finished>, keys: seq<ServiceId>,
            observedIds: set<ServiceId>, at: Time, delta: RegistryDelta)
      returns (out: RegistryDelta)
      requires Wf(held) && observedIds == seen.Keys && Halting(held, seen, keys, 0, seen.Keys)
      requires services == Partly(held, seen, at, seen.Keys)
      requires Records(delta, PartPieces(held, seen, at, seen.Keys))
      modifies this
      ensures services == Partly(held, seen, at, held.Keys + seen.Keys)
      ensures Records(out, PartPieces(held, seen, at, held.Keys + seen.Keys))
    {
      out := delta;
      ghost var done := seen.Keys;
      hide Wf, Records, Partly, PartPieces, Halting;
      for k := 0 to |keys|
        invariant k <= |keys| && Halting(held, seen, keys, k, done) && done <= held.Keys + seen.Keys
        invariant services == Partly(held, seen, at, done)
        invariant Records(out, PartPieces(held, seen, at, done))
      {
        HaltingStep(held, seen, keys, k, done);
        if keys[k] !in observedIds {
          WfOne(held, keys[k]);
          out := HaltOne(held, seen, done, keys[k], at, out);
          done := done + {keys[k]};
        }
      }
      HaltingEnds(held, seen, keys, done);
    }

    /** Reconcile `observations` against the held services. */
    method Apply(observations: seq<Observation>, at: Time) returns (delta: RegistryDelta)
      requires Wf(services) && WellFormed(observations, services)
      modifies this
      ensures Wf(services)
      ensures services == After(old(services), Observed(observations), at)
      ensures Describes(delta, old(services), Observed(observations), at)
    {
      hide Wf, WellFormed, Sound, Fold, FinishAll, AddObservation, Records, Reconciled, Pieces, Evicted, Partly,
           PartPieces;
      ghost var held := services;
      ghost var seen := Observed(observations);
      ObservedIsSound(observations, held);
      AfterKeepsWf(held, seen, at);
      var observed: map<ServiceId, Merged> := map[];
      FoldStep(observations, 0);
      for i := 0 to |observations|
        invariant services == held && observed == Fold(observations[..i])
      {
        FoldStep(observations, i);
        observed := AddObservation(observed, observations[i]);
      }
      assert observations[..|observations|] == observations;
      assert seen == FinishAll(observed);
      FinishedKeys(observed);
      delta := ObserveAll(observed, at);
      delta := HaltMissing(held, seen, observed.Keys, at, delta);
      var kept, evicted := EvictStopped(services, at);
      services := kept;
      ghost var recorded := delta;
      delta := delta.(evicted := evicted, projects := ProjectsOf(services));
      RecordsIgnoreRest(recorded, delta, Pieces(held, seen, at));
      SortedDeltaRecords(delta, Pieces(held, seen, at));
      delta := SortedDelta(delta);
    }
  }

  /** `done` is what was observed together with the first `k` keys. */
  ghost predicate Visited(keys: seq<ServiceId>, k: nat, observed: set<ServiceId>, done: set<ServiceId>)
    requires k <= |keys|
  {
    && observed <= done <= Elements(keys)
    && (forall i :: 0 <= i < k ==> keys[i] in done)
    && (forall i :: k <= i < |keys| && keys[i] in done ==> keys[i] in observed)
  }

  /** How far the second loop of `Apply` has come. */
  ghost predicate Halting(held: map<ServiceId, Entered>, seen: map<ServiceId, Finished>, keys: seq<ServiceId>, k: nat,
          done: set<ServiceId>)
  {
    && k <= |keys| && StrictlyAscending(keys) && Elements(keys) == held.Keys + seen.Keys
    && Visited(keys, k, seen.Keys, done) && done <= held.Keys + seen.Keys
  }

  lemma HaltingStep(held: map<ServiceId, Entered>, seen: map<ServiceId, Finished>, keys: seq<ServiceId>, k: nat,
          done: set<ServiceId>)
    requires k < |keys| && Halting(held, seen, keys, k, done)
    ensures done <= held.Keys + seen.Keys
    ensures keys[k] in seen ==> Halting(held, seen, keys, k + 1, done)
    ensures keys[k] !in seen ==>
      keys[k] in held && keys[k] !in done && done + {keys[k]} <= held.Keys + seen.Keys
        && Halting(held, seen, keys, k + 1, done + {keys[k]})
  {
    VisitStep(keys, k, seen.Keys, done);
    hide Visited;
  }

  lemma HaltingStarts(held: map<ServiceId, Entered>, seen: map<ServiceId, Finished>, keys: seq<ServiceId>)
    requires StrictlyAscending(keys) && Elements(keys) == held.Keys + seen.Keys
    ensures Halting(held, seen, keys, 0, seen.Keys)
  {
    VisitBounds(keys, seen.Keys, seen.Keys);
  }

  lemma HaltingEnds(held: map<ServiceId, Entered>, seen: map<ServiceId, Finished>, keys: seq<ServiceId>,
          done: set<ServiceId>)
    requires Halting(held, seen, keys, |keys|, done)
    ensures done == held.Keys + seen.Keys
  {
    VisitBounds(keys, seen.Keys, done);
  }

  lemma WfOne(held: map<ServiceId, Entered>, id: ServiceId)
    requires Wf(held) && id in held
    ensures WfEntered(id, held[id])
  {
  }

  lemma VisitStep(keys: seq<ServiceId>, k: nat, observed: set<ServiceId>, done: set<ServiceId>)
    requires StrictlyAscending(keys) && k < |keys| && Visited(keys, k, observed, done)
    ensures keys[k] in Elements(keys) && (keys[k] in done <==> keys[k] in observed)
    ensures Visited(keys, k + 1, observed, done + {keys[k]})
    ensures done <= Elements(keys)
    ensures keys[k] in done ==> done + {keys[k]} == done
  {
  }

  lemma VisitBounds(keys: seq<ServiceId>, observed: set<ServiceId>, done: set<ServiceId>)
    requires observed <= Elements(keys)
    ensures Visited(keys, 0, observed, observed)
    ensures Visited(keys, |keys|, observed, done) ==> done == Elements(keys)
  {
  }

  lemma PartlyKeys(held: map<ServiceId, Entered>, seen: map<ServiceId, Finished>, at: Time, done: set<ServiceId>)
    requires done <= held.Keys + seen.Keys
    ensures Partly(held, seen, at, done).Keys == held.Keys + done
    ensures PartPieces(held, seen, at, done).Keys == done
  {
  }

  lemma ExtendsByNothing(delta: RegistryDelta, id: ServiceId)
    ensures Extends(delta, delta, id, Piece(Quiet, {}, {}, None), [], [])
  {
  }

  // ----------------------------------------------------------------- eviction

  predicate CandidateLeq(a: (Time, ServiceId), b: (Time, ServiceId)) {
    a.0 < b.0 || (a.0 == b.0 && a.1 <= b.1)
  }

  function Candidates(held: map<ServiceId, Entered>, ids: seq<ServiceId>): seq<(Time, ServiceId)>
    requires forall id :: id in ids ==> id in held
  {
    seq(|ids|, i requires 0 <= i < |ids| => (held[ids[i]].service.lastSeen, ids[i]))
  }

  /** The stopped services in eviction order. */
  ghost predicate Ranked(held: map<ServiceId, Entered>, ranked: seq<(Time, ServiceId)>) {
    && SortedBy(ranked, CandidateLeq) && NoRepeats(ranked)
    && (forall c :: c in ranked <==> c.1 in StoppedIds(held) && c.0 == held[c.1].service.lastSeen)
  }

  lemma CandidatesAre(held: map<ServiceId, Entered>, ids: seq<ServiceId>)
    requires (forall id :: id in ids <==> id in StoppedIds(held)) && StrictlyAscending(ids)
    ensures forall id :: id in ids ==> id in held
    ensures NoRepeats(Candidates(held, ids))
    ensures forall c :: c in Candidates(held, ids) <==> c.1 in StoppedIds(held) && c.0 == held[c.1].service.lastSeen
  {
    var candidates := Candidates(held, ids);
    forall c: (Time, ServiceId) | c.1 in StoppedIds(held) && c.0 == held[c.1].service.lastSeen ensures c in candidates {
      var i :| 0 <= i < |ids| && ids[i] == c.1;
      assert candidates[i] == c;
    }
  }

  lemma CandidateOrder()
    ensures TotalOrder(CandidateLeq)
  {
  }

  lemma RankStopped(held: map<ServiceId, Entered>)
    ensures forall id :: id in Keys(StoppedIds(held)) ==> id in held
    ensures Ranked(held, SortBy(Candidates(held, Keys(StoppedIds(held))), CandidateLeq))
  {
    var ids := Keys(StoppedIds(held));
    assert forall x :: x in ids <==> x in Elements(ids);
    CandidatesAre(held, ids);
    CandidateOrder();
    hide StoppedIds, Candidates, TotalOrder, NoRepeats, SortedBy, StrictlyAscending, Elements;
    var candidates := Candidates(held, ids);
    SortBySorts(candidates, CandidateLeq);
    NoRepeatsPermuted(candidates, SortBy(candidates, CandidateLeq));
  }

  function Later(held: map<ServiceId, Entered>, id: ServiceId): set<ServiceId>
    requires id in held
  {
    set other | other in StoppedIds(held) && EvictedBefore(held, id, other)
  }

  function TailIds(ranked: seq<(Time, ServiceId)>, i: nat): seq<ServiceId>
    requires i < |ranked|
  {
    seq(|ranked| - 1 - i, k requires 0 <= k < |ranked| - 1 - i => ranked[i + 1 + k].1)
  }

  lemma LaterIsInTail(held: map<ServiceId, Entered>, ranked: seq<(Time, ServiceId)>, i: nat, other: ServiceId)
    requires Ranked(held, ranked) && i < |ranked| && ranked[i].1 in StoppedIds(held)
    ensures other in Later(held, ranked[i].1) ==> other in TailIds(ranked, i)
  {
    assert ranked[i] in ranked;
    if other in Later(held, ranked[i].1) {
      hide SortedBy, NoRepeats;
      var c := (held[other].service.lastSeen, other);
      assert c in ranked;
      var j :| 0 <= j < |ranked| && ranked[j] == c;
      RankedPair(ranked, j, i);
      assert TailIds(ranked, i)[j - i - 1] == other;
    }
  }

  lemma RankedPair(ranked: seq<(Time, ServiceId)>, i: nat, j: nat)
    requires SortedBy(ranked, CandidateLeq) && i < |ranked| && j < |ranked|
    ensures i < j ==> CandidateLeq(ranked[i], ranked[j])
  {
  }

  lemma TailIsLater(held: map<ServiceId, Entered>, ranked: seq<(Time, ServiceId)>, i: nat, other: ServiceId)
    requires Ranked(held, ranked) && i < |ranked| && ranked[i].1 in StoppedIds(held)
    ensures other in TailIds(ranked, i) ==> other in Later(held, ranked[i].1)
  {
    assert ranked[i] in ranked;
    if other in TailIds(ranked, i) {
      var k :| 0 <= k < |TailIds(ranked, i)| && TailIds(ranked, i)[k] == other;
      assert ranked[i + 1 + k] in ranked && ranked[i] != ranked[i + 1 + k];
      RankedPair(ranked, i, i + 1 + k);
    }
  }

  /** What ranks after a candidate is what would be evicted later. */
  lemma LaterCandidates(held: map<ServiceId, Entered>, ranked: seq<(Time, ServiceId)>, i: nat)
    requires Ranked(held, ranked) && i < |ranked|
    ensures ranked[i].1 in StoppedIds(held)
    ensures |set other | other in StoppedIds(held) && EvictedBefore(held, ranked[i].1, other)| == |ranked| - 1 - i
  {
    assert ranked[i] in ranked;
    var tail := TailIds(ranked, i);
    forall a, b | 0 <= a < b < |tail| ensures tail[a] != tail[b] {
      assert ranked[i + 1 + a] in ranked && ranked[i + 1 + b] in ranked;
    }
    assert NoRepeats(tail);
    NoRepeatsCounts(tail);
    assert Later(held, ranked[i].1) == Elements(tail) by {
      hide Later, TailIds, Ranked, StoppedIds;
      forall other ensures other in Later(held, ranked[i].1) <==> other in tail {
        LaterIsInTail(held, ranked, i, other);
        TailIsLater(held, ranked, i, other);
      }
    }
    assert Later(held, ranked[i].1) == set other | other in StoppedIds(held) && EvictedBefore(held, ranked[i].1, other);
  }

  function CandidateIds(ranked: seq<(Time, ServiceId)>): seq<ServiceId> {
    seq(|ranked|, i requires 0 <= i < |ranked| => ranked[i].1)
  }

  /** The candidates beyond the cap are the crowded services. */
  lemma VictimsAreCrowded(held: map<ServiceId, Entered>, ranked: seq<(Time, ServiceId)>)
    requires Ranked(held, ranked)
    ensures |ranked| == |StoppedIds(held)|
    ensures var excess := if |ranked| <= MAX_STOPPED_SERVICES then 0 else |ranked| - MAX_STOPPED_SERVICES;
            NoRepeats(CandidateIds(ranked[..excess])) && Elements(CandidateIds(ranked[..excess])) == Crowded(held)
  {
    hide Ranked, StoppedIds, EvictedBefore;
    var excess := if |ranked| <= MAX_STOPPED_SERVICES then 0 else |ranked| - MAX_STOPPED_SERVICES;
    RankedIds(held, ranked);
    var ids, victims := CandidateIds(ranked), CandidateIds(ranked[..excess]);
    assert victims == ids[..excess];
    forall i | 0 <= i < |ids| ensures ids[i] in Crowded(held) <==> i < excess {
      LaterCandidates(held, ranked, i);
    }
    forall id | id in victims ensures id in Crowded(held) {
      var j :| 0 <= j < excess && ids[j] == id;
    }
    forall id | id in Crowded(held) ensures id in victims {
      var i :| 0 <= i < |ids| && ids[i] == id;
      assert victims[i] == id;
    }
  }

  lemma RankedIds(held: map<ServiceId, Entered>, ranked: seq<(Time, ServiceId)>)
    requires Ranked(held, ranked)
    ensures NoRepeats(CandidateIds(ranked)) && |ranked| == |StoppedIds(held)|
    ensures forall id :: id in CandidateIds(ranked) <==> id in StoppedIds(held)
  {
    var ids := CandidateIds(ranked);
    forall id ensures id in ids <==> id in StoppedIds(held) {
      if id in StoppedIds(held) {
        assert (held[id].service.lastSeen, id) in ranked;
        var i :| 0 <= i < |ranked| && ranked[i] == (held[id].service.lastSeen, id);
        assert ids[i] == id;
      }
      if id in ids {
        var i :| 0 <= i < |ids| && ids[i] == id;
        assert ranked[i] in ranked;
      }
    }
    forall a, b | 0 <= a < b < |ids| ensures ids[a] != ids[b] {
      assert ranked[a] in ranked && ranked[b] in ranked;
    }
    NoRepeatsCounts(ids);
    assert Elements(ids) == StoppedIds(held);
  }

  /** Removes the listed services, oldest first, and reports each. */
  method EvictListed(held: map<ServiceId, Entered>, ids: seq<ServiceId>, evicted: seq<ServiceId>)
    returns (kept: map<ServiceId, Entered>, out: seq<ServiceId>)
    ensures kept == held - Elements(ids) && out == evicted + ids
  {
    kept, out := held, evicted;
    for i := 0 to |ids|
      invariant kept == held - Elements(ids[..i]) && out == evicted + ids[..i]
    {
      assert ids[..i + 1] == ids[..i] + [ids[i]];
      kept, out := kept - {ids[i]}, out + [ids[i]];
    }
    assert ids[..|ids|] == ids;
  }

  /** Enforces the hard cap on stopped services. */
  method EvictCrowded(held: map<ServiceId, Entered>, evicted: seq<ServiceId>)
    returns (kept: map<ServiceId, Entered>, out: seq<ServiceId>, ghost victims: seq<ServiceId>)
    ensures kept == held - Crowded(held) && out == evicted + victims
    ensures NoRepeats(victims) && Elements(victims) == Crowded(held)
  {
    hide Crowded, StoppedIds, SortBy, NoRepeats, Ranked, Keys, Candidates, CandidateLeq, Elements, CandidateIds;
    var stopped := |StoppedIds(held)|;
    RankStopped(held);
    var ranked := SortBy(Candidates(held, Keys(StoppedIds(held))), CandidateLeq);
    VictimsAreCrowded(held, ranked);
    if stopped <= MAX_STOPPED_SERVICES {
      NobodyCrowded(held, ranked);
      victims := CandidateIds(ranked[..0]);
      return held, evicted, victims;
    }
    var first := CandidateIds(ranked[..stopped - MAX_STOPPED_SERVICES]);
    victims := first;
    kept, out := EvictListed(held, first, evicted);
  }

  lemma NobodyCrowded(held: map<ServiceId, Entered>, ranked: seq<(Time, ServiceId)>)
    requires Elements(CandidateIds(ranked[..0])) == Crowded(held)
    ensures held - Crowded(held) == held
    ensures forall q: seq<ServiceId> :: q + CandidateIds(ranked[..0]) == q
  {
    hide Crowded;
    assert CandidateIds(ranked[..0]) == [];
  }

  /** Two rounds over what has stopped: first the expired, then the crowded. */
  method EvictStopped(held: map<ServiceId, Entered>, at: Time)
    returns (kept: map<ServiceId, Entered>, evicted: seq<ServiceId>)
    ensures kept == held - Evicted(held, at)
    ensures NoRepeats(evicted) && Elements(evicted) == Evicted(held, at)
  {
    hide Crowded, Expired, Evicted, NoRepeats, Elements, StrictlyAscending;
    var expired := Keys(Expired(held, at));
    AscendingNoRepeats(expired);
    EvictedSplits(held, at);
    kept, evicted := EvictListed(held, expired, []);
    assert evicted == expired;
    ghost var victims;
    kept, evicted, victims := EvictCrowded(kept, evicted);
    ConcatNoRepeats(expired, victims);
  }

  lemma EvictedSplits(held: map<ServiceId, Entered>, at: Time)
    ensures var expired := Expired(held, at);
      && Crowded(held - expired) !! expired
      && Evicted(held, at) == expired + Crowded(held - expired)
      && held - expired - Crowded(held - expired) == held - Evicted(held, at)
  {
  }

  lemma ConcatNoRepeats(a: seq<ServiceId>, b: seq<ServiceId>)
    requires NoRepeats(a) && NoRepeats(b) && Elements(a) !! Elements(b)
    ensures NoRepeats(a + b)
    ensures Elements(a + b) == Elements(a) + Elements(b)
  {
    forall i, j | 0 <= i < |a| && 0 <= j < |b| ensures a[i] != b[j] {
      assert a[i] in Elements(a) && b[j] in Elements(b);
    }
  }

  lemma FoldStep(observations: seq<Observation>, i: nat)
    requires i <= |observations|
    ensures Fold(observations[..0]) == map[]
    ensures i < |observations| ==>
      Fold(observations[..i + 1]) == AddObservation(Fold(observations[..i]), observations[i])
  {
    if i < |observations| {
      assert observations[..i + 1][..i] == observations[..i];
    }
  }

  lemma FinishedKeys(merged: map<ServiceId, Merged>)
    ensures FinishAll(merged).Keys == merged.Keys
  {
  }

  lemma RecordsIgnoreRest(a: RegistryDelta, b: RegistryDelta, pieces: map<ServiceId, Piece>)
    requires a == b.(evicted := a.evicted, projects := a.projects)
    ensures Records(a, pieces) <==> Records(b, pieces)
  {
  }

  // ------------------------------------------------------------------ sorting

  function SortById<T>(q: seq<(ServiceId, T)>): seq<(ServiceId, T)> {
    SortBy(q, (a: (ServiceId, T), b: (ServiceId, T)) => a.0 <= b.0)
  }

  function SortTriples<T, U>(q: seq<(ServiceId, T, U)>): seq<(ServiceId, T, U)> {
    SortBy(q, (a: (ServiceId, T, U), b: (ServiceId, T, U)) => a.0 <= b.0)
  }

  predicate PortLeq(a: (ServiceId, Port), b: (ServiceId, Port)) {
    a.0 < b.0 || (a.0 == b.0 && a.1 <= b.1)
  }

  lemma SortedPairs<T(!new)>(q: seq<(ServiceId, T)>)
    requires NoRepeats(q) && forall x, y :: x in q && y in q && x.0 == y.0 ==> x == y
    ensures forall x :: x in SortById(q) <==> x in q
    ensures NoRepeats(SortById(q))
    ensures PairsAscend(SortById(q))
  {
    var leq := (a: (ServiceId, T), b: (ServiceId, T)) => a.0 <= b.0;
    assert TotalOrder(leq);
    SortBySorts(q, leq);
    NoRepeatsPermuted(q, SortById(q));
    var r := SortById(q);
    forall i, j | 0 <= i < j < |r| ensures r[i].0 < r[j].0 {
      assert leq(r[i], r[j]) && r[i] in r && r[j] in r;
    }
  }

  lemma SortedTriples<T(!new), U(!new)>(q: seq<(ServiceId, T, U)>)
    requires NoRepeats(q) && forall x, y :: x in q && y in q && x.0 == y.0 ==> x == y
    ensures forall x :: x in SortTriples(q) <==> x in q
    ensures NoRepeats(SortTriples(q))
    ensures TriplesAscend(SortTriples(q))
  {
    var leq := (a: (ServiceId, T, U), b: (ServiceId, T, U)) => a.0 <= b.0;
    assert TotalOrder(leq);
    SortBySorts(q, leq);
    NoRepeatsPermuted(q, SortTriples(q));
    var r := SortTriples(q);
    forall i, j | 0 <= i < j < |r| ensures r[i].0 < r[j].0 {
      assert leq(r[i], r[j]) && r[i] in r && r[j] in r;
    }
  }

  lemma SortedPorts(q: seq<(ServiceId, Port)>)
    requires NoRepeats(q)
    ensures forall x :: x in SortBy(q, PortLeq) <==> x in q
    ensures NoRepeats(SortBy(q, PortLeq))
    ensures PortsAscend(SortBy(q, PortLeq))
  {
    SortBySorts(q, PortLeq);
    NoRepeatsPermuted(q, SortBy(q, PortLeq));
    var r := SortBy(q, PortLeq);
    forall i, j | 0 <= i < j < |r| ensures PortLess(r[i], r[j]) {
      assert PortLeq(r[i], r[j]);
    }
  }

  lemma SortedEvictions(q: seq<ServiceId>)
    requires NoRepeats(q)
    ensures StrictlyAscending(SortBy(q, (a: ServiceId, b: ServiceId) => a <= b))
    ensures forall x :: x in SortBy(q, (a: ServiceId, b: ServiceId) => a <= b) <==> x in q
  {
    var leq := (a: ServiceId, b: ServiceId) => a <= b;
    SortBySorts(q, leq);
    NoRepeatsPermuted(q, SortBy(q, leq));
    var r := SortBy(q, leq);
    forall i, j | 0 <= i < j < |r| ensures r[i] < r[j] {
      assert leq(r[i], r[j]);
    }
  }

  lemma StartsSorted(q: seq<(ServiceId, Option<Pid>)>, pieces: map<ServiceId, Piece>)
    requires RecordsStarts(q, pieces)
    ensures RecordsStarts(SortById(q), pieces)
    ensures PairsAscend(SortById(q))
  {
    SortedPairs(q);
  }

  lemma StopsSorted(q: seq<(ServiceId, Option<Pid>)>, pieces: map<ServiceId, Piece>)
    requires RecordsStops(q, pieces)
    ensures RecordsStops(SortById(q), pieces)
    ensures PairsAscend(SortById(q))
  {
    SortedPairs(q);
  }

  lemma RestartsSorted(q: seq<(ServiceId, Option<Pid>, Option<Pid>)>, pieces: map<ServiceId, Piece>)
    requires RecordsRestarts(q, pieces)
    ensures RecordsRestarts(SortTriples(q), pieces)
    ensures TriplesAscend(SortTriples(q))
  {
    SortedTriples(q);
  }

  lemma HealthSorted(q: seq<(ServiceId, Health, Health)>, pieces: map<ServiceId, Piece>)
    requires RecordsHealth(q, pieces)
    ensures RecordsHealth(SortTriples(q), pieces)
    ensures TriplesAscend(SortTriples(q))
  {
    SortedTriples(q);
  }

  lemma PortsSorted(came: seq<(ServiceId, Port)>, gone: seq<(ServiceId, Port)>, pieces: map<ServiceId, Piece>)
    requires RecordsOpened(came, pieces) && RecordsClosed(gone, pieces)
    ensures RecordsOpened(SortBy(came, PortLeq), pieces) && PortsAscend(SortBy(came, PortLeq))
    ensures RecordsClosed(SortBy(gone, PortLeq), pieces) && PortsAscend(SortBy(gone, PortLeq))
  {
    hide PortsAscend, NoRepeats, SortBy;
    SortedPorts(came);
    SortedPorts(gone);
  }

  /** Every vector of the delta in order of service. */
  function SortedDelta(delta: RegistryDelta): RegistryDelta {
    RegistryDelta(
      SortById(delta.started), SortById(delta.stopped), SortTriples(delta.restarted),
      SortBy(delta.portsOpened, PortLeq), SortBy(delta.portsClosed, PortLeq),
      SortTriples(delta.healthChanged), SortBy(delta.evicted, (a: ServiceId, b: ServiceId) => a <= b), delta.projects)
  }

  lemma SortedDeltaRecords(delta: RegistryDelta, pieces: map<ServiceId, Piece>)
    requires Records(delta, pieces) && NoRepeats(delta.evicted)
    ensures Records(SortedDelta(delta), pieces) && InOrder(SortedDelta(delta))
    ensures forall id :: id in SortedDelta(delta).evicted <==> id in delta.evicted
    ensures SortedDelta(delta).projects == delta.projects
  {
    SortedEvictions(delta.evicted);
    hide NoRepeats, SortById, SortTriples, SortBy, StrictlyAscending, PairsAscend, TriplesAscend, PortsAscend;
    hide RecordsStarts, RecordsStops, RecordsRestarts, RecordsHealth, RecordsOpened, RecordsClosed;
    StartsSorted(delta.started, pieces);
    StopsSorted(delta.stopped, pieces);
    RestartsSorted(delta.restarted, pieces);
    HealthSorted(delta.healthChanged, pieces);
    PortsSorted(delta.portsOpened, delta.portsClosed, pieces);
  }
}
