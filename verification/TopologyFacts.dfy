/** What edges mean, that they do not depend on the order of what was
    observed, and that they are continuous over runs. */
module TopologyFacts {
  import opened Basics
  import opened Model
  import opened Sorting
  import opened Topology

  // ------------------------------------------------------- what an edge means

  predicate OwnsPid(s: Service, pid: Pid) {
    pid in PidsOf(s.instances)
  }

  predicate ListensOn(s: Service, address: Address, port: Port) {
    exists e :: e in s.endpoints && e.port == port && e.address == address
  }

  predicate ListensOnPort(s: Service, port: Port) {
    port in PortsOf(s.endpoints)
  }

  lemma {:induction false} AddOwnersIs(owners: map<Pid, ServiceId>, instances: seq<ProcessInstance>, id: ServiceId,
          pid: Pid)
    ensures pid in AddOwners(owners, instances, id) <==> pid in owners || pid in PidsOf(instances)
    ensures pid in AddOwners(owners, instances, id) ==>
      AddOwners(owners, instances, id)[pid] == if pid in PidsOf(instances) then id else owners[pid]
  {
    if instances != [] {
      var n := |instances| - 1;
      assert instances == instances[..n] + [instances[n]];
      AddOwnersIs(owners, instances[..n], id, pid);
    }
  }

  lemma {:induction false} OwnerIs(services: seq<Service>, pid: Pid)
    ensures pid in Owners(services) <==> exists s :: s in services && OwnsPid(s, pid)
    ensures pid in Owners(services) ==> exists s :: s in services && OwnsPid(s, pid) && Owners(services)[pid] == s.id
  {
    if services != [] {
      hide OwnsPid;
      var n := |services| - 1;
      var (front, last) := (services[..n], services[n]);
      assert services == front + [last];
      OwnerIs(front, pid);
      AddOwnersIs(Owners(front), last.instances, last.id, pid);
      OwnsIs(last, pid);
    }
  }

  lemma OwnsIs(s: Service, pid: Pid)
    ensures OwnsPid(s, pid) <==> pid in PidsOf(s.instances)
  {
  }

  lemma {:induction false} ListenersAtIs(endpoints: seq<Endpoint>, id: ServiceId, port: Port, c: Listener)
    ensures c in ListenersAt(endpoints, id, port) <==>
      c.service == id && exists e :: e in endpoints && e.port == port && e.address == c.address
  {
    if endpoints != [] {
      var n := |endpoints| - 1;
      assert endpoints == endpoints[..n] + [endpoints[n]];
      ListenersAtIs(endpoints[..n], id, port, c);
    }
  }

  lemma {:induction false} ListenerIs(services: seq<Service>, port: Port, c: Listener)
    ensures c in Listeners(services, port) <==>
      exists s :: s in services && s.id == c.service && ListensOn(s, c.address, port)
  {
    if services != [] {
      var n := |services| - 1;
      var (front, last) := (services[..n], services[n]);
      assert services == front + [last];
      ListenerIs(front, port, c);
      ListenersAtIs(last.endpoints, last.id, port, c);
      assert ListensOn(last, c.address, port) <==>
        exists e :: e in last.endpoints && e.port == port && e.address == c.address;
    }
  }

  lemma {:induction false} ExactIs(candidates: seq<Listener>, address: Address)
    ensures ExactListener(candidates, address).Some? ==>
      Listener(address, ExactListener(candidates, address).value) in candidates
    ensures ExactListener(candidates, address).None? ==> forall c :: c in candidates ==> c.address != address
  {
    if candidates != [] {
      assert candidates == [candidates[0]] + candidates[1..];
      assert candidates[0] == Listener(candidates[0].address, candidates[0].service);
      ExactIs(candidates[1..], address);
    }
  }

  predicate NoSharedPid(services: seq<Service>) {
    forall s, t :: s in services && t in services && PidsOf(s.instances) * PidsOf(t.instances) != {} ==> s.id == t.id
  }

  predicate NoSharedListener(services: seq<Service>) {
    forall s, t, e, f :: s in services && t in services && e in s.endpoints && f in t.endpoints ==>
      (e.port == f.port && e.address == f.address ==> s.id == t.id)
  }

  /** With every listening address claimed by one service, the service that
      answers at an address is exactly: the one bound to it; without one, the
      only wildcard listener; without exactly one, the only service that listens
      on the port at all. */
  lemma AnswersExactly(services: seq<Service>, port: Port, address: Address, id: ServiceId)
    requires NoSharedListener(services)
    ensures ListenerOn(Listeners(services, port), address) == Some(id) <==>
      || (exists s :: s in services && s.id == id && ListensOn(s, address, port))
      || ((forall s :: s in services ==> !ListensOn(s, address, port)) && Fallback(services, port, id))
  {
    var candidates := Listeners(services, port);
    ExactIs(candidates, address);
    var exact := ExactListener(candidates, address);
    forall s | s in services && ListensOn(s, address, port) ensures exact.Some? && exact.value == s.id {
      ListenerIs(services, port, Listener(address, s.id));
      ListenerIs(services, port, Listener(address, exact.value));
      OneListener(services, port, Listener(address, s.id), Listener(address, exact.value));
    }
    if exact.Some? {
      ListenerIs(services, port, Listener(address, exact.value));
    } else {
      FallbackExactly(services, port, address, id);
    }
  }

  predicate WildcardHere(endpoints: seq<Endpoint>, port: Port, j: int) {
    0 <= j < |endpoints| && endpoints[j].port == port
    && (endpoints[j].address == V4(0) || endpoints[j].address == V6(0))
  }

  /** Endpoint `j` of service `i` listens on the port at a wildcard address. */
  predicate WildcardAt(services: seq<Service>, port: Port, i: int, j: int) {
    0 <= i < |services| && WildcardHere(services[i].endpoints, port, j)
  }

  ghost predicate OnlyWildcard(services: seq<Service>, port: Port, i: int, j: int) {
    WildcardAt(services, port, i, j)
    && forall k, l :: WildcardAt(services, port, k, l) ==> k == i && l == j
  }

  /** Who answers on a port when nobody is bound to the address: the service of
      the only wildcard endpoint, if there is exactly one, else the only service
      on the port. A service with two wildcard endpoints is no exception. */
  ghost predicate Fallback(services: seq<Service>, port: Port, id: ServiceId) {
    || (exists i, j :: OnlyWildcard(services, port, i, j) && services[i].id == id)
    || ((forall i, j :: !OnlyWildcard(services, port, i, j))
        && (exists s :: s in services && s.id == id && ListensOnPort(s, port))
        && (forall s :: s in services && ListensOnPort(s, port) ==> s.id == id))
  }

  // The wildcard listeners of a port are its wildcard endpoints, one each.

  lemma {:induction false} WildcardsConcat(a: seq<Listener>, b: seq<Listener>)
    ensures Wildcards(a + b) == Wildcards(a) + Wildcards(b)
  {
    if a == [] {
      assert a + b == b;
    } else {
      assert (a + b)[1..] == a[1..] + b;
      WildcardsConcat(a[1..], b);
    }
  }

  /** The wildcard endpoints of service `i` on a port, in order. */
  function SpotsOf(endpoints: seq<Endpoint>, port: Port, i: int): seq<(int, int)> {
    if endpoints == [] then []
    else
      var n := |endpoints| - 1;
      SpotsOf(endpoints[..n], port, i)
      + (if endpoints[n].port == port && IsUnspecified(endpoints[n].address) then [(i, n)] else [])
  }

  /** All wildcard endpoints on a port, in order of service and endpoint. */
  function Spots(services: seq<Service>, port: Port): seq<(int, int)> {
    if services == [] then []
    else
      var n := |services| - 1;
      Spots(services[..n], port) + SpotsOf(services[n].endpoints, port, n)
  }

  lemma {:induction false} SpotsOfAre(endpoints: seq<Endpoint>, port: Port, i: int)
    ensures NoRepeats(SpotsOf(endpoints, port, i))
    ensures forall k, j :: (k, j) in SpotsOf(endpoints, port, i) <==> k == i && WildcardHere(endpoints, port, j)
  {
    if endpoints != [] {
      hide WildcardHere, NoRepeats;
      var n := |endpoints| - 1;
      var front := SpotsOf(endpoints[..n], port, i);
      SpotsOfAre(endpoints[..n], port, i);
      SpotsOfStep(endpoints, port, i);
      hide SpotsOf;
      if WildcardHere(endpoints, port, n) {
        NoRepeatsSnoc(front, (i, n));
      }
    }
  }

  lemma SpotsOfStep(endpoints: seq<Endpoint>, port: Port, i: int)
    requires endpoints != []
    ensures var n := |endpoints| - 1;
      && SpotsOf(endpoints, port, i)
        == SpotsOf(endpoints[..n], port, i) + (if WildcardHere(endpoints, port, n) then [(i, n)] else [])
      && forall j :: WildcardHere(endpoints[..n], port, j) <==> j < n && WildcardHere(endpoints, port, j)
    ensures forall j :: WildcardHere(endpoints, port, j) ==> j < |endpoints|
  {
  }

  lemma NoRepeatsSnoc<T>(q: seq<T>, x: T)
    requires NoRepeats(q) && x !in q
    ensures NoRepeats(q + [x])
  {
    assert forall i :: 0 <= i < |q| ==> q[i] in q;
  }

  lemma {:induction false} SpotsAre(services: seq<Service>, port: Port)
    ensures NoRepeats(Spots(services, port))
    ensures forall i, j :: (i, j) in Spots(services, port) <==> WildcardAt(services, port, i, j)
  {
    if services != [] {
      var n := |services| - 1;
      var (front, last) := (Spots(services[..n], port), SpotsOf(services[n].endpoints, port, n));
      SpotsAre(services[..n], port);
      SpotsOfAre(services[n].endpoints, port, n);
      hide SpotsOf, WildcardHere, Spots;
      assert Spots(services, port) == front + last by { SpotsSplit(services, port); }
      forall i, j ensures (i, j) in front <==> i < n && WildcardAt(services, port, i, j) {
        WildcardBefore(services, port, i, j);
      }
      forall i, j ensures (i, j) in last <==> i == n && WildcardAt(services, port, i, j) {
      }
      SpotsApart(front, last, n);
    }
  }

  lemma SpotsSplit(services: seq<Service>, port: Port)
    requires services != []
    ensures var n := |services| - 1;
      Spots(services, port) == Spots(services[..n], port) + SpotsOf(services[n].endpoints, port, n)
  {
  }

  lemma ListenersSplitLast(services: seq<Service>, port: Port)
    requires services != []
    ensures var n := |services| - 1;
      Listeners(services, port)
      == Listeners(services[..n], port) + ListenersAt(services[n].endpoints, services[n].id, port)
  {
  }

  lemma WildcardBefore(services: seq<Service>, port: Port, i: int, j: int)
    requires services != []
    ensures var n := |services| - 1;
      WildcardAt(services[..n], port, i, j) <==> i < n && WildcardAt(services, port, i, j)
  {
  }

  lemma SpotsApart(front: seq<(int, int)>, last: seq<(int, int)>, n: int)
    requires NoRepeats(front) && NoRepeats(last)
    requires (forall i, j :: (i, j) in front ==> i < n) && (forall i, j :: (i, j) in last ==> i == n)
    ensures NoRepeats(front + last)
  {
    forall m | 0 <= m < |front| ensures front[m].0 < n {
      var (i, j) := front[m];
      assert (i, j) in front;
    }
    AllOfService(last, n);
  }

  lemma AllOfService(spots: seq<(int, int)>, n: int)
    requires forall i, j :: (i, j) in spots ==> i == n
    ensures forall m :: 0 <= m < |spots| ==> spots[m].0 == n
  {
    forall m | 0 <= m < |spots| ensures spots[m].0 == n {
      var (i, j) := spots[m];
      assert (i, j) in spots;
    }
  }

  lemma {:induction false} WildcardsOfOne(endpoints: seq<Endpoint>, id: ServiceId, port: Port, i: int)
    ensures |Wildcards(ListenersAt(endpoints, id, port))| == |SpotsOf(endpoints, port, i)|
    ensures forall c :: c in Wildcards(ListenersAt(endpoints, id, port)) ==> c.service == id
  {
    if endpoints != [] {
      var n := |endpoints| - 1;
      WildcardsOfOne(endpoints[..n], id, port, i);
      var here := if endpoints[n].port == port then [Listener(endpoints[n].address, id)] else [];
      WildcardsConcat(ListenersAt(endpoints[..n], id, port), here);
      assert here != [] ==> here[1..] == [];
    }
  }

  /** Spot by spot, the wildcard listeners are the wildcard endpoints. */
  lemma {:induction false} WildcardsAreSpots(services: seq<Service>, port: Port)
    ensures var (w, spots) := (Wildcards(Listeners(services, port)), Spots(services, port));
      && |w| == |spots|
      && forall k :: 0 <= k < |w| ==> 0 <= spots[k].0 < |services| && w[k].service == services[spots[k].0].id
  {
    if services != [] {
      var n := |services| - 1;
      WildcardsAreSpots(services[..n], port);
      WildcardsConcat(Listeners(services[..n], port), ListenersAt(services[n].endpoints, services[n].id, port));
      WildcardsOfOne(services[n].endpoints, services[n].id, port, n);
      SpotsOfAre(services[n].endpoints, port, n);
      AllOfService(SpotsOf(services[n].endpoints, port, n), n);
      SpotsSplit(services, port);
      ListenersSplitLast(services, port);
      hide Wildcards, Listeners, ListenersAt, SpotsOf, Spots, IsUnspecified;
      var front := Wildcards(Listeners(services[..n], port));
      var last := Wildcards(ListenersAt(services[n].endpoints, services[n].id, port));
      assert forall k :: 0 <= k < |last| ==> last[k] in last;
    }
  }

  /** There is one wildcard listener exactly when there is one wildcard endpoint. */
  lemma OneWildcard(services: seq<Service>, port: Port)
    ensures var w := Wildcards(Listeners(services, port));
      && (|w| == 1 <==> exists i, j :: OnlyWildcard(services, port, i, j))
      && forall i, j :: OnlyWildcard(services, port, i, j) && |w| == 1 ==> w[0].service == services[i].id
  {
    var spots := Spots(services, port);
    SpotsAre(services, port);
    WildcardsAreSpots(services, port);
    hide Wildcards, Listeners, Spots, WildcardAt;
    if |spots| == 1 {
      var (i, j) := spots[0];
      assert (i, j) in spots;
      assert OnlyWildcard(services, port, i, j);
    }
    forall i, j | OnlyWildcard(services, port, i, j) ensures |spots| == 1 && spots[0] == (i, j) {
      assert WildcardAt(services, port, i, j) && (i, j) in spots;
      forall m | 0 <= m < |spots| ensures spots[m] == (i, j) {
        var (k, l) := spots[m];
        assert (k, l) in spots && WildcardAt(services, port, k, l);
      }
      OnlyOnce(spots, (i, j));
    }
  }

  lemma OnlyOnce<T>(q: seq<T>, x: T)
    requires NoRepeats(q) && x in q && forall m :: 0 <= m < |q| ==> q[m] == x
    ensures |q| == 1 && q[0] == x
  {
    NoRepeatsCounts(q);
    assert Elements(q) == {x};
  }

  lemma FallbackExactly(services: seq<Service>, port: Port, address: Address, id: ServiceId)
    requires ExactListener(Listeners(services, port), address).None?
    ensures ListenerOn(Listeners(services, port), address) == Some(id) <==> Fallback(services, port, id)
  {
    hide Wildcards, ListensOnPort, Listeners;
    var candidates := Listeners(services, port);
    var answering := ListeningServices(candidates);
    OneWildcard(services, port);
    OnlyAnswer(candidates, id);
    PortListener(services, port, id);
    forall s | s in services && ListensOnPort(s, port) ensures s.id in answering {
      PortListener(services, port, s.id);
    }
    forall x | x in answering ensures exists s :: s in services && s.id == x && ListensOnPort(s, port) {
      PortListener(services, port, x);
    }
    hide ListeningServices, OnlyWildcard;
  }

  lemma OnlyAnswer(candidates: seq<Listener>, id: ServiceId)
    ensures candidates != [] && candidates[0].service == id && ListeningServices(candidates) == {id}
      <==> id in ListeningServices(candidates) && forall x :: x in ListeningServices(candidates) ==> x == id
  {
    assert candidates != [] ==> candidates[0].service in ListeningServices(candidates);
  }

  lemma PortListener(services: seq<Service>, port: Port, id: ServiceId)
    ensures id in ListeningServices(Listeners(services, port)) <==>
      exists s :: s in services && s.id == id && ListensOnPort(s, port)
  {
    if c :| c in Listeners(services, port) && c.service == id {
      ListenerIs(services, port, c);
      var s :| s in services && s.id == id && ListensOn(s, c.address, port);
      assert ListensOnPort(s, port);
    }
    if s :| s in services && s.id == id && ListensOnPort(s, port) {
      var e :| e in s.endpoints && e.port == port;
      assert ListensOn(s, e.address, port);
      ListenerIs(services, port, Listener(e.address, id));
      assert Listener(e.address, id) in Listeners(services, port);
    }
  }

  /** The last of the services that own a PID. */
  predicate OwnsLast(services: seq<Service>, pid: Pid, id: ServiceId) {
    exists i ::
      && 0 <= i < |services| && services[i].id == id && OwnsPid(services[i], pid)
      && forall j :: i < j < |services| ==> !OwnsPid(services[j], pid)
  }

  /** The first of the services bound to exactly this address. */
  predicate BoundFirst(services: seq<Service>, address: Address, port: Port, id: ServiceId) {
    exists i ::
      && 0 <= i < |services| && services[i].id == id && ListensOn(services[i], address, port)
      && forall j :: 0 <= j < i ==> !ListensOn(services[j], address, port)
  }

  lemma {:induction false} OwnerExactly(services: seq<Service>, pid: Pid, id: ServiceId)
    ensures pid in Owners(services) && Owners(services)[pid] == id <==> OwnsLast(services, pid, id)
  {
    if services != [] {
      hide OwnsPid;
      var n := |services| - 1;
      var (front, last) := (services[..n], services[n]);
      OwnerExactly(front, pid, id);
      AddOwnersIs(Owners(front), last.instances, last.id, pid);
      OwnsIs(last, pid);
      assert forall i :: 0 <= i < n ==> services[i] == front[i];
      if OwnsPid(last, pid) {
        assert OwnsLast(services, pid, id) <==> last.id == id by {
          assert services[n] == last;
        }
      } else {
        OwnsLastFront(services, pid, id);
      }
    }
  }

  lemma OwnsLastFront(services: seq<Service>, pid: Pid, id: ServiceId)
    requires services != [] && !OwnsPid(services[|services| - 1], pid)
    ensures OwnsLast(services, pid, id) <==> OwnsLast(services[..|services| - 1], pid, id)
  {
    hide OwnsPid;
    var n := |services| - 1;
    var front := services[..n];
    if i :|
      && 0 <= i < |front| && front[i].id == id && OwnsPid(front[i], pid)
      && forall j :: i < j < |front| ==> !OwnsPid(front[j], pid)
    {
      assert services[i].id == id && OwnsPid(services[i], pid);
      assert forall j :: i < j < n ==> services[j] == front[j];
    }
  }

  lemma {:induction false} BoundExactly(services: seq<Service>, address: Address, port: Port, id: ServiceId)
    ensures ExactListener(Listeners(services, port), address) == Some(id) <==> BoundFirst(services, address, port, id)
    ensures ExactListener(Listeners(services, port), address).None? <==>
      forall s :: s in services ==> !ListensOn(s, address, port)
  {
    if services != [] {
      hide ListensOn, ExactListener;
      var n := |services| - 1;
      var (front, last) := (services[..n], services[n]);
      assert services == front + [last];
      BoundExactly(front, address, port, id);
      var (a, b) := (Listeners(front, port), ListenersAt(last.endpoints, last.id, port));
      ExactSplits(a, b, address);
      BoundHere(last, address, port);
      BoundStep(front, last, address, port, id);
    } else {
      assert Listeners(services, port) == [];
    }
  }

  lemma {:induction false} ExactSplits(a: seq<Listener>, b: seq<Listener>, address: Address)
    ensures ExactListener(a + b, address)
         == if ExactListener(a, address).Some? then ExactListener(a, address) else ExactListener(b, address)
  {
    if a == [] {
      assert a + b == b;
    } else {
      assert (a + b)[1..] == a[1..] + b;
      ExactSplits(a[1..], b, address);
    }
  }

  lemma BoundHere(s: Service, address: Address, port: Port)
    ensures ExactListener(ListenersAt(s.endpoints, s.id, port), address)
         == if ListensOn(s, address, port) then Some(s.id) else None
  {
    var here := ListenersAt(s.endpoints, s.id, port);
    ExactIs(here, address);
    var exact := ExactListener(here, address);
    if exact.Some? {
      ListenersAtIs(s.endpoints, s.id, port, Listener(address, exact.value));
    } else {
      ListenersAtIs(s.endpoints, s.id, port, Listener(address, s.id));
    }
  }

  lemma BoundStep(front: seq<Service>, last: Service, address: Address, port: Port, id: ServiceId)
    ensures BoundFirst(front + [last], address, port, id) <==>
      || BoundFirst(front, address, port, id)
      || (last.id == id && ListensOn(last, address, port)
          && forall s :: s in front ==> !ListensOn(s, address, port))
  {
    hide ListensOn;
    var all := front + [last];
    assert forall i :: 0 <= i < |front| ==> all[i] == front[i];
    assert all[|front|] == last;
    if i :|
      && 0 <= i < |front| && front[i].id == id && ListensOn(front[i], address, port)
      && forall j :: 0 <= j < i ==> !ListensOn(front[j], address, port)
    {
      assert all[i].id == id && ListensOn(all[i], address, port);
    }
    if last.id == id && ListensOn(last, address, port) && forall s :: s in front ==> !ListensOn(s, address, port) {
      assert forall j :: 0 <= j < |front| ==> front[j] in front && !ListensOn(all[j], address, port);
    }
  }

  /** Who answers at an address: the first service bound to it, or whoever the
      port falls back to. */
  ghost predicate Answers(services: seq<Service>, address: Address, port: Port, id: ServiceId) {
    || BoundFirst(services, address, port, id)
    || ((forall s :: s in services ==> !ListensOn(s, address, port)) && Fallback(services, port, id))
  }

  /** A socket is evidence of exactly this edge: from the service that owns it,
      the last to claim its PID, to the service that answers at its remote
      address, another one, on its remote port. */
  lemma EdgeMeaning(services: seq<Service>, socket: Socket, edge: ConnectionId)
    ensures Edge(services, socket) == Some(edge) <==>
      && socket.pid.Some? && OwnsLast(services, socket.pid.value, edge.source)
      && Answers(services, socket.remoteAddress, socket.remotePort, edge.target)
      && edge.source != edge.target && edge.port == socket.remotePort
  {
    hide OwnsLast, BoundFirst, Fallback, Owners, Listeners, ListensOn;
    var (port, address) := (socket.remotePort, socket.remoteAddress);
    if socket.pid.Some? {
      OwnerExactly(services, socket.pid.value, edge.source);
    }
    BoundExactly(services, address, port, edge.target);
    if ExactListener(Listeners(services, port), address).None? {
      FallbackExactly(services, port, address, edge.target);
    } else {
      hide Wildcards, ListeningServices;
    }
  }

  /** The edges of a batch are exactly those its sockets are evidence of. */
  lemma EdgesExactly(services: seq<Service>, established: seq<Socket>, edge: ConnectionId)
    ensures edge in Edges(services, established) <==>
      exists socket ::
        && socket in established && socket.pid.Some? && OwnsLast(services, socket.pid.value, edge.source)
        && Answers(services, socket.remoteAddress, edge.port, edge.target)
        && edge.source != edge.target && edge.port == socket.remotePort
  {
    hide Edge, OwnsLast, Answers;
    forall socket | socket in established
      ensures Edge(services, socket) == Some(edge) <==>
        && socket.pid.Some? && OwnsLast(services, socket.pid.value, edge.source)
        && Answers(services, socket.remoteAddress, socket.remotePort, edge.target)
        && edge.source != edge.target && edge.port == socket.remotePort
    {
      EdgeMeaning(services, socket, edge);
    }
  }

  /** With no PID and no address shared there is nothing first or last about
      it. */
  lemma UnsharedEdges(services: seq<Service>, socket: Socket, edge: ConnectionId)
    requires NoSharedPid(services) && NoSharedListener(services)
    ensures Edge(services, socket) == Some(edge) <==>
      && socket.pid.Some? && (exists s :: s in services && s.id == edge.source && OwnsPid(s, socket.pid.value))
      && ((exists t :: t in services && t.id == edge.target && ListensOn(t, socket.remoteAddress, socket.remotePort))
          || ((forall t :: t in services ==> !ListensOn(t, socket.remoteAddress, socket.remotePort))
              && Fallback(services, socket.remotePort, edge.target)))
      && edge.source != edge.target && edge.port == socket.remotePort
  {
    hide NoSharedPid, NoSharedListener, ListenerOn, Fallback, Owners, Listeners, ListensOn;
    AnswersExactly(services, socket.remotePort, socket.remoteAddress, edge.target);
    if socket.pid.Some? {
      UnsharedOwner(services, socket.pid.value, edge.source);
    }
  }

  lemma UnsharedOwner(services: seq<Service>, pid: Pid, id: ServiceId)
    requires NoSharedPid(services)
    ensures pid in Owners(services) && Owners(services)[pid] == id <==>
      exists s :: s in services && s.id == id && OwnsPid(s, pid)
  {
    OwnerIs(services, pid);
    forall s, t | s in services && t in services && OwnsPid(s, pid) && OwnsPid(t, pid) ensures s.id == t.id {
      assert pid in PidsOf(s.instances) * PidsOf(t.instances);
    }
    hide NoSharedPid, OwnsPid;
  }

  // --------------------------------------------------------- order of inputs

  lemma WithoutEnds<T>(q: seq<T>, k: nat)
    requires k < |q|
    ensures k == 0 ==> Without(q, k) == q[1..]
    ensures k == |q| - 1 ==> Without(q, k) == q[..|q| - 1]
    ensures |Without(q, k)| == |q| - 1
    ensures k > 0 ==> Without(q, k)[0] == q[0] && q[1..][k - 1] == q[k]
    ensures k > 0 ==> Without(q, k)[1..] == Without(q[1..], k - 1)
    ensures k < |q| - 1 ==> Without(q, k)[|q| - 2] == q[|q| - 1] && q[..|q| - 1][k] == q[k]
    ensures k < |q| - 1 ==> Without(q, k)[..|q| - 2] == Without(q[..|q| - 1], k)
  {
  }

  lemma ListenersLast(services: seq<Service>, port: Port)
    requires services != []
    ensures var n := |services| - 1;
      multiset(Listeners(services, port))
      == multiset(Listeners(services[..n], port)) + multiset(ListenersAt(services[n].endpoints, services[n].id, port))
  {
  }

  lemma {:induction false} ListenersSplit(services: seq<Service>, port: Port, k: nat)
    requires k < |services|
    ensures multiset(Listeners(services, port))
         == multiset(Listeners(Without(services, k), port))
           + multiset(ListenersAt(services[k].endpoints, services[k].id, port))
  {
    hide ListenersAt, Without, Listeners;
    var n := |services| - 1;
    WithoutEnds(services, k);
    ListenersLast(services, port);
    if k < n {
      ListenersSplit(services[..n], port, k);
      ListenersLast(Without(services, k), port);
    }
  }

  lemma {:induction false} ListenersPermuted(services: seq<Service>, others: seq<Service>, port: Port)
    requires multiset(services) == multiset(others)
    ensures multiset(Listeners(services, port)) == multiset(Listeners(others, port))
  {
    assert |services| == |multiset(services)| == |multiset(others)| == |others|;
    if services != [] {
      hide Listeners, ListenersAt, Without;
      var n := |services| - 1;
      var k := Locate(services, others, services[n]);
      WithoutOne(services, n);
      WithoutOne(others, k);
      WithoutEnds(services, n);
      ListenersPermuted(services[..n], Without(others, k), port);
      ListenersSplit(others, port, k);
      ListenersLast(services, port);
    }
  }

  lemma OwnersPermuted(services: seq<Service>, others: seq<Service>)
    requires multiset(services) == multiset(others) && NoSharedPid(services)
    ensures Owners(services) == Owners(others)
  {
    SameMembers(services, others);
    forall pid ensures pid in Owners(services) <==> pid in Owners(others) {
      OwnerIs(services, pid);
      OwnerIs(others, pid);
    }
    forall pid | pid in Owners(services) ensures Owners(services)[pid] == Owners(others)[pid] {
      OwnerIs(services, pid);
      OwnerIs(others, pid);
      var s :| s in services && OwnsPid(s, pid) && Owners(services)[pid] == s.id;
      var t :| t in others && OwnsPid(t, pid) && Owners(others)[pid] == t.id;
      assert pid in PidsOf(s.instances) * PidsOf(t.instances);
    }
  }

  lemma WildcardsFirst(candidates: seq<Listener>)
    requires candidates != []
    ensures multiset(Wildcards(candidates))
         == (if IsUnspecified(candidates[0].address) then multiset{candidates[0]} else multiset{})
           + multiset(Wildcards(candidates[1..]))
  {
  }

  lemma {:induction false} WildcardsSplit(candidates: seq<Listener>, k: nat)
    requires k < |candidates|
    ensures multiset(Wildcards(candidates))
         == multiset(Wildcards(Without(candidates, k)))
           + (if IsUnspecified(candidates[k].address) then multiset{candidates[k]} else multiset{})
  {
    hide Without, Wildcards, IsUnspecified;
    WithoutEnds(candidates, k);
    WildcardsFirst(candidates);
    if k > 0 {
      WildcardsSplit(candidates[1..], k - 1);
      WildcardsFirst(Without(candidates, k));
    }
  }

  lemma {:induction false} WildcardsPermuted(c: seq<Listener>, d: seq<Listener>)
    requires multiset(c) == multiset(d)
    ensures multiset(Wildcards(c)) == multiset(Wildcards(d))
  {
    hide *;
    assert |c| == |multiset(c)| == |multiset(d)| == |d|;
    if c == [] {
      assert c == d;
    } else {
      var k := Locate(c, d, c[0]);
      WithoutOne(c, 0);
      WithoutOne(d, k);
      WithoutEnds(c, 0);
      WildcardsPermuted(c[1..], Without(d, k));
      WildcardsFirst(c);
      WildcardsSplit(d, k);
    }
  }

  lemma ExactPermuted(c: seq<Listener>, d: seq<Listener>, address: Address)
    requires forall x :: x in c <==> x in d
    requires forall x, y :: x in c && y in c && x.address == y.address ==> x.service == y.service
    ensures ExactListener(c, address) == ExactListener(d, address)
  {
    hide ExactListener;
    ExactIs(c, address);
    ExactIs(d, address);
    var (e, f) := (ExactListener(c, address), ExactListener(d, address));
    assert e.Some? ==> Listener(address, e.value) in d;
    assert f.Some? ==> Listener(address, f.value) in c;
  }

  lemma SingletonPermuted(v: seq<Listener>, w: seq<Listener>)
    requires multiset(v) == multiset(w)
    ensures |v| == |w| && (|v| == 1 ==> v[0] == w[0])
  {
    assert |v| == |multiset(v)| == |multiset(w)| == |w|;
    if |v| == 1 {
      assert v[0] in multiset(w);
    }
  }

  /** The only service of a non-empty list of candidates, if there is one. */
  function OnlyService(c: seq<Listener>): Option<ServiceId> {
    if c != [] && ListeningServices(c) == {c[0].service} then Some(c[0].service) else None
  }

  lemma OnlyPermuted(c: seq<Listener>, d: seq<Listener>)
    requires forall x :: x in c <==> x in d
    ensures OnlyService(c) == OnlyService(d)
  {
    assert c != [] ==> c[0] in c && c[0] in d;
    assert d != [] ==> d[0] in d && d[0] in c;
    assert ListeningServices(c) == ListeningServices(d);
    assert c != [] ==> c[0].service in ListeningServices(d);
    assert d != [] ==> d[0].service in ListeningServices(c);
    hide ListeningServices;
  }

  lemma ListenerOnPermuted(c: seq<Listener>, d: seq<Listener>, address: Address)
    requires multiset(c) == multiset(d)
    requires forall x, y :: x in c && y in c && x.address == y.address ==> x.service == y.service
    ensures ListenerOn(c, address) == ListenerOn(d, address)
  {
    SameMembers(c, d);
    ExactPermuted(c, d, address);
    WildcardsPermuted(c, d);
    SingletonPermuted(Wildcards(c), Wildcards(d));
    OnlyPermuted(c, d);
    hide ExactListener, Wildcards, ListeningServices;
  }

  lemma EdgePermuted(services: seq<Service>, others: seq<Service>, socket: Socket)
    requires multiset(services) == multiset(others) && NoSharedPid(services) && NoSharedListener(services)
    ensures Edge(services, socket) == Edge(others, socket)
  {
    hide NoSharedListener, NoSharedPid, ListenerOn;
    var (c, d) := (Listeners(services, socket.remotePort), Listeners(others, socket.remotePort));
    OwnersPermuted(services, others);
    ListenersPermuted(services, others, socket.remotePort);
    forall x, y | x in c && y in c && x.address == y.address ensures x.service == y.service {
      ListenerIs(services, socket.remotePort, x);
      ListenerIs(services, socket.remotePort, y);
      OneListener(services, socket.remotePort, x, y);
    }
    ListenerOnPermuted(c, d, socket.remoteAddress);
  }

  lemma OneListener(services: seq<Service>, port: Port, x: Listener, y: Listener)
    requires NoSharedListener(services) && x.address == y.address
    requires exists s :: s in services && s.id == x.service && ListensOn(s, x.address, port)
    requires exists s :: s in services && s.id == y.service && ListensOn(s, y.address, port)
    ensures x.service == y.service
  {
    hide ListensOn;
    var s :| s in services && s.id == x.service && ListensOn(s, x.address, port);
    var t :| t in services && t.id == y.service && ListensOn(t, y.address, port);
    var e := BoundEndpoint(s, x.address, port);
    var f := BoundEndpoint(t, y.address, port);
  }

  lemma BoundEndpoint(s: Service, address: Address, port: Port) returns (e: Endpoint)
    requires ListensOn(s, address, port)
    ensures e in s.endpoints && e.port == port && e.address == address
  {
    e :| e in s.endpoints && e.port == port && e.address == address;
  }

  lemma EdgesPermuted(services: seq<Service>, others: seq<Service>, established: seq<Socket>, reordered: seq<Socket>)
    requires multiset(services) == multiset(others) && NoSharedPid(services) && NoSharedListener(services)
    requires multiset(established) == multiset(reordered)
    ensures Edges(services, established) == Edges(others, reordered)
  {
    hide Edge, NoSharedPid, NoSharedListener;
    SameMembers(established, reordered);
    forall socket | socket in established ensures Edge(services, socket) == Edge(others, socket) {
      EdgePermuted(services, others, socket);
    }
  }

  predicate ConnectionLess(a: Connection, b: Connection) {
    IdLess(a.id, b.id)
  }

  predicate IdLess(a: ConnectionId, b: ConnectionId) {
    IdLeq(a, b) && a != b
  }

  lemma KeyedUnique(q: seq<Connection>, r: seq<Connection>)
    requires Keyed(q) && Keyed(r) && forall c :: c in q <==> c in r
    ensures q == r
  {
    AscendingUnique(q, r, ConnectionLess);
  }

  lemma IdsUnique(q: seq<ConnectionId>, r: seq<ConnectionId>)
    requires IdsAscend(q) && IdsAscend(r) && forall id :: id in q <==> id in r
    ensures q == r
  {
    AscendingUnique(q, r, IdLess);
  }

  /** The order in which services and sockets were observed shows nowhere in
      the topology or its delta, as long as no PID and no listening address is
      claimed by two services. */
  lemma TopologyIgnoresOrder(before: seq<Connection>, at: Time, services: seq<Service>, established: seq<Socket>,
          next: seq<Connection>, delta: TopologyDelta, others: seq<Service>, reordered: seq<Socket>,
          alternative: seq<Connection>, otherDelta: TopologyDelta)
    requires multiset(services) == multiset(others) && multiset(established) == multiset(reordered)
    requires NoSharedPid(services) && NoSharedListener(services)
    requires Continues(before, next, Edges(services, established), at) && Reports(delta, before, next)
    requires Continues(before, alternative, Edges(others, reordered), at) && Reports(otherDelta, before, alternative)
    ensures next == alternative && delta == otherDelta
  {
    hide NoSharedPid, NoSharedListener, Edges, Keyed, Find, Continued, IdsAscend;
    EdgesPermuted(services, others, established, reordered);
    forall c ensures c in next <==> c in alternative {
      SameContents(before, next, alternative, Edges(services, established), at, c);
      SameContents(before, alternative, next, Edges(services, established), at, c);
    }
    KeyedUnique(next, alternative);
    KeyedUnique(delta.added, otherDelta.added);
    IdsUnique(delta.removed, otherDelta.removed);
  }

  lemma SameContents(before: seq<Connection>, next: seq<Connection>, alternative: seq<Connection>,
          edges: set<ConnectionId>, at: Time, c: Connection)
    requires Continues(before, next, edges, at) && Continues(before, alternative, edges, at)
    ensures c in next ==> c in alternative
  {
    hide Keyed, Find, Continued;
    if c in next {
      assert c.id in ConnectionIds(next);
      assert c.id in ConnectionIds(alternative);
    }
  }

  /** Why no PID may be shared: the last claimant owns the socket. */
  lemma SharedPidShowsOrder(s: Service, t: Service, pid: Pid)
    requires OwnsPid(s, pid) && OwnsPid(t, pid)
    ensures pid in Owners([s, t]) && Owners([s, t])[pid] == t.id
    ensures pid in Owners([t, s]) && Owners([t, s])[pid] == s.id
  {
    LastOwner(s, t, pid);
    LastOwner(t, s, pid);
  }

  lemma LastOwner(s: Service, t: Service, pid: Pid)
    requires OwnsPid(t, pid)
    ensures pid in Owners([s, t]) && Owners([s, t])[pid] == t.id
  {
    assert [s, t][..1] == [s];
    AddOwnersIs(Owners([s]), t.instances, t.id, pid);
  }

  /** Why no listening address may be shared: the first claimant answers. */
  lemma SharedListenerShowsOrder(s: Service, t: Service, address: Address, port: Port)
    requires ListensOn(s, address, port) && ListensOn(t, address, port)
    ensures ListenerOn(Listeners([s, t], port), address) == Some(s.id)
    ensures ListenerOn(Listeners([t, s], port), address) == Some(t.id)
  {
    FirstAnswers(s, t, address, port);
    FirstAnswers(t, s, address, port);
  }

  lemma FirstAnswers(s: Service, t: Service, address: Address, port: Port)
    requires ListensOn(s, address, port)
    ensures ListenerOn(Listeners([s, t], port), address) == Some(s.id)
  {
    assert [s, t][..1] == [s] && [s][..0] == [];
    var (first, second) := (ListenersAt(s.endpoints, s.id, port), ListenersAt(t.endpoints, t.id, port));
    assert Listeners([s], port) == Listeners([], port) + first == first;
    assert Listeners([s, t], port) == Listeners([s], port) + second;
    ListenersAtIs(s.endpoints, s.id, port, Listener(address, s.id));
    ExactIs(first, address);
    forall c | c in first ensures c.service == s.id {
      ListenersAtIs(s.endpoints, s.id, port, c);
    }
    ExactFirst(first, second, address);
  }

  lemma {:induction false} ExactFirst(a: seq<Listener>, b: seq<Listener>, address: Address)
    ensures ExactListener(a, address).Some? ==> ExactListener(a + b, address) == ExactListener(a, address)
  {
    if a != [] {
      assert (a + b)[1..] == a[1..] + b;
      ExactFirst(a[1..], b, address);
    }
  }

  // --------------------------------------------------------- whole runs

  /** One batch as the builder saw it, and what it left behind. */
  datatype Batch = Batch(edges: set<ConnectionId>, at: Time, delta: TopologyDelta, current: seq<Connection>)

  function Current(batches: seq<Batch>): seq<Connection> {
    if batches == [] then [] else batches[|batches| - 1].current
  }

  ghost predicate IsRun(batches: seq<Batch>) {
    batches == [] ||
    var n := |batches| - 1;
    var (before, last) := (Current(batches[..n]), batches[n]);
    && IsRun(batches[..n])
    && Continues(before, last.current, last.edges, last.at)
    && Reports(last.delta, before, last.current)
  }

  /** Where the unbroken streak of an edge up to now began. */
  function StreakStart(batches: seq<Batch>, id: ConnectionId): (k: nat)
    ensures k <= |batches|
  {
    if batches == [] || id !in batches[|batches| - 1].edges then |batches|
    else StreakStart(batches[..|batches| - 1], id)
  }

  /** The streak is unbroken, and begins where it says. */
  lemma {:induction false} StreakIsUnbroken(batches: seq<Batch>, id: ConnectionId)
    ensures var k := StreakStart(batches, id);
      && (forall j :: k <= j < |batches| ==> id in batches[j].edges)
      && (k > 0 ==> id !in batches[k - 1].edges)
  {
    if batches != [] && id in batches[|batches| - 1].edges {
      StreakIsUnbroken(batches[..|batches| - 1], id);
    }
  }

  /** The latest clock reading from batch `k` on. */
  function Latest(batches: seq<Batch>, k: nat): Time
    requires k < |batches|
  {
    var n := |batches| - 1;
    if k == n then batches[n].at
    else
      var before := Latest(batches[..n], k);
      if batches[n].at > before then batches[n].at else before
  }

  /** An edge dates from the first batch of its unbroken streak, and was last
      seen at the latest time of that streak. */
  lemma {:induction false} EdgesAreContinuous(batches: seq<Batch>, id: ConnectionId)
    requires IsRun(batches)
    ensures id in ConnectionIds(Current(batches)) <==> StreakStart(batches, id) < |batches|
    ensures id in ConnectionIds(Current(batches)) ==>
      var k := StreakStart(batches, id);
      Find(Current(batches), ConnectionKey, id) == Some(Connection(id, batches[k].at, Latest(batches, k)))
  {
    if batches != [] {
      hide Reports, ConnectionIds, Find, Keyed;
      var n := |batches| - 1;
      var (front, last) := (batches[..n], batches[n]);
      EdgesAreContinuous(front, id);
      FindsEdge(Current(front), id);
      if id in ConnectionIds(last.current) {
        FindsEdge(last.current, id);
        assert Find(last.current, ConnectionKey, id).value
          == Continued(Find(Current(front), ConnectionKey, id), id, last.at);
      }
    }
  }

  /** Seeing an edge again never rewinds it, whatever the clock does. */
  lemma LastSeenNeverRewinds(before: seq<Connection>, next: seq<Connection>, edges: set<ConnectionId>, at: Time,
          id: ConnectionId)
    requires Continues(before, next, edges, at) && id in ConnectionIds(before) && id in edges
    ensures Find(before, ConnectionKey, id).Some? && Find(next, ConnectionKey, id).Some?
    ensures Find(before, ConnectionKey, id).value.firstSeen == Find(next, ConnectionKey, id).value.firstSeen
    ensures Find(before, ConnectionKey, id).value.lastSeen <= Find(next, ConnectionKey, id).value.lastSeen
  {
    FindsEdge(before, id);
    FindsEdge(next, id);
  }

  /** First sightings as a consumer of deltas knows them. */
  function Replay(known: map<ConnectionId, Time>, delta: TopologyDelta): map<ConnectionId, Time> {
    map id | id in (known.Keys - Elements(delta.removed)) + ConnectionIds(delta.added)
      :: var sighting := Find(delta.added, ConnectionKey, id);
        if sighting.Some? then sighting.value.firstSeen else if id in known then known[id] else 0
  }

  function ReplayAll(batches: seq<Batch>): map<ConnectionId, Time> {
    if batches == [] then map[] else Replay(ReplayAll(batches[..|batches| - 1]), batches[|batches| - 1].delta)
  }

  function FirstSightings(connections: seq<Connection>): map<ConnectionId, Time> {
    map id | id in ConnectionIds(connections) ::
      var c := Find(connections, ConnectionKey, id); if c.Some? then c.value.firstSeen else 0
  }

  lemma ReplayBatch(before: seq<Connection>, last: Batch, id: ConnectionId)
    requires Keyed(before) && Continues(before, last.current, last.edges, last.at)
        && Reports(last.delta, before, last.current)
    ensures id in Replay(FirstSightings(before), last.delta) <==> id in FirstSightings(last.current)
    ensures id in FirstSightings(last.current) ==>
      Replay(FirstSightings(before), last.delta)[id] == FirstSightings(last.current)[id]
  {
    hide Keyed;
    FindsEdge(before, id);
    FindsEdge(last.current, id);
    FindsEdge(last.delta.added, id);
    var added := Find(last.delta.added, ConnectionKey, id);
    if added.Some? {
      FindsHeld(last.current, added.value);
    }
    if id in ConnectionIds(last.current) && id !in ConnectionIds(before) {
      assert Find(last.current, ConnectionKey, id).value in last.delta.added;
    }
  }

  /** Folding the deltas from nothing rebuilds the edges and when each began. */
  lemma {:induction false} DeltasRebuildTheTopology(batches: seq<Batch>)
    requires IsRun(batches)
    ensures ReplayAll(batches) == FirstSightings(Current(batches))
  {
    if batches != [] {
      hide Continues, Reports, Replay, FirstSightings;
      var n := |batches| - 1;
      DeltasRebuildTheTopology(batches[..n]);
      CurrentKeyed(batches[..n]);
      forall id ensures id in ReplayAll(batches) <==> id in FirstSightings(Current(batches)) {
        ReplayBatch(Current(batches[..n]), batches[n], id);
      }
      forall id | id in ReplayAll(batches) ensures ReplayAll(batches)[id] == FirstSightings(Current(batches))[id] {
        ReplayBatch(Current(batches[..n]), batches[n], id);
      }
    }
  }

  lemma CurrentKeyed(batches: seq<Batch>)
    requires IsRun(batches)
    ensures Keyed(Current(batches))
  {
  }
}
