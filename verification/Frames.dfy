/** The frames a daemon sends and the fold a dashboard makes of them. */
module Frames {
  import opened Basics
  import opened Model
  import opened Sorting
  import Deriver
  import Warnings

  type Warning = Warnings.Warning
  type WarningId = Warnings.WarningId

  /** Events a client keeps. */
  const EVENT_BUFFER := 500

  datatype Frame =
    | Snapshot(services: seq<Service>, connections: seq<Connection>, warnings: seq<Warning>)
    | ServicesChanged(services: seq<Service>, removedServices: seq<ServiceId>)
    | TopologyChanged(project: Option<ProjectId>, added: seq<Connection>, removedConnections: seq<ConnectionId>)
    | WarningsChanged(warnings: seq<Warning>, removedWarnings: seq<WarningId>)
    | Events(events: seq<Deriver.Event>)

  datatype ClientView = ClientView(
    services: seq<Service>,
    connections: seq<Connection>,
    warnings: seq<Warning>,
    events: seq<Deriver.Event>)

  // ------------------------------------------------------------------- lists

  function Filter<T>(q: seq<T>, keep: T -> bool): seq<T> {
    if q == [] then [] else (if keep(q[0]) then [q[0]] else []) + Filter(q[1..], keep)
  }

  function Map<T, U>(q: seq<T>, f: T -> U): seq<U> {
    if q == [] then [] else [f(q[0])] + Map(q[1..], f)
  }

  function Reversed<T>(q: seq<T>): seq<T> {
    if q == [] then [] else Reversed(q[1..]) + [q[0]]
  }

  /** The last entry under a key: what a map built from the list holds. */
  function FindLast<T, K(==)>(q: seq<T>, key: T -> K, k: K): Option<T> {
    if q == [] then None
    else
      var later := FindLast(q[1..], key, k);
      if later.Some? then later else if key(q[0]) == k then Some(q[0]) else None
  }

  predicate Distinct<T, K(==)>(q: seq<T>, key: T -> K) {
    forall i, j :: 0 <= i < j < |q| ==> key(q[i]) != key(q[j])
  }

  // ----------------------------------------------------------------- the fold

  function ServiceKey(s: Service): ServiceId { s.id }
  function WarningKey(w: Warning): WarningId { w.id }

  function ReduceServices(current: seq<Service>, changed: seq<Service>, removed: seq<ServiceId>): seq<Service> {
    var kept := Map(
      Filter(current, (s: Service) => s.id !in removed),
      (s: Service) => var now := FindLast(changed, ServiceKey, s.id); if now.Some? then now.value else s);
    kept + Filter(changed, (s: Service) => Find(current, ServiceKey, s.id).None?)
  }

  function ReduceConnections(current: seq<Connection>, added: seq<Connection>,
          removed: seq<ConnectionId>): seq<Connection>
  {
    Filter(current, (c: Connection) => c.id !in removed && Find(added, ConnectionKey, c.id).None?) + added
  }

  function ReduceWarnings(current: seq<Warning>, added: seq<Warning>, removed: seq<WarningId>): seq<Warning> {
    added + Filter(current, (w: Warning) => w.id !in removed && Find(added, WarningKey, w.id).None?)
  }

  /** One frame folded into the view. */
  function Reduce(current: ClientView, frame: Frame): ClientView {
    match frame
    case Snapshot(services, connections, warnings) =>
      current.(services := services, connections := connections, warnings := warnings)
    case ServicesChanged(changed, removed) =>
      current.(services := ReduceServices(current.services, changed, removed))
    case TopologyChanged(_, added, removed) =>
      current.(connections := ReduceConnections(current.connections, added, removed))
    case WarningsChanged(warnings, removed) =>
      current.(warnings := ReduceWarnings(current.warnings, warnings, removed))
    case Events(events) =>
      var all := Reversed(events) + current.events;
      current.(events := if |all| <= EVENT_BUFFER then all else all[..EVENT_BUFFER])
  }

  function ReduceAll(current: ClientView, frames: seq<Frame>): ClientView {
    if frames == [] then current else Reduce(ReduceAll(current, frames[..|frames| - 1]), frames[|frames| - 1])
  }

  // ----------------------------------------------------- what a frame mentions

  /** Everything a view holds, under one kind of key. */
  datatype Key = OfService(service: ServiceId) | OfConnection(connection: ConnectionId) | OfWarning(warning: WarningId)

  datatype Entry =
    | ServiceEntry(service: Service)
    | ConnectionEntry(connection: Connection)
    | WarningEntry(warning: Warning)

  datatype Mention = Silent | Gone | Latest(entry: Entry)

  function InServices(services: seq<Service>, id: ServiceId): Option<Entry> {
    var s := Find(services, ServiceKey, id);
    if s.Some? then Some(ServiceEntry(s.value)) else None
  }

  function InConnections(connections: seq<Connection>, id: ConnectionId): Option<Entry> {
    var c := Find(connections, ConnectionKey, id);
    if c.Some? then Some(ConnectionEntry(c.value)) else None
  }

  function InWarnings(warnings: seq<Warning>, id: WarningId): Option<Entry> {
    var w := Find(warnings, WarningKey, id);
    if w.Some? then Some(WarningEntry(w.value)) else None
  }

  function At(view: ClientView, key: Key): Option<Entry> {
    match key
    case OfService(id) => InServices(view.services, id)
    case OfConnection(id) => InConnections(view.connections, id)
    case OfWarning(id) => InWarnings(view.warnings, id)
  }

  function Replaced(entry: Option<Entry>): Mention {
    if entry.Some? then Latest(entry.value) else Gone
  }

  function Changed(entry: Option<Entry>, gone: bool): Mention {
    if entry.Some? then Latest(entry.value) else if gone then Gone else Silent
  }

  /** What one frame says about one key. */
  function Mentioned(frame: Frame, key: Key): Mention {
    match (frame, key)
    case (Snapshot(services, _, _), OfService(id)) => Replaced(InServices(services, id))
    case (Snapshot(_, connections, _), OfConnection(id)) => Replaced(InConnections(connections, id))
    case (Snapshot(_, _, warnings), OfWarning(id)) => Replaced(InWarnings(warnings, id))
    case (ServicesChanged(services, removed), OfService(id)) => Changed(InServices(services, id), id in removed)
    case (TopologyChanged(_, added, removed), OfConnection(id)) => Changed(InConnections(added, id), id in removed)
    case (WarningsChanged(warnings, removed), OfWarning(id)) => Changed(InWarnings(warnings, id), id in removed)
    case _ => Silent
  }

  function LastMention(frames: seq<Frame>, key: Key): Mention {
    if frames == [] then Silent
    else
      var last := Mentioned(frames[|frames| - 1], key);
      if last.Silent? then LastMention(frames[..|frames| - 1], key) else last
  }

  function Overlay(base: Option<Entry>, mention: Mention): Option<Entry> {
    match mention
    case Silent => base
    case Gone => None
    case Latest(entry) => Some(entry)
  }

  /** A frame lists each id at most once, as changed or as removed. */
  predicate Clean(frame: Frame) {
    match frame
    case Snapshot(services, connections, warnings) =>
      Distinct(services, ServiceKey) && Distinct(connections, ConnectionKey) && Distinct(warnings, WarningKey)
    case ServicesChanged(services, removed) =>
      Distinct(services, ServiceKey) && forall s :: s in services ==> s.id !in removed
    case TopologyChanged(_, added, _) => Distinct(added, ConnectionKey)
    case WarningsChanged(warnings, _) => Distinct(warnings, WarningKey)
    case Events(_) => true
  }

  /** A view lists each id once. */
  predicate Tidy(view: ClientView) {
    Distinct(view.services, ServiceKey) && Distinct(view.connections, ConnectionKey)
      && Distinct(view.warnings, WarningKey)
  }

  // ------------------------------------------------------------ list lemmas

  lemma {:induction false} FindConcat<T, K>(a: seq<T>, b: seq<T>, key: T -> K, k: K)
    ensures Find(a + b, key, k) == if Find(a, key, k).Some? then Find(a, key, k) else Find(b, key, k)
  {
    if a == [] {
      assert a + b == b;
    } else {
      assert (a + b)[1..] == a[1..] + b;
      FindConcat(a[1..], b, key, k);
    }
  }

  lemma {:induction false} FindFiltered<T, K>(q: seq<T>, keep: T -> bool, key: T -> K, k: K, verdict: bool)
    requires forall x :: x in q && key(x) == k ==> keep(x) == verdict
    ensures Find(Filter(q, keep), key, k) == if verdict then Find(q, key, k) else None
  {
    if q != [] {
      assert q == [q[0]] + q[1..];
      FindFiltered(q[1..], keep, key, k, verdict);
      var head := if keep(q[0]) then [q[0]] else [];
      FindConcat(head, Filter(q[1..], keep), key, k);
    }
  }

  lemma {:induction false} FindMapped<T, K>(q: seq<T>, f: T -> T, key: T -> K, k: K)
    requires forall x :: x in q ==> key(f(x)) == key(x)
    ensures Find(Map(q, f), key, k) == if Find(q, key, k).Some? then Some(f(Find(q, key, k).value)) else None
  {
    if q != [] {
      assert q == [q[0]] + q[1..];
      FindMapped(q[1..], f, key, k);
    }
  }

  lemma {:induction false} FindLastIs<T, K>(q: seq<T>, key: T -> K, k: K)
    ensures FindLast(q, key, k).Some? ==> FindLast(q, key, k).value in q && key(FindLast(q, key, k).value) == k
    ensures FindLast(q, key, k).None? <==> Find(q, key, k).None?
    ensures Distinct(q, key) ==> FindLast(q, key, k) == Find(q, key, k)
  {
    if q != [] {
      assert q == [q[0]] + q[1..];
      FindLastIs(q[1..], key, k);
      FindIs(q[1..], key, k);
      if Distinct(q, key) {
        assert forall x :: x in q[1..] ==> key(x) != key(q[0]);
      }
    }
  }

  lemma {:induction false} FilterKeeps<T, K>(q: seq<T>, keep: T -> bool, key: T -> K)
    ensures forall x :: x in Filter(q, keep) <==> x in q && keep(x)
    ensures Distinct(q, key) ==> Distinct(Filter(q, keep), key)
  {
    if q != [] {
      assert q == [q[0]] + q[1..];
      FilterKeeps(q[1..], keep, key);
      if Distinct(q, key) {
        var (head, tail) := (if keep(q[0]) then [q[0]] else [], Filter(q[1..], keep));
        forall x, y | x in head && y in tail ensures key(x) != key(y) {
          assert y in q[1..];
        }
        DistinctConcat(head, tail, key);
      }
    }
  }

  lemma {:induction false} MapKeeps<T, K>(q: seq<T>, f: T -> T, key: T -> K)
    requires forall x :: x in q ==> key(f(x)) == key(x)
    ensures |Map(q, f)| == |q| && forall i :: 0 <= i < |q| ==> key(Map(q, f)[i]) == key(q[i])
  {
    if q != [] {
      MapKeeps(q[1..], f, key);
    }
  }

  lemma DistinctConcat<T, K>(a: seq<T>, b: seq<T>, key: T -> K)
    requires Distinct(a, key) && Distinct(b, key)
    requires forall x, y :: x in a && y in b ==> key(x) != key(y)
    ensures Distinct(a + b, key)
  {
    var q := a + b;
    forall i, j | 0 <= i < j < |q| ensures key(q[i]) != key(q[j]) {
      assert i < |a| ==> q[i] in a;
      assert j >= |a| ==> q[j] in b;
    }
  }

  // ------------------------------------- the fold, one key at a time

  lemma ServicesReduced(current: seq<Service>, changed: seq<Service>, removed: seq<ServiceId>, id: ServiceId)
    requires Distinct(changed, ServiceKey) && forall s :: s in changed ==> s.id !in removed
    ensures InServices(ReduceServices(current, changed, removed), id)
         == Overlay(InServices(current, id), Changed(InServices(changed, id), id in removed))
  {
    var keep := (s: Service) => s.id !in removed;
    var update := (s: Service) => var now := FindLast(changed, ServiceKey, s.id); if now.Some? then now.value else s;
    var isNew := (s: Service) => Find(current, ServiceKey, s.id).None?;
    var kept := Filter(current, keep);
    forall s ensures ServiceKey(update(s)) == ServiceKey(s) {
      FindLastIs(changed, ServiceKey, s.id);
    }
    FindFiltered(current, keep, ServiceKey, id, id !in removed);
    FindMapped(kept, update, ServiceKey, id);
    FindFiltered(changed, isNew, ServiceKey, id, Find(current, ServiceKey, id).None?);
    FindConcat(Map(kept, update), Filter(changed, isNew), ServiceKey, id);
    FindLastIs(changed, ServiceKey, id);
    FindIs(changed, ServiceKey, id);
    FindIs(current, ServiceKey, id);
  }

  lemma ConnectionsReduced(current: seq<Connection>, added: seq<Connection>, removed: seq<ConnectionId>,
          id: ConnectionId)
    ensures InConnections(ReduceConnections(current, added, removed), id)
         == Overlay(InConnections(current, id), Changed(InConnections(added, id), id in removed))
  {
    var keep := (c: Connection) => c.id !in removed && Find(added, ConnectionKey, c.id).None?;
    FindFiltered(current, keep, ConnectionKey, id, id !in removed && Find(added, ConnectionKey, id).None?);
    FindConcat(Filter(current, keep), added, ConnectionKey, id);
  }

  lemma WarningsReduced(current: seq<Warning>, added: seq<Warning>, removed: seq<WarningId>, id: WarningId)
    ensures InWarnings(ReduceWarnings(current, added, removed), id)
         == Overlay(InWarnings(current, id), Changed(InWarnings(added, id), id in removed))
  {
    var keep := (w: Warning) => w.id !in removed && Find(added, WarningKey, w.id).None?;
    FindFiltered(current, keep, WarningKey, id, id !in removed && Find(added, WarningKey, id).None?);
    FindConcat(added, Filter(current, keep), WarningKey, id);
  }

  /** A frame changes exactly what it mentions, to what it says. */
  lemma ReduceIsOverlay(view: ClientView, frame: Frame, key: Key)
    requires Clean(frame)
    ensures At(Reduce(view, frame), key) == Overlay(At(view, key), Mentioned(frame, key))
  {
    hide InServices, InConnections, InWarnings, ReduceServices, ReduceConnections, ReduceWarnings, Distinct;
    match (frame, key) {
      case (ServicesChanged(changed, removed), OfService(id)) => ServicesReduced(view.services, changed, removed, id);
      case (TopologyChanged(_, added, removed), OfConnection(id)) =>
        ConnectionsReduced(view.connections, added, removed, id);
      case (WarningsChanged(warnings, removed), OfWarning(id)) => WarningsReduced(view.warnings, warnings, removed, id);
      case _ =>
    }
  }

  predicate AllClean(frames: seq<Frame>) {
    forall f :: f in frames ==> Clean(f)
  }

  /** Folding frames leaves every key as its last mention says. */
  lemma {:induction false} FoldIsLastMention(view: ClientView, frames: seq<Frame>, key: Key)
    requires AllClean(frames)
    ensures At(ReduceAll(view, frames), key) == Overlay(At(view, key), LastMention(frames, key))
  {
    hide At, Reduce, Mentioned, Clean;
    if frames != [] {
      var n := |frames| - 1;
      FoldIsLastMention(view, frames[..n], key);
      ReduceIsOverlay(ReduceAll(view, frames[..n]), frames[n], key);
    }
  }

  lemma {:induction false} LastMentionConcat(a: seq<Frame>, b: seq<Frame>, key: Key)
    ensures LastMention(a + b, key) == if LastMention(b, key).Silent? then LastMention(a, key) else LastMention(b, key)
  {
    hide Mentioned;
    if b == [] {
      assert a + b == a;
    } else {
      assert (a + b)[..|a + b| - 1] == a + b[..|b| - 1];
      LastMentionConcat(a, b[..|b| - 1], key);
    }
  }

  lemma OneFrame(frame: Frame, key: Key)
    ensures LastMention([frame], key) == Mentioned(frame, key)
  {
    hide Mentioned;
    assert [frame][..0] == [];
  }

  lemma CleanConcat(a: seq<Frame>, b: seq<Frame>)
    requires AllClean(a) && AllClean(b)
    ensures AllClean(a + b)
  {
  }

  /** The fold never lists anything twice. */
  lemma ReduceKeepsTidy(view: ClientView, frame: Frame)
    requires Tidy(view) && Clean(frame)
    ensures Tidy(Reduce(view, frame))
  {
    hide Distinct;
    match frame {
      case ServicesChanged(changed, removed) => ServicesTidy(view.services, changed, removed);
      case TopologyChanged(_, added, removed) => ConnectionsTidy(view.connections, added, removed);
      case WarningsChanged(added, removed) => WarningsTidy(view.warnings, added, removed);
      case _ =>
    }
  }

  lemma ServicesTidy(current: seq<Service>, changed: seq<Service>, removed: seq<ServiceId>)
    requires Distinct(current, ServiceKey) && Distinct(changed, ServiceKey)
    ensures Distinct(ReduceServices(current, changed, removed), ServiceKey)
  {
    var keep := (s: Service) => s.id !in removed;
    var update := (s: Service) => var now := FindLast(changed, ServiceKey, s.id); if now.Some? then now.value else s;
    var isNew := (s: Service) => Find(current, ServiceKey, s.id).None?;
    var kept := Filter(current, keep);
    forall s ensures ServiceKey(update(s)) == ServiceKey(s) {
      FindLastIs(changed, ServiceKey, s.id);
    }
    FilterKeeps(current, keep, ServiceKey);
    FilterKeeps(changed, isNew, ServiceKey);
    MapKeeps(kept, update, ServiceKey);
    var (a, b) := (Map(kept, update), Filter(changed, isNew));
    forall x, y | x in a && y in b ensures ServiceKey(x) != ServiceKey(y) {
      var i :| 0 <= i < |a| && a[i] == x;
      assert kept[i] in kept;
      FindIs(current, ServiceKey, y.id);
    }
    DistinctConcat(a, b, ServiceKey);
  }

  lemma ConnectionsTidy(current: seq<Connection>, added: seq<Connection>, removed: seq<ConnectionId>)
    requires Distinct(current, ConnectionKey) && Distinct(added, ConnectionKey)
    ensures Distinct(ReduceConnections(current, added, removed), ConnectionKey)
  {
    var keep := (c: Connection) => c.id !in removed && Find(added, ConnectionKey, c.id).None?;
    FilterKeeps(current, keep, ConnectionKey);
    forall x, y | x in Filter(current, keep) && y in added ensures ConnectionKey(x) != ConnectionKey(y) {
      FindIs(added, ConnectionKey, x.id);
    }
    DistinctConcat(Filter(current, keep), added, ConnectionKey);
  }

  lemma WarningsTidy(current: seq<Warning>, added: seq<Warning>, removed: seq<WarningId>)
    requires Distinct(current, WarningKey) && Distinct(added, WarningKey)
    ensures Distinct(ReduceWarnings(current, added, removed), WarningKey)
  {
    var keep := (w: Warning) => w.id !in removed && Find(added, WarningKey, w.id).None?;
    FilterKeeps(current, keep, WarningKey);
    forall x, y | x in added && y in Filter(current, keep) ensures WarningKey(x) != WarningKey(y) {
      FindIs(added, WarningKey, y.id);
    }
    DistinctConcat(added, Filter(current, keep), WarningKey);
  }
}
