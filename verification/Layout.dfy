/** The dashboard's layered graph layout: longest-path layering by bounded
    relaxation, columns, and placement in a bounding box. */
module Layout {
  import opened Basics
  import opened Sorting

  const NODE_WIDTH := 176
  const NODE_HEIGHT := 62
  const COLUMN_GAP := 96
  const ROW_GAP := 24
  const PADDING := 16
  const WRAP_COLUMNS := 4

  /** The pitch of the grid. */
  const COLUMN_PITCH := NODE_WIDTH + COLUMN_GAP
  const ROW_PITCH := NODE_HEIGHT + ROW_GAP

  /** `name` is the rank of the display name under locale comparison. */
  datatype Service = Service(id: nat, name: int)
  datatype Edge = Edge(source: nat, target: nat)
  datatype Placed = Placed(service: Service, column: nat, x: int, y: int)

  function ServiceIds(services: seq<Service>): set<nat> {
    set s | s in services :: s.id
  }

  predicate DistinctIds(services: seq<Service>) {
    forall i, j :: 0 <= i < j < |services| ==> services[i].id != services[j].id
  }

  /** Connections whose two ends are both shown. */
  function Present(present: set<nat>, connections: seq<Edge>): (edges: seq<Edge>)
    ensures forall e :: e in edges <==> e in connections && e.source in present && e.target in present
  {
    if connections == [] then [] else
      var e := connections[0];
      (if e.source in present && e.target in present then [e] else []) + Present(present, connections[1..])
  }

  // ------------------------------------------------------------- graph theory

  /** A sequence of nodes, each calling the next. */
  predicate IsPath(edges: seq<Edge>, p: seq<nat>) {
    p != [] && forall i :: 0 <= i < |p| - 1 ==> Edge(p[i], p[i + 1]) in edges
  }

  ghost predicate Acyclic(edges: seq<Edge>) {
    forall p :: IsPath(edges, p) && |p| > 1 ==> p[0] != p[|p| - 1]
  }

  /** The longest path that ends at `v` has `k` edges. */
  ghost predicate IsLongest(edges: seq<Edge>, v: nat, k: nat) {
    && (exists p :: IsPath(edges, p) && p[|p| - 1] == v && |p| == k + 1)
    && (forall p :: IsPath(edges, p) && p[|p| - 1] == v ==> |p| <= k + 1)
  }

  /** Some walk of `k` edges ends at `v`. */
  ghost predicate Walk(edges: seq<Edge>, k: nat, v: nat) {
    k == 0 || exists u :: Edge(u, v) in edges && Walk(edges, k - 1, u)
  }

  lemma {:induction false} PathIsWalk(edges: seq<Edge>, p: seq<nat>)
    requires IsPath(edges, p)
    ensures Walk(edges, |p| - 1, p[|p| - 1])
  {
    if |p| > 1 {
      PathIsWalk(edges, p[..|p| - 1]);
      assert Edge(p[|p| - 2], p[|p| - 1]) in edges;
    }
  }

  lemma {:induction false} WalkHasPath(edges: seq<Edge>, k: nat, v: nat) returns (p: seq<nat>)
    requires Walk(edges, k, v)
    ensures IsPath(edges, p) && p[|p| - 1] == v && |p| == k + 1
  {
    if k == 0 {
      p := [v];
    } else {
      var u :| Edge(u, v) in edges && Walk(edges, k - 1, u);
      var q := WalkHasPath(edges, k - 1, u);
      p := q + [v];
    }
  }

  lemma {:induction false} DistinctFit(p: seq<nat>, s: set<nat>)
    requires forall i :: 0 <= i < |p| ==> p[i] in s
    requires forall i, j :: 0 <= i < j < |p| ==> p[i] != p[j]
    ensures |p| <= |s|
  {
    if p != [] {
      var last := p[|p| - 1];
      DistinctFit(p[..|p| - 1], s - {last});
    }
  }

  predicate Within(edges: seq<Edge>, nodes: set<nat>) {
    forall e :: e in edges ==> e.source in nodes && e.target in nodes
  }

  /** Without cycles a walk visits no node twice, so it is short. */
  lemma AcyclicWalksAreShort(edges: seq<Edge>, nodes: set<nat>, k: nat, v: nat)
    requires Acyclic(edges) && Within(edges, nodes) && v in nodes && Walk(edges, k, v)
    ensures k < |nodes|
  {
    var p := WalkHasPath(edges, k, v);
    forall i | 0 <= i < |p| ensures p[i] in nodes {
      if i < |p| - 1 {
        assert Edge(p[i], p[i + 1]) in edges;
      }
    }
    forall i, j | 0 <= i < j < |p| ensures p[i] != p[j] {
      var q := p[i..j + 1];
      assert IsPath(edges, q) by {
        forall m | 0 <= m < |q| - 1 ensures Edge(q[m], q[m + 1]) in edges {
          assert Edge(p[i + m], p[i + m + 1]) in edges;
        }
      }
    }
    DistinctFit(p, nodes);
  }

  /** Around a cycle walks never end. */
  lemma {:induction false} CycleWalks(edges: seq<Edge>, p: seq<nat>, k: nat, i: nat)
    requires IsPath(edges, p) && |p| > 1 && p[0] == p[|p| - 1] && i < |p|
    ensures Walk(edges, k, p[i])
    decreases k
  {
    if k > 0 {
      var before := if i > 0 then i - 1 else |p| - 2;
      CycleWalks(edges, p, k - 1, before);
      assert Edge(p[before], p[before + 1]) in edges;
    }
  }

  lemma CycleHasNode(edges: seq<Edge>, nodes: set<nat>, k: nat) returns (v: nat)
    requires !Acyclic(edges) && Within(edges, nodes)
    ensures v in nodes && Walk(edges, k, v)
  {
    var p :| IsPath(edges, p) && |p| > 1 && p[0] == p[|p| - 1];
    assert Edge(p[0], p[1]) in edges;
    v := p[0];
    CycleWalks(edges, p, k, 0);
  }

  // --------------------------------------------------------------- relaxation

  /** Every walk of at most `k` edges is already reflected in the depths. */
  ghost predicate Covers(edges: seq<Edge>, depth: map<nat, nat>, k: nat) {
    forall j, v :: 0 <= j <= k && v in depth && Walk(edges, j, v) ==> j <= depth[v]
  }

  ghost predicate FixedPoint(edges: seq<Edge>, depth: map<nat, nat>) {
    forall e :: e in edges && e.source in depth && e.target in depth ==> depth[e.source] < depth[e.target]
  }

  ghost predicate Witnessed(edges: seq<Edge>, depth: map<nat, nat>) {
    forall v :: v in depth ==> Walk(edges, depth[v], v)
  }

  lemma {:induction false} FixedPointCoversAll(edges: seq<Edge>, depth: map<nat, nat>, k: nat, v: nat)
    requires Within(edges, depth.Keys) && FixedPoint(edges, depth) && v in depth && Walk(edges, k, v)
    ensures k <= depth[v]
    decreases k
  {
    if k > 0 {
      var u :| Edge(u, v) in edges && Walk(edges, k - 1, u);
      FixedPointCoversAll(edges, depth, k - 1, u);
    }
  }

  /** What the relaxation leaves behind: depths that walks justify, and either
      a fixed point or every walk as long as the pass bound accounted for. */
  ghost predicate Relaxed(edges: seq<Edge>, depth: map<nat, nat>, passes: nat) {
    Witnessed(edges, depth) && (FixedPoint(edges, depth) || Covers(edges, depth, passes))
  }

  /** The first `j` edges have carried every walk of `k` edges one step on. */
  ghost predicate Carried(edges: seq<Edge>, depth: map<nat, nat>, k: nat, j: nat)
    requires j <= |edges|
  {
    forall i :: 0 <= i < j && edges[i].target in depth && Walk(edges, k, edges[i].source) ==>
      k + 1 <= depth[edges[i].target]
  }

  lemma CarriedExtends(edges: seq<Edge>, depth: map<nat, nat>, k: nat)
    requires Covers(edges, depth, k) && Carried(edges, depth, k, |edges|)
    ensures Covers(edges, depth, k + 1)
  {
    forall j, v | 0 <= j <= k + 1 && v in depth && Walk(edges, j, v) ensures j <= depth[v] {
      if j == k + 1 {
        var u :| Edge(u, v) in edges && Walk(edges, k, u);
        var i :| 0 <= i < |edges| && edges[i] == Edge(u, v);
      }
    }
  }

  predicate Raised(before: map<nat, nat>, after: map<nat, nat>) {
    before.Keys == after.Keys && forall v :: v in before ==> before[v] <= after[v]
  }

  /** One edge of a pass, whether or not it moves its target. */
  lemma EdgeStep(edges: seq<Edge>, before: map<nat, nat>, after: map<nat, nat>, k: nat, j: nat)
    requires Within(edges, before.Keys) && j < |edges| && edges[j] in edges
    requires Witnessed(edges, before) && Covers(edges, before, k) && Carried(edges, before, k, j)
    requires var (s, t) := (edges[j].source, edges[j].target);
             after == if before[t] < before[s] + 1 then before[t := before[s] + 1] else before
    ensures Raised(before, after)
    ensures Witnessed(edges, after) && Covers(edges, after, k) && Carried(edges, after, k, j + 1)
  {
    var (s, t) := (edges[j].source, edges[j].target);
    assert edges[j] == Edge(s, t);
    assert Walk(edges, before[s] + 1, t);
    hide Walk;
    RaisedCovers(edges, before, after, k);
    RaisedCarries(edges, before, after, k, j);
    hide Covers, Carried;
  }

  lemma RaisedCovers(edges: seq<Edge>, before: map<nat, nat>, after: map<nat, nat>, k: nat)
    requires Covers(edges, before, k) && Raised(before, after)
    ensures Covers(edges, after, k)
  {
    hide Walk;
  }

  lemma RaisedCarries(edges: seq<Edge>, before: map<nat, nat>, after: map<nat, nat>, k: nat, j: nat)
    requires j < |edges| && Carried(edges, before, k, j) && Raised(before, after) && Covers(edges, before, k)
    requires edges[j].source in before && edges[j].target in after
        && before[edges[j].source] + 1 <= after[edges[j].target]
    ensures Carried(edges, after, k, j + 1)
  {
    hide Walk;
  }

  lemma RaisedTransitive(a: map<nat, nat>, b: map<nat, nat>, c: map<nat, nat>)
    requires Raised(a, b) && Raised(b, c)
    ensures Raised(a, c)
  {
  }

  method RelaxPass(edges: seq<Edge>, before: map<nat, nat>, ghost k: nat) returns (depth: map<nat, nat>, moved: bool)
    requires Within(edges, before.Keys) && Witnessed(edges, before) && Covers(edges, before, k)
    ensures Raised(before, depth) && Witnessed(edges, depth) && Covers(edges, depth, k + 1)
    ensures !moved ==> FixedPoint(edges, depth)
  {
    hide Witnessed, Covers, Carried;
    depth, moved := before, false;
    assert Carried(edges, depth, k, 0) by { NothingCarried(edges, depth, k); }
    for j := 0 to |edges|
      invariant Raised(before, depth)
      invariant Witnessed(edges, depth)
      invariant Covers(edges, depth, k) && Carried(edges, depth, k, j)
      invariant !moved ==> forall i :: 0 <= i < j ==> depth[edges[i].source] < depth[edges[i].target]
    {
      var edge := edges[j];
      assert edge in edges;
      ghost var was := depth;
      var source := depth[edge.source];
      var target := depth[edge.target];
      if target < source + 1 {
        depth := depth[edge.target := source + 1];
        moved := true;
      }
      EdgeStep(edges, was, depth, k, j);
      RaisedTransitive(before, was, depth);
    }
    CarriedExtends(edges, depth, k);
  }

  lemma NothingCarried(edges: seq<Edge>, depth: map<nat, nat>, k: nat)
    ensures Carried(edges, depth, k, 0)
  {
  }

  method Relax(order: seq<Service>, edges: seq<Edge>) returns (depth: map<nat, nat>)
    requires Within(edges, ServiceIds(order))
    ensures depth.Keys == ServiceIds(order)
    ensures Relaxed(edges, depth, |order|)
  {
    depth := map[];
    for i := 0 to |order|
      invariant depth.Keys == ServiceIds(order[..i])
      invariant forall v :: v in depth ==> depth[v] == 0
    {
      assert order[..i + 1] == order[..i] + [order[i]];
      depth := depth[order[i].id := 0];
    }
    assert order[..|order|] == order;

    for pass := 0 to |order|
      invariant depth.Keys == ServiceIds(order)
      invariant Witnessed(edges, depth)
      invariant Covers(edges, depth, pass)
    {
      var moved;
      depth, moved := RelaxPass(edges, depth, pass);
      if !moved {
        break;
      }
    }
  }

  // ------------------------------------------------- what the layering means

  lemma RelaxedAcyclic(edges: seq<Edge>, depth: map<nat, nat>, passes: nat)
    requires Within(edges, depth.Keys) && Acyclic(edges)
    requires Relaxed(edges, depth, passes) && |depth.Keys| <= passes
    ensures FixedPoint(edges, depth)
    ensures forall v :: v in depth ==> IsLongest(edges, v, depth[v])
  {
    forall v, k | v in depth && Walk(edges, k, v) ensures k <= depth[v] {
      AcyclicWalksAreShort(edges, depth.Keys, k, v);
      if FixedPoint(edges, depth) {
        FixedPointCoversAll(edges, depth, k, v);
      }
    }
    forall e | e in edges ensures depth[e.source] < depth[e.target] {
      assert Edge(e.source, e.target) in edges;
      assert Walk(edges, depth[e.source] + 1, e.target);
    }
    forall v | v in depth ensures IsLongest(edges, v, depth[v]) {
      var p := WalkHasPath(edges, depth[v], v);
      forall q | IsPath(edges, q) && q[|q| - 1] == v ensures |q| <= depth[v] + 1 {
        PathIsWalk(edges, q);
      }
    }
  }

  lemma RelaxedCyclic(edges: seq<Edge>, depth: map<nat, nat>, passes: nat) returns (v: nat)
    requires Within(edges, depth.Keys) && !Acyclic(edges)
    requires Relaxed(edges, depth, passes)
    ensures v in depth && passes <= depth[v]
  {
    v := CycleHasNode(edges, depth.Keys, passes);
    if FixedPoint(edges, depth) {
      FixedPointCoversAll(edges, depth, passes, v);
    }
  }

  /** In an acyclic graph no depth is skipped. */
  lemma {:induction false} DepthsContiguous(edges: seq<Edge>, depth: map<nat, nat>, v: nat, c: nat)
    requires Within(edges, depth.Keys) && FixedPoint(edges, depth)
    requires forall u :: u in depth ==> IsLongest(edges, u, depth[u])
    requires v in depth && c <= depth[v]
    ensures exists u :: u in depth && depth[u] == c
    decreases depth[v]
  {
    if c < depth[v] {
      var p :| IsPath(edges, p) && p[|p| - 1] == v && |p| == depth[v] + 1;
      var q := p[..|p| - 1];
      var u := q[|q| - 1];
      assert Edge(u, v) in edges;
      assert IsPath(edges, q);
      assert depth[u] == depth[v] - 1;
      DepthsContiguous(edges, depth, u, c);
    }
  }

  // ------------------------------------------------------------------ columns

  /** The items assigned to columns in `chosen`, in order. */
  function Pick(items: seq<Service>, column: seq<nat>, chosen: set<nat>): seq<Service>
    requires |column| == |items|
  {
    if items == [] then [] else
      var n := |items| - 1;
      Pick(items[..n], column[..n], chosen) + (if column[n] in chosen then [items[n]] else [])
  }

  /** `columns` holds exactly the items of each used column, in order. */
  predicate Buckets(items: seq<Service>, column: seq<nat>, columns: map<nat, seq<Service>>)
    requires |column| == |items|
  {
    columns.Keys == Elements(column) && forall c :: c in columns ==> columns[c] == Pick(items, column, {c})
  }

  method FillColumns(items: seq<Service>, column: seq<nat>) returns (columns: map<nat, seq<Service>>)
    requires |column| == |items|
    ensures Buckets(items, column, columns)
  {
    columns := map[];
    for i := 0 to |items|
      invariant Buckets(items[..i], column[..i], columns)
    {
      var c := column[i];
      PickUnused(items[..i], column[..i], c);
      assert items[..i + 1][..i] == items[..i] && column[..i + 1][..i] == column[..i];
      var bucket := if c in columns then columns[c] else [];
      columns := columns[c := bucket + [items[i]]];
    }
    assert items[..|items|] == items && column[..|items|] == column;
  }

  lemma {:induction false} PickUnused(items: seq<Service>, column: seq<nat>, c: nat)
    requires |column| == |items|
    ensures Pick(items, column, {c}) == [] <==> c !in column
  {
    if items != [] {
      var n := |items| - 1;
      PickUnused(items[..n], column[..n], c);
      assert column == column[..n] + [column[n]];
    }
  }

  lemma {:induction false} PickSplits(items: seq<Service>, column: seq<nat>, chosen: set<nat>, c: nat)
    requires |column| == |items| && c !in chosen
    ensures multiset(Pick(items, column, chosen + {c}))
         == multiset(Pick(items, column, chosen)) + multiset(Pick(items, column, {c}))
  {
    if items != [] {
      var n := |items| - 1;
      PickSplits(items[..n], column[..n], chosen, c);
    }
  }

  lemma {:induction false} PickEverything(items: seq<Service>, column: seq<nat>)
    requires |column| == |items|
    ensures Pick(items, column, Elements(column)) == items
  {
    PickSuperset(items, column, Elements(column));
  }

  lemma {:induction false} PickSuperset(items: seq<Service>, column: seq<nat>, chosen: set<nat>)
    requires |column| == |items| && forall c :: c in column ==> c in chosen
    ensures Pick(items, column, chosen) == items
  {
    if items != [] {
      var n := |items| - 1;
      PickSuperset(items[..n], column[..n], chosen);
      assert items == items[..n] + [items[n]];
    }
  }

  lemma {:induction false} PickedFrom(items: seq<Service>, column: seq<nat>, c: nat, s: Service)
    requires |column| == |items| && s in Pick(items, column, {c})
    ensures exists i :: 0 <= i < |items| && items[i] == s && column[i] == c
  {
    var n := |items| - 1;
    if s in Pick(items[..n], column[..n], {c}) {
      PickedFrom(items[..n], column[..n], c, s);
      var i :| 0 <= i < n && items[..n][i] == s && column[..n][i] == c;
      assert items[i] == s && column[i] == c;
    }
  }

  // ---------------------------------------------------------------- placement

  function X(column: nat): int { PADDING + COLUMN_PITCH * column }
  function Y(row: nat): int { PADDING + ROW_PITCH * row }

  function PlaceColumn(column: nat, bucket: seq<Service>): seq<Placed> {
    seq(|bucket|, row requires 0 <= row < |bucket| => Placed(bucket[row], column, X(column), Y(row)))
  }

  function PlaceAll(keys: seq<nat>, columns: map<nat, seq<Service>>): seq<Placed>
    requires forall c :: c in keys ==> c in columns
  {
    if keys == [] then [] else
      var n := |keys| - 1;
      PlaceAll(keys[..n], columns) + PlaceColumn(keys[n], columns[keys[n]])
  }

  function ServicesOf(placed: seq<Placed>): seq<Service> {
    seq(|placed|, i requires 0 <= i < |placed| => placed[i].service)
  }

  /** The two boxes share no point. */
  predicate Disjoint(a: Placed, b: Placed) {
    || a.x + NODE_WIDTH < b.x || b.x + NODE_WIDTH < a.x
    || a.y + NODE_HEIGHT < b.y || b.y + NODE_HEIGHT < a.y
  }

  /** Within the box, with the margin on every side. */
  predicate Inside(p: Placed, width: int, height: int) {
    && PADDING <= p.x && p.x + NODE_WIDTH + PADDING <= width
    && PADDING <= p.y && p.y + NODE_HEIGHT + PADDING <= height
  }

  lemma ServicesOfColumn(column: nat, bucket: seq<Service>)
    ensures ServicesOf(PlaceColumn(column, bucket)) == bucket
  {
  }

  lemma ServicesOfConcat(a: seq<Placed>, b: seq<Placed>)
    ensures ServicesOf(a + b) == ServicesOf(a) + ServicesOf(b)
    ensures a == [] ==> ServicesOf(a) == []
  {
  }

  lemma {:induction false} PlacedServices(items: seq<Service>, column: seq<nat>, columns: map<nat, seq<Service>>,
          keys: seq<nat>)
    requires |column| == |items| && Buckets(items, column, columns)
    requires StrictlyAscending(keys) && forall c :: c in keys ==> c in columns
    ensures multiset(ServicesOf(PlaceAll(keys, columns))) == multiset(Pick(items, column, Elements(keys)))
  {
    hide ServicesOf, PlaceColumn, Pick;
    if keys == [] {
      PickNone(items, column);
      assert Elements(keys) == {};
      ServicesOfConcat([], []);
    } else {
      var n := |keys| - 1;
      var (front, c) := (keys[..n], keys[n]);
      PlacedServices(items, column, columns, front);
      PickSplits(items, column, Elements(front), c);
      assert Elements(keys) == Elements(front) + {c} by { assert keys == front + [c]; }
      ServicesOfConcat(PlaceAll(front, columns), PlaceColumn(c, columns[c]));
      ServicesOfColumn(c, columns[c]);
    }
  }

  lemma {:induction false} PickNone(items: seq<Service>, column: seq<nat>)
    requires |column| == |items|
    ensures Pick(items, column, {}) == []
  {
    if items != [] { PickNone(items[..|items| - 1], column[..|items| - 1]); }
  }

  predicate Cell(columns: map<nat, seq<Service>>, p: Placed, row: nat) {
    && p.column in columns && row < |columns[p.column]|
    && p == Placed(columns[p.column][row], p.column, X(p.column), Y(row))
  }

  lemma {:induction false} PlacedInCell(keys: seq<nat>, columns: map<nat, seq<Service>>, p: Placed) returns (row: nat)
    requires forall c :: c in keys ==> c in columns
    requires p in PlaceAll(keys, columns)
    ensures p.column in keys && Cell(columns, p, row)
  {
    var n := |keys| - 1;
    var last := PlaceColumn(keys[n], columns[keys[n]]);
    if p in last {
      row :| 0 <= row < |last| && last[row] == p;
    } else {
      row := PlacedInCell(keys[..n], columns, p);
    }
  }

  lemma {:induction false} CellIsPlaced(keys: seq<nat>, columns: map<nat, seq<Service>>, p: Placed, row: nat)
    requires forall c :: c in keys ==> c in columns
    requires p.column in keys && Cell(columns, p, row)
    ensures p in PlaceAll(keys, columns)
  {
    var n := |keys| - 1;
    if p.column == keys[n] {
      assert PlaceColumn(keys[n], columns[keys[n]])[row] == p;
    } else {
      assert keys == keys[..n] + [keys[n]];
      CellIsPlaced(keys[..n], columns, p, row);
    }
  }

  lemma CellsApart(a: Placed, b: Placed, row: nat, other: nat)
    requires a.x == X(a.column) && b.x == X(b.column) && a.y == Y(row) && b.y == Y(other)
    requires a.column < b.column || (a.column == b.column && row < other)
    ensures Disjoint(a, b)
  {
  }

  lemma {:induction false} PlacedDisjoint(keys: seq<nat>, columns: map<nat, seq<Service>>, i: nat, j: nat)
    requires StrictlyAscending(keys) && forall c :: c in keys ==> c in columns
    requires i < j < |PlaceAll(keys, columns)|
    ensures Disjoint(PlaceAll(keys, columns)[i], PlaceAll(keys, columns)[j])
  {
    hide Disjoint, X, Y;
    var n := |keys| - 1;
    var front := PlaceAll(keys[..n], columns);
    var placed := PlaceAll(keys, columns);
    if j < |front| {
      PlacedDisjoint(keys[..n], columns, i, j);
    } else if i < |front| {
      var row := PlacedInCell(keys[..n], columns, front[i]);
      assert front[i].column < keys[n];
      CellsApart(placed[i], placed[j], row, j - |front|);
    } else {
      CellsApart(placed[i], placed[j], i - |front|, j - |front|);
    }
  }

  function KeysOf(columns: map<nat, seq<Service>>): (keys: seq<nat>)
    ensures StrictlyAscending(keys)
    ensures forall c :: c in keys <==> c in columns
  {
    Ascending(columns.Keys)
  }

  method PlaceBucket(front: seq<Placed>, column: nat, bucket: seq<Service>) returns (placed: seq<Placed>)
    ensures placed == front + PlaceColumn(column, bucket)
  {
    placed := front;
    for row := 0 to |bucket|
      invariant placed == front + PlaceColumn(column, bucket)[..row]
    {
      placed := placed + [Placed(bucket[row], column, X(column), Y(row))];
    }
  }

  method Place(columns: map<nat, seq<Service>>) returns (placed: seq<Placed>)
    ensures placed == PlaceAll(KeysOf(columns), columns)
  {
    hide PlaceColumn, PlaceAll, KeysOf;
    var keys := KeysOf(columns);
    placed := [];
    PlaceAllStep(keys, columns, 0);
    for k := 0 to |keys|
      invariant placed == PlaceAll(keys[..k], columns)
    {
      PlaceAllStep(keys, columns, k);
      placed := PlaceBucket(placed, keys[k], columns[keys[k]]);
    }
    assert keys[..|keys|] == keys;
  }

  lemma PlaceAllStep(keys: seq<nat>, columns: map<nat, seq<Service>>, k: nat)
    requires k <= |keys| && forall c :: c in keys ==> c in columns
    ensures k == 0 ==> PlaceAll(keys[..k], columns) == []
    ensures k < |keys| ==>
      PlaceAll(keys[..k + 1], columns) == PlaceAll(keys[..k], columns) + PlaceColumn(keys[k], columns[keys[k]])
  {
    if k < |keys| {
      assert keys[..k + 1][..k] == keys[..k];
    }
  }

  method Tallest(columns: map<nat, seq<Service>>) returns (tallest: nat)
    ensures 1 <= tallest
    ensures forall c :: c in columns ==> |columns[c]| <= tallest
    ensures tallest == 1 || exists c :: c in columns && |columns[c]| == tallest
  {
    var keys := KeysOf(columns);
    hide KeysOf, StrictlyAscending;
    tallest := 1;
    ghost var column: Option<nat> := None;
    for k := 0 to |keys|
      invariant 1 <= tallest
      invariant match column case None => tallest == 1 case Some(c) => c in columns && |columns[c]| == tallest
      invariant forall i :: 0 <= i < k ==> |columns[keys[i]]| <= tallest
    {
      var bucket := columns[keys[k]];
      if tallest < |bucket| {
        tallest := |bucket|;
        column := Some(keys[k]);
      }
    }
  }

  // --------------------------------------------------------------- the layout

  function ColumnCount(columns: map<nat, seq<Service>>): nat {
    if |columns| > 1 then |columns| else 1
  }

  function Width(columns: map<nat, seq<Service>>): int {
    PADDING * 2 + (ColumnCount(columns) - 1) * COLUMN_PITCH + NODE_WIDTH
  }

  function Height(tallest: nat): int {
    PADDING * 2 + tallest * NODE_HEIGHT + (tallest - 1) * ROW_GAP
  }

  /** The used columns are 0, 1, .. without a gap. */
  predicate Contiguous(columns: map<nat, seq<Service>>) {
    forall c :: c in columns ==> forall b: nat :: b <= c ==> b in columns
  }

  lemma {:induction false} Initial(n: nat, s: set<nat>)
    requires forall c: nat :: c < n ==> c in s
    ensures n <= |s|
  {
    if n > 0 {
      Initial(n - 1, s - {n - 1});
    }
  }

  lemma ContiguousBound(columns: map<nat, seq<Service>>, c: nat)
    requires Contiguous(columns) && c in columns
    ensures c < |columns|
  {
    Initial(c + 1, columns.Keys);
    assert |columns| == |columns.Keys|;
  }

  lemma CellBounds(columns: map<nat, seq<Service>>, p: Placed, row: nat, tallest: nat)
    requires Cell(columns, p, row) && |columns[p.column]| <= tallest
    ensures PADDING <= p.y && p.y + NODE_HEIGHT + PADDING <= Height(tallest)
    ensures p.column < |columns| ==> Inside(p, Width(columns), Height(tallest))
    ensures |columns| <= p.column ==> !Inside(p, Width(columns), Height(tallest))
  {
    assert |columns| > 0;
  }

  lemma {:induction false} DistinctColumnsBound(column: seq<nat>)
    ensures |Elements(column)| <= |column|
  {
    if column != [] {
      var n := |column| - 1;
      DistinctColumnsBound(column[..n]);
      assert Elements(column) == Elements(column[..n]) + {column[n]} by { assert column == column[..n] + [column[n]]; }
    }
  }

  /** The column of each service in display order, before wrapping. */
  function Layers(order: seq<Service>, depth: map<nat, nat>): seq<nat>
    requires ServiceIds(order) <= depth.Keys
  {
    seq(|order|, i requires 0 <= i < |order| => depth[order[i].id])
  }

  function WrapColumns(count: nat): nat {
    if count <= 1 then 1 else if count < WRAP_COLUMNS then count else WRAP_COLUMNS
  }

  function WrapColumn(i: nat, count: nat): nat {
    i % WrapColumns(count)
  }

  /** Services without edges fill a grid. */
  function Wrapped(count: nat): seq<nat> {
    seq(count, i requires 0 <= i < count => WrapColumn(i, count))
  }

  /** Boxes reach the right and the bottom margin: the picture is no larger
      than it has to be. */
  predicate HugsBox(placed: seq<Placed>, width: int, height: int) {
    && (exists p :: p in placed && p.x + NODE_WIDTH + PADDING == width)
    && (exists p :: p in placed && p.y + NODE_HEIGHT + PADDING == height)
  }

  /** Boxes stand in columns 272 apart and rows 86 apart, from 16 on; columns
      are filled from the top, in order of name. */
  predicate InRows(placed: seq<Placed>) {
    && (forall p :: p in placed ==> p.x == 16 + 272 * p.column)
    && (forall p :: p in placed ==> p.y == 16 || exists q :: q in placed && q.x == p.x && q.y == p.y - 86)
    && (forall p, q ::
      p in placed && q in placed && p.column == q.column && p.y < q.y ==> p.service.name <= q.service.name)
  }

  /** What the picture promises: every service once, no two boxes overlapping,
      columns filled in order of name, and, exactly when no service reaches
      itself, everything inside a box that fits. */
  ghost predicate GoodPicture(services: seq<Service>, edges: seq<Edge>, placed: seq<Placed>, width: int, height: int) {
    && multiset(ServicesOf(placed)) == multiset(services)
    && (forall i, j :: 0 <= i < j < |placed| ==> Disjoint(placed[i], placed[j]))
    && InRows(placed)
    && ((forall p :: p in placed ==> Inside(p, width, height)) <==> Acyclic(edges))
    && (Acyclic(edges) && services != [] ==> HugsBox(placed, width, height))
  }

  function ByName(services: seq<Service>): seq<Service> {
    SortBy(services, NameLeq)
  }

  predicate NameLeq(a: Service, b: Service) {
    a.name <= b.name
  }

  /** Services without edges fill a grid of at most four columns row by row, in
      order of name. */
  ghost predicate GoodGrid(services: seq<Service>, placed: seq<Placed>) {
    var order := ByName(services);
    forall i :: 0 <= i < |order| ==> InCell(order[i], i, if |order| < 4 then |order| else 4, placed)
  }

  predicate InCell(service: Service, i: nat, w: nat, placed: seq<Placed>) {
    w > 0 && Placed(service, i % w, 16 + 272 * (i % w), 16 + 86 * (i / w)) in placed
  }

  function UsedColumns(placed: seq<Placed>): set<nat> {
    set p | p in placed :: p.column
  }

  /** The layers of an acyclic picture: each box in the column of the longest
      chain of calls that ends there, every column up to the last one used, and
      every call drawn from left to right. */
  ghost predicate GoodLayers(edges: seq<Edge>, placed: seq<Placed>) {
    && (forall p :: p in placed ==> IsLongest(edges, p.service.id, p.column))
    && (forall b: nat, c :: c in UsedColumns(placed) && b <= c ==> b in UsedColumns(placed))
    && (forall p, q ::
      p in placed && q in placed && Edge(p.service.id, q.service.id) in edges ==> p.x + NODE_WIDTH < q.x)
  }

  /** Placement of any column assignment: the common part of both layouts. */
  lemma EveryServicePlaced(items: seq<Service>, column: seq<nat>, columns: map<nat, seq<Service>>)
    requires |column| == |items| && Buckets(items, column, columns)
    ensures multiset(ServicesOf(PlaceAll(KeysOf(columns), columns))) == multiset(items)
  {
    hide PlaceAll, Pick, ServicesOf, KeysOf;
    PlacedServices(items, column, columns, KeysOf(columns));
    assert Elements(KeysOf(columns)) == Elements(column);
    PickEverything(items, column);
  }

  lemma NoOverlap(columns: map<nat, seq<Service>>)
    ensures var placed := PlaceAll(KeysOf(columns), columns);
            forall i, j :: 0 <= i < j < |placed| ==> Disjoint(placed[i], placed[j])
  {
    hide Disjoint, PlaceAll, KeysOf;
    var placed := PlaceAll(KeysOf(columns), columns);
    forall i, j | 0 <= i < j < |placed| ensures Disjoint(placed[i], placed[j]) {
      PlacedDisjoint(KeysOf(columns), columns, i, j);
    }
  }

  lemma ColumnsAreUsed(items: seq<Service>, column: seq<nat>, columns: map<nat, seq<Service>>)
    requires |column| == |items| && Buckets(items, column, columns)
    ensures UsedColumns(PlaceAll(KeysOf(columns), columns)) == columns.Keys
  {
    hide PlaceAll, Pick, KeysOf;
    var placed := PlaceAll(KeysOf(columns), columns);
    forall p | p in placed ensures p.column in columns {
      var row := PlacedInCell(KeysOf(columns), columns, p);
    }
    forall c | c in columns ensures c in UsedColumns(placed) {
      PickUnused(items, column, c);
      var p := Placed(columns[c][0], c, X(c), Y(0));
      CellIsPlaced(KeysOf(columns), columns, p, 0);
      assert p in placed;
    }
  }

  lemma CellDecidesBounds(columns: map<nat, seq<Service>>, p: Placed, tallest: nat)
    requires p in PlaceAll(KeysOf(columns), columns)
    requires forall c :: c in columns ==> |columns[c]| <= tallest
    ensures Inside(p, Width(columns), Height(tallest)) <==> p.column < |columns|
  {
    hide PlaceAll, KeysOf;
    var row := PlacedInCell(KeysOf(columns), columns, p);
    CellBounds(columns, p, row, tallest);
  }

  lemma BoundsFollowColumns(columns: map<nat, seq<Service>>, placed: seq<Placed>, tallest: nat)
    requires placed == PlaceAll(KeysOf(columns), columns) && UsedColumns(placed) == columns.Keys
    requires forall c :: c in columns ==> |columns[c]| <= tallest
    ensures Contiguous(columns) ==> forall p :: p in placed ==> Inside(p, Width(columns), Height(tallest))
    ensures (exists c :: c in columns && |columns| <= c) ==>
      exists p :: p in placed && !Inside(p, Width(columns), Height(tallest))
  {
    hide PlaceAll, KeysOf, Inside, Width, Height, Contiguous;
    forall p | p in placed ensures Inside(p, Width(columns), Height(tallest)) <==> p.column < |columns| {
      CellDecidesBounds(columns, p, tallest);
    }
    if Contiguous(columns) {
      forall p | p in placed ensures p.column < |columns| {
        assert p.column in UsedColumns(placed);
        ContiguousBound(columns, p.column);
      }
    }
    if c :| c in columns && |columns| <= c {
      assert c in UsedColumns(placed);
      var p :| p in placed && p.column == c;
    }
  }

  /** A layered picture leaves its box exactly on a cycle: a service on the
      cycle is pushed past every column that is counted. */
  lemma LayersDecideBounds(order: seq<Service>, edges: seq<Edge>, depth: map<nat, nat>, columns: map<nat, seq<Service>>)
    requires Within(edges, ServiceIds(order)) && depth.Keys == ServiceIds(order) && Relaxed(edges, depth, |order|)
    requires Buckets(order, Layers(order, depth), columns)
    ensures Acyclic(edges) ==> Contiguous(columns)
    ensures !Acyclic(edges) ==> exists c :: c in columns && |columns| <= c
  {
    hide Pick, IsLongest, Relaxed, Acyclic, Within;
    var column := Layers(order, depth);
    IdsBound(order);
    if Acyclic(edges) {
      RelaxedAcyclic(edges, depth, |order|);
      forall c, b: nat | c in columns && b <= c ensures b in columns {
        var i :| 0 <= i < |column| && column[i] == c;
        DepthsContiguous(edges, depth, order[i].id, b);
        var u :| u in depth && depth[u] == b;
        LayerUsed(order, depth, u);
      }
    } else {
      var v := RelaxedCyclic(edges, depth, |order|);
      LayerUsed(order, depth, v);
      DistinctColumnsBound(column);
      assert |columns| == |columns.Keys| <= |order|;
      assert depth[v] in columns;
    }
  }

  lemma LayerUsed(order: seq<Service>, depth: map<nat, nat>, v: nat)
    requires depth.Keys == ServiceIds(order) && v in depth
    ensures depth[v] in Layers(order, depth)
  {
    var s :| s in order && s.id == v;
    var i :| 0 <= i < |order| && order[i] == s;
    assert Layers(order, depth)[i] == depth[v];
  }

  lemma {:induction false} IdsBound(order: seq<Service>)
    ensures |ServiceIds(order)| <= |order|
  {
    if order != [] {
      var n := |order| - 1;
      IdsBound(order[..n]);
      assert ServiceIds(order) == ServiceIds(order[..n]) + {order[n].id} by { assert order == order[..n] + [order[n]]; }
    }
  }

  lemma LayersAreGood(order: seq<Service>, edges: seq<Edge>, depth: map<nat, nat>, columns: map<nat, seq<Service>>,
          placed: seq<Placed>)
    requires Within(edges, ServiceIds(order)) && depth.Keys == ServiceIds(order) && Relaxed(edges, depth, |order|)
    requires Buckets(order, Layers(order, depth), columns) && Acyclic(edges) && Contiguous(columns)
    requires placed == PlaceAll(KeysOf(columns), columns) && UsedColumns(placed) == columns.Keys
    ensures GoodLayers(edges, placed)
  {
    hide PlaceAll, IsLongest, Pick, KeysOf, Relaxed, Acyclic;
    IdsBound(order);
    RelaxedAcyclic(edges, depth, |order|);
    forall p | p in placed ensures p.service.id in depth && p.column == depth[p.service.id] && p.x == X(p.column) {
      PlacedAtDepth(order, depth, columns, p);
    }
  }

  lemma PlacedAtDepth(order: seq<Service>, depth: map<nat, nat>, columns: map<nat, seq<Service>>, p: Placed)
    requires depth.Keys == ServiceIds(order) && Buckets(order, Layers(order, depth), columns)
    requires p in PlaceAll(KeysOf(columns), columns)
    ensures p.service.id in depth && p.column == depth[p.service.id] && p.x == X(p.column)
  {
    hide PlaceAll, KeysOf, Pick;
    var row := PlacedInCell(KeysOf(columns), columns, p);
    PickedFrom(order, Layers(order, depth), p.column, p.service);
  }

  lemma WrappedContiguous(order: seq<Service>, columns: map<nat, seq<Service>>)
    requires Buckets(order, Wrapped(|order|), columns)
    ensures Contiguous(columns)
  {
    var count := |order|;
    var column := Wrapped(count);
    assert forall c :: c in columns <==> c in Elements(column);
    hide Pick, Buckets;
    forall c, b: nat | c in columns && b <= c ensures b in columns {
      var i :| 0 <= i < count && column[i] == c;
      WrapsBelow(i, count, b);
      assert column[b] == b;
    }
  }

  lemma WrapsBelow(i: nat, count: nat, b: nat)
    requires i < count && b <= WrapColumn(i, count)
    ensures b < count && WrapColumn(b, count) == b
  {
    assert b < WrapColumns(count);
  }

  lemma NoEdgesAcyclic()
    ensures Acyclic([])
  {
    forall p | IsPath([], p) ensures |p| <= 1 {
      PathIsWalk([], p);
    }
  }

  lemma {:induction false} PickKeepsOrder(items: seq<Service>, column: seq<nat>, c: nat)
    requires |column| == |items| && SortedBy(items, NameLeq)
    ensures SortedBy(Pick(items, column, {c}), NameLeq)
    ensures forall s :: s in Pick(items, column, {c}) ==> s in items
  {
    if items != [] {
      var n := |items| - 1;
      assert items == items[..n] + [items[n]];
      PickKeepsOrder(items[..n], column[..n], c);
      var front := Pick(items[..n], column[..n], {c});
      forall i | 0 <= i < |front| ensures NameLeq(front[i], items[n]) {
        assert front[i] in items[..n];
      }
    }
  }

  lemma RowPitch(row: nat)
    ensures row == 0 ==> Y(row) == PADDING
    ensures row > 0 ==> Y(row - 1) == Y(row) - NODE_HEIGHT - ROW_GAP
  {
  }

  lemma Pitch(column: nat, row: nat)
    ensures X(column) == 16 + 272 * column && Y(row) == 16 + 86 * row
  {
  }

  lemma RowsAscend(i: nat, j: nat)
    ensures Y(i) < Y(j) <==> i < j
  {
  }

  lemma FilledInRows(order: seq<Service>, column: seq<nat>, columns: map<nat, seq<Service>>)
    requires |column| == |order| && Buckets(order, column, columns) && SortedBy(order, NameLeq)
    ensures InRows(PlaceAll(KeysOf(columns), columns))
  {
    hide PlaceAll, KeysOf, Pick, SortedBy, X, Y;
    var placed := PlaceAll(KeysOf(columns), columns);
    forall p | p in placed
      ensures p.x == 16 + 272 * p.column
      ensures p.y == 16 || exists q :: q in placed && q.x == p.x && q.y == p.y - 86
    {
      var row := PlacedInCell(KeysOf(columns), columns, p);
      RowPitch(row);
      Pitch(p.column, row);
      if row > 0 {
        var q := Placed(columns[p.column][row - 1], p.column, X(p.column), Y(row - 1));
        CellIsPlaced(KeysOf(columns), columns, q, row - 1);
        assert q in placed;
      }
    }
    forall p, q | p in placed && q in placed && p.column == q.column && p.y < q.y
      ensures p.service.name <= q.service.name
    {
      var i := PlacedInCell(KeysOf(columns), columns, p);
      var j := PlacedInCell(KeysOf(columns), columns, q);
      RowsAscend(i, j);
      PickKeepsOrder(order, column, p.column);
      SortedAt(columns[p.column], i, j);
    }
  }

  lemma SortedAt(q: seq<Service>, i: nat, j: nat)
    requires SortedBy(q, NameLeq) && i < j < |q|
    ensures q[i].name <= q[j].name
  {
    assert NameLeq(q[i], q[j]);
  }

  lemma {:induction false} Below(s: set<nat>, k: nat)
    requires forall c :: c in s ==> c < k
    ensures |s| <= k
  {
    if k == 0 {
      assert s == {};
    } else {
      Below(s - {k - 1}, k - 1);
    }
  }

  /** Contiguous columns end at the last one counted. */
  lemma LastColumn(columns: map<nat, seq<Service>>)
    requires Contiguous(columns) && columns != map[]
    ensures |columns| >= 1 && |columns| - 1 in columns
  {
    assert columns.Keys != {};
    assert |columns| == |columns.Keys| > 0;
    forall c | c in columns ensures c < |columns| {
      ContiguousBound(columns, c);
    }
    if |columns| - 1 !in columns {
      Below(columns.Keys, |columns| - 1);
    }
  }

  lemma BoxFits(order: seq<Service>, column: seq<nat>, columns: map<nat, seq<Service>>, tallest: nat)
    requires |column| == |order| && Buckets(order, column, columns) && order != [] && Contiguous(columns)
    requires forall c :: c in columns ==> |columns[c]| <= tallest
    requires tallest >= 1 && (tallest == 1 || exists c :: c in columns && |columns[c]| == tallest)
    ensures HugsBox(PlaceAll(KeysOf(columns), columns), Width(columns), Height(tallest))
  {
    hide PlaceAll, KeysOf, Pick, Contiguous;
    assert column[0] in columns;
    LastColumn(columns);
    forall c | c in columns ensures columns[c] != [] {
      PickUnused(order, column, c);
    }
    var last := |columns| - 1;
    var p := Placed(columns[last][0], last, X(last), Y(0));
    CellIsPlaced(KeysOf(columns), columns, p, 0);
    assert exists c :: c in columns && |columns[c]| == tallest by {
      assert tallest == 1 ==> |columns[last]| == 1;
    }
    var c :| c in columns && |columns[c]| == tallest;
    var q := Placed(columns[c][tallest - 1], c, X(c), Y(tallest - 1));
    CellIsPlaced(KeysOf(columns), columns, q, tallest - 1);
    var placed := PlaceAll(KeysOf(columns), columns);
    assert p in placed && q in placed;
    assert p.x + NODE_WIDTH + PADDING == Width(columns);
    assert q.y + NODE_HEIGHT + PADDING == Height(tallest);
  }

  /** How many of the first `n` items wrap into column `c`. */
  function Filled(n: nat, c: nat, w: nat): nat
    requires 0 < w
  {
    if n == 0 then 0 else Filled(n - 1, c, w) + (if (n - 1) % w == c then 1 else 0)
  }

  lemma NextItem(n: nat, w: nat)
    requires 0 < w <= WRAP_COLUMNS
    ensures n % w + 1 < w ==> (n + 1) / w == n / w && (n + 1) % w == n % w + 1
    ensures n % w + 1 >= w ==> (n + 1) / w == n / w + 1 && (n + 1) % w == 0
  {
    if w == 1 {
    } else if w == 2 {
    } else if w == 3 {
    } else {
      assert w == 4;
    }
  }

  lemma {:induction false} FilledIs(n: nat, c: nat, w: nat)
    requires 0 < w <= WRAP_COLUMNS && c < w
    ensures Filled(n, c, w) == n / w + (if n % w > c then 1 else 0)
  {
    if n > 0 {
      FilledIs(n - 1, c, w);
      NextItem(n - 1, w);
    }
  }

  lemma FilledStep(n: nat, c: nat, w: nat)
    requires 0 < w <= WRAP_COLUMNS && c < w
    ensures Filled(n + 1, c, w) == Filled(n, c, w) + (if n % w == c then 1 else 0)
    ensures n % w == c ==> Filled(n, c, w) == n / w
  {
    FilledIs(n, c, w);
  }

  /** In a wrapped grid, item `i` is in row `i / w` of column `i % w`. */
  lemma {:induction false} WrappedRow(order: seq<Service>, count: nat, i: nat)
    requires i < |order| <= count
    ensures var (w, column) := (WrapColumns(count), Wrapped(count)[..|order|]);
      var picked := Pick(order, column, {i % w});
      |picked| == Filled(|order|, i % w, w) && i / w < |picked| && picked[i / w] == order[i]
  {
    var w := WrapColumns(count);
    var n := |order| - 1;
    FilledStep(n, i % w, w);
    FilledStep(i, i % w, w);
    hide Filled, WrapColumns;
    var column := Wrapped(count)[..|order|];
    assert column[..n] == Wrapped(count)[..n] && column[n] == n % w;
    if i < n {
      WrappedRow(order[..n], count, i);
    } else {
      PickCount(order[..n], count, i % w);
    }
  }

  lemma {:induction false} PickCount(order: seq<Service>, count: nat, c: nat)
    requires |order| <= count && c < WrapColumns(count)
    ensures |Pick(order, Wrapped(count)[..|order|], {c})| == Filled(|order|, c, WrapColumns(count))
  {
    if order != [] {
      var n := |order| - 1;
      FilledStep(n, c, WrapColumns(count));
      var column := Wrapped(count)[..|order|];
      assert column[..n] == Wrapped(count)[..n];
      PickCount(order[..n], count, c);
    }
  }

  lemma GridIsGood(services: seq<Service>, columns: map<nat, seq<Service>>)
    requires Buckets(ByName(services), Wrapped(|services|), columns) && |ByName(services)| == |services|
    ensures GoodGrid(services, PlaceAll(KeysOf(columns), columns))
  {
    hide Pick, PlaceAll, KeysOf, InCell, ByName, Buckets;
    var order := ByName(services);
    forall i | 0 <= i < |order|
      ensures InCell(order[i], i, if |order| < 4 then |order| else 4, PlaceAll(KeysOf(columns), columns))
    {
      InItsCell(order, columns, i);
    }
  }

  lemma InItsCell(order: seq<Service>, columns: map<nat, seq<Service>>, i: nat)
    requires Buckets(order, Wrapped(|order|), columns) && i < |order|
    ensures InCell(order[i], i, if |order| < 4 then |order| else 4, PlaceAll(KeysOf(columns), columns))
  {
    hide Pick, PlaceAll, KeysOf, X, Y, InCell, WrapColumns, Filled;
    var w := WrapColumns(|order|);
    WrapsAt(|order|);
    var c, r := RowAndColumn(order, columns, i, w);
    CellIsPlaced(KeysOf(columns), columns, Placed(order[i], c, X(c), Y(r)), r);
    CellIsIn(order[i], i, w, PlaceAll(KeysOf(columns), columns));
  }

  lemma RowAndColumn(order: seq<Service>, columns: map<nat, seq<Service>>, i: nat, w: nat) returns (c: nat, r: nat)
    requires Buckets(order, Wrapped(|order|), columns) && i < |order| && w == WrapColumns(|order|) > 0
    ensures c == i % w && r == i / w && c in columns && r < |columns[c]| && columns[c][r] == order[i]
  {
    hide Filled, WrapColumns, Pick, Buckets, Wrapped;
    c, r := i % w, i / w;
    WrappedRow(order, |order|, i);
    WrappedAt(|order|, i);
    InBucket(order, Wrapped(|order|), columns, i, c, r);
  }

  lemma WrappedAt(count: nat, i: nat)
    requires i < count && WrapColumns(count) > 0
    ensures |Wrapped(count)| == count && Wrapped(count)[i] == i % WrapColumns(count)
    ensures Wrapped(count)[..count] == Wrapped(count)
  {
    hide WrapColumns;
  }

  lemma InBucket(order: seq<Service>, column: seq<nat>, columns: map<nat, seq<Service>>, i: nat, c: nat, r: nat)
    requires |column| == |order| && i < |order| && column[i] == c && Buckets(order, column, columns)
    requires r < |Pick(order, column, {c})| && Pick(order, column, {c})[r] == order[i]
    ensures c in columns && r < |columns[c]| && columns[c][r] == order[i]
  {
    hide Pick;
    assert c in Elements(column);
  }

  lemma WrapsAt(count: nat)
    requires count > 0
    ensures WrapColumns(count) == if count < 4 then count else 4
  {
  }

  lemma CellIsIn(service: Service, i: nat, w: nat, placed: seq<Placed>)
    requires w > 0 && Placed(service, i % w, X(i % w), Y(i / w)) in placed
    ensures InCell(service, i, w, placed)
  {
    Pitch(i % w, i / w);
    hide X, Y;
  }

  /** Services without edges all start out in the first column. */
  lemma NoEdgesNoDepth(depth: map<nat, nat>, v: nat)
    requires Witnessed([], depth) && v in depth
    ensures depth[v] == 0
  {
    assert Walk([], depth[v], v);
  }

  lemma OneColumn(order: seq<Service>, depth: map<nat, nat>, columns: map<nat, seq<Service>>)
    requires depth.Keys == ServiceIds(order) && Relaxed([], depth, |order|) && order != []
    requires Buckets(order, Layers(order, depth), columns)
    ensures |columns| == 1
  {
    forall v | v in depth ensures depth[v] == 0 {
      NoEdgesNoDepth(depth, v);
    }
    var column := Layers(order, depth);
    assert column[0] == 0;
    assert columns.Keys == {0};
    assert |columns| == |columns.Keys|;
  }

  method Layout(services: seq<Service>, connections: seq<Edge>)
    returns (placed: seq<Placed>, width: int, height: int)
    ensures GoodPicture(services, Present(ServiceIds(services), connections), placed, width, height)
    ensures var edges := Present(ServiceIds(services), connections);
            edges != [] && Acyclic(edges) ==> GoodLayers(edges, placed)
    ensures Present(ServiceIds(services), connections) == [] && services != [] ==> GoodGrid(services, placed)
  {
    hide Pick, PlaceAll, KeysOf, Relaxed, Acyclic, Inside, Disjoint, ServicesOf, SortBy, Contiguous, UsedColumns,
         GoodLayers, GoodGrid, InRows, HugsBox, SortedBy;
    var edges := Present(ServiceIds(services), connections);
    var order := ByName(services);
    NameOrder(services);
    var depth := Relax(order, edges);
    ghost var column := Layers(order, depth);
    var columns := FillColumns(order, Layers(order, depth));
    LayersDecideBounds(order, edges, depth, columns);
    if edges == [] && services != [] {
      OneColumn(order, depth, columns);
    }
    if |columns| == 1 && |edges| == 0 {
      column := Wrapped(|order|);
      columns := FillColumns(order, Wrapped(|order|));
      WrappedContiguous(order, columns);
      NoEdgesAcyclic();
      GridIsGood(services, columns);
    }
    placed := Place(columns);
    EveryServicePlaced(order, column, columns);
    NoOverlap(columns);
    FilledInRows(order, column, columns);
    ColumnsAreUsed(order, column, columns);
    var tallest := Tallest(columns);
    width, height := Width(columns), Height(tallest);
    BoundsFollowColumns(columns, placed, tallest);
    if Acyclic(edges) && services != [] {
      BoxFits(order, column, columns, tallest);
    }
    if edges != [] && Acyclic(edges) {
      LayersAreGood(order, edges, depth, columns, placed);
    }
  }

  lemma NameOrder(services: seq<Service>)
    ensures SortedBy(ByName(services), NameLeq) && |ByName(services)| == |services|
    ensures multiset(ByName(services)) == multiset(services) && ServiceIds(ByName(services)) == ServiceIds(services)
  {
    assert TotalOrder(NameLeq);
    SortBySorts(services, NameLeq);
    SameMembers(ByName(services), services);
  }

  lemma MutualCallsAreCyclic(a: Service, b: Service)
    requires a.id != b.id
    ensures !Acyclic(Present(ServiceIds([a, b]), [Edge(a.id, b.id), Edge(b.id, a.id)]))
  {
    var (services, calls) := ([a, b], [Edge(a.id, b.id), Edge(b.id, a.id)]);
    assert services[0] in services && services[1] in services && calls[0] in calls && calls[1] in calls;
    var edges := Present(ServiceIds(services), calls);
    assert Edge(a.id, b.id) in edges && Edge(b.id, a.id) in edges;
    hide ServiceIds, Present;
    var loop := [a.id, b.id, a.id];
    assert IsPath(edges, loop) && loop[0] == loop[|loop| - 1];
  }

  /** Two services that call each other: the picture of them has a box that is
      not inside it. */
  lemma MutualCallsOverflow(a: Service, b: Service, placed: seq<Placed>, width: int, height: int)
    requires a.id != b.id
    requires var (services, calls) := ([a, b], [Edge(a.id, b.id), Edge(b.id, a.id)]);
      GoodPicture(services, Present(ServiceIds(services), calls), placed, width, height)
    ensures |placed| == 2 && exists p :: p in placed && !Inside(p, width, height)
  {
    hide Acyclic, Present, ServiceIds, Inside, Disjoint, InRows, HugsBox;
    MutualCallsAreCyclic(a, b);
    assert |ServicesOf(placed)| == |multiset(ServicesOf(placed))| == |multiset([a, b])| == 2;
  }
}
