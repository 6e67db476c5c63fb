/** Project roots: from a working directory to the nearest defensible root. */
module Projects {
  import opened Basics

  /** An absolute, canonical path by its components; `/` has none. */
  type Path = seq<string>

  datatype Marker =
    | Git
    | CargoWorkspace
    | CargoPackage
    | NodeWorkspace
    | NodePackage
    | PnpmWorkspace
    | PythonProject
    | ComposeFile

  datatype MarkerHit = MarkerHit(marker: Marker, file: string)

  datatype RootKind = GitRepository | Workspace | Package | ComposeStack

  datatype Evidence =
    | GitRoot(file: string)
    | WorkspaceRoot(file: string, marker: Marker)
    | ProjectManifest(file: string, marker: Marker)
    | ComposeEvidence(file: string)
    | CwdAncestry(cwd: Path, depth: nat)

  /** `confidence` in hundredths. */
  datatype ProjectMatch = ProjectMatch(
    root: Path,
    kind: RootKind,
    confidence: nat,
    evidence: seq<Evidence>,
    markers: seq<MarkerHit>)

  datatype NoProject = PathUnavailable(path: Path) | ExcludedRootOnly(path: Path) | NoMarkers(path: Path)

  datatype Resolved = Ok(project: ProjectMatch) | Err(reason: NoProject)

  datatype ResolverConfig = ResolverConfig(excludedRoots: set<Path>, excludedComponents: set<string>, maxDepth: nat)

  /** What a scan of each directory finds. */
  type Tree = map<Path, seq<MarkerHit>>

  predicate IsWorkspaceMarker(m: Marker) {
    m.CargoWorkspace? || m.NodeWorkspace? || m.PnpmWorkspace?
  }

  predicate IsPackageMarker(m: Marker) {
    m.CargoPackage? || m.NodePackage? || m.PythonProject?
  }

  predicate IsExcluded(config: ResolverConfig, dir: Path) {
    dir in config.excludedRoots || exists name :: name in dir && name in config.excludedComponents
  }

  function Scan(tree: Tree, dir: Path): seq<MarkerHit> {
    if dir in tree then tree[dir] else []
  }

  predicate Marks(kind: RootKind, m: Marker) {
    match kind
    case GitRepository => m.Git?
    case Workspace => IsWorkspaceMarker(m)
    case Package => IsPackageMarker(m)
    case ComposeStack => m.ComposeFile?
  }

  predicate Has(markers: seq<MarkerHit>, kind: RootKind) {
    exists h :: h in markers && Marks(kind, h.marker)
  }

  // ---------------------------------------------------------------- candidates

  datatype Candidate = Candidate(dir: Path, markers: seq<MarkerHit>, excluded: bool)

  function Parent(dir: Path): Path
    requires dir != []
  {
    dir[..|dir| - 1]
  }

  function CandidateAt(config: ResolverConfig, tree: Tree, dir: Path): seq<Candidate> {
    if IsExcluded(config, dir) then [Candidate(dir, [], true)]
    else if Scan(tree, dir) == [] then []
    else [Candidate(dir, Scan(tree, dir), false)]
  }

  /** The directory and its ancestors, nearest first, at most `depth` of them. */
  function Candidates(config: ResolverConfig, tree: Tree, dir: Path, depth: nat): seq<Candidate>
    decreases depth
  {
    if depth == 0 then []
    else CandidateAt(config, tree, dir) + (if dir == [] then [] else Candidates(config, tree, Parent(dir), depth - 1))
  }

  function Usable(candidates: seq<Candidate>): seq<Candidate> {
    if candidates == [] then []
    else (if candidates[0].excluded then [] else [candidates[0]]) + Usable(candidates[1..])
  }

  function FirstWith(candidates: seq<Candidate>, kind: RootKind): Option<Candidate> {
    if candidates == [] then None
    else if Has(candidates[0].markers, kind) then Some(candidates[0])
    else FirstWith(candidates[1..], kind)
  }

  function LastWith(candidates: seq<Candidate>, kind: RootKind): Option<Candidate> {
    if candidates == [] then None
    else
      var later := LastWith(candidates[1..], kind);
      if later.Some? then later else if Has(candidates[0].markers, kind) then Some(candidates[0]) else None
  }

  /** The root among the usable candidates: nearest repository, outermost
      workspace, nearest package, nearest compose file, in this order. */
  function SelectRoot(usable: seq<Candidate>): Option<(Candidate, RootKind)> {
    var git := FirstWith(usable, GitRepository);
    var workspace := LastWith(usable, Workspace);
    var package := FirstWith(usable, Package);
    var compose := FirstWith(usable, ComposeStack);
    if git.Some? then Some((git.value, GitRepository))
    else if workspace.Some? then Some((workspace.value, Workspace))
    else if package.Some? then Some((package.value, Package))
    else if compose.Some? then Some((compose.value, ComposeStack))
    else None
  }

  function EvidenceOf(h: MarkerHit): Evidence {
    if h.marker.Git? then GitRoot(h.file)
    else if h.marker.ComposeFile? then ComposeEvidence(h.file)
    else if IsWorkspaceMarker(h.marker) then WorkspaceRoot(h.file, h.marker)
    else ProjectManifest(h.file, h.marker)
  }

  function Confidence(markers: seq<MarkerHit>, kind: RootKind): nat {
    match kind
    case GitRepository => if exists h :: h in markers && !h.marker.Git? then 95 else 90
    case Workspace => 85
    case Package => 75
    case ComposeStack => 70
  }

  function BuildMatch(cwd: Path, candidate: Candidate, kind: RootKind): ProjectMatch {
    var depth := if candidate.dir <= cwd then |cwd| - |candidate.dir| else 0;
    ProjectMatch(candidate.dir, kind, Confidence(candidate.markers, kind),
                 seq(|candidate.markers|, i requires 0 <= i < |candidate.markers| => EvidenceOf(candidate.markers[i]))
                   + [CwdAncestry(cwd, depth)],
                 candidate.markers)
  }

  function ResolveUncached(config: ResolverConfig, tree: Tree, cwd: Path): Resolved {
    var candidates := Candidates(config, tree, cwd, config.maxDepth);
    var usable := Usable(candidates);
    if candidates == [] then Err(NoMarkers(cwd))
    else if usable == [] then Err(ExcludedRootOnly(candidates[0].dir))
    else
      var chosen := SelectRoot(usable);
      if chosen.None? then Err(NoMarkers(cwd)) else Ok(BuildMatch(cwd, chosen.value.0, chosen.value.1))
  }

  // ----------------------------------------------- what the selection means

  /** A directory that can be a root of this kind. */
  predicate IsRoot(config: ResolverConfig, tree: Tree, dir: Path, kind: RootKind) {
    !IsExcluded(config, dir) && Has(Scan(tree, dir), kind)
  }

  function CandidateOf(tree: Tree, dir: Path): Candidate {
    Candidate(dir, Scan(tree, dir), false)
  }

  /** The `n`-component ancestor is among the `depth` nearest. */
  predicate InReach(cwd: Path, depth: nat, n: int) {
    0 <= n <= |cwd| && |cwd| - n < depth
  }

  predicate RootAt(config: ResolverConfig, tree: Tree, cwd: Path, n: int, kind: RootKind) {
    0 <= n <= |cwd| && IsRoot(config, tree, cwd[..n], kind)
  }

  /** The nearest ancestor in reach that can be a root of this kind. */
  predicate NearestAt(config: ResolverConfig, tree: Tree, cwd: Path, depth: nat, kind: RootKind, n: int) {
    && InReach(cwd, depth, n) && RootAt(config, tree, cwd, n, kind)
    && forall m :: n < m <= |cwd| ==> !RootAt(config, tree, cwd, m, kind)
  }

  /** The outermost one. */
  predicate OutermostAt(config: ResolverConfig, tree: Tree, cwd: Path, depth: nat, kind: RootKind, n: int) {
    && InReach(cwd, depth, n) && RootAt(config, tree, cwd, n, kind)
    && forall m :: 0 <= m < n && InReach(cwd, depth, m) ==> !RootAt(config, tree, cwd, m, kind)
  }

  predicate NoneInReach(config: ResolverConfig, tree: Tree, cwd: Path, depth: nat, kind: RootKind) {
    forall n :: 0 <= n <= |cwd| && InReach(cwd, depth, n) ==> !RootAt(config, tree, cwd, n, kind)
  }

  ghost predicate NearestIs(config: ResolverConfig, tree: Tree, cwd: Path, depth: nat, kind: RootKind,
          found: Option<Candidate>)
  {
    match found
    case None => NoneInReach(config, tree, cwd, depth, kind)
    case Some(c) =>
      && c == CandidateOf(tree, c.dir) && |c.dir| <= |cwd| && c.dir == cwd[..|c.dir|]
      && NearestAt(config, tree, cwd, depth, kind, |c.dir|)
  }

  ghost predicate OutermostIs(config: ResolverConfig, tree: Tree, cwd: Path, depth: nat, kind: RootKind,
          found: Option<Candidate>)
  {
    match found
    case None => NoneInReach(config, tree, cwd, depth, kind)
    case Some(c) =>
      && c == CandidateOf(tree, c.dir) && |c.dir| <= |cwd| && c.dir == cwd[..|c.dir|]
      && OutermostAt(config, tree, cwd, depth, kind, |c.dir|)
  }

  lemma SameBelow(config: ResolverConfig, tree: Tree, cwd: Path, kind: RootKind)
    requires cwd != []
    ensures forall n :: n < |cwd| ==> RootAt(config, tree, Parent(cwd), n, kind) == RootAt(config, tree, cwd, n, kind)
    ensures RootAt(config, tree, cwd, |cwd|, kind) == IsRoot(config, tree, cwd, kind)
    ensures forall n, depth: nat ::
      depth > 0 && n < |cwd| ==> InReach(Parent(cwd), depth - 1, n) == InReach(cwd, depth, n)
  {
    assert forall n :: 0 <= n < |cwd| ==> Parent(cwd)[..n] == cwd[..n];
    assert cwd[..|cwd|] == cwd;
  }

  lemma {:induction false} FirstConcat(a: seq<Candidate>, b: seq<Candidate>, kind: RootKind)
    ensures Usable(a + b) == Usable(a) + Usable(b)
    ensures FirstWith(a + b, kind) == if FirstWith(a, kind).Some? then FirstWith(a, kind) else FirstWith(b, kind)
    ensures LastWith(a + b, kind) == if LastWith(b, kind).Some? then LastWith(b, kind) else LastWith(a, kind)
  {
    if a == [] {
      assert a + b == b;
    } else {
      assert (a + b)[1..] == a[1..] + b;
      FirstConcat(a[1..], b, kind);
    }
  }

  lemma OneCandidate(config: ResolverConfig, tree: Tree, dir: Path, kind: RootKind)
    ensures var here := Usable(CandidateAt(config, tree, dir));
      && FirstWith(here, kind) == (if IsRoot(config, tree, dir, kind) then Some(CandidateOf(tree, dir)) else None)
      && LastWith(here, kind) == FirstWith(here, kind)
  {
    var at := CandidateAt(config, tree, dir);
    if at != [] { assert at == [at[0]] && at[1..] == []; }
  }

  lemma {:induction false} CandidatesFound(config: ResolverConfig, tree: Tree, cwd: Path, depth: nat, kind: RootKind)
    ensures NearestIs(config, tree, cwd, depth, kind, FirstWith(Usable(Candidates(config, tree, cwd, depth)), kind))
    ensures OutermostIs(config, tree, cwd, depth, kind, LastWith(Usable(Candidates(config, tree, cwd, depth)), kind))
    decreases depth
  {
    hide *;
    NothingFound(kind);
    CandidatesStep(config, tree, cwd, depth);
    if depth == 0 {
      NoneWithoutDepth(config, tree, cwd, kind);
    } else {
      var here := CandidateAt(config, tree, cwd);
      var rest := if cwd == [] then [] else Candidates(config, tree, Parent(cwd), depth - 1);
      FirstConcat(here, rest, kind);
      FirstConcat(Usable(here), Usable(rest), kind);
      OneCandidate(config, tree, cwd, kind);
      if cwd == [] {
        TopFound(config, tree, depth, kind);
      } else {
        CandidatesFound(config, tree, Parent(cwd), depth - 1, kind);
        NearestStep(config, tree, cwd, depth, kind, FirstWith(Usable(rest), kind));
        OutermostStep(config, tree, cwd, depth, kind, LastWith(Usable(rest), kind));
      }
    }
  }

  lemma CandidatesStep(config: ResolverConfig, tree: Tree, cwd: Path, depth: nat)
    ensures depth == 0 ==> Candidates(config, tree, cwd, depth) == []
    ensures depth > 0 ==>
      Candidates(config, tree, cwd, depth) == CandidateAt(config, tree, cwd)
        + (if cwd == [] then [] else Candidates(config, tree, Parent(cwd), depth - 1))
  {
    hide CandidateAt;
  }

  lemma NoneWithoutDepth(config: ResolverConfig, tree: Tree, cwd: Path, kind: RootKind)
    ensures NearestIs(config, tree, cwd, 0, kind, None) && OutermostIs(config, tree, cwd, 0, kind, None)
    ensures NothingMarked(config, tree, cwd, 0)
  {
  }

  lemma NothingFound(kind: RootKind)
    ensures Usable([]) == [] && FirstWith([], kind) == None && LastWith([], kind) == None
  {
  }

  /** The root of the filesystem has no parent to look at. */
  lemma TopFound(config: ResolverConfig, tree: Tree, depth: nat, kind: RootKind)
    requires depth > 0
    ensures var found := if IsRoot(config, tree, [], kind) then Some(CandidateOf(tree, [])) else None;
      NearestIs(config, tree, [], depth, kind, found) && OutermostIs(config, tree, [], depth, kind, found)
  {
    hide IsRoot;
    assert forall n :: RootAt(config, tree, [], n, kind) <==> n == 0 && IsRoot(config, tree, [], kind) by {
      var top: Path := [];
      assert top[..0] == top;
    }
  }

  lemma NearestStep(config: ResolverConfig, tree: Tree, cwd: Path, depth: nat, kind: RootKind, found: Option<Candidate>)
    requires cwd != [] && depth > 0 && NearestIs(config, tree, Parent(cwd), depth - 1, kind, found)
    ensures NearestIs(config, tree, cwd, depth, kind,
        if IsRoot(config, tree, cwd, kind) then Some(CandidateOf(tree, cwd)) else found)
  {
    SameBelow(config, tree, cwd, kind);
    hide IsRoot;
    if !IsRoot(config, tree, cwd, kind) && found.Some? {
      assert Parent(cwd)[..|found.value.dir|] == cwd[..|found.value.dir|];
    }
  }

  lemma OutermostStep(config: ResolverConfig, tree: Tree, cwd: Path, depth: nat, kind: RootKind,
          found: Option<Candidate>)
    requires cwd != [] && depth > 0 && OutermostIs(config, tree, Parent(cwd), depth - 1, kind, found)
    ensures OutermostIs(config, tree, cwd, depth, kind,
                        if found.Some? then found
                          else if IsRoot(config, tree, cwd, kind) then Some(CandidateOf(tree, cwd)) else None)
  {
    SameBelow(config, tree, cwd, kind);
    hide IsRoot;
    if found.Some? {
      assert Parent(cwd)[..|found.value.dir|] == cwd[..|found.value.dir|];
    }
  }

  /** What resolution promises to choose: a repository before everything else,
      then the outermost workspace, the nearest package, a compose file. */
  predicate ChosenAt(config: ResolverConfig, tree: Tree, cwd: Path, depth: nat, n: int, kind: RootKind) {
    && (kind != GitRepository ==> NoneInReach(config, tree, cwd, depth, GitRepository))
    && (kind == Package || kind == ComposeStack ==> NoneInReach(config, tree, cwd, depth, Workspace))
    && (kind == ComposeStack ==> NoneInReach(config, tree, cwd, depth, Package))
    && (if kind == Workspace then OutermostAt(config, tree, cwd, depth, kind, n)
      else NearestAt(config, tree, cwd, depth, kind, n))
  }

  lemma EveryMarkerCounts(markers: seq<MarkerHit>)
    requires markers != []
    ensures Has(markers, GitRepository) || Has(markers, Workspace) || Has(markers, Package)
        || Has(markers, ComposeStack)
  {
    var h := markers[0];
    assert h in markers;
    assert Marks(GitRepository, h.marker) || Marks(Workspace, h.marker) || Marks(Package, h.marker)
      || Marks(ComposeStack, h.marker);
  }

  /** The ancestor is one that may be a project and holds a marker. */
  predicate MarkedAt(config: ResolverConfig, tree: Tree, cwd: Path, n: int) {
    0 <= n <= |cwd| && !IsExcluded(config, cwd[..n]) && Scan(tree, cwd[..n]) != []
  }

  predicate NothingMarked(config: ResolverConfig, tree: Tree, cwd: Path, depth: nat) {
    forall n :: 0 <= n <= |cwd| && InReach(cwd, depth, n) ==> !MarkedAt(config, tree, cwd, n)
  }

  lemma {:induction false} UsableHaveMarkers(config: ResolverConfig, tree: Tree, cwd: Path, depth: nat)
    ensures forall c :: c in Usable(Candidates(config, tree, cwd, depth)) ==> c.markers != []
    decreases depth
  {
    if depth > 0 {
      MarkedHere(config, tree, cwd);
      hide CandidateAt, Usable;
      var rest := if cwd == [] then [] else Candidates(config, tree, Parent(cwd), depth - 1);
      FirstConcat(CandidateAt(config, tree, cwd), rest, GitRepository);
      NothingFromNothing();
      if cwd != [] {
        UsableHaveMarkers(config, tree, Parent(cwd), depth - 1);
      }
    } else {
      NothingFromNothing();
    }
  }

  lemma NothingFromNothing()
    ensures Usable([]) == []
  {
  }

  lemma {:induction false} NothingUsable(config: ResolverConfig, tree: Tree, cwd: Path, depth: nat)
    ensures Usable(Candidates(config, tree, cwd, depth)) == [] <==> NothingMarked(config, tree, cwd, depth)
    decreases depth
  {
    hide *;
    NothingFromNothing();
    CandidatesStep(config, tree, cwd, depth);
    if depth == 0 {
      NoneWithoutDepth(config, tree, cwd, GitRepository);
    } else {
      MarkedHere(config, tree, cwd);
      var rest := if cwd == [] then [] else Candidates(config, tree, Parent(cwd), depth - 1);
      FirstConcat(CandidateAt(config, tree, cwd), rest, GitRepository);
      MarkedReach(config, tree, cwd, depth);
      if cwd != [] {
        NothingUsable(config, tree, Parent(cwd), depth - 1);
      }
    }
  }

  /** What is in reach: the directory itself, and what its parent reaches. */
  lemma MarkedReach(config: ResolverConfig, tree: Tree, cwd: Path, depth: nat)
    requires depth > 0
    ensures NothingMarked(config, tree, cwd, depth) <==>
      !MarkedAt(config, tree, cwd, |cwd|) && (cwd != [] ==> NothingMarked(config, tree, Parent(cwd), depth - 1))
  {
    hide IsExcluded, Scan, MarkedAt;
    if cwd != [] {
      MarkedBelow(config, tree, cwd);
      SameReach(cwd, depth, Parent(cwd), depth - 1);
      hide InReach;
    }
  }

  lemma SameReach(cwd: Path, depth: nat, parent: Path, less: nat)
    requires cwd != [] && parent == Parent(cwd) && depth == less + 1
    ensures forall n :: n < |cwd| ==> InReach(parent, less, n) == InReach(cwd, depth, n)
    ensures InReach(cwd, depth, |cwd|)
    ensures forall n :: InReach(parent, less, n) ==> n < |cwd|
  {
  }

  lemma MarkedHere(config: ResolverConfig, tree: Tree, cwd: Path)
    ensures Usable(CandidateAt(config, tree, cwd)) != [] <==> MarkedAt(config, tree, cwd, |cwd|)
    ensures forall c :: c in Usable(CandidateAt(config, tree, cwd)) ==> c.markers != []
  {
    assert cwd[..|cwd|] == cwd;
    var here := CandidateAt(config, tree, cwd);
    if here != [] { assert here == [here[0]] && here[1..] == []; }
  }

  lemma MarkedBelow(config: ResolverConfig, tree: Tree, cwd: Path)
    requires cwd != []
    ensures forall n :: n < |cwd| ==> MarkedAt(config, tree, Parent(cwd), n) == MarkedAt(config, tree, cwd, n)
  {
    assert forall n :: 0 <= n < |cwd| ==> Parent(cwd)[..n] == cwd[..n];
  }

  lemma {:induction false} FirstIsMember(candidates: seq<Candidate>, kind: RootKind)
    ensures FirstWith(candidates, kind).None? <==> forall c :: c in candidates ==> !Has(c.markers, kind)
    ensures LastWith(candidates, kind).None? <==> FirstWith(candidates, kind).None?
  {
    if candidates != [] {
      assert candidates == [candidates[0]] + candidates[1..];
      FirstIsMember(candidates[1..], kind);
    }
  }

  lemma SomethingIsSelected(usable: seq<Candidate>)
    requires usable != [] && forall c :: c in usable ==> c.markers != []
    ensures SelectRoot(usable).Some?
  {
    FirstIsMember(usable, GitRepository);
    FirstIsMember(usable, Workspace);
    FirstIsMember(usable, Package);
    FirstIsMember(usable, ComposeStack);
    assert usable[0] in usable;
    EveryMarkerCounts(usable[0].markers);
  }

  /** A usable candidate always leads to a root: resolution fails exactly when
      no directory in reach may be a project and holds a marker. */
  lemma ErrorsMeanNoRoot(config: ResolverConfig, tree: Tree, cwd: Path)
    ensures ResolveUncached(config, tree, cwd).Err? <==> NothingMarked(config, tree, cwd, config.maxDepth)
  {
    NothingUsable(config, tree, cwd, config.maxDepth);
    UsableHaveMarkers(config, tree, cwd, config.maxDepth);
    hide NothingMarked, Candidates, SelectRoot;
    var usable := Usable(Candidates(config, tree, cwd, config.maxDepth));
    if usable != [] {
      SomethingIsSelected(usable);
    }
  }

  predicate SameRoot(r: Resolved, root: Path, kind: RootKind) {
    r.Ok? && r.project.root == root && r.project.kind == kind
  }

  lemma SelectedIsChosen(config: ResolverConfig, tree: Tree, cwd: Path)
    ensures var r := ResolveUncached(config, tree, cwd);
      r.Ok? ==>
        var m := r.project;
        && |m.root| <= |cwd| && m.root == cwd[..|m.root|]
        && ChosenAt(config, tree, cwd, config.maxDepth, |m.root|, m.kind)
        && m == BuildMatch(cwd, CandidateOf(tree, m.root), m.kind)
  {
    CandidatesFound(config, tree, cwd, config.maxDepth, GitRepository);
    CandidatesFound(config, tree, cwd, config.maxDepth, Workspace);
    CandidatesFound(config, tree, cwd, config.maxDepth, Package);
    CandidatesFound(config, tree, cwd, config.maxDepth, ComposeStack);
    UsableHaveMarkers(config, tree, cwd, config.maxDepth);
    FirstIsMember(Usable(Candidates(config, tree, cwd, config.maxDepth)), Workspace);
    hide NoneInReach, NearestAt, OutermostAt, Candidates, Usable, FirstWith, LastWith;
  }

  lemma ChosenOnce(config: ResolverConfig, tree: Tree, cwd: Path, depth: nat, n: int, kind: RootKind, m: int,
          other: RootKind)
    requires ChosenAt(config, tree, cwd, depth, n, kind) && ChosenAt(config, tree, cwd, depth, m, other)
    ensures n == m && kind == other
  {
    hide RootAt;
  }

  lemma ChosenIsUsable(config: ResolverConfig, tree: Tree, cwd: Path, n: int, kind: RootKind)
    requires ChosenAt(config, tree, cwd, config.maxDepth, n, kind)
    ensures ResolveUncached(config, tree, cwd).Ok?
  {
    ErrorsMeanNoRoot(config, tree, cwd);
    assert InReach(cwd, config.maxDepth, n) && MarkedAt(config, tree, cwd, n);
  }

  /** Resolution finds exactly the root it promises. */
  lemma ResolvesToChosen(config: ResolverConfig, tree: Tree, cwd: Path, n: nat, kind: RootKind)
    requires n <= |cwd|
    ensures SameRoot(ResolveUncached(config, tree, cwd), cwd[..n], kind) <==>
      ChosenAt(config, tree, cwd, config.maxDepth, n, kind)
  {
    SelectedIsChosen(config, tree, cwd);
    hide ResolveUncached, BuildMatch, ChosenAt;
    var r := ResolveUncached(config, tree, cwd);
    if ChosenAt(config, tree, cwd, config.maxDepth, n, kind) {
      ChosenIsUsable(config, tree, cwd, n, kind);
      ChosenOnce(config, tree, cwd, config.maxDepth, n, kind, |r.project.root|, r.project.kind);
    }
  }

  // --------------------------------------------------------- answers in full

  /** A directory that can never be a project: listed itself, or somewhere below
      a directory with a listed name. */
  ghost predicate Forbidden(config: ResolverConfig, dir: Path) {
    dir in config.excludedRoots || exists i :: 0 <= i < |dir| && dir[i] in config.excludedComponents
  }

  /** The ancestor is looked at, and says something: it is forbidden or holds a
      marker. */
  ghost predicate SpeaksAt(config: ResolverConfig, tree: Tree, cwd: Path, depth: nat, n: int) {
    && 0 <= n <= |cwd| && |cwd| - n < depth
    && (Forbidden(config, cwd[..n]) || (cwd[..n] in tree && tree[cwd[..n]] != []))
  }

  ghost predicate SpeaksFirst(config: ResolverConfig, tree: Tree, cwd: Path, depth: nat, n: int) {
    SpeaksAt(config, tree, cwd, depth, n)
    && forall m :: SpeaksAt(config, tree, cwd, depth, m) ==> m <= n
  }

  lemma ExcludedIsForbidden(config: ResolverConfig, dir: Path)
    ensures IsExcluded(config, dir) <==> Forbidden(config, dir)
  {
    if name :| name in dir && name in config.excludedComponents {
      var i :| 0 <= i < |dir| && dir[i] == name;
      assert dir[i] in config.excludedComponents;
    }
  }

  lemma SpeaksBelow(config: ResolverConfig, tree: Tree, cwd: Path, depth: nat)
    requires cwd != [] && depth > 0
    ensures forall n :: n < |cwd| ==>
      SpeaksAt(config, tree, Parent(cwd), depth - 1, n) == SpeaksAt(config, tree, cwd, depth, n)
  {
    assert forall n :: 0 <= n < |cwd| ==> Parent(cwd)[..n] == cwd[..n];
  }

  lemma SpeaksHere(config: ResolverConfig, tree: Tree, cwd: Path, depth: nat)
    ensures SpeaksAt(config, tree, cwd, depth, |cwd|) <==>
      depth > 0 && (IsExcluded(config, cwd) || Scan(tree, cwd) != [])
    ensures forall n :: SpeaksAt(config, tree, cwd, depth, n) ==> 0 <= n <= |cwd| && depth > 0
  {
    assert cwd[..|cwd|] == cwd;
    ExcludedIsForbidden(config, cwd);
  }

  lemma {:induction false} FirstToSpeak(config: ResolverConfig, tree: Tree, cwd: Path, depth: nat)
    ensures var candidates := Candidates(config, tree, cwd, depth);
      && (candidates == [] <==> forall n :: !SpeaksAt(config, tree, cwd, depth, n))
      && (candidates != [] ==>
          && |candidates[0].dir| <= |cwd| && candidates[0].dir == cwd[..|candidates[0].dir|]
          && SpeaksFirst(config, tree, cwd, depth, |candidates[0].dir|))
    decreases depth
  {
    hide SpeaksAt, IsExcluded, Scan;
    SpeaksHere(config, tree, cwd, depth);
    assert cwd[..|cwd|] == cwd;
    if depth > 0 {
      var here := CandidateAt(config, tree, cwd);
      assert here != [] <==> SpeaksAt(config, tree, cwd, depth, |cwd|);
      if cwd == [] {
        assert Candidates(config, tree, cwd, depth) == here;
      } else {
        var above := Candidates(config, tree, Parent(cwd), depth - 1);
        SpeaksBelow(config, tree, cwd, depth);
        SpeaksHere(config, tree, Parent(cwd), depth - 1);
        FirstToSpeak(config, tree, Parent(cwd), depth - 1);
        if above != [] {
          assert Parent(cwd)[..|above[0].dir|] == cwd[..|above[0].dir|];
          assert SpeaksAt(config, tree, cwd, depth, |above[0].dir|);
        }
        assert forall n :: SpeaksAt(config, tree, cwd, depth, n) && n != |cwd| ==>
          SpeaksAt(config, tree, Parent(cwd), depth - 1, n);
      }
    }
  }

  /** Why nothing was found: a forbidden directory came nearest, or nothing in
      reach said anything at all. */
  lemma ErrorsExactly(config: ResolverConfig, tree: Tree, cwd: Path)
    requires NothingMarked(config, tree, cwd, config.maxDepth)
    ensures ResolveUncached(config, tree, cwd) == Err(NoMarkers(cwd)) <==>
      forall n :: 0 <= n <= |cwd| && |cwd| - n < config.maxDepth ==> !Forbidden(config, cwd[..n])
    ensures forall n :: 0 <= n <= |cwd| ==>
      (ResolveUncached(config, tree, cwd) == Err(ExcludedRootOnly(cwd[..n])) <==>
        && |cwd| - n < config.maxDepth && Forbidden(config, cwd[..n])
        && forall m :: n < m <= |cwd| ==> !Forbidden(config, cwd[..m]))
  {
    FirstToSpeak(config, tree, cwd, config.maxDepth);
    ErrorsMeanNoRoot(config, tree, cwd);
    NothingUsable(config, tree, cwd, config.maxDepth);
    OnlyForbiddenSpeaks(config, tree, cwd);
    hide NothingMarked, Candidates, Usable, SelectRoot, SpeaksAt, Forbidden;
  }

  lemma OnlyForbiddenSpeaks(config: ResolverConfig, tree: Tree, cwd: Path)
    requires NothingMarked(config, tree, cwd, config.maxDepth)
    ensures forall n :: SpeaksAt(config, tree, cwd, config.maxDepth, n) <==>
      0 <= n <= |cwd| && |cwd| - n < config.maxDepth && Forbidden(config, cwd[..n])
  {
    hide IsExcluded, Forbidden;
    forall n | 0 <= n <= |cwd| && |cwd| - n < config.maxDepth && !Forbidden(config, cwd[..n])
      ensures !(cwd[..n] in tree && tree[cwd[..n]] != [])
    {
      ExcludedIsForbidden(config, cwd[..n]);
      assert InReach(cwd, config.maxDepth, n) && !MarkedAt(config, tree, cwd, n);
    }
  }

  /** What one marker is evidence of. */
  predicate Evidences(e: Evidence, h: MarkerHit) {
    match h.marker
    case Git => e == GitRoot(h.file)
    case ComposeFile => e == ComposeEvidence(h.file)
    case CargoWorkspace => e == WorkspaceRoot(h.file, CargoWorkspace)
    case NodeWorkspace => e == WorkspaceRoot(h.file, NodeWorkspace)
    case PnpmWorkspace => e == WorkspaceRoot(h.file, PnpmWorkspace)
    case CargoPackage => e == ProjectManifest(h.file, CargoPackage)
    case NodePackage => e == ProjectManifest(h.file, NodePackage)
    case PythonProject => e == ProjectManifest(h.file, PythonProject)
  }

  /** A kind of root, the markers that make one, and how sure they make us. */
  predicate Vouched(kind: RootKind, confidence: nat, found: set<Marker>) {
    match kind
    case GitRepository => Git in found && confidence == if found == {Git} then 90 else 95
    case Workspace =>
      confidence == 85 && Git !in found
      && (CargoWorkspace in found || NodeWorkspace in found || PnpmWorkspace in found)
    case Package =>
      confidence == 75 && found !! {Git, CargoWorkspace, NodeWorkspace, PnpmWorkspace}
      && (CargoPackage in found || NodePackage in found || PythonProject in found)
    case ComposeStack => confidence == 70 && found == {ComposeFile}
  }

  /** Everything a match says: its root is an ancestor that may be a project,
      with the markers found there, a piece of evidence for each of them and the
      way down to the directory. */
  lemma MatchExactly(config: ResolverConfig, tree: Tree, cwd: Path)
    requires ResolveUncached(config, tree, cwd).Ok?
    ensures var m := ResolveUncached(config, tree, cwd).project;
      && |m.root| <= |cwd| && m.root == cwd[..|m.root|] && |cwd| - |m.root| < config.maxDepth
      && !Forbidden(config, m.root)
      && m.root in tree && m.markers == tree[m.root]
      && Vouched(m.kind, m.confidence, set h | h in m.markers :: h.marker)
      && |m.evidence| == |m.markers| + 1
      && (forall i :: 0 <= i < |m.markers| ==> Evidences(m.evidence[i], m.markers[i]))
      && m.evidence[|m.markers|] == CwdAncestry(cwd, |cwd| - |m.root|)
  {
    SelectedIsChosen(config, tree, cwd);
    var m := ResolveUncached(config, tree, cwd).project;
    hide ResolveUncached;
    ExcludedIsForbidden(config, m.root);
    ChosenIsRoot(config, tree, cwd, |m.root|, m.kind);
    hide IsExcluded, Forbidden, ChosenAt, NearestAt;
    assert m.root <= cwd;
    VouchedFor(m.markers, m.kind);
  }

  lemma ChosenIsRoot(config: ResolverConfig, tree: Tree, cwd: Path, n: int, kind: RootKind)
    requires ChosenAt(config, tree, cwd, config.maxDepth, n, kind)
    ensures InReach(cwd, config.maxDepth, n) && RootAt(config, tree, cwd, n, kind)
    ensures kind != GitRepository ==> !Has(Scan(tree, cwd[..n]), GitRepository)
    ensures kind == Package || kind == ComposeStack ==> !Has(Scan(tree, cwd[..n]), Workspace)
    ensures kind == ComposeStack ==> !Has(Scan(tree, cwd[..n]), Package)
  {
    hide Has, IsExcluded;
  }

  lemma VouchedFor(markers: seq<MarkerHit>, kind: RootKind)
    requires Has(markers, kind)
    requires kind != GitRepository ==> !Has(markers, GitRepository)
    requires kind == Package || kind == ComposeStack ==> !Has(markers, Workspace)
    requires kind == ComposeStack ==> !Has(markers, Package)
    ensures Vouched(kind, Confidence(markers, kind), set h | h in markers :: h.marker)
  {
    var found := set h | h in markers :: h.marker;
    assert forall h :: h in markers ==> h.marker in found;
    if found == {Git} {
      assert forall h :: h in markers ==> h.marker == Git;
    } else if Git in found {
      var other :| other in found && other != Git;
    }
  }

  // ---------------------------------------------------------------- stability

  lemma SameAbove(config: ResolverConfig, tree: Tree, cwd: Path, d: nat, kind: RootKind)
    requires d <= |cwd|
    ensures forall n :: n <= d ==> RootAt(config, tree, cwd[..d], n, kind) == RootAt(config, tree, cwd, n, kind)
  {
    assert forall n :: 0 <= n <= d ==> cwd[..d][..n] == cwd[..n];
  }

  lemma NoneBetween(config: ResolverConfig, tree: Tree, cwd: Path, depth: nat, n: nat, d: nat, kind: RootKind)
    requires n <= d <= |cwd| && InReach(cwd, depth, n)
    requires NoneInReach(config, tree, cwd, depth, kind) && NoneInReach(config, tree, cwd[..n], depth, kind)
    ensures NoneInReach(config, tree, cwd[..d], depth, kind)
  {
    SameAbove(config, tree, cwd, d, kind);
    SameAbove(config, tree, cwd, n, kind);
    hide IsRoot, RootAt;
  }

  lemma StableBetween(config: ResolverConfig, tree: Tree, cwd: Path, depth: nat, n: nat, d: nat, kind: RootKind)
    requires n <= d <= |cwd|
    requires ChosenAt(config, tree, cwd, depth, n, kind)
    requires kind == GitRepository || ChosenAt(config, tree, cwd[..n], depth, n, kind)
    ensures ChosenAt(config, tree, cwd[..d], depth, n, kind)
  {
    SameAbove(config, tree, cwd, d, kind);
    SameAbove(config, tree, cwd, n, kind);
    hide IsRoot, RootAt;
    if kind != GitRepository {
      NoneBetween(config, tree, cwd, depth, n, d, GitRepository);
    }
    if kind == Package || kind == ComposeStack {
      NoneBetween(config, tree, cwd, depth, n, d, Workspace);
    }
    if kind == ComposeStack {
      NoneBetween(config, tree, cwd, depth, n, d, Package);
    }
  }

  /** The `n`-component ancestor is seen from the root `r` but was too far from
      the working directory to be looked at. */
  predicate OutOfSight(cwd: Path, depth: nat, r: nat, n: int) {
    0 <= n < r <= |cwd| && !InReach(cwd, depth, n) && r - n < depth
  }

  /** Nothing that only the directories further up can see outranks a root of
      this kind: no repository or workspace, and above a compose file no
      package either. */
  predicate NothingOutranks(config: ResolverConfig, tree: Tree, cwd: Path, r: nat, kind: RootKind) {
    kind == GitRepository ||
    forall n :: 0 <= n < r && OutOfSight(cwd, config.maxDepth, r, n) ==>
      && !RootAt(config, tree, cwd, n, GitRepository)
      && !RootAt(config, tree, cwd, n, Workspace)
      && (kind == ComposeStack ==> !RootAt(config, tree, cwd, n, Package))
  }

  /** A root keeps being chosen when it is itself the working directory, exactly
      when nothing comes into sight there that outranks it. */
  lemma ChosenFromRoot(config: ResolverConfig, tree: Tree, cwd: Path, n: nat, kind: RootKind)
    requires n <= |cwd| && ChosenAt(config, tree, cwd, config.maxDepth, n, kind)
    ensures ChosenAt(config, tree, cwd[..n], config.maxDepth, n, kind) <==> NothingOutranks(config, tree, cwd, n, kind)
  {
    NoneFromRoot(config, tree, cwd, config.maxDepth, n, GitRepository);
    NoneFromRoot(config, tree, cwd, config.maxDepth, n, Workspace);
    NoneFromRoot(config, tree, cwd, config.maxDepth, n, Package);
    SameAbove(config, tree, cwd, n, kind);
    hide IsRoot, RootAt;
  }

  /** What a root sees of a kind: itself, what the working directory saw above
      it, and what was out of sight. */
  lemma NoneFromRoot(config: ResolverConfig, tree: Tree, cwd: Path, depth: nat, r: nat, kind: RootKind)
    requires r <= |cwd| && InReach(cwd, depth, r)
    ensures NoneInReach(config, tree, cwd[..r], depth, kind) <==>
      && (forall n :: 0 <= n <= r && InReach(cwd, depth, n) ==> !RootAt(config, tree, cwd, n, kind))
      && (forall n :: 0 <= n < r && OutOfSight(cwd, depth, r, n) ==> !RootAt(config, tree, cwd, n, kind))
    ensures OutermostAt(config, tree, cwd[..r], depth, kind, r) <==>
      && RootAt(config, tree, cwd, r, kind)
      && (forall n :: 0 <= n < r && InReach(cwd, depth, n) ==> !RootAt(config, tree, cwd, n, kind))
      && (forall n :: 0 <= n < r && OutOfSight(cwd, depth, r, n) ==> !RootAt(config, tree, cwd, n, kind))
  {
    SameAbove(config, tree, cwd, r, kind);
    hide IsRoot, RootAt;
    assert forall n ::
      0 <= n <= r ==> (InReach(cwd[..r], depth, n) <==> InReach(cwd, depth, n) || OutOfSight(cwd, depth, r, n));
  }

  /** Moving up from a working directory towards its root never changes the
      answer, exactly when nothing that comes into sight on the way outranks
      the root; so for every path no deeper than the search, and for every
      repository, it never does. */
  lemma ResolutionIsStable(config: ResolverConfig, tree: Tree, cwd: Path)
    requires ResolveUncached(config, tree, cwd).Ok?
    ensures var m := ResolveUncached(config, tree, cwd).project;
      && m.root <= cwd
      && ((forall d :: |m.root| <= d <= |cwd| ==> SameRoot(ResolveUncached(config, tree, cwd[..d]), m.root, m.kind))
          <==> NothingOutranks(config, tree, cwd, |m.root|, m.kind))
      && (|cwd| < config.maxDepth || m.kind == GitRepository ==> NothingOutranks(config, tree, cwd, |m.root|, m.kind))
  {
    var m := ResolveUncached(config, tree, cwd).project;
    SelectedIsChosen(config, tree, cwd);
    var n := |m.root|;
    assert |cwd| < config.maxDepth ==> forall i :: !OutOfSight(cwd, config.maxDepth, n, i);
    hide ResolveUncached, ChosenAt, SameRoot, BuildMatch, OutOfSight;
    assert m.root == cwd[..n] && m.root[..n] == m.root;
    ResolvesToChosen(config, tree, m.root, n, m.kind);
    ChosenFromRoot(config, tree, cwd, n, m.kind);
    hide NothingOutranks;
    if ChosenAt(config, tree, m.root, config.maxDepth, n, m.kind) {
      forall d | n <= d <= |cwd| ensures SameRoot(ResolveUncached(config, tree, cwd[..d]), m.root, m.kind) {
        StableBetween(config, tree, cwd, config.maxDepth, n, d, m.kind);
        assert cwd[..d][..n] == m.root;
        ResolvesToChosen(config, tree, cwd[..d], n, m.kind);
      }
    }
  }

  /** Evidence about the root alone, without the way from the working directory. */
  function RootEvidence(m: ProjectMatch): seq<Evidence> {
    if m.evidence == [] then [] else m.evidence[..|m.evidence| - 1]
  }

  predicate SameProject(a: ProjectMatch, b: ProjectMatch) {
    a.root == b.root && a.kind == b.kind && a.confidence == b.confidence && a.markers == b.markers
      && RootEvidence(a) == RootEvidence(b)
  }

  /** The kind a directory has as a root, by its own markers. */
  function OwnKind(markers: seq<MarkerHit>): RootKind {
    if Has(markers, GitRepository) then GitRepository
    else if Has(markers, Workspace) then Workspace
    else if Has(markers, Package) then Package
    else ComposeStack
  }

  lemma KindIsOwn(config: ResolverConfig, tree: Tree, cwd: Path, depth: nat, n: int, kind: RootKind)
    requires ChosenAt(config, tree, cwd, depth, n, kind)
    ensures 0 <= n <= |cwd| && kind == OwnKind(Scan(tree, cwd[..n]))
  {
    hide IsExcluded, Has, Scan;
    assert InReach(cwd, depth, n) && RootAt(config, tree, cwd, n, kind);
    if kind != GitRepository {
      assert !RootAt(config, tree, cwd, n, GitRepository);
    }
    if kind == Package || kind == ComposeStack {
      assert !RootAt(config, tree, cwd, n, Workspace);
    }
    if kind == ComposeStack {
      assert !RootAt(config, tree, cwd, n, Package);
    }
  }

  /** Two working directories with one root get one and the same project, at
      any depth: the root's own markers decide what it is. */
  lemma SameRootSameProject(config: ResolverConfig, tree: Tree, a: Path, b: Path)
    requires ResolveUncached(config, tree, a).Ok? && ResolveUncached(config, tree, b).Ok?
    requires ResolveUncached(config, tree, a).project.root == ResolveUncached(config, tree, b).project.root
    ensures SameProject(ResolveUncached(config, tree, a).project, ResolveUncached(config, tree, b).project)
  {
    SelectedIsChosen(config, tree, a);
    SelectedIsChosen(config, tree, b);
    var root := ResolveUncached(config, tree, a).project.root;
    KindIsOwn(config, tree, a, config.maxDepth, |root|, ResolveUncached(config, tree, a).project.kind);
    KindIsOwn(config, tree, b, config.maxDepth, |root|, ResolveUncached(config, tree, b).project.kind);
    hide ResolveUncached, ChosenAt, OwnKind;
  }

  /** Deeper than the search, the answer can change on the way up. */
  lemma DeepPathsCanWander() returns (config: ResolverConfig, tree: Tree, cwd: Path)
    ensures |cwd| == config.maxDepth == 2
    ensures SameRoot(ResolveUncached(config, tree, cwd), cwd[..1], Workspace)
    ensures SameRoot(ResolveUncached(config, tree, cwd[..1]), [], Workspace)
  {
    config, cwd := ResolverConfig({}, {}, 2), ["monorepo", "app"];
    var hits := [MarkerHit(CargoWorkspace, "Cargo.toml")];
    tree := map[["monorepo"] := hits, [] := hits];
    assert cwd[..0] == [] && cwd[..1] == ["monorepo"] && cwd[..2] == cwd && cwd[..1][..0] == []
      && cwd[..1][..1] == cwd[..1];
    assert MarkerHit(CargoWorkspace, "Cargo.toml") in hits && Marks(Workspace, CargoWorkspace);
    assert forall h :: h in hits ==> !Marks(GitRepository, h.marker);
    assert Has(hits, Workspace) && !Has(hits, GitRepository);
    assert Scan(tree, cwd) == [];
    ResolvesToChosen(config, tree, cwd, 1, Workspace);
    ResolvesToChosen(config, tree, cwd[..1], 0, Workspace);
  }
}
