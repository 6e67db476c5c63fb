/** Grouping: a batch of processes and containers becomes project memberships.
    No user overrides are configured. */
module Grouping {
  import opened Basics
  import opened Model
  import opened Sorting
  import opened Projects
  import opened Resolver

  const PARENT_INHERITANCE_CONFIDENCE := 60
  const COMPOSE_CONFIDENCE := 90

  /** What a project's identifier is derived from. */
  datatype ProjectKey = FromRoot(root: Path) | FromCompose(name: string)

  datatype GroupingInput = GroupingInput(
    pid: Pid,
    parentPid: Option<Pid>,
    cwd: Option<Path>,
    composeProject: Option<string>)

  datatype Reason =
    | ComposeProject(name: string)
    | WorkingDirectory(evidence: seq<Evidence>)
    | ParentProcess(parent: Pid)

  datatype Membership = Membership(pid: Pid, project: ProjectKey, confidence: nat, reason: Reason)

  datatype Project = Project(
    key: ProjectKey,
    kind: RootKind,
    confidence: nat,
    evidence: seq<Evidence>,
    firstSeen: Time,
    lastSeen: Time)

  datatype GroupingOutcome = GroupingOutcome(
    projects: map<ProjectKey, Project>,
    memberships: seq<Membership>,
    ungrouped: seq<Pid>)

  /** What the resolver answers to each input of a batch; an input whose
      directory has no project, or cannot be read, is missing. */
  type Answers = map<GroupingInput, ProjectMatch>

  // ------------------------------------------------------------ specification

  /** What an input shows on its own. */
  function Direct(answers: Answers, input: GroupingInput): Option<Membership> {
    if input.composeProject.Some? then
      Some(Membership(input.pid, FromCompose(input.composeProject.value), COMPOSE_CONFIDENCE,
        ComposeProject(input.composeProject.value)))
    else if input.cwd.Some? && input in answers then
      var m := answers[input];
      Some(Membership(input.pid, FromRoot(m.root), m.confidence, WorkingDirectory(m.evidence)))
    else None
  }

  /** The project an input makes known. */
  function ProjectOf(answers: Answers, input: GroupingInput, at: Time): Option<Project> {
    if input.composeProject.Some? then
      Some(Project(FromCompose(input.composeProject.value), ComposeStack, COMPOSE_CONFIDENCE, [], at, at))
    else if input.cwd.Some? && input in answers then
      var m := answers[input];
      Some(Project(FromRoot(m.root), m.kind, m.confidence, RootEvidence(m), at, at))
    else None
  }

  predicate DistinctPids(inputs: seq<GroupingInput>) {
    forall i, j :: 0 <= i < j < |inputs| ==> inputs[i].pid != inputs[j].pid
  }

  /** A directly grouped input, as the parent of another. */
  ghost predicate IsDirect(answers: Answers, inputs: seq<GroupingInput>, pid: Pid, project: ProjectKey) {
    exists p :: p in inputs && p.pid == pid && Direct(answers, p).Some? && Direct(answers, p).value.project == project
  }

  /** The membership of one input within its batch: its own, or the one of a
      parent that has its own. */
  ghost predicate Belongs(answers: Answers, inputs: seq<GroupingInput>, input: GroupingInput, m: Membership) {
    Direct(answers, input) == Some(m) ||
    (Direct(answers, input) == None && input.parentPid.Some?
      && IsDirect(answers, inputs, input.parentPid.value, m.project)
     && m == Membership(input.pid, m.project, PARENT_INHERITANCE_CONFIDENCE, ParentProcess(input.parentPid.value)))
  }

  ghost predicate HasNone(answers: Answers, inputs: seq<GroupingInput>, input: GroupingInput) {
    Direct(answers, input) == None
    && (input.parentPid.Some? ==> forall project :: !IsDirect(answers, inputs, input.parentPid.value, project))
  }

  predicate MembershipLeq(a: Membership, b: Membership) {
    a.pid <= b.pid
  }

  predicate ByPid(memberships: seq<Membership>) {
    forall i, j :: 0 <= i < j < |memberships| ==> memberships[i].pid < memberships[j].pid
  }

  /** The input makes a project known under this key. */
  predicate Makes(answers: Answers, i: GroupingInput, at: Time, key: ProjectKey) {
    ProjectOf(answers, i, at).Some? && ProjectOf(answers, i, at).value.key == key
  }

  ghost predicate MembersAre(memberships: seq<Membership>, answers: Answers, inputs: seq<GroupingInput>) {
    ByPid(memberships) && forall m :: m in memberships <==> exists i :: i in inputs && Belongs(answers, inputs, i, m)
  }

  ghost predicate UngroupedAre(ungrouped: seq<Pid>, answers: Answers, inputs: seq<GroupingInput>) {
    && StrictlyAscending(ungrouped)
    && forall pid :: pid in ungrouped <==> exists i :: i in inputs && i.pid == pid && HasNone(answers, inputs, i)
  }

  /** The project a batch makes under a key: the first input that makes one
      decides its kind, confidence and evidence. */
  function FirstMade(answers: Answers, inputs: seq<GroupingInput>, at: Time, key: ProjectKey): Option<Project> {
    if inputs == [] then None
    else if Makes(answers, inputs[0], at, key) then ProjectOf(answers, inputs[0], at)
    else FirstMade(answers, inputs[1..], at, key)
  }

  ghost predicate ProjectsAre(projects: map<ProjectKey, Project>, answers: Answers, inputs: seq<GroupingInput>,
          at: Time)
  {
    forall key :: Lookup(projects, key) == FirstMade(answers, inputs, at, key)
  }

  /** The outcome of a batch, completely determined. */
  ghost predicate Grouped(outcome: GroupingOutcome, answers: Answers, inputs: seq<GroupingInput>, at: Time) {
    && MembersAre(outcome.memberships, answers, inputs)
    && UngroupedAre(outcome.ungrouped, answers, inputs)
    && ProjectsAre(outcome.projects, answers, inputs, at)
  }

  // ------------------------------------------------------------- two passes

  function DirectMap(answers: Answers, inputs: seq<GroupingInput>): map<Pid, ProjectKey> {
    if inputs == [] then map[] else
      var n := |inputs| - 1;
      var m := Direct(answers, inputs[n]);
      if m.Some? then DirectMap(answers, inputs[..n])[inputs[n].pid := m.value.project]
        else DirectMap(answers, inputs[..n])
  }

  /** The membership an input shows on its own. */
  function Own(answers: Answers): GroupingInput -> Option<Membership> {
    input => Direct(answers, input)
  }

  function DirectMemberships(answers: Answers, inputs: seq<GroupingInput>): seq<Membership> {
    Collected(inputs, Own(answers))
  }

  /** A project is entered when first met; a root met again is only touched. */
  function Learn(projects: map<ProjectKey, Project>, met: Option<Project>, at: Time): map<ProjectKey, Project> {
    if met.None? then projects
    else if met.value.key !in projects then projects[met.value.key := met.value]
    else if met.value.key.FromRoot? then projects[met.value.key := projects[met.value.key].(lastSeen := at)]
    else projects
  }

  function Known(answers: Answers, inputs: seq<GroupingInput>, at: Time): map<ProjectKey, Project> {
    if inputs == [] then map[] else
      var n := |inputs| - 1;
      Learn(Known(answers, inputs[..n], at), ProjectOf(answers, inputs[n], at), at)
  }

  /** The membership of an input that has none of its own. */
  function Inherited(direct: map<Pid, ProjectKey>, input: GroupingInput): Option<Membership> {
    if input.parentPid.Some? && input.parentPid.value in direct
    then Some(Membership(input.pid, direct[input.parentPid.value], PARENT_INHERITANCE_CONFIDENCE,
      ParentProcess(input.parentPid.value)))
    else None
  }

  /** What the second pass makes of an input: a membership, or nothing. */
  function Heir(direct: map<Pid, ProjectKey>): GroupingInput -> Option<Membership> {
    (input: GroupingInput) => if input.pid in direct then None else Inherited(direct, input)
  }

  function Left(direct: map<Pid, ProjectKey>): GroupingInput -> Option<Pid> {
    (input: GroupingInput) => if input.pid in direct || Inherited(direct, input).Some? then None else Some(input.pid)
  }

  function Inheriting(direct: map<Pid, ProjectKey>, inputs: seq<GroupingInput>): seq<Membership> {
    Collected(inputs, Heir(direct))
  }

  function LeftOver(direct: map<Pid, ProjectKey>, inputs: seq<GroupingInput>): seq<Pid> {
    Collected(inputs, Left(direct))
  }

  predicate PidLeq(a: Pid, b: Pid) {
    a <= b
  }

  function Outcome(answers: Answers, inputs: seq<GroupingInput>, at: Time): GroupingOutcome {
    var direct := DirectMap(answers, inputs);
    GroupingOutcome(
      Known(answers, inputs, at),
      SortBy(DirectMemberships(answers, inputs) + Inheriting(direct, inputs), MembershipLeq),
      SortBy(LeftOver(direct, inputs), PidLeq))
  }

  method ResolveDirect(answers: Answers, input: GroupingInput, at: Time, projects: map<ProjectKey, Project>)
    returns (membership: Option<Membership>, known: map<ProjectKey, Project>)
    ensures membership == Direct(answers, input)
    ensures known == Learn(projects, ProjectOf(answers, input, at), at)
  {
    known := projects;
    if input.composeProject.Some? {
      var key := FromCompose(input.composeProject.value);
      if key !in known {
        known := known[key := Project(key, ComposeStack, COMPOSE_CONFIDENCE, [], at, at)];
      }
      return Some(Membership(input.pid, key, COMPOSE_CONFIDENCE, ComposeProject(input.composeProject.value))), known;
    }
    if input.cwd.None? || input !in answers {
      return None, known;
    }
    var m := answers[input];
    var key := FromRoot(m.root);
    if key in known {
      known := known[key := known[key].(lastSeen := at)];
    } else {
      known := known[key := Project(key, m.kind, m.confidence, RootEvidence(m), at, at)];
    }
    return Some(Membership(input.pid, key, m.confidence, WorkingDirectory(m.evidence))), known;
  }

  /** Group a batch in two passes: inheritance only looks at parents that the
      first pass grouped. */
  method Group(answers: Answers, inputs: seq<GroupingInput>, at: Time) returns (outcome: GroupingOutcome)
    ensures outcome == Outcome(answers, inputs, at)
    ensures DistinctPids(inputs) ==> Grouped(outcome, answers, inputs, at)
  {
    hide Direct, ProjectOf, Learn, Inherited, Grouped;
    var direct: map<Pid, ProjectKey>, projects: map<ProjectKey, Project>, memberships: seq<Membership> :=
      map[], map[], [];
    for i := 0 to |inputs|
      invariant direct == DirectMap(answers, inputs[..i]) && projects == Known(answers, inputs[..i], at)
      invariant memberships == DirectMemberships(answers, inputs[..i])
    {
      assert inputs[..i + 1][..i] == inputs[..i];
      var membership, known := ResolveDirect(answers, inputs[i], at, projects);
      projects := known;
      if membership.Some? {
        direct := direct[inputs[i].pid := membership.value.project];
        memberships := memberships + [membership.value];
      }
    }
    assert inputs[..|inputs|] == inputs;
    ghost var own := memberships;
    var ungrouped: seq<Pid> := [];
    assert own + [] == own;
    for i := 0 to |inputs|
      invariant memberships == own + Inheriting(direct, inputs[..i]) && ungrouped == LeftOver(direct, inputs[..i])
    {
      assert inputs[..i + 1][..i] == inputs[..i];
      if inputs[i].pid in direct {
        continue;
      }
      var inherited := Inherited(direct, inputs[i]);
      if inherited.Some? {
        memberships := memberships + [inherited.value];
      } else {
        ungrouped := ungrouped + [inputs[i].pid];
      }
    }
    outcome := GroupingOutcome(projects, SortBy(memberships, MembershipLeq), SortBy(ungrouped, PidLeq));
    if DistinctPids(inputs) {
      OutcomeIsGrouped(answers, inputs, at);
    }
  }

  // ------------------------------------------------------- what the passes do

  lemma DirectHasProject(answers: Answers, input: GroupingInput, at: Time)
    ensures Direct(answers, input).Some? <==> ProjectOf(answers, input, at).Some?
    ensures Direct(answers, input).Some? ==> Direct(answers, input).value.pid == input.pid
    ensures Direct(answers, input).Some? ==>
      Direct(answers, input).value.project == ProjectOf(answers, input, at).value.key
  {
  }

  lemma DistinctFront(inputs: seq<GroupingInput>)
    requires DistinctPids(inputs) && inputs != []
    ensures var n := |inputs| - 1;
      && DistinctPids(inputs[..n]) && inputs == inputs[..n] + [inputs[n]]
      && forall i :: i in inputs[..n] ==> i.pid != inputs[n].pid
  {
  }

  lemma {:induction false} DirectMapIs(answers: Answers, inputs: seq<GroupingInput>, pid: Pid)
    requires DistinctPids(inputs)
    ensures pid in DirectMap(answers, inputs) <==> exists p :: p in inputs && p.pid == pid && Direct(answers, p).Some?
    ensures forall project ::
      IsDirect(answers, inputs, pid, project) <==>
        pid in DirectMap(answers, inputs) && DirectMap(answers, inputs)[pid] == project
  {
    if inputs != [] {
      var n := |inputs| - 1;
      DistinctFront(inputs);
      DirectMapIs(answers, inputs[..n], pid);
      hide Direct, IsDirect;
      forall project { IsDirectStep(answers, inputs, pid, project); }
    }
  }

  lemma IsDirectStep(answers: Answers, inputs: seq<GroupingInput>, pid: Pid, project: ProjectKey)
    requires DistinctPids(inputs) && inputs != []
    ensures var (front, last) := (inputs[..|inputs| - 1], inputs[|inputs| - 1]);
      IsDirect(answers, inputs, pid, project) <==>
        if last.pid == pid then Direct(answers, last).Some? && Direct(answers, last).value.project == project
        else IsDirect(answers, front, pid, project)
  {
    hide Direct;
    DistinctFront(inputs);
  }

  lemma DirectMembershipsAre(answers: Answers, inputs: seq<GroupingInput>)
    ensures forall m ::
      m in DirectMemberships(answers, inputs) <==> exists i :: i in inputs && Direct(answers, i) == Some(m)
  {
    hide Direct;
    CollectedAre(inputs, Own(answers));
  }

  lemma InheritingAre(direct: map<Pid, ProjectKey>, inputs: seq<GroupingInput>)
    ensures forall m :: m in Inheriting(direct, inputs) <==>
      exists i :: i in inputs && i.pid !in direct && Inherited(direct, i) == Some(m)
    ensures forall pid :: pid in LeftOver(direct, inputs) <==>
      exists i :: i in inputs && i.pid == pid && pid !in direct && Inherited(direct, i).None?
  {
    hide Inherited;
    CollectedAre(inputs, Heir(direct));
    CollectedAre(inputs, Left(direct));
  }

  predicate DifferentPids(memberships: seq<Membership>) {
    forall i, j :: 0 <= i < j < |memberships| ==> memberships[i].pid != memberships[j].pid
  }

  lemma {:induction false} DirectPidsDiffer(answers: Answers, inputs: seq<GroupingInput>)
    requires DistinctPids(inputs)
    ensures DifferentPids(DirectMemberships(answers, inputs))
    ensures forall m ::
      m in DirectMemberships(answers, inputs) ==>
        exists i :: i in inputs && i.pid == m.pid && Direct(answers, i) == Some(m)
  {
    if inputs != [] {
      var n := |inputs| - 1;
      DistinctFront(inputs);
      DirectPidsDiffer(answers, inputs[..n]);
      DirectHasProject(answers, inputs[n], 0);
      hide Direct;
      var front := DirectMemberships(answers, inputs[..n]);
      assert forall i :: 0 <= i < |front| ==> front[i] in front;
    }
  }

  lemma InheritedPid(direct: map<Pid, ProjectKey>, input: GroupingInput)
    ensures Inherited(direct, input).Some? ==> Inherited(direct, input).value.pid == input.pid
  {
  }

  lemma {:induction false} InheritingPidsDiffer(direct: map<Pid, ProjectKey>, inputs: seq<GroupingInput>)
    requires DistinctPids(inputs)
    ensures DifferentPids(Inheriting(direct, inputs)) && NoRepeats(LeftOver(direct, inputs))
    ensures forall m ::
      m in Inheriting(direct, inputs) ==> m.pid !in direct && exists i :: i in inputs && i.pid == m.pid
    ensures forall pid :: pid in LeftOver(direct, inputs) ==> exists i :: i in inputs && i.pid == pid
  {
    if inputs != [] {
      hide Inherited, DistinctPids;
      var n := |inputs| - 1;
      DistinctFront(inputs);
      InheritingPidsDiffer(direct, inputs[..n]);
      InheritedPid(direct, inputs[n]);
      var (front, left) := (Inheriting(direct, inputs[..n]), LeftOver(direct, inputs[..n]));
      assert forall i :: 0 <= i < |front| ==> front[i] in front;
      assert forall i :: 0 <= i < |left| ==> left[i] in left;
    }
  }

  lemma PidsIdentify(memberships: seq<Membership>)
    requires DifferentPids(memberships)
    ensures NoRepeats(memberships)
    ensures forall a, b :: a in memberships && b in memberships && a.pid == b.pid ==> a == b
  {
  }

  lemma SortedByPid(memberships: seq<Membership>)
    requires DifferentPids(memberships)
    ensures ByPid(SortBy(memberships, MembershipLeq))
    ensures forall m :: m in SortBy(memberships, MembershipLeq) <==> m in memberships
  {
    PidsIdentify(memberships);
    MembershipOrder();
    hide DifferentPids, TotalOrder, NoRepeats, SortBy, SortedBy;
    SortBySorts(memberships, MembershipLeq);
    var r := SortBy(memberships, MembershipLeq);
    NoRepeatsPermuted(memberships, r);
    StrictlyByPid(r);
  }

  lemma MembershipOrder()
    ensures TotalOrder(MembershipLeq)
  {
  }

  lemma StrictlyByPid(r: seq<Membership>)
    requires NoRepeats(r) && SortedBy(r, MembershipLeq)
    requires forall a, b :: a in r && b in r && a.pid == b.pid ==> a == b
    ensures ByPid(r)
  {
    forall i, j | 0 <= i < j < |r| ensures r[i].pid < r[j].pid {
      assert MembershipLeq(r[i], r[j]) && r[i] != r[j];
    }
  }

  lemma SortedPids(pids: seq<Pid>)
    requires NoRepeats(pids)
    ensures StrictlyAscending(SortBy(pids, PidLeq))
    ensures forall pid :: pid in SortBy(pids, PidLeq) <==> pid in pids
  {
    assert TotalOrder(PidLeq);
    SortBySorts(pids, PidLeq);
    NoRepeatsPermuted(pids, SortBy(pids, PidLeq));
    var r := SortBy(pids, PidLeq);
    assert forall i, j :: 0 <= i < j < |r| ==> PidLeq(r[i], r[j]);
  }

  lemma LearnOne(projects: map<ProjectKey, Project>, met: Option<Project>, at: Time, key: ProjectKey)
    requires key in projects ==> projects[key].lastSeen == at
    ensures Lookup(Learn(projects, met, at), key)
         == if key in projects then Some(projects[key]) else if met.Some? && met.value.key == key then met else None
  {
  }

  lemma SeenNow(answers: Answers, input: GroupingInput, at: Time)
    ensures ProjectOf(answers, input, at).Some? ==> ProjectOf(answers, input, at).value.lastSeen == at
  {
  }

  lemma {:induction false} FirstMadeSnoc(answers: Answers, inputs: seq<GroupingInput>, last: GroupingInput, at: Time,
          key: ProjectKey)
    ensures FirstMade(answers, inputs + [last], at, key)
         == if FirstMade(answers, inputs, at, key).Some? then FirstMade(answers, inputs, at, key)
            else if Makes(answers, last, at, key) then ProjectOf(answers, last, at)
            else None
  {
    hide ProjectOf;
    if inputs == [] {
      assert inputs + [last] == [last] && [last][1..] == [];
    } else {
      assert (inputs + [last])[1..] == inputs[1..] + [last];
      FirstMadeSnoc(answers, inputs[1..], last, at, key);
    }
  }

  /** Whatever is made under a key is made by some input, if by any. */
  lemma {:induction false} FirstMadeIs(answers: Answers, inputs: seq<GroupingInput>, at: Time, key: ProjectKey)
    ensures FirstMade(answers, inputs, at, key).Some? ==>
      exists i :: i in inputs && Makes(answers, i, at, key) && FirstMade(answers, inputs, at,
        key) == ProjectOf(answers, i, at)
    ensures FirstMade(answers, inputs, at, key).None? ==> forall i :: i in inputs ==> !Makes(answers, i, at, key)
  {
    hide ProjectOf;
    if inputs != [] {
      assert inputs == [inputs[0]] + inputs[1..];
      FirstMadeIs(answers, inputs[1..], at, key);
    }
  }

  lemma {:induction false} KnownIs(answers: Answers, inputs: seq<GroupingInput>, at: Time, key: ProjectKey)
    ensures Lookup(Known(answers, inputs, at), key) == FirstMade(answers, inputs, at, key)
    ensures key in Known(answers, inputs, at) ==> Known(answers, inputs, at)[key].lastSeen == at
  {
    if inputs != [] {
      hide Learn, ProjectOf, FirstMade;
      var n := |inputs| - 1;
      KnownIs(answers, inputs[..n], at, key);
      assert inputs == inputs[..n] + [inputs[n]];
      FirstMadeSnoc(answers, inputs[..n], inputs[n], at, key);
      LearnOne(Known(answers, inputs[..n], at), ProjectOf(answers, inputs[n], at), at, key);
      SeenNow(answers, inputs[n], at);
    }
  }

  /** Whether an input has a membership of its own shows in the map. */
  lemma OwnMembership(answers: Answers, inputs: seq<GroupingInput>, input: GroupingInput)
    requires DistinctPids(inputs) && input in inputs
    ensures input.pid in DirectMap(answers, inputs) <==> Direct(answers, input).Some?
    ensures forall m :: Inherited(DirectMap(answers, inputs), input) == Some(m) && Direct(answers, input).None? <==>
      Direct(answers, input).None? && Belongs(answers, inputs, input, m)
    ensures HasNone(answers, inputs, input) <==>
      Direct(answers, input).None? && Inherited(DirectMap(answers, inputs), input).None?
  {
    DirectMapIs(answers, inputs, input.pid);
    if input.parentPid.Some? {
      DirectMapIs(answers, inputs, input.parentPid.value);
      if input.parentPid.value in DirectMap(answers, inputs) {
        assert IsDirect(answers, inputs, input.parentPid.value, DirectMap(answers, inputs)[input.parentPid.value]);
      }
    }
  }

  lemma MemberExactly(answers: Answers, inputs: seq<GroupingInput>, m: Membership)
    requires DistinctPids(inputs)
    ensures m in DirectMemberships(answers, inputs) + Inheriting(DirectMap(answers, inputs), inputs)
       <==> exists i :: i in inputs && Belongs(answers, inputs, i, m)
  {
    var direct := DirectMap(answers, inputs);
    DirectMembershipsAre(answers, inputs);
    InheritingAre(direct, inputs);
    hide DirectMap, DirectMemberships, Inheriting, Direct, Inherited;
    if i :| i in inputs && i.pid !in direct && Inherited(direct, i) == Some(m) {
      OwnMembership(answers, inputs, i);
    }
    if i :| i in inputs && Belongs(answers, inputs, i, m) {
      OwnMembership(answers, inputs, i);
    }
  }

  lemma LeftExactly(answers: Answers, inputs: seq<GroupingInput>, pid: Pid)
    requires DistinctPids(inputs)
    ensures pid in LeftOver(DirectMap(answers, inputs), inputs) <==>
      exists i :: i in inputs && i.pid == pid && HasNone(answers, inputs, i)
  {
    var direct := DirectMap(answers, inputs);
    InheritingAre(direct, inputs);
    hide DirectMap, LeftOver, Direct, Inherited, HasNone;
    forall i | i in inputs ensures HasNone(answers, inputs, i) <==> i.pid !in direct && Inherited(direct, i).None? {
      OwnMembership(answers, inputs, i);
    }
  }

  lemma PidsDiffer(answers: Answers, inputs: seq<GroupingInput>)
    requires DistinctPids(inputs)
    ensures DifferentPids(DirectMemberships(answers, inputs) + Inheriting(DirectMap(answers, inputs), inputs))
  {
    var direct := DirectMap(answers, inputs);
    var (own, heirs) := (DirectMemberships(answers, inputs), Inheriting(direct, inputs));
    DirectPidsDiffer(answers, inputs);
    InheritingPidsDiffer(direct, inputs);
    forall m | m in own ensures m.pid in direct {
      var i :| i in inputs && i.pid == m.pid && Direct(answers, i) == Some(m);
      DirectMapIs(answers, inputs, m.pid);
    }
    var q := own + heirs;
    forall i, j | 0 <= i < j < |q| ensures q[i].pid != q[j].pid {
      assert i < |own| ==> q[i] in own;
      assert j >= |own| ==> q[j] in heirs;
    }
  }

  lemma MembersExactly(answers: Answers, inputs: seq<GroupingInput>)
    requires DistinctPids(inputs)
    ensures var listed := DirectMemberships(answers, inputs) + Inheriting(DirectMap(answers, inputs), inputs);
      MembersAre(SortBy(listed, MembershipLeq), answers, inputs)
  {
    PidsDiffer(answers, inputs);
    SortedByPid(DirectMemberships(answers, inputs) + Inheriting(DirectMap(answers, inputs), inputs));
    hide DirectMap, DirectMemberships, Inheriting, Belongs, SortBy, ByPid;
    forall m { MemberExactly(answers, inputs, m); }
  }

  lemma UngroupedExactly(answers: Answers, inputs: seq<GroupingInput>)
    requires DistinctPids(inputs)
    ensures UngroupedAre(SortBy(LeftOver(DirectMap(answers, inputs), inputs), PidLeq), answers, inputs)
  {
    InheritingPidsDiffer(DirectMap(answers, inputs), inputs);
    SortedPids(LeftOver(DirectMap(answers, inputs), inputs));
    hide DirectMap, LeftOver, HasNone, SortBy, StrictlyAscending;
    forall pid { LeftExactly(answers, inputs, pid); }
  }

  lemma ProjectsExactly(answers: Answers, inputs: seq<GroupingInput>, at: Time)
    ensures ProjectsAre(Known(answers, inputs, at), answers, inputs, at)
  {
    hide Known, FirstMade;
    forall key {
      KnownIs(answers, inputs, at, key);
    }
  }

  lemma OutcomeIsGrouped(answers: Answers, inputs: seq<GroupingInput>, at: Time)
    requires DistinctPids(inputs)
    ensures Grouped(Outcome(answers, inputs, at), answers, inputs, at)
  {
    MembersExactly(answers, inputs);
    UngroupedExactly(answers, inputs);
    ProjectsExactly(answers, inputs, at);
    hide MembersAre, UngroupedAre, ProjectsAre, DirectMap, DirectMemberships, Inheriting, LeftOver, Known, SortBy;
  }

  // ------------------------------------------------------------------ results

  /** Every input is either a member of exactly one project or ungrouped. */
  lemma EveryInputIsPlaced(outcome: GroupingOutcome, answers: Answers, inputs: seq<GroupingInput>, at: Time,
          input: GroupingInput)
    requires Grouped(outcome, answers, inputs, at) && DistinctPids(inputs) && input in inputs
    ensures (exists m :: m in outcome.memberships && m.pid == input.pid) <==> input.pid !in outcome.ungrouped
    ensures forall m, k :: m in outcome.memberships && k in outcome.memberships && m.pid == k.pid ==> m == k
    ensures forall m :: m in outcome.memberships ==> m.project in outcome.projects
  {
    hide Direct, ProjectOf;
    forall m | m in outcome.memberships ensures m.project in outcome.projects {
      var i :| i in inputs && Belongs(answers, inputs, i, m);
      MemberHasProject(answers, inputs, i, m, at);
      FirstMadeIs(answers, inputs, at, m.project);
      assert Lookup(outcome.projects, m.project).Some?;
    }
    if m :| m in outcome.memberships && m.pid == input.pid {
      var i :| i in inputs && Belongs(answers, inputs, i, m);
      BelongsPid(answers, inputs, i, m);
      assert i == input;
      PlacedOnce(answers, inputs, input, m);
    } else {
      PlacedSomewhere(answers, inputs, input);
      if m :| Belongs(answers, inputs, input, m) {
        BelongsPid(answers, inputs, input, m);
      }
    }
  }

  lemma MemberHasProject(answers: Answers, inputs: seq<GroupingInput>, input: GroupingInput, m: Membership, at: Time)
    requires input in inputs && Belongs(answers, inputs, input, m)
    ensures exists i :: i in inputs && Makes(answers, i, at, m.project)
  {
    var owner := input;
    if Direct(answers, input) != Some(m) {
      owner :| owner in inputs && owner.pid == input.parentPid.value && Direct(answers, owner).Some?
        && Direct(answers, owner).value.project == m.project;
    }
    DirectHasProject(answers, owner, at);
    assert Makes(answers, owner, at, m.project);
  }

  lemma BelongsPid(answers: Answers, inputs: seq<GroupingInput>, input: GroupingInput, m: Membership)
    requires Belongs(answers, inputs, input, m)
    ensures m.pid == input.pid
  {
  }

  lemma PlacedOnce(answers: Answers, inputs: seq<GroupingInput>, input: GroupingInput, m: Membership)
    requires Belongs(answers, inputs, input, m)
    ensures !HasNone(answers, inputs, input)
  {
    hide Direct;
  }

  lemma PlacedSomewhere(answers: Answers, inputs: seq<GroupingInput>, input: GroupingInput)
    ensures HasNone(answers, inputs, input) || exists m :: Belongs(answers, inputs, input, m)
  {
    hide Direct, IsDirect;
    if Direct(answers, input).Some? {
      assert Belongs(answers, inputs, input, Direct(answers, input).value);
    } else if input.parentPid.Some? {
      if project :| IsDirect(answers, inputs, input.parentPid.value, project) {
        assert Belongs(answers, inputs, input,
          Membership(input.pid, project, PARENT_INHERITANCE_CONFIDENCE, ParentProcess(input.parentPid.value)));
      }
    }
  }

  /** The project an input shows: the one its container is labelled with, else
      the root its directory resolves to. */
  predicate Shows(answers: Answers, input: GroupingInput, key: ProjectKey) {
    match input.composeProject
    case Some(name) => key == FromCompose(name)
    case None => input.cwd.Some? && input in answers && key == FromRoot(answers[input].root)
  }

  /** Some input of the batch is the parent, and shows this project. */
  predicate ParentShows(answers: Answers, inputs: seq<GroupingInput>, input: GroupingInput, key: ProjectKey) {
    exists p :: p in inputs && input.parentPid == Some(p.pid) && Shows(answers, p, key)
  }

  lemma DirectIsShown(answers: Answers, input: GroupingInput, at: Time, key: ProjectKey)
    ensures Shows(answers, input, key) <==>
      Direct(answers, input).Some? && Direct(answers, input).value.project == key
    ensures Shows(answers, input, key) <==> Makes(answers, input, at, key)
  {
  }

  lemma ParentIsDirect(answers: Answers, inputs: seq<GroupingInput>, input: GroupingInput, key: ProjectKey)
    ensures ParentShows(answers, inputs, input, key) <==>
      input.parentPid.Some? && IsDirect(answers, inputs, input.parentPid.value, key)
  {
    forall p | p in inputs ensures Shows(answers, p, key) <==>
      Direct(answers, p).Some? && Direct(answers, p).value.project == key
    {
      DirectIsShown(answers, p, 0, key);
    }
    hide Direct, Shows;
  }

  /** Where each input goes, how sure that is and why: a label is worth 90, a
      directory what its resolution is worth, a parent's project 60, and nothing
      is inherited by an input that shows a project itself. */
  lemma PlacedExactly(outcome: GroupingOutcome, answers: Answers, inputs: seq<GroupingInput>, at: Time,
          input: GroupingInput, m: Membership)
    requires Grouped(outcome, answers, inputs, at) && DistinctPids(inputs) && input in inputs && m.pid == input.pid
    ensures input.composeProject.Some? ==>
      var name := input.composeProject.value;
      m in outcome.memberships <==> m == Membership(input.pid, FromCompose(name), 90, ComposeProject(name))
    ensures input.composeProject.None? && input.cwd.Some? && input in answers ==>
      var found := answers[input];
      m in outcome.memberships <==>
        m == Membership(input.pid, FromRoot(found.root), found.confidence, WorkingDirectory(found.evidence))
    ensures input.composeProject.None? && (input.cwd.None? || input !in answers) ==>
      (m in outcome.memberships <==>
        && ParentShows(answers, inputs, input, m.project)
        && m == Membership(input.pid, m.project, 60, ParentProcess(input.parentPid.value)))
    ensures input.pid in outcome.ungrouped <==>
      forall key :: !Shows(answers, input, key) && !ParentShows(answers, inputs, input, key)
  {
    assert m in outcome.memberships <==> Belongs(answers, inputs, input, m) by {
      if i :| i in inputs && Belongs(answers, inputs, i, m) {
        BelongsPid(answers, inputs, i, m);
        assert i == input;
      }
    }
    ParentIsDirect(answers, inputs, input, m.project);
    UngroupedShowsNothing(outcome, answers, inputs, at, input);
    hide Grouped, IsDirect, ParentShows, DistinctPids;
  }

  lemma UngroupedShowsNothing(outcome: GroupingOutcome, answers: Answers, inputs: seq<GroupingInput>, at: Time,
          input: GroupingInput)
    requires Grouped(outcome, answers, inputs, at) && DistinctPids(inputs) && input in inputs
    ensures input.pid in outcome.ungrouped <==>
      forall key :: !Shows(answers, input, key) && !ParentShows(answers, inputs, input, key)
  {
    hide Direct, Shows, ParentShows, IsDirect, MembersAre, ProjectsAre;
    assert input.pid in outcome.ungrouped <==> HasNone(answers, inputs, input);
    forall key
      ensures ParentShows(answers, inputs, input, key) <==>
        input.parentPid.Some? && IsDirect(answers, inputs, input.parentPid.value, key)
      ensures Shows(answers, input, key) <==>
        Direct(answers, input).Some? && Direct(answers, input).value.project == key
    {
      ParentIsDirect(answers, inputs, input, key);
      DirectIsShown(answers, input, at, key);
    }
    if Direct(answers, input).Some? {
      assert Shows(answers, input, Direct(answers, input).value.project);
    }
  }

  /** The projects of a batch are those its inputs show, each as the first input
      that shows it describes it. */
  lemma KnownExactly(outcome: GroupingOutcome, answers: Answers, inputs: seq<GroupingInput>, at: Time, key: ProjectKey)
    requires Grouped(outcome, answers, inputs, at)
    ensures key in outcome.projects <==> exists i :: 0 <= i < |inputs| && Shows(answers, inputs[i], key)
    ensures forall i ::
      0 <= i < |inputs| && Shows(answers, inputs[i], key)
        && (forall j :: 0 <= j < i ==> !Shows(answers, inputs[j], key))
      ==> key in outcome.projects && outcome.projects[key] == DescribedBy(answers, inputs[i], key, at)
  {
    assert Lookup(outcome.projects, key) == FirstMade(answers, inputs, at, key);
    hide Grouped;
    FirstShows(answers, inputs, at, key);
  }

  /** The description an input gives of the project it shows. */
  function DescribedBy(answers: Answers, input: GroupingInput, key: ProjectKey, at: Time): Project
    requires Shows(answers, input, key)
  {
    if input.composeProject.Some? then Project(key, ComposeStack, 90, [], at, at)
    else
      var m := answers[input];
      Project(key, m.kind, m.confidence, if m.evidence == [] then [] else m.evidence[..|m.evidence| - 1], at, at)
  }

  lemma {:induction false} FirstShows(answers: Answers, inputs: seq<GroupingInput>, at: Time, key: ProjectKey)
    ensures FirstMade(answers, inputs, at, key).Some? <==>
      exists i :: 0 <= i < |inputs| && Shows(answers, inputs[i], key)
    ensures forall i ::
      0 <= i < |inputs| && Shows(answers, inputs[i], key)
        && (forall j :: 0 <= j < i ==> !Shows(answers, inputs[j], key))
      ==> FirstMade(answers, inputs, at, key) == Some(DescribedBy(answers, inputs[i], key, at))
  {
    if inputs != [] {
      DirectIsShown(answers, inputs[0], at, key);
      if Shows(answers, inputs[0], key) {
        FirstDescribes(answers, inputs[0], at, key);
      }
      hide Shows, Makes, ProjectOf, DescribedBy;
      var rest := inputs[1..];
      FirstShows(answers, rest, at, key);
      assert forall i :: 0 < i < |inputs| ==> inputs[i] == rest[i - 1];
      if !Shows(answers, inputs[0], key) {
        forall i | 0 <= i < |inputs| && Shows(answers, inputs[i], key)
            && (forall j :: 0 <= j < i ==> !Shows(answers, inputs[j], key))
          ensures FirstMade(answers, inputs, at, key) == Some(DescribedBy(answers, inputs[i], key, at))
        {
          assert rest[i - 1] == inputs[i];
          assert forall j :: 0 <= j < i - 1 ==> rest[j] == inputs[j + 1];
        }
      }
    }
  }

  lemma FirstDescribes(answers: Answers, input: GroupingInput, at: Time, key: ProjectKey)
    requires Shows(answers, input, key)
    ensures ProjectOf(answers, input, at) == Some(DescribedBy(answers, input, key, at))
  {
  }

  // ------------------------------------------------------- order of a batch

  /** What an input of any batch can become a member of: what it shows itself
      or, when nobody with its PID shows anything, the project of a parent. */
  ghost predicate MemberOf(answers: Answers, inputs: seq<GroupingInput>, input: GroupingInput, m: Membership) {
    && input in inputs
    && (Direct(answers, input) == Some(m) ||
        ((forall project :: !IsDirect(answers, inputs, input.pid, project))
         && input.parentPid.Some? && IsDirect(answers, inputs, input.parentPid.value, m.project)
         && m == Membership(input.pid, m.project, PARENT_INHERITANCE_CONFIDENCE, ParentProcess(input.parentPid.value))))
  }

  ghost predicate OneMembershipPerPid(answers: Answers, inputs: seq<GroupingInput>) {
    forall i, j, m, k :: MemberOf(answers, inputs, i, m) && MemberOf(answers, inputs, j, k) && i.pid == j.pid ==> m == k
  }

  /** Whatever the order the batch comes in, the outcome is the same. */
  ghost predicate OrderIsHidden(answers: Answers, inputs: seq<GroupingInput>, at: Time) {
    forall others ::
      multiset(others) == multiset(inputs) ==> Outcome(answers, others, at) == Outcome(answers, inputs, at)
  }

  /** Inputs that name one project agree on its kind, confidence and evidence. */
  predicate OneProjectPerKey(answers: Answers, inputs: seq<GroupingInput>, at: Time) {
    forall i, j :: i in inputs && j in inputs && SameKey(answers, i, j, at) ==>
      ProjectOf(answers, i, at) == ProjectOf(answers, j, at)
  }

  predicate SameKey(answers: Answers, i: GroupingInput, j: GroupingInput, at: Time) {
    && ProjectOf(answers, i, at).Some? && ProjectOf(answers, j, at).Some?
    && ProjectOf(answers, i, at).value.key == ProjectOf(answers, j, at).value.key
  }

  /** The order of a batch shows nowhere in the outcome, if and only if no PID
      of the batch has two memberships to choose from, and no project two
      descriptions. */
  lemma GroupIgnoresOrder(answers: Answers, inputs: seq<GroupingInput>, at: Time)
    ensures OrderIsHidden(answers, inputs, at)
       <==> OneMembershipPerPid(answers, inputs) && OneProjectPerKey(answers, inputs, at)
  {
    if !OneMembershipPerPid(answers, inputs) {
      var i, j, m, k :| MemberOf(answers, inputs, i, m) && MemberOf(answers, inputs, j, k) && i.pid == j.pid && m != k;
      ShowsIfTwo(answers, inputs, i, j, m, k, at);
    } else if !OneProjectPerKey(answers, inputs, at) {
      var i, j :| i in inputs && j in inputs && SameKey(answers, i, j, at)
        && ProjectOf(answers, i, at) != ProjectOf(answers, j, at);
      ShowsIfDescribedTwice(answers, inputs, i, j, at);
    } else {
      forall others | multiset(others) == multiset(inputs)
        ensures Outcome(answers, others, at) == Outcome(answers, inputs, at)
      {
        HiddenIfOne(answers, others, inputs, at);
      }
    }
  }

  /** With distinct PIDs every input has at most one membership to get. */
  lemma OneMembershipEach(answers: Answers, inputs: seq<GroupingInput>)
    requires DistinctPids(inputs)
    ensures OneMembershipPerPid(answers, inputs)
  {
    forall i, j, m, k | MemberOf(answers, inputs, i, m) && MemberOf(answers, inputs, j, k) && i.pid == j.pid
      ensures m == k
    {
      assert i == j;
      if Direct(answers, i).None? {
        DirectMapIs(answers, inputs, i.parentPid.value);
      } else {
        assert IsDirect(answers, inputs, i.pid, Direct(answers, i).value.project);
      }
    }
  }

  // Where there is nothing to choose, nothing shows.

  /** The map of the first pass names one of the direct inputs of each PID. */
  lemma {:induction false} DirectMapNames(answers: Answers, inputs: seq<GroupingInput>, pid: Pid)
    ensures pid in DirectMap(answers, inputs) <==> exists project :: IsDirect(answers, inputs, pid, project)
    ensures pid in DirectMap(answers, inputs) ==> IsDirect(answers, inputs, pid, DirectMap(answers, inputs)[pid])
  {
    if inputs != [] {
      hide Direct;
      var n := |inputs| - 1;
      assert inputs == inputs[..n] + [inputs[n]];
      DirectMapNames(answers, inputs[..n], pid);
      hide IsDirect;
      forall project ensures IsDirect(answers, inputs, pid, project) <==>
        IsDirect(answers, inputs[..n], pid, project) || ShowsProject(answers, inputs[n], pid, project)
      {
        DirectSplit(answers, inputs, pid, project);
      }
      if inputs[n].pid == pid && Direct(answers, inputs[n]).Some? {
        assert ShowsProject(answers, inputs[n], pid, Direct(answers, inputs[n]).value.project);
      }
    }
  }

  predicate ShowsProject(answers: Answers, input: GroupingInput, pid: Pid, project: ProjectKey) {
    input.pid == pid && Direct(answers, input).Some? && Direct(answers, input).value.project == project
  }

  lemma DirectSplit(answers: Answers, inputs: seq<GroupingInput>, pid: Pid, project: ProjectKey)
    requires inputs != []
    ensures var n := |inputs| - 1;
      IsDirect(answers, inputs, pid, project) <==>
        IsDirect(answers, inputs[..n], pid, project) || ShowsProject(answers, inputs[n], pid, project)
  {
    hide Direct;
    var n := |inputs| - 1;
    assert inputs == inputs[..n] + [inputs[n]];
  }

  lemma DirectOne(answers: Answers, inputs: seq<GroupingInput>, pid: Pid, a: ProjectKey, b: ProjectKey)
    requires OneMembershipPerPid(answers, inputs) && IsDirect(answers, inputs, pid, a)
        && IsDirect(answers, inputs, pid, b)
    ensures a == b
  {
    hide Direct;
    var p :| p in inputs && p.pid == pid && Direct(answers, p).Some? && Direct(answers, p).value.project == a;
    var q :| q in inputs && q.pid == pid && Direct(answers, q).Some? && Direct(answers, q).value.project == b;
    assert MemberOf(answers, inputs, p, Direct(answers, p).value)
      && MemberOf(answers, inputs, q, Direct(answers, q).value);
  }

  lemma SameDirect(answers: Answers, inputs: seq<GroupingInput>, others: seq<GroupingInput>)
    requires forall x :: x in inputs <==> x in others
    ensures forall pid, project :: IsDirect(answers, inputs, pid, project) <==> IsDirect(answers, others, pid, project)
  {
    hide Direct;
  }

  lemma SameDirectMap(answers: Answers, inputs: seq<GroupingInput>, others: seq<GroupingInput>)
    requires OneMembershipPerPid(answers, inputs) && forall x :: x in inputs <==> x in others
    ensures DirectMap(answers, others) == DirectMap(answers, inputs)
  {
    hide DirectMap, IsDirect, OneMembershipPerPid;
    SameDirect(answers, inputs, others);
    var (a, b) := (DirectMap(answers, inputs), DirectMap(answers, others));
    forall pid ensures pid in a <==> pid in b {
      DirectMapNames(answers, inputs, pid);
      DirectMapNames(answers, others, pid);
    }
    forall pid | pid in a ensures a[pid] == b[pid] {
      DirectMapNames(answers, inputs, pid);
      DirectMapNames(answers, others, pid);
      DirectOne(answers, inputs, pid, a[pid], b[pid]);
    }
  }

  /** Everything listed for an input is something it can be a member of. */
  lemma ListedIsMember(answers: Answers, inputs: seq<GroupingInput>, m: Membership)
    requires m in DirectMemberships(answers, inputs) + Inheriting(DirectMap(answers, inputs), inputs)
    ensures exists i :: MemberOf(answers, inputs, i, m) && i.pid == m.pid
  {
    var direct := DirectMap(answers, inputs);
    DirectMembershipsAre(answers, inputs);
    InheritingAre(direct, inputs);
    hide DirectMap, DirectMemberships, Inheriting, IsDirect;
    if m in DirectMemberships(answers, inputs) {
      var i :| i in inputs && Direct(answers, i) == Some(m);
      assert MemberOf(answers, inputs, i, m);
    } else {
      var i :| i in inputs && i.pid !in direct && Inherited(direct, i) == Some(m);
      DirectMapNames(answers, inputs, i.pid);
      DirectMapNames(answers, inputs, i.parentPid.value);
      assert MemberOf(answers, inputs, i, m);
    }
  }

  lemma HiddenIfOne(answers: Answers, others: seq<GroupingInput>, inputs: seq<GroupingInput>, at: Time)
    requires OneMembershipPerPid(answers, inputs) && OneProjectPerKey(answers, inputs, at)
    requires multiset(others) == multiset(inputs)
    ensures Outcome(answers, others, at) == Outcome(answers, inputs, at)
  {
    hide OneMembershipPerPid, OneProjectPerKey, Own, Heir, Left, DirectMap, Known, Collected, SortBy, TotalOrder;
    SameMembers(others, inputs);
    SameDirectMap(answers, inputs, others);
    var direct := DirectMap(answers, inputs);
    CollectedPermuted(others, inputs, Own(answers));
    CollectedPermuted(others, inputs, Heir(direct));
    CollectedPermuted(others, inputs, Left(direct));
    SameMemberships(answers, inputs, DirectMemberships(answers, others) + Inheriting(direct, others));
    SamePids(LeftOver(direct, inputs), LeftOver(direct, others));
    SameProjects(answers, inputs, others, at);
  }

  lemma SamePids(a: seq<Pid>, b: seq<Pid>)
    requires multiset(a) == multiset(b)
    ensures SortBy(a, PidLeq) == SortBy(b, PidLeq)
  {
    assert TotalOrder(PidLeq);
    SortBySorts(a, PidLeq);
    SortBySorts(b, PidLeq);
    SortedUnique(SortBy(a, PidLeq), SortBy(b, PidLeq), PidLeq);
  }

  lemma SameMemberships(answers: Answers, inputs: seq<GroupingInput>, listed: seq<Membership>)
    requires OneMembershipPerPid(answers, inputs)
    requires multiset(listed)
        == multiset(DirectMemberships(answers, inputs) + Inheriting(DirectMap(answers, inputs), inputs))
    ensures SortBy(listed, MembershipLeq)
         == SortBy(DirectMemberships(answers, inputs) + Inheriting(DirectMap(answers, inputs), inputs), MembershipLeq)
  {
    hide DirectMemberships, Inheriting, DirectMap, MemberOf, SortBy, TotalOrder;
    var q := DirectMemberships(answers, inputs) + Inheriting(DirectMap(answers, inputs), inputs);
    forall x, y | x in q && y in q && x.pid == y.pid ensures x == y {
      ListedIsMember(answers, inputs, x);
      ListedIsMember(answers, inputs, y);
    }
    MembershipOrder();
    SortBySorts(q, MembershipLeq);
    SortBySorts(listed, MembershipLeq);
    SortedUnique(SortBy(q, MembershipLeq), SortBy(listed, MembershipLeq), MembershipLeq);
  }

  // Where there is something to choose, the input that comes first decides.

  function FirstWithPid(q: seq<Membership>, pid: Pid): Option<Membership> {
    if q == [] then None else if q[0].pid == pid then Some(q[0]) else FirstWithPid(q[1..], pid)
  }

  lemma {:induction false} InsertKeepsFirst(x: Membership, q: seq<Membership>, pid: Pid)
    ensures FirstWithPid(Insert(x, q, MembershipLeq), pid) == if x.pid == pid then Some(x) else FirstWithPid(q, pid)
  {
    if q != [] && !MembershipLeq(x, q[0]) {
      InsertKeepsFirst(x, q[1..], pid);
    } else {
      assert ([x] + q)[1..] == q;
    }
  }

  /** The sort is stable: of one PID the first stays first. */
  lemma {:induction false} SortKeepsFirst(q: seq<Membership>, pid: Pid)
    ensures FirstWithPid(SortBy(q, MembershipLeq), pid) == FirstWithPid(q, pid)
  {
    if q != [] {
      SortKeepsFirst(q[1..], pid);
      InsertKeepsFirst(q[0], SortBy(q[1..], MembershipLeq), pid);
    }
  }

  lemma {:induction false} FirstOfConcat(a: seq<Membership>, b: seq<Membership>, pid: Pid)
    ensures FirstWithPid(a + b, pid)
        == if FirstWithPid(a, pid).Some? then FirstWithPid(a, pid) else FirstWithPid(b, pid)
  {
    if a == [] {
      assert a + b == b;
    } else {
      assert (a + b)[1..] == a[1..] + b;
      FirstOfConcat(a[1..], b, pid);
    }
  }

  lemma {:induction false} FirstIs(q: seq<Membership>, pid: Pid)
    ensures FirstWithPid(q, pid).Some? ==> FirstWithPid(q, pid).value in q && FirstWithPid(q, pid).value.pid == pid
  {
    if q != [] {
      assert q == [q[0]] + q[1..];
      FirstIs(q[1..], pid);
    }
  }

  lemma CollectedHead<T, U>(x: T, rest: seq<T>, f: T -> Option<U>)
    requires f(x).Some?
    ensures Collected([x] + rest, f) == [f(x).value] + Collected(rest, f)
  {
    CollectedConcat([x], rest, f);
    assert [x][..0] == [];
  }

  /** A direct input at the head of the batch heads the list of its PID. */
  lemma HeadDirect(answers: Answers, a: GroupingInput, rest: seq<GroupingInput>, at: Time)
    requires Direct(answers, a).Some?
    ensures FirstWithPid(Outcome(answers, [a] + rest, at).memberships, a.pid) == Direct(answers, a)
  {
    var inputs := [a] + rest;
    DirectHasProject(answers, a, at);
    CollectedHead(a, rest, Own(answers));
    hide Direct, DirectMap, Collected, SortBy, Known;
    var (own, heirs) := (DirectMemberships(answers, inputs), Inheriting(DirectMap(answers, inputs), inputs));
    SortKeepsFirst(own + heirs, a.pid);
    FirstOfConcat(own, heirs, a.pid);
  }

  /** An heir at the head of the batch heads the list of its PID, when nobody
      with that PID is direct. */
  lemma HeadHeir(answers: Answers, a: GroupingInput, rest: seq<GroupingInput>, project: ProjectKey, at: Time)
    requires forall p :: !IsDirect(answers, [a] + rest, a.pid, p)
    requires a.parentPid.Some? && IsDirect(answers, [a] + rest, a.parentPid.value, project)
    ensures var first := FirstWithPid(Outcome(answers, [a] + rest, at).memberships, a.pid);
      first.Some? && first.value.reason == ParentProcess(a.parentPid.value)
  {
    var inputs := [a] + rest;
    var direct := DirectMap(answers, inputs);
    DirectMapNames(answers, inputs, a.pid);
    DirectMapNames(answers, inputs, a.parentPid.value);
    CollectedHead(a, rest, Heir(direct));
    DirectMembershipsAre(answers, inputs);
    hide DirectMap, Collected, SortBy, Known;
    var (own, heirs) := (DirectMemberships(answers, inputs), Inheriting(direct, inputs));
    SortKeepsFirst(own + heirs, a.pid);
    FirstOfConcat(own, heirs, a.pid);
    FirstIs(own, a.pid);
    if FirstWithPid(own, a.pid).Some? {
      NobodyListed(answers, inputs, a.pid, FirstWithPid(own, a.pid).value);
    }
  }

  lemma NobodyListed(answers: Answers, inputs: seq<GroupingInput>, pid: Pid, m: Membership)
    requires exists i :: i in inputs && Direct(answers, i) == Some(m)
    requires m.pid == pid
    ensures IsDirect(answers, inputs, pid, m.project)
  {
  }

  /** Of two direct inputs with one PID the first is listed first, so here order
      shows. */
  lemma SharedPidShowsOrder(answers: Answers, a: GroupingInput, b: GroupingInput, rest: seq<GroupingInput>, at: Time)
    requires a.pid == b.pid && Direct(answers, a).Some? && Direct(answers, b).Some?
        && Direct(answers, a) != Direct(answers, b)
    ensures Outcome(answers, [a, b] + rest, at) != Outcome(answers, [b, a] + rest, at)
  {
    hide Outcome, Direct;
    assert [a, b] + rest == [a] + ([b] + rest) && [b, a] + rest == [b] + ([a] + rest);
    HeadDirect(answers, a, [b] + rest, at);
    HeadDirect(answers, b, [a] + rest, at);
  }

  /** So it does of two heirs with one PID and different parents. */
  lemma SharedHeirShowsOrder(answers: Answers, a: GroupingInput, b: GroupingInput, rest: seq<GroupingInput>,
          aProject: ProjectKey, bProject: ProjectKey, at: Time)
    requires a.pid == b.pid && a.parentPid.Some? && b.parentPid.Some? && a.parentPid != b.parentPid
    requires var inputs := [a, b] + rest;
      && (forall p :: !IsDirect(answers, inputs, a.pid, p))
      && IsDirect(answers, inputs, a.parentPid.value, aProject)
      && IsDirect(answers, inputs, b.parentPid.value, bProject)
    ensures Outcome(answers, [a, b] + rest, at) != Outcome(answers, [b, a] + rest, at)
  {
    hide Outcome, IsDirect;
    assert [a, b] + rest == [a] + ([b] + rest) && [b, a] + rest == [b] + ([a] + rest);
    SameMembers([a, b] + rest, [b, a] + rest);
    SameDirect(answers, [a, b] + rest, [b, a] + rest);
    HeadHeir(answers, a, [b] + rest, aProject, at);
    HeadHeir(answers, b, [a] + rest, bProject, at);
  }

  lemma OrderShows(answers: Answers, inputs: seq<GroupingInput>, a: seq<GroupingInput>, b: seq<GroupingInput>, at: Time)
    requires multiset(a) == multiset(inputs) && multiset(b) == multiset(inputs)
    requires Outcome(answers, a, at) != Outcome(answers, b, at)
    ensures !OrderIsHidden(answers, inputs, at)
  {
    hide Outcome;
  }

  lemma DirectShows(answers: Answers, inputs: seq<GroupingInput>, a: GroupingInput, b: GroupingInput, at: Time)
    requires a in inputs && b in inputs && a.pid == b.pid
    requires Direct(answers, a).Some? && Direct(answers, b).Some? && Direct(answers, a) != Direct(answers, b)
    ensures !OrderIsHidden(answers, inputs, at)
  {
    hide Outcome, Direct, OrderIsHidden;
    var rest := PairFirst(inputs, a, b);
    SharedPidShowsOrder(answers, a, b, rest, at);
    OrderShows(answers, inputs, [a, b] + rest, [b, a] + rest, at);
  }

  lemma ShowsIfTwo(answers: Answers, inputs: seq<GroupingInput>, i: GroupingInput, j: GroupingInput, m: Membership,
          k: Membership, at: Time)
    requires MemberOf(answers, inputs, i, m) && MemberOf(answers, inputs, j, k) && i.pid == j.pid && m != k
    ensures !OrderIsHidden(answers, inputs, at)
  {
    hide OrderIsHidden, Outcome, Direct;
    if Direct(answers, i).Some? || Direct(answers, j).Some? {
      assert Direct(answers, i).Some? ==> IsDirect(answers, inputs, i.pid, Direct(answers, i).value.project);
      assert Direct(answers, j).Some? ==> IsDirect(answers, inputs, i.pid, Direct(answers, j).value.project);
      DirectShows(answers, inputs, i, j, at);
    } else if i.parentPid == j.parentPid {
      var p :| p in inputs && p.pid == i.parentPid.value && Direct(answers, p).Some?
        && Direct(answers, p).value.project == m.project;
      var q :| q in inputs && q.pid == j.parentPid.value && Direct(answers, q).Some?
        && Direct(answers, q).value.project == k.project;
      DirectShows(answers, inputs, p, q, at);
    } else {
      hide IsDirect;
      var rest := PairFirst(inputs, i, j);
      SameMembers([i, j] + rest, inputs);
      SameDirect(answers, inputs, [i, j] + rest);
      SharedHeirShowsOrder(answers, i, j, rest, m.project, k.project, at);
      OrderShows(answers, inputs, [i, j] + rest, [j, i] + rest, at);
    }
  }

  /** Of two descriptions of one project the first is kept, so here order
      shows, whatever the PIDs are. */
  lemma ShowsIfDescribedTwice(answers: Answers, inputs: seq<GroupingInput>, i: GroupingInput, j: GroupingInput,
          at: Time)
    requires i in inputs && j in inputs && SameKey(answers, i, j, at)
    requires ProjectOf(answers, i, at) != ProjectOf(answers, j, at)
    ensures !OrderIsHidden(answers, inputs, at)
  {
    hide OrderIsHidden, ProjectOf, Known;
    var rest := PairFirst(inputs, i, j);
    var key := ProjectOf(answers, i, at).value.key;
    var (a, b) := ([i, j] + rest, [j, i] + rest);
    KnownIs(answers, a, at, key);
    KnownIs(answers, b, at, key);
    assert Outcome(answers, a, at).projects != Outcome(answers, b, at).projects;
    OrderShows(answers, inputs, a, b, at);
  }

  lemma SameProjects(answers: Answers, inputs: seq<GroupingInput>, others: seq<GroupingInput>, at: Time)
    requires OneProjectPerKey(answers, inputs, at) && forall x :: x in inputs <==> x in others
    ensures Known(answers, inputs, at) == Known(answers, others, at)
  {
    hide Known, ProjectOf, FirstMade;
    var (a, b) := (Known(answers, inputs, at), Known(answers, others, at));
    forall key ensures Lookup(a, key) == Lookup(b, key) {
      KnownIs(answers, inputs, at, key);
      KnownIs(answers, others, at, key);
      FirstMadeIs(answers, inputs, at, key);
      FirstMadeIs(answers, others, at, key);
    }
    assert forall key :: key in a <==> Lookup(a, key).Some?;
    assert forall key :: key in b <==> Lookup(b, key).Some?;
    assert forall key :: key in a ==> Lookup(a, key) == Some(a[key]) && Lookup(b, key) == Some(b[key]);
  }

  // ------------------------------------------------- answers of the resolver

  /** Each answer is what resolution said of the canonical directory at some
      moment between `from` and `to`; a cached one may be up to five seconds
      older than the batch. */
  ghost predicate Answered(answers: Answers, config: ResolverConfig, trees: Time -> Tree, canonical: map<Path, Path>,
          from: Time, to: Time)
  {
    forall i :: i in answers ==>
      && i.cwd.Some? && i.cwd.value in canonical
      && exists t :: AnsweredAt(answers[i], config, trees, canonical[i.cwd.value], t) && from <= t <= to
  }

  predicate AnsweredAt(m: ProjectMatch, config: ResolverConfig, trees: Time -> Tree, dir: Path, t: Time) {
    ResolveUncached(config, trees(t), dir) == Ok(m)
  }

  /** Answers that agree on every root. */
  predicate Consistent(answers: Answers) {
    forall a, b :: a in answers && b in answers && answers[a].root == answers[b].root ==>
      SameProject(answers[a], answers[b])
  }

  /** While no marker moves, the answers of one batch agree on every root. */
  lemma ResolutionIsConsistent(answers: Answers, config: ResolverConfig, trees: Time -> Tree, canonical: map<Path,
          Path>, from: Time, to: Time)
    requires Answered(answers, config, trees, canonical, from, to)
    requires forall t :: from <= t <= to ==> trees(t) == trees(to)
    ensures Consistent(answers)
  {
    hide ResolveUncached, SameProject;
    forall a, b | a in answers && b in answers && answers[a].root == answers[b].root
      ensures SameProject(answers[a], answers[b])
    {
      SameRootSameProject(config, trees(to), canonical[a.cwd.value], canonical[b.cwd.value]);
    }
  }

  lemma ConsistentDescribesOnce(answers: Answers, inputs: seq<GroupingInput>, at: Time)
    requires Consistent(answers)
    ensures OneProjectPerKey(answers, inputs, at)
  {
  }

  /** With distinct PIDs and no marker on the move, the order of a batch does
      not show. */
  lemma QuietTreeHidesOrder(answers: Answers, inputs: seq<GroupingInput>, at: Time, config: ResolverConfig,
          trees: Time -> Tree, canonical: map<Path, Path>, from: Time, to: Time)
    requires Answered(answers, config, trees, canonical, from, to)
    requires forall t :: from <= t <= to ==> trees(t) == trees(to)
    requires DistinctPids(inputs)
    ensures OrderIsHidden(answers, inputs, at)
  {
    hide OrderIsHidden, OneMembershipPerPid, OneProjectPerKey, Consistent;
    ResolutionIsConsistent(answers, config, trees, canonical, from, to);
    ConsistentDescribesOnce(answers, inputs, at);
    OneMembershipEach(answers, inputs);
    GroupIgnoresOrder(answers, inputs, at);
  }

  /** Markers do move: a repository is created in a package, one process has a
      cached answer from before and another asks afresh, so one batch describes
      one root twice, and its order shows although all PIDs differ. */
  lemma NewRepositoryShowsOrder(at: Time)
    returns (answers: Answers, inputs: seq<GroupingInput>, config: ResolverConfig, trees: Time -> Tree,
          canonical: map<Path, Path>)
    ensures Answered(answers, config, trees, canonical, at - RESOLVE_CACHE_TTL, at)
    ensures DistinctPids(inputs) && OneMembershipPerPid(answers, inputs)
    ensures !OrderIsHidden(answers, inputs, at)
  {
    hide ResolveUncached, Answered, DistinctPids, OneMembershipPerPid, OrderIsHidden;
    var before, after, x, y, m, k;
    config, before, after, x, y, m, k := PackageThenRepository();
    trees := t => if t < at then before else after;
    assert trees(at - 1) == before && trees(at) == after;
    canonical := map[x := x, y := y];
    var a := GroupingInput(1, None, Some(x), None);
    var b := GroupingInput(2, None, Some(y), None);
    answers, inputs := map[a := m, b := k], [a, b];
    TwoDescriptions(a, b, m, k, at);
    TwoMoments(a, b, m, k, config, trees, canonical, at);
  }

  /** Two inputs whose answers name one root and two kinds, PIDs apart. */
  lemma TwoDescriptions(a: GroupingInput, b: GroupingInput, m: ProjectMatch, k: ProjectMatch, at: Time)
    requires a.pid != b.pid && a.composeProject.None? && b.composeProject.None? && a.cwd.Some? && b.cwd.Some?
    requires m.root == k.root && m.kind != k.kind
    ensures var (answers, inputs) := (map[a := m, b := k], [a, b]);
      DistinctPids(inputs) && OneMembershipPerPid(answers, inputs) && !OrderIsHidden(answers, inputs, at)
  {
    var (answers, inputs) := (map[a := m, b := k], [a, b]);
    hide OneMembershipPerPid, OrderIsHidden;
    OneMembershipEach(answers, inputs);
    assert SameKey(answers, a, b, at) && ProjectOf(answers, a, at) != ProjectOf(answers, b, at);
    ShowsIfDescribedTwice(answers, inputs, a, b, at);
  }

  lemma TwoMoments(a: GroupingInput, b: GroupingInput, m: ProjectMatch, k: ProjectMatch, config: ResolverConfig,
          trees: Time -> Tree, canonical: map<Path, Path>, at: Time)
    requires a != b && a.cwd.Some? && b.cwd.Some? && a.cwd.value in canonical && b.cwd.value in canonical
    requires AnsweredAt(m, config, trees, canonical[a.cwd.value], at - 1)
    requires AnsweredAt(k, config, trees, canonical[b.cwd.value], at)
    ensures Answered(map[a := m, b := k], config, trees, canonical, at - RESOLVE_CACHE_TTL, at)
  {
    hide AnsweredAt;
    var answers := map[a := m, b := k];
    assert forall i :: i in answers ==> i == a || i == b;
  }

  /** One root, a package before a repository is created in it. */
  lemma PackageThenRepository()
    returns (config: ResolverConfig, before: Tree, after: Tree, x: Path, y: Path, m: ProjectMatch, k: ProjectMatch)
    ensures ResolveUncached(config, before, x) == Ok(m) && ResolveUncached(config, after, y) == Ok(k)
    ensures m.root == k.root && m.kind != k.kind && x != y
  {
    hide ResolveUncached, ChosenAt;
    var p := ["p"];
    x, y := ["p", "x"], ["p", "y"];
    config := ResolverConfig({}, {}, 8);
    before := map[p := [MarkerHit(NodePackage, "package.json")]];
    after := map[p := [MarkerHit(Git, ".git"), MarkerHit(NodePackage, "package.json")]];
    assert x[1] != y[1] && x[..1] == p && y[..1] == p;
    assert MarkerHit(NodePackage, "package.json") in before[p] && MarkerHit(Git, ".git") in after[p];
    OnlyRoot(config, before, x, Package);
    OnlyRoot(config, after, y, GitRepository);
    m, k := ResolveUncached(config, before, x).project, ResolveUncached(config, after, y).project;
  }

  /** The one marked directory is the root, of the first kind it has. */
  lemma OnlyRoot(config: ResolverConfig, tree: Tree, cwd: Path, kind: RootKind)
    requires config.excludedRoots == {} && config.excludedComponents == {} && config.maxDepth >= 3 && |cwd| == 2
    requires tree.Keys == {cwd[..1]} && Has(tree[cwd[..1]], kind)
    requires kind == GitRepository || (kind == Package && forall h :: h in tree[cwd[..1]] ==> IsPackageMarker(h.marker))
    ensures SameRoot(ResolveUncached(config, tree, cwd), cwd[..1], kind)
  {
    hide ResolveUncached, Has;
    ResolvesToChosen(config, tree, cwd, 1, kind);
    forall n, k | 0 <= n <= 2 ensures RootAt(config, tree, cwd, n, k) <==> n == 1 && Has(tree[cwd[..1]], k) {
      NothingThere(k);
    }
    if kind == Package {
      OnlyPackages(tree[cwd[..1]]);
    }
  }

  lemma NothingThere(kind: RootKind)
    ensures !Has([], kind)
  {
  }

  lemma OnlyPackages(hits: seq<MarkerHit>)
    requires forall h :: h in hits ==> IsPackageMarker(h.marker)
    ensures !Has(hits, GitRepository) && !Has(hits, Workspace)
  {
  }
}
