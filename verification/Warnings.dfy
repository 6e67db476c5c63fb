/** The active set of warnings: what fires stays active and keeps the time it
    began, what stops firing is dropped at once. */
module Warnings {
  import opened Basics
  import opened Sorting

  /** Identifiers are stable per rule and subject; `detail` stands for the
      text and the other fields a rule fills in afresh every time. */
  type WarningId = nat

  datatype Warning = Warning(id: WarningId, firstSeen: Time, lastSeen: Time, detail: nat)

  datatype WarningDelta = WarningDelta(added: seq<Warning>, removed: seq<WarningId>, current: seq<Warning>)

  type Active = map<WarningId, Warning>

  /** The rules stamp everything they fire with the present. */
  predicate FiredAt(fired: seq<Warning>, at: Time) {
    forall w :: w in fired ==> w.firstSeen == at && w.lastSeen == at
  }

  function FiredIds(fired: seq<Warning>): set<WarningId> {
    set w | w in fired :: w.id
  }

  /** The last warning fired under an id. */
  function LastFired(fired: seq<Warning>, id: WarningId): Option<Warning> {
    if fired == [] then None
    else if fired[|fired| - 1].id == id then Some(fired[|fired| - 1])
    else LastFired(fired[..|fired| - 1], id)
  }

  /** The first warning fired under an id. */
  function FirstFired(fired: seq<Warning>, id: WarningId): Option<Warning> {
    if fired == [] then None
    else
      FirstOf(FirstFired(fired[..|fired| - 1], id), fired[|fired| - 1], id)
  }

  function FirstOf(before: Option<Warning>, w: Warning, id: WarningId): Option<Warning> {
    if before.Some? then before else if w.id == id then Some(w) else None
  }

  lemma {:induction false} FiredIsFired(fired: seq<Warning>, id: WarningId)
    ensures LastFired(fired, id).Some? <==> id in FiredIds(fired)
    ensures FirstFired(fired, id).Some? <==> id in FiredIds(fired)
    ensures LastFired(fired, id).Some? ==> LastFired(fired, id).value in fired && LastFired(fired, id).value.id == id
    ensures FirstFired(fired, id).Some? ==> FirstFired(fired, id).value in fired && FirstFired(fired, id).value.id == id
  {
    if fired != [] {
      var n := |fired| - 1;
      assert fired == fired[..n] + [fired[n]];
      FiredIsFired(fired[..n], id);
    }
  }

  /** What is active under an id once `fired` has fired. */
  function Entry(active: Active, fired: seq<Warning>, id: WarningId): Option<Warning> {
    var last := LastFired(fired, id);
    if last.None? then (if id in active then Some(active[id]) else None)
    else
      FiredIsFired(fired, id);
      var since := if id in active then active[id].firstSeen else FirstFired(fired, id).value.firstSeen;
      Some(last.value.(firstSeen := since))
  }

  /** Fired warnings entered into the active set, nothing dropped yet. */
  ghost predicate Entered(before: Active, after: Active, fired: seq<Warning>) {
    forall id :: (if id in after then Some(after[id]) else None) == Entry(before, fired, id)
  }

  predicate Newer(a: Warning, b: Warning) {
    a.lastSeen >= b.lastSeen
  }

  /** The active set after one evaluation, and an exact account of the change. */
  ghost predicate Evaluated(before: Active, after: Active, fired: seq<Warning>, delta: WarningDelta) {
    && (forall id :: id in after <==> id in FiredIds(fired))
    && (forall id :: id in after ==> Entry(before, fired, id) == Some(after[id]))
    && NoRepeats(delta.added) && StrictlyAscending(delta.removed) && NoRepeats(delta.current)
    && (forall w :: w in delta.added <==> w.id !in before && FirstFired(fired, w.id) == Some(w))
    && (forall id :: id in delta.removed <==> id in before && id !in FiredIds(fired))
    && (forall w :: w in delta.current <==> w.id in after && after[w.id] == w)
    && SortedBy(delta.current, Newer)
  }

  function KeptOf(active: Active, firedIds: set<WarningId>): Active {
    map id | id in active && id in firedIds :: active[id]
  }

  /** The first `i` keys have been looked at, and dropped if they did not fire. */
  ghost predicate Removing(before: Active, active: Active, keys: seq<WarningId>, i: nat, removed: seq<WarningId>,
          firedIds: set<WarningId>)
  {
    && i <= |keys| && StrictlyAscending(keys) && Elements(keys) == before.Keys
    && StrictlyAscending(removed)
    && (forall id :: id in removed <==> id in keys[..i] && id !in firedIds)
    && active == map id | id in before && (id in firedIds || id !in keys[..i]) :: before[id]
  }

  lemma NothingRemoved(before: Active, keys: seq<WarningId>, firedIds: set<WarningId>)
    requires StrictlyAscending(keys) && Elements(keys) == before.Keys
    ensures Removing(before, before, keys, 0, [], firedIds)
  {
  }

  lemma RemovingStep(before: Active, active: Active, keys: seq<WarningId>, i: nat, removed: seq<WarningId>,
          firedIds: set<WarningId>)
    requires i < |keys| && Removing(before, active, keys, i, removed, firedIds)
    ensures keys[i] in firedIds ==> Removing(before, active, keys, i + 1, removed, firedIds)
    ensures keys[i] !in firedIds ==> Removing(before, active - {keys[i]}, keys, i + 1, removed + [keys[i]], firedIds)
  {
    assert keys[..i + 1] == keys[..i] + [keys[i]];
    assert keys[i] in Elements(keys);
    forall j | 0 <= j < |removed| ensures removed[j] < keys[i] {
      assert removed[j] in keys[..i];
    }
  }

  lemma AllRemoved(before: Active, active: Active, keys: seq<WarningId>, removed: seq<WarningId>,
          firedIds: set<WarningId>)
    requires Removing(before, active, keys, |keys|, removed, firedIds)
    ensures active == KeptOf(before, firedIds) && StrictlyAscending(removed)
    ensures forall id :: id in removed <==> id in before && id !in firedIds
  {
    assert keys[..|keys|] == keys;
    assert forall id :: id in before <==> id in Elements(keys);
  }

  function ValuesOf(active: Active, keys: seq<WarningId>): seq<Warning>
    requires forall id :: id in keys ==> id in active
  {
    seq(|keys|, i requires 0 <= i < |keys| => active[keys[i]])
  }

  lemma ByKey(active: Active)
    requires forall id :: id in active ==> active[id].id == id
    ensures forall id :: id in Keys(active.Keys) ==> id in active
    ensures var current := SortBy(ValuesOf(active, Keys(active.Keys)), Newer);
      && NoRepeats(current) && SortedBy(current, Newer)
      && forall w :: w in current <==> w.id in active && active[w.id] == w
  {
    var keys := Keys(active.Keys);
    assert forall id :: id in keys <==> id in Elements(keys);
    ValuesAreKeyed(active, keys);
    hide ValuesOf, NoRepeats, SortedBy, Keys;
    NewestFirst(ValuesOf(active, keys));
  }

  lemma NewestFirst(values: seq<Warning>)
    requires NoRepeats(values)
    ensures NoRepeats(SortBy(values, Newer)) && SortedBy(SortBy(values, Newer), Newer)
    ensures forall w :: w in SortBy(values, Newer) <==> w in values
  {
    assert TotalOrder(Newer);
    SortBySorts(values, Newer);
    NoRepeatsPermuted(values, SortBy(values, Newer));
  }

  lemma ValuesAreKeyed(active: Active, keys: seq<WarningId>)
    requires StrictlyAscending(keys) && forall id :: id in keys <==> id in active
    requires forall id :: id in active ==> active[id].id == id
    ensures NoRepeats(ValuesOf(active, keys))
    ensures forall w :: w in ValuesOf(active, keys) <==> w.id in active && active[w.id] == w
  {
    var values := ValuesOf(active, keys);
    forall w: Warning | w.id in active && active[w.id] == w ensures w in values {
      var i :| 0 <= i < |keys| && keys[i] == w.id;
      assert values[i] == w;
    }
  }

  class WarningEngine {
    var active: Active

    ghost predicate Valid()
      reads this
    {
      forall id :: id in active ==> active[id].id == id
    }

    constructor ()
      ensures Valid() && active == map[]
    {
      active := map[];
    }

    method Enter(fired: seq<Warning>) returns (added: seq<Warning>)
      requires Valid()
      modifies this
      ensures Valid() && Entered(old(active), active, fired)
      ensures NoRepeats(added)
      ensures forall w :: w in added <==> w.id !in old(active) && FirstFired(fired, w.id) == Some(w)
    {
      added := [];
      for i := 0 to |fired|
        invariant Valid() && Entered(old(active), active, fired[..i])
        invariant NoRepeats(added)
        invariant forall w :: w in added <==> w.id !in old(active) && FirstFired(fired[..i], w.id) == Some(w)
      {
        hide LastFired, FirstFired, Entry;
        var warning := fired[i];
        EnterStep(old(active), active, fired, i);
        FirstStep(fired, i);
        FiredIsFired(fired[..i], warning.id);
        if warning.id in active {
          warning := warning.(firstSeen := active[warning.id].firstSeen);
        } else {
          added := added + [warning];
        }
        active := active[warning.id := warning];
      }
      assert fired[..|fired|] == fired;
    }

    method Retain(firedIds: set<WarningId>) returns (removed: seq<WarningId>)
      requires Valid()
      modifies this
      ensures Valid() && active == KeptOf(old(active), firedIds)
      ensures StrictlyAscending(removed)
      ensures forall id :: id in removed <==> id in old(active) && id !in firedIds
    {
      hide StrictlyAscending, Keys, Removing, KeptOf;
      var keys := Keys(active.Keys);
      removed := [];
      NothingRemoved(active, keys, firedIds);
      ghost var before := active;
      for i := 0 to |keys|
        invariant Valid() && Removing(before, active, keys, i, removed, firedIds)
      {
        RemovingStep(before, active, keys, i, removed, firedIds);
        if keys[i] !in firedIds {
          removed := removed + [keys[i]];
          active := active - {keys[i]};
        }
      }
      AllRemoved(before, active, keys, removed, firedIds);
    }

    method Current() returns (current: seq<Warning>)
      requires Valid()
      ensures NoRepeats(current) && SortedBy(current, Newer)
      ensures forall w :: w in current <==> w.id in active && active[w.id] == w
    {
      ByKey(active);
      current := SortBy(ValuesOf(active, Keys(active.Keys)), Newer);
    }

    /** Fold what the rules fired into the active set. */
    method Evaluate(fired: seq<Warning>) returns (delta: WarningDelta)
      requires Valid()
      modifies this
      ensures Valid() && Evaluated(old(active), active, fired, delta)
    {
      hide Entry, FirstFired, LastFired, FiredIds, NoRepeats, StrictlyAscending, SortedBy;
      ghost var before := active;
      var added := Enter(fired);
      ghost var entered := active;
      var removed := Retain(FiredIds(fired));
      var current := Current();
      delta := WarningDelta(added, removed, current);
      forall id ensures id in entered <==> id in before || id in FiredIds(fired) {
        EntryExists(before, entered, fired, id);
      }
    }
  }

  lemma EntryExists(before: Active, after: Active, fired: seq<Warning>, id: WarningId)
    requires Entered(before, after, fired)
    ensures id in after <==> id in before || id in FiredIds(fired)
    ensures id in after ==> Entry(before, fired, id) == Some(after[id])
  {
    FiredIsFired(fired, id);
    assert (if id in after then Some(after[id]) else None) == Entry(before, fired, id);
  }

  lemma FirstStep(fired: seq<Warning>, i: nat)
    requires i < |fired|
    ensures forall id :: FirstFired(fired[..i + 1], id) == FirstOf(FirstFired(fired[..i], id), fired[i], id)
  {
    assert fired[..i + 1][..i] == fired[..i];
  }

  lemma EnterStep(before: Active, after: Active, fired: seq<Warning>, i: nat)
    requires i < |fired| && Entered(before, after, fired[..i])
    ensures var w := fired[i];
      Entered(before, after[w.id := if w.id in after then w.(firstSeen := after[w.id].firstSeen) else w],
        fired[..i + 1])
    ensures fired[i].id in after <==> fired[i].id in before || fired[i].id in FiredIds(fired[..i])
  {
    var w := fired[i];
    var (front, now) := (fired[..i], fired[..i + 1]);
    assert now[..i] == front;
    var next := after[w.id := if w.id in after then w.(firstSeen := after[w.id].firstSeen) else w];
    EntryExists(before, after, front, w.id);
    FiredIsFired(front, w.id);
    forall id ensures (if id in next then Some(next[id]) else None) == Entry(before, now, id) {
      EntryExists(before, after, front, id);
      FiredIsFired(front, id);
    }
  }

  /** Nothing was fired under this id before or after position `i`. */
  predicate FirstAt(fired: seq<Warning>, i: int) {
    0 <= i < |fired| && forall j :: 0 <= j < i ==> fired[j].id != fired[i].id
  }

  predicate LastAt(fired: seq<Warning>, i: int) {
    0 <= i < |fired| && forall j :: i < j < |fired| ==> fired[j].id != fired[i].id
  }

  lemma {:induction false} LastIs(fired: seq<Warning>, i: nat)
    requires LastAt(fired, i)
    ensures LastFired(fired, fired[i].id) == Some(fired[i])
  {
    var n := |fired| - 1;
    if i < n {
      LastIs(fired[..n], i);
    }
  }

  lemma {:induction false} FirstIs(fired: seq<Warning>, i: nat)
    requires FirstAt(fired, i)
    ensures FirstFired(fired, fired[i].id) == Some(fired[i])
  {
    var n := |fired| - 1;
    if i < n {
      FirstIs(fired[..n], i);
    } else {
      FirstAtEnd(fired);
      FiredIsFired(fired[..n], fired[n].id);
    }
  }

  lemma {:induction false} FirstIsThere(fired: seq<Warning>, w: Warning) returns (i: nat)
    requires FirstFired(fired, w.id) == Some(w)
    ensures FirstAt(fired, i) && fired[i] == w
  {
    var n := |fired| - 1;
    if FirstFired(fired[..n], w.id).Some? {
      i := FirstIsThere(fired[..n], w);
    } else {
      FiredIsFired(fired[..n], w.id);
      FirstAtEnd(fired);
      i := n;
    }
  }

  lemma FirstAtEnd(fired: seq<Warning>)
    requires fired != []
    ensures var n := |fired| - 1; FirstAt(fired, n) <==> fired[n].id !in FiredIds(fired[..n])
  {
    var front := fired[..|fired| - 1];
    assert forall i :: 0 <= i < |front| ==> front[i] in front && front[i] == fired[i];
  }

  /** What an evaluation makes of the warnings fired, by their places in the
      list: an active warning reads as it was last fired and dates from when its
      id became active; the first fired under a new id is what is added; and the
      current warnings are all active ones, the latest seen first. */
  lemma EvaluatedByIndex(before: Active, after: Active, fired: seq<Warning>, delta: WarningDelta)
    requires Evaluated(before, after, fired, delta)
    ensures forall i :: LastAt(fired, i) ==>
      && fired[i].id in after && after[fired[i].id].id == fired[i].id
      && after[fired[i].id].detail == fired[i].detail && after[fired[i].id].lastSeen == fired[i].lastSeen
      && (fired[i].id in before ==> after[fired[i].id].firstSeen == before[fired[i].id].firstSeen)
    ensures forall i :: FirstAt(fired, i) && fired[i].id !in before ==>
      fired[i].id in after && after[fired[i].id].firstSeen == fired[i].firstSeen
    ensures forall w :: w in delta.added <==> w.id !in before && exists i :: FirstAt(fired, i) && fired[i] == w
    ensures forall id :: id in delta.removed <==> id in before && forall i :: 0 <= i < |fired| ==> fired[i].id != id
    ensures forall w :: w in delta.current <==> w.id in after && after[w.id] == w
    ensures forall i, j :: 0 <= i < j < |delta.current| ==> delta.current[i].lastSeen >= delta.current[j].lastSeen
  {
    hide LastFired, FirstFired, NoRepeats, StrictlyAscending;
    forall w: Warning
      ensures FirstFired(fired, w.id) == Some(w) <==> exists i :: FirstAt(fired, i) && fired[i] == w
    {
      if FirstFired(fired, w.id) == Some(w) {
        var i := FirstIsThere(fired, w);
      }
      if i :| FirstAt(fired, i) && fired[i] == w {
        FirstIs(fired, i);
      }
    }
    forall i | LastAt(fired, i) ensures LastFired(fired, fired[i].id) == Some(fired[i]) {
      LastIs(fired, i);
    }
    forall i | FirstAt(fired, i) ensures FirstFired(fired, fired[i].id) == Some(fired[i]) {
      FirstIs(fired, i);
    }
    forall i | 0 <= i < |fired| ensures fired[i].id in FiredIds(fired) {
      assert fired[i] in fired;
    }
    FiredOnce(before, fired);
  }

  lemma FiredOnce(before: Active, fired: seq<Warning>)
    ensures forall id :: id in FiredIds(fired) ==>
      Entry(before, fired, id).Some? && LastFired(fired, id).Some? && FirstFired(fired, id).Some?
      && Entry(before, fired, id).value.id == id
      && Entry(before, fired, id).value.detail == LastFired(fired, id).value.detail
      && Entry(before, fired, id).value.lastSeen == LastFired(fired, id).value.lastSeen
      && Entry(before, fired, id).value.firstSeen
         == if id in before then before[id].firstSeen else FirstFired(fired, id).value.firstSeen
  {
    hide LastFired, FirstFired, FiredIds;
    forall id | id in FiredIds(fired)
      ensures LastFired(fired, id).Some? && FirstFired(fired, id).Some? && LastFired(fired, id).value.id == id
    {
      FiredIsFired(fired, id);
    }
  }

  // --------------------------------------------------------------- whole runs

  datatype Evaluation = Evaluation(fired: seq<Warning>, at: Time, delta: WarningDelta, active: Active)

  function ActiveAfter(run: seq<Evaluation>): Active {
    if run == [] then map[] else run[|run| - 1].active
  }

  ghost predicate IsRun(run: seq<Evaluation>) {
    run == [] ||
    var n := |run| - 1;
    IsRun(run[..n]) && Follows(ActiveAfter(run[..n]), run[n])
  }

  ghost predicate Follows(before: Active, last: Evaluation) {
    FiredAt(last.fired, last.at) && Evaluated(before, last.active, last.fired, last.delta)
  }

  /** Where the unbroken streak of a warning up to now began. */
  function StreakStart(run: seq<Evaluation>, id: WarningId): (k: nat)
    ensures k <= |run|
  {
    if run == [] || id !in FiredIds(run[|run| - 1].fired) then |run|
    else StreakStart(run[..|run| - 1], id)
  }

  /** The streak is unbroken, and begins where it says. */
  lemma {:induction false} StreakIsUnbroken(run: seq<Evaluation>, id: WarningId)
    ensures var k := StreakStart(run, id);
      && (forall j :: k <= j < |run| ==> id in FiredIds(run[j].fired))
      && (k > 0 ==> id !in FiredIds(run[k - 1].fired))
  {
    if run != [] && id in FiredIds(run[|run| - 1].fired) {
      StreakIsUnbroken(run[..|run| - 1], id);
    }
  }

  lemma OneEvaluation(before: Active, last: Evaluation, id: WarningId)
    requires Follows(before, last)
    ensures id in last.active <==> id in FiredIds(last.fired)
    ensures id in last.active ==> last.active[id].lastSeen == last.at
    ensures id in last.active ==> last.active[id].firstSeen == if id in before then before[id].firstSeen else last.at
  {
    FiredIsFired(last.fired, id);
  }

  lemma StreakStep(run: seq<Evaluation>, id: WarningId)
    requires run != []
    ensures var n := |run| - 1;
      StreakStart(run, id) == if id in FiredIds(run[n].fired) then StreakStart(run[..n], id) else |run|
  {
  }

  /** A warning is active exactly while it fires; it dates from the evaluation
      that began its unbroken streak, and was last seen in the latest one. */
  lemma {:induction false} WarningsAreContinuous(run: seq<Evaluation>, id: WarningId)
    requires IsRun(run)
    ensures id in ActiveAfter(run) <==> StreakStart(run, id) < |run|
    ensures id in ActiveAfter(run) ==>
      ActiveAfter(run)[id].firstSeen == run[StreakStart(run, id)].at
        && ActiveAfter(run)[id].lastSeen == run[|run| - 1].at
  {
    if run != [] {
      hide FiredIds, Follows;
      var n := |run| - 1;
      StreakStep(run, id);
      hide StreakStart;
      WarningsAreContinuous(run[..n], id);
      OneEvaluation(ActiveAfter(run[..n]), run[n], id);
    }
  }

  /** What a consumer of deltas believes is active. */
  function ReplayIds(run: seq<Evaluation>): set<WarningId> {
    if run == [] then {} else
      var delta := run[|run| - 1].delta;
      ReplayIds(run[..|run| - 1]) - Elements(delta.removed) + FiredIds(delta.added)
  }

  lemma ChangeOfIds(before: Active, after: Active, fired: seq<Warning>, delta: WarningDelta)
    requires Evaluated(before, after, fired, delta)
    ensures after.Keys == before.Keys - Elements(delta.removed) + FiredIds(delta.added)
    ensures FiredIds(delta.added) !! before.Keys && FiredIds(delta.added) <= after.Keys
        && Elements(delta.removed) == before.Keys - after.Keys
  {
    forall id | id in after && id !in before ensures id in FiredIds(delta.added) {
      FiredIsFired(fired, id);
      assert FirstFired(fired, id).value in delta.added;
    }
    forall w | w in delta.added ensures w.id in after && w.id !in before {
      FiredIsFired(fired, w.id);
    }
  }

  lemma {:induction false} DeltasRebuildTheActiveSet(run: seq<Evaluation>)
    requires IsRun(run)
    ensures ReplayIds(run) == ActiveAfter(run).Keys
  {
    if run != [] {
      var n := |run| - 1;
      DeltasRebuildTheActiveSet(run[..n]);
      ChangeOfIds(ActiveAfter(run[..n]), run[n].active, run[n].fired, run[n].delta);
    }
  }
}
