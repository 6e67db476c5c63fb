/** What the registry retains: the eviction bound, and independence of the
    order in which a batch lists its observations. */
module RegistryBounds {
  import opened Basics
  import opened Model
  import opened Sorting
  import opened Registry
  import opened RegistryService

  lemma StoppedAfter(reconciled: map<ServiceId, Entered>, gone: set<ServiceId>)
    requires gone <= StoppedIds(reconciled)
    ensures StoppedIds(reconciled - gone) == StoppedIds(reconciled) - gone
  {
  }

  /** Beyond the cap exactly the excess goes. */
  lemma CapSize(held: map<ServiceId, Entered>)
    ensures Crowded(held) <= StoppedIds(held)
    ensures |StoppedIds(held) - Crowded(held)|
         == if |StoppedIds(held)| <= MAX_STOPPED_SERVICES then |StoppedIds(held)| else MAX_STOPPED_SERVICES
  {
    assert Crowded(held) <= StoppedIds(held);
    hide Crowded, SortBy, StoppedIds, EvictedBefore, Ranked, NoRepeats, CandidateIds;
    RankStopped(held);
    var ranked := SortBy(Candidates(held, Keys(StoppedIds(held))), CandidateLeq);
    VictimsAreCrowded(held, ranked);
    var excess := if |ranked| <= MAX_STOPPED_SERVICES then 0 else |ranked| - MAX_STOPPED_SERVICES;
    NoRepeatsCounts(CandidateIds(ranked[..excess]));
    IdsLength(ranked[..excess]);
  }

  lemma IdsLength(ranked: seq<(Time, ServiceId)>)
    ensures |CandidateIds(ranked)| == |ranked|
  {
  }

  /** The oldest go first. */
  lemma CapKeepsNewest(held: map<ServiceId, Entered>, v: ServiceId, s: ServiceId)
    requires v in Crowded(held) && s in StoppedIds(held) - Crowded(held)
    ensures EvictedBefore(held, v, s)
  {
    hide Crowded, SortBy, StoppedIds, EvictedBefore, Ranked, NoRepeats;
    RankStopped(held);
    var ranked := SortBy(Candidates(held, Keys(StoppedIds(held))), CandidateLeq);
    VictimsAreCrowded(held, ranked);
    RankedIds(held, ranked);
    var excess := if |ranked| <= MAX_STOPPED_SERVICES then 0 else |ranked| - MAX_STOPPED_SERVICES;
    var victims := CandidateIds(ranked[..excess]);
    assert v in victims;
    var i :| 0 <= i < |victims| && victims[i] == v;
    var j :| 0 <= j < |ranked| && CandidateIds(ranked)[j] == s;
    assert forall k :: 0 <= k < |victims| ==> victims[k] == CandidateIds(ranked)[k] && victims[k] != s;
    RankedOrder(held, ranked, i, j);
  }

  lemma RankedOrder(held: map<ServiceId, Entered>, ranked: seq<(Time, ServiceId)>, i: nat, j: nat)
    requires Ranked(held, ranked) && i < j < |ranked|
    ensures ranked[i].1 in held && ranked[j].1 in held && EvictedBefore(held, ranked[i].1, ranked[j].1)
  {
    assert ranked[i] in ranked && ranked[j] in ranked && CandidateLeq(ranked[i], ranked[j]) && ranked[i] != ranked[j];
  }

  /** After every batch: a bounded number of stopped services, no running
      service evicted, the cap applied in order of silence, and no portless
      host process kept past its window. */
  lemma RetentionIsBounded(held: map<ServiceId, Entered>, seen: map<ServiceId, Finished>, at: Time)
    requires Wf(held) && Sound(held, seen)
    ensures var reconciled, after := Reconciled(held, seen, at), After(held, seen, at);
      && |StoppedIds(after)| <= MAX_STOPPED_SERVICES
      && |after| <= MAX_STOPPED_SERVICES + |seen|
      && seen.Keys <= after.Keys
      && Evicted(reconciled, at) <= StoppedIds(reconciled)
      && (forall v, s :: v in Evicted(reconciled, at) - Expired(reconciled, at) && s in StoppedIds(after)
            ==> EvictedBefore(reconciled, v, s))
      && (forall id :: id in StoppedIds(after) && !RetainWhenStopped(after[id])
            ==> at - after[id].service.lastSeen <= STOPPED_PORTLESS_RETENTION)
  {
    var reconciled := Reconciled(held, seen, at);
    hide Reconciled, Wf, Sound;
    ObservedRun(held, seen, at);
    EvictionIsBounded(reconciled, at, seen.Keys);
    assert |seen| == |seen.Keys|;
  }

  lemma EvictionIsBounded(reconciled: map<ServiceId, Entered>, at: Time, running: set<ServiceId>)
    requires running <= reconciled.Keys && StoppedIds(reconciled) == reconciled.Keys - running
    ensures var after := reconciled - Evicted(reconciled, at);
      && |StoppedIds(after)| <= MAX_STOPPED_SERVICES
      && |after| <= MAX_STOPPED_SERVICES + |running|
      && running <= after.Keys
      && Evicted(reconciled, at) <= StoppedIds(reconciled)
      && (forall v, s :: v in Evicted(reconciled, at) - Expired(reconciled, at) && s in StoppedIds(after)
            ==> EvictedBefore(reconciled, v, s))
      && (forall id :: id in StoppedIds(after) && !RetainWhenStopped(after[id])
            ==> at - after[id].service.lastSeen <= STOPPED_PORTLESS_RETENTION)
  {
    hide Crowded, IsRunning;
    var expired := Expired(reconciled, at);
    var first := reconciled - expired;
    var crowded := Crowded(first);
    var after := reconciled - Evicted(reconciled, at);
    EvictedSplits(reconciled, at);
    assert expired <= StoppedIds(reconciled);
    StoppedAfter(reconciled, expired);
    CapSize(first);
    StoppedAfter(first, crowded);
    assert after == first - crowded;
    assert after.Keys == StoppedIds(after) + running;
    UnionBound(StoppedIds(after), running);
    assert |after| == |after.Keys|;
    forall v, s | v in crowded && s in StoppedIds(after) ensures EvictedBefore(reconciled, v, s) {
      CapKeepsNewest(first, v, s);
    }
  }

  lemma UnionBound(a: set<ServiceId>, b: set<ServiceId>)
    ensures |a + b| <= |a| + |b|
  {
    assert a + b == a + (b - a);
    SubsetSize(b - a, b);
  }

  /** What was observed runs; everything else has stopped. */
  lemma ObservedRun(held: map<ServiceId, Entered>, seen: map<ServiceId, Finished>, at: Time)
    requires Wf(held) && Sound(held, seen)
    ensures StoppedIds(Reconciled(held, seen, at)) == Reconciled(held, seen, at).Keys - seen.Keys
    ensures seen.Keys <= Reconciled(held, seen, at).Keys
  {
    hide WfEntered, WfFinished, Reconcile, IsRunning;
    var reconciled := Reconciled(held, seen, at);
    forall id | id in reconciled ensures IsRunning(reconciled[id].service) <==> id in seen {
      ReconcileKeepsWf(id, Lookup(held, id), Lookup(seen, id), at);
    }
  }
}
