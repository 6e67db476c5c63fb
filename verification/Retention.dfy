/** Batched retention over the tables of the store, as sets of rows. */
module Retention {
  import opened Basics
  import opened Model
  import opened Sorting

  /** Rows removed per statement. */
  const BATCH := 512

  const I64_MAX := 0x7FFF_FFFF_FFFF_FFFF
  const I64_MIN := -0x8000_0000_0000_0000
  const MILLISECOND: Time := 1_000_000

  /** `id` is the primary key, as its place in text order. */
  datatype EventRow = EventRow(id: nat, at: int)

  /** Samples have no key of their own, only the row number. */
  datatype SampleRow = SampleRow(rowid: nat, service: ServiceId, at: int)

  datatype RetentionPolicy = RetentionPolicy(
    maxEvents: nat,
    eventMaxAge: nat,
    sampleMaxAge: nat,
    maxSamplesPerService: nat)

  datatype RetentionReport = RetentionReport(eventsDeleted: nat, samplesDeleted: nat)

  // ------------------------------------------------------------------- cutoff

  function Clamp(n: int): int {
    if n < I64_MIN then I64_MIN else if n > I64_MAX then I64_MAX else n
  }

  /** Whole milliseconds since the epoch, toward zero. */
  function ToMillis(at: Time): int {
    if at >= 0 then Clamp(at / MILLISECOND) else Clamp(-(-at / MILLISECOND))
  }

  function Cutoff(now: Time, age: nat): int {
    Clamp(ToMillis(now) - Clamp(age / MILLISECOND))
  }

  /** The later the pass, the later the cutoff; a longer age never expires more. */
  lemma CutoffIsMonotonic(now: Time, later: Time, age: nat, older: nat)
    requires now <= later && age <= older
    ensures Cutoff(now, older) <= Cutoff(later, age)
  {
    DivideMonotonic(age, older);
    if now >= 0 {
      DivideMonotonic(now, later);
    } else if later < 0 {
      DivideMonotonic(-later, -now);
    }
  }

  /** A moment, or the time a row carries, as the column stores it. */
  predicate Stored(at: int) {
    -0x8000_0000_0000_0000 <= at <= 0x7FFF_FFFF_FFFF_FFFF
  }

  /** The millisecond a moment falls into, counted from the epoch toward zero,
      and the end of the 64-bit range for moments beyond it. */
  function MomentMillis(now: Time): int {
    if now >= 0x8000_0000_0000_0000 * 1_000_000 then 0x7FFF_FFFF_FFFF_FFFF
    else if now >= 0 then now / 1_000_000
    else if now <= -0x8000_0000_0000_0000 * 1_000_000 then -0x8000_0000_0000_0000
    else -(-now / 1_000_000)
  }

  /** The whole milliseconds of an age, no more than 64 bits hold. */
  function AgeMillis(age: nat): nat {
    if age >= 0x8000_0000_0000_0000 * 1_000_000 then 0x7FFF_FFFF_FFFF_FFFF else age / 1_000_000
  }

  /** Earlier than now by more milliseconds than the age has. */
  predicate Outlived(at: int, now: Time, age: nat) {
    MomentMillis(now) - at > AgeMillis(age)
  }

  /** A row is past the cutoff exactly if it has outlived its age, wherever the
      arithmetic saturates. */
  lemma ExpiredExactly(at: int, now: Time, age: nat)
    requires Stored(at)
    ensures at < Cutoff(now, age) <==> Outlived(at, now, age)
    ensures 0 <= now < 0x8000_0000_0000_0000 * 1_000_000 && age < 0x8000_0000_0000_0000 * 1_000_000 ==>
      (at < Cutoff(now, age) <==> now / 1_000_000 - at > age / 1_000_000)
  {
    WholeMillis(age);
    if now >= 0 { WholeMillis(now); } else { WholeMillis(-now); }
  }

  lemma WholeMillis(n: nat)
    ensures n / MILLISECOND == n / 1_000_000
    ensures n >= 0x8000_0000_0000_0000 * 1_000_000 <==> n / 1_000_000 >= 0x8000_0000_0000_0000
  {
  }

  lemma DivideMonotonic(a: nat, b: nat)
    requires a <= b
    ensures a / MILLISECOND <= b / MILLISECOND
  {
  }

  // ------------------------------------------------------- lowest and newest

  function Least(a: nat, b: nat): nat {
    if a <= b then a else b
  }

  /** What a statement that deletes the first `n` rows in an order removes; the
      order need not decide between ties. */
  ghost predicate IsLowest<T(!new)>(victims: set<T>, rows: set<T>, n: nat, leq: (T, T) -> bool) {
    victims <= rows && |victims| == Least(n, |rows|) && forall v, u :: v in victims && u in rows - victims ==> leq(v, u)
  }

  /** The last `n` rows in an order. */
  ghost predicate IsNewest<T(!new)>(kept: set<T>, rows: set<T>, n: nat, leq: (T, T) -> bool) {
    kept <= rows && |kept| == Least(n, |rows|) && forall k, d :: k in kept && d in rows - kept ==> leq(d, k)
  }

  lemma SizeOfRest<T>(part: set<T>, rows: set<T>)
    requires part <= rows
    ensures |rows - part| == |rows| - |part|
  {
    assert rows == (rows - part) + part;
  }

  lemma {:induction false} MinimumExists<T(!new)>(rows: set<T>, leq: (T, T) -> bool)
    requires TotalOrder(leq) && rows != {}
    ensures exists m :: m in rows && forall x :: x in rows ==> leq(m, x)
  {
    assert (forall x :: x !in rows) ==> rows == {};
    var y :| y in rows;
    var rest := rows - {y};
    if rest == {} {
      assert rows == {y} && leq(y, y);
    } else {
      MinimumExists(rest, leq);
      var m :| m in rest && forall x :: x in rest ==> leq(m, x);
      assert forall x :: x in rows ==> x in rest || x == y;
      assert leq(y, y);
      var least := if leq(y, m) then y else m;
      assert least in rows && forall x :: x in rows ==> leq(least, x);
    }
  }

  /** The rows one statement selects. */
  method SelectLowest<T(!new, ==)>(rows: set<T>, n: nat, leq: (T, T) -> bool) returns (victims: set<T>)
    requires TotalOrder(leq)
    ensures IsLowest(victims, rows, n, leq)
  {
    victims := {};
    var rest := rows;
    while |victims| < n && rest != {}
      invariant victims <= rows && rest == rows - victims && |victims| <= n
      invariant forall v, u :: v in victims && u in rest ==> leq(v, u)
      decreases rest
    {
      hide TotalOrder;
      MinimumExists(rest, leq);
      var m :| m in rest && forall x :: x in rest ==> leq(m, x);
      victims := victims + {m};
      rest := rest - {m};
    }
    SizeOfRest(victims, rows);
  }

  /** Removing the lowest rows twice removes the lowest rows. */
  lemma LowestAgain<T(!new)>(first: set<T>, second: set<T>, rows: set<T>, n: nat, m: nat, leq: (T, T) -> bool)
    requires IsLowest(first, rows, n, leq) && IsLowest(second, rows - first, m, leq)
    ensures IsLowest(first + second, rows, n + m, leq)
    ensures rows - first - second == rows - (first + second)
  {
    SizeOfRest(first, rows);
    assert first !! second;
  }

  lemma RestIsNewest<T(!new)>(victims: set<T>, rows: set<T>, n: nat, leq: (T, T) -> bool)
    requires IsLowest(victims, rows, n, leq)
    ensures IsNewest(rows - victims, rows, |rows| - Least(n, |rows|), leq)
  {
    SizeOfRest(victims, rows);
    assert rows - (rows - victims) == victims;
  }

  /** With an order that decides every tie, the newest rows are unique. */
  lemma NewestUnique<T(!new)>(a: set<T>, b: set<T>, rows: set<T>, n: nat, leq: (T, T) -> bool)
    requires IsNewest(a, rows, n, leq) && IsNewest(b, rows, n, leq)
    requires forall x, y :: x in rows && y in rows && leq(x, y) && leq(y, x) ==> x == y
    ensures a == b
  {
    if x :| x in a && x !in b {
      NotAllInside(a, b, x);
    } else {
      assert a <= b;
      SameSize(a, b);
    }
  }

  lemma NotAllInside<T>(a: set<T>, b: set<T>, x: T)
    requires |a| == |b| && x in a && x !in b
    ensures exists y :: y in b && y !in a
  {
    if b <= a {
      ProperIsSmaller(b, a, x);
    }
  }

  lemma ProperIsSmaller<T>(part: set<T>, rows: set<T>, x: T)
    requires part <= rows && x in rows && x !in part
    ensures |part| < |rows|
  {
    SizeOfRest(part, rows);
    assert x in rows - part;
  }

  lemma SameSize<T>(a: set<T>, b: set<T>)
    requires a <= b && |a| == |b|
    ensures a == b
  {
    SizeOfRest(a, b);
  }

  // ------------------------------------------------------------------- orders

  predicate EventLeq(a: EventRow, b: EventRow) {
    a.at < b.at || (a.at == b.at && a.id <= b.id)
  }

  predicate EventAtLeq(a: EventRow, b: EventRow) {
    a.at <= b.at
  }

  predicate SampleLeq(a: SampleRow, b: SampleRow) {
    a.at <= b.at
  }

  function RecentEvents(rows: set<EventRow>, cutoff: int): set<EventRow> {
    set r | r in rows && r.at >= cutoff
  }

  function RecentSamples(rows: set<SampleRow>, cutoff: int): set<SampleRow> {
    set r | r in rows && r.at >= cutoff
  }

  function SamplesOf(rows: set<SampleRow>, service: ServiceId): set<SampleRow> {
    set r | r in rows && r.service == service
  }

  function ServicesIn(rows: set<SampleRow>): set<ServiceId> {
    set r | r in rows :: r.service
  }

  function Counts(rows: set<SampleRow>, services: seq<ServiceId>): seq<nat> {
    seq(|services|, i requires 0 <= i < |services| => |SamplesOf(rows, services[i])|)
  }

  /** Nothing left for a pass to do. */
  predicate NothingToDo(events: set<EventRow>, samples: set<SampleRow>, policy: RetentionPolicy, now: Time) {
    && RecentEvents(events, Cutoff(now, policy.eventMaxAge)) == events && |events| <= policy.maxEvents
    && RecentSamples(samples, Cutoff(now, policy.sampleMaxAge)) == samples
    && forall service :: service in ServicesIn(samples) ==> |SamplesOf(samples, service)| <= policy.maxSamplesPerService
  }

  /** Each service keeps its own newest samples. */
  ghost predicate TrimmedPerService(kept: set<SampleRow>, rows: set<SampleRow>, cap: nat) {
    && kept <= rows
    && forall service: ServiceId :: IsNewest(SamplesOf(kept, service), SamplesOf(rows, service), cap, SampleLeq)
  }

  lemma Orders()
    ensures TotalOrder(EventLeq) && TotalOrder(EventAtLeq) && TotalOrder(SampleLeq)
  {
  }

  // ------------------------------------------------------------- transactions

  /** Both tables. */
  datatype Rows = Rows(events: set<EventRow>, samples: set<SampleRow>)

  /** A policy as of one moment. */
  datatype Limits = Limits(eventCutoff: int, maxEvents: nat, sampleCutoff: int, maxSamples: nat)

  function LimitsOf(policy: RetentionPolicy, now: Time): Limits {
    Limits(Cutoff(now, policy.eventMaxAge), policy.maxEvents,
           Cutoff(now, policy.sampleMaxAge), policy.maxSamplesPerService)
  }

  function ExpiredEvents(rows: set<EventRow>, cutoff: int): set<EventRow> {
    set r | r in rows && r.at < cutoff
  }

  function ExpiredSamples(rows: set<SampleRow>, cutoff: int): set<SampleRow> {
    set r | r in rows && r.at < cutoff
  }

  /** Lowest rows are gone, and at least `keep` are left. How many go was
      counted when the pass began, so rows recorded since may be over. */
  ghost predicate Trimmed<T(!new)>(before: set<T>, after: set<T>, keep: nat, leq: (T, T) -> bool) {
    && after <= before && keep <= |after| && |before - after| <= BATCH
    && IsLowest(before - after, before, |before - after|, leq)
  }

  ghost predicate EventBatch(before: set<EventRow>, after: set<EventRow>, cutoff: int, keep: nat) {
    || (after <= before && IsLowest(before - after, ExpiredEvents(before, cutoff), BATCH, EventAtLeq))
    || Trimmed(before, after, keep, EventLeq)
  }

  ghost predicate SampleBatch(before: set<SampleRow>, after: set<SampleRow>, cutoff: int, cap: nat) {
    || (after <= before && IsLowest(before - after, ExpiredSamples(before, cutoff), BATCH, SampleLeq))
    || exists service :: TrimsOne(before, after, service, cap)
  }

  ghost predicate TrimsOne(before: set<SampleRow>, after: set<SampleRow>, service: ServiceId, cap: nat) {
    && after <= before
    && (forall other :: other != service ==> SamplesOf(after, other) == SamplesOf(before, other))
    && Trimmed(SamplesOf(before, service), SamplesOf(after, service), cap, SampleLeq)
  }

  /** One statement of a pass, its own transaction: of the expired rows or of
      those in excess it removes the lowest. */
  ghost predicate Transaction(before: Rows, after: Rows, limits: Limits) {
    || (after.samples == before.samples
        && EventBatch(before.events, after.events, limits.eventCutoff, limits.maxEvents))
    || (after.events == before.events
        && SampleBatch(before.samples, after.samples, limits.sampleCutoff, limits.maxSamples))
  }

  /** A transaction removes rows of one table, at most 512 of them. */
  lemma TransactionIsSmall(before: Rows, after: Rows, limits: Limits)
    requires Transaction(before, after, limits)
    ensures after.events <= before.events && after.samples <= before.samples
    ensures after.events == before.events || after.samples == before.samples
    ensures |before.events - after.events| <= 512 && |before.samples - after.samples| <= 512
  {
    if after.samples == before.samples {
      assert before.samples - after.samples == {};
    }
    if after.events == before.events {
      assert before.events - after.events == {};
      if service :| TrimsOne(before.samples, after.samples, service, limits.maxSamples) {
        forall d | d in before.samples - after.samples ensures d in SamplesOf(before.samples, service) {
          assert d in SamplesOf(before.samples, d.service) && d !in SamplesOf(after.samples, d.service);
        }
        assert before.samples - after.samples
          == SamplesOf(before.samples, service) - SamplesOf(after.samples, service);
      }
    }
  }

  /** Everything the tables were between one transaction and the next. */
  ghost predicate Transactions(trace: seq<Rows>, first: Rows, last: Rows, limits: Limits) {
    && trace != [] && trace[0] == first && trace[|trace| - 1] == last
    && forall i :: 0 <= i < |trace| - 1 ==> Transaction(trace[i], trace[i + 1], limits)
  }

  lemma NoneYet(rows: Rows, limits: Limits)
    ensures Transactions([rows], rows, rows, limits)
  {
  }

  lemma OneMore(trace: seq<Rows>, first: Rows, last: Rows, next: Rows, limits: Limits)
    requires Transactions(trace, first, last, limits) && Transaction(last, next, limits)
    ensures Transactions(trace + [next], first, next, limits)
  {
    hide Transaction;
  }

  lemma TraceConcat(a: seq<Rows>, b: seq<Rows>, first: Rows, middle: Rows, last: Rows, limits: Limits)
    requires Transactions(a, first, middle, limits) && Transactions(b, middle, last, limits)
    ensures Transactions(a + b[1..], first, last, limits)
  {
    hide Transaction;
    var trace := a + b[1..];
    forall i | 0 <= i < |trace| - 1 ensures Transaction(trace[i], trace[i + 1], limits) {
      if i >= |a| - 1 {
        assert trace[i] == b[i - |a| + 1] && trace[i + 1] == b[i - |a| + 2];
      }
    }
  }

  // ---------------------------------------------------------------- the store

  class Store {
    var events: set<EventRow>
    var samples: set<SampleRow>

    constructor (events: set<EventRow>, samples: set<SampleRow>)
      ensures this.events == events && this.samples == samples
    {
      this.events, this.samples := events, samples;
    }

    function Held(): Rows
      reads this
    {
      Rows(events, samples)
    }

    method DeleteEventsOlderThan(cutoff: int, ghost limits: Limits) returns (deleted: nat, ghost trace: seq<Rows>)
      requires limits.eventCutoff == cutoff
      modifies this`events
      ensures events == RecentEvents(old(events), cutoff)
      ensures deleted == |old(events)| - |events|
      ensures Transactions(trace, old(Held()), Held(), limits)
    {
      hide Transactions, Transaction, TotalOrder;
      deleted := 0;
      trace := [Held()];
      NoneYet(Held(), limits);
      Orders();
      while true
        invariant RecentEvents(old(events), cutoff) <= events <= old(events)
        invariant deleted == |old(events)| - |events|
        invariant Transactions(trace, old(Held()), Held(), limits)
        decreases |events|
      {
        var matching := ExpiredEvents(events, cutoff);
        var victims := SelectLowest(matching, BATCH, EventAtLeq);
        SizeOfRest(victims, events);
        ExpiryOfEvents(Held(), victims, limits);
        OneMore(trace, old(Held()), Held(), Rows(events - victims, samples), limits);
        events := events - victims;
        trace := trace + [Held()];
        deleted := deleted + |victims|;
        if |victims| < BATCH {
          SameSize(victims, matching);
          return;
        }
      }
    }

    method DeleteSamplesOlderThan(cutoff: int, ghost limits: Limits) returns (deleted: nat, ghost trace: seq<Rows>)
      requires limits.sampleCutoff == cutoff
      modifies this`samples
      ensures samples == RecentSamples(old(samples), cutoff)
      ensures deleted == |old(samples)| - |samples|
      ensures Transactions(trace, old(Held()), Held(), limits)
    {
      hide Transactions, Transaction, TotalOrder;
      deleted := 0;
      trace := [Held()];
      NoneYet(Held(), limits);
      Orders();
      while true
        invariant RecentSamples(old(samples), cutoff) <= samples <= old(samples)
        invariant deleted == |old(samples)| - |samples|
        invariant Transactions(trace, old(Held()), Held(), limits)
        decreases |samples|
      {
        var matching := ExpiredSamples(samples, cutoff);
        var victims := SelectLowest(matching, BATCH, SampleLeq);
        SizeOfRest(victims, samples);
        ExpiryOfSamples(Held(), victims, limits);
        OneMore(trace, old(Held()), Held(), Rows(events, samples - victims), limits);
        samples := samples - victims;
        trace := trace + [Held()];
        deleted := deleted + |victims|;
        if |victims| < BATCH {
          SameSize(victims, matching);
          return;
        }
      }
    }

    /** Delete the lowest events until no more than `keep` are left. */
    method TrimEvents(keep: nat, ghost limits: Limits) returns (deleted: nat, ghost trace: seq<Rows>)
      requires limits.maxEvents == keep
      modifies this`events
      ensures IsNewest(events, old(events), keep, EventLeq)
      ensures deleted == |old(events)| - |events|
      ensures Transactions(trace, old(Held()), Held(), limits)
    {
      hide Transactions, Transaction, TotalOrder;
      ghost var rows := events;
      ghost var gone: set<EventRow> := {};
      var total := |events|;
      var excess := if total > keep then total - keep else 0;
      ghost var start := excess;
      deleted := 0;
      trace := [Held()];
      NoneYet(Held(), limits);
      Orders();
      while excess > 0
        invariant 0 <= excess <= start <= |rows| && gone <= rows && events == rows - gone
        invariant IsLowest(gone, rows, start - excess, EventLeq) && deleted == |gone| == start - excess
        invariant Transactions(trace, old(Held()), Held(), limits)
      {
        var n := Least(excess, BATCH);
        var victims := SelectLowest(events, n, EventLeq);
        SizeOfRest(gone, rows);
        LowestAgain(gone, victims, rows, start - excess, n, EventLeq);
        if |victims| == 0 {
          break;
        }
        TrimOfEvents(Held(), victims, n, limits);
        OneMore(trace, old(Held()), Held(), Rows(events - victims, samples), limits);
        gone := gone + victims;
        events := events - victims;
        trace := trace + [Held()];
        deleted := deleted + |victims|;
        excess := excess - Least(|victims|, excess);
      }
      RestIsNewest(gone, rows, start, EventLeq);
      SizeOfRest(gone, rows);
    }

    /** Delete `total` of the lowest samples of one service. */
    method TrimOneService(service: ServiceId, total: nat, ghost limits: Limits)
      returns (deleted: nat, ghost trace: seq<Rows>)
      requires total + limits.maxSamples <= |SamplesOf(samples, service)|
      modifies this`samples
      ensures samples <= old(samples)
      ensures IsNewest(SamplesOf(samples, service), SamplesOf(old(samples), service),
          |SamplesOf(old(samples), service)| - total, SampleLeq)
      ensures forall other :: other != service ==> SamplesOf(samples, other) == SamplesOf(old(samples), other)
      ensures deleted == |old(samples)| - |samples|
      ensures Transactions(trace, old(Held()), Held(), limits)
    {
      hide Transactions, Transaction, TotalOrder, IsNewest;
      ghost var all := samples;
      ghost var rows := SamplesOf(samples, service);
      ghost var gone: set<SampleRow> := {};
      var excess := total;
      deleted := 0;
      trace := [Held()];
      NoneYet(Held(), limits);
      Orders();
      while excess > 0
        invariant 0 <= excess <= total && gone <= rows && samples == all - gone
            && SamplesOf(samples, service) == rows - gone
        invariant IsLowest(gone, rows, total - excess, SampleLeq) && deleted == |gone| == total - excess
        invariant Transactions(trace, old(Held()), Held(), limits)
      {
        hide Least;
        var n := Least(excess, BATCH);
        var victims := SelectLowest(SamplesOf(samples, service), n, SampleLeq);
        SizeOfRest(gone, rows);
        LowestAgain(gone, victims, rows, total - excess, n, SampleLeq);
        if |victims| == 0 {
          break;
        }
        LeastBounds(excess, BATCH);
        TrimOfSamples(Held(), service, victims, n, limits);
        OneMore(trace, old(Held()), Held(), Rows(events, samples - victims), limits);
        gone := gone + victims;
        samples := samples - victims;
        trace := trace + [Held()];
        deleted := deleted + |victims|;
        excess := excess - Least(|victims|, excess);
      }
      RestIsNewest(gone, rows, total, SampleLeq);
      SizeOfRest(gone, all);
    }

    /** Every service is trimmed to its own cap, whatever the others hold. */
    method TrimSamplesPerService(keep: nat, ghost limits: Limits) returns (deleted: nat, ghost trace: seq<Rows>)
      requires limits.maxSamples == keep
      modifies this`samples
      ensures TrimmedPerService(samples, old(samples), keep)
      ensures deleted == |old(samples)| - |samples|
      ensures Transactions(trace, old(Held()), Held(), limits)
    {
      hide IsNewest, SamplesOf, Keys, ServicesIn, Transaction;
      ghost var rows := samples;
      var services := Keys(ServicesIn(samples));
      var counts := Counts(samples, services);
      deleted := 0;
      trace := [Held()];
      NoneYet(Held(), limits);
      assert services[..0] == [];
      for i := 0 to |services|
        invariant samples <= rows && deleted == |rows| - |samples|
        invariant Trimming(samples, rows, services, i, keep)
        invariant Transactions(trace, old(Held()), Held(), limits)
      {
        if counts[i] > keep {
          ghost var before := samples;
          NotYetVisited(samples, rows, services, i, keep);
          ghost var held := Held();
          var removed, trimming := TrimOneService(services[i], counts[i] - keep, limits);
          TrimmingStep(before, samples, rows, services, i, keep);
          TraceConcat(trace, trimming, old(Held()), held, Held(), limits);
          trace := trace + trimming[1..];
          deleted := deleted + removed;
        } else {
          AllNewest(SamplesOf(rows, services[i]), keep);
          NotYetVisited(samples, rows, services, i, keep);
          TrimmingStep(samples, samples, rows, services, i, keep);
        }
      }
      EveryService(samples, rows, services, keep);
    }

    /** One retention pass. */
    method Run(policy: RetentionPolicy, now: Time) returns (report: RetentionReport, ghost trace: seq<Rows>)
      modifies this
      ensures PassLeaves(Held(), old(Held()), LimitsOf(policy, now))
      ensures Transactions(trace, old(Held()), Held(), LimitsOf(policy, now))
      ensures old(AllStored(Held())) ==>
        YoungestEventsStay(events, old(events), policy, now) && YoungestSamplesStay(samples, old(samples), policy, now)
      ensures report.eventsDeleted == |old(events)| - |events| && report.samplesDeleted == |old(samples)| - |samples|
      ensures NothingToDo(events, samples, policy, now)
      ensures old(NothingToDo(events, samples, policy, now)) ==>
        report == RetentionReport(0, 0) && events == old(events) && samples == old(samples)
    {
      hide TotalOrder, Cutoff, Transaction, YoungestEventsStay, YoungestSamplesStay, AllStored;
      ghost var limits := LimitsOf(policy, now);
      ghost var first := Held();
      var expired, a := DeleteEventsOlderThan(Cutoff(now, policy.eventMaxAge), limits);
      ghost var second := Held();
      var over, b := TrimEvents(policy.maxEvents, limits);
      TraceConcat(a, b, first, second, Held(), limits);
      ghost var third := Held();
      var expiredSamples, c := DeleteSamplesOlderThan(Cutoff(now, policy.sampleMaxAge), limits);
      TraceConcat(a + b[1..], c, first, third, Held(), limits);
      ghost var fourth := Held();
      var overSamples, d := TrimSamplesPerService(policy.maxSamplesPerService, limits);
      TraceConcat(a + b[1..] + c[1..], d, first, fourth, Held(), limits);
      trace := a + b[1..] + c[1..] + d[1..];
      PassSettles(old(samples), fourth.samples, samples, Cutoff(now, policy.sampleMaxAge), policy.maxSamplesPerService);
      report := RetentionReport(expired + over, expiredSamples + overSamples);
      if old(NothingToDo(events, samples, policy, now)) {
        NothingToDoStays(old(events), old(samples), events, samples, policy, now);
      }
      if AllStored(first) {
        PassByAge(Held(), first, policy, now);
      }
    }
  }

  /** What a pass may leave of the rows: the newest events and, service by
      service, the newest samples that have not expired. */
  ghost predicate PassLeaves(left: Rows, rows: Rows, limits: Limits) {
    && IsNewest(left.events, RecentEvents(rows.events, limits.eventCutoff), limits.maxEvents, EventLeq)
    && TrimmedPerService(left.samples, RecentSamples(rows.samples, limits.sampleCutoff), limits.maxSamples)
  }

  predicate AllStored(rows: Rows) {
    (forall r :: r in rows.events ==> Stored(r.at)) && forall r :: r in rows.samples ==> Stored(r.at)
  }

  function YoungEvents(rows: set<EventRow>, policy: RetentionPolicy, now: Time): set<EventRow> {
    set r | r in rows && !Outlived(r.at, now, policy.eventMaxAge)
  }

  /** Of these events exactly the young ones stay, and of more than the cap the
      latest, ties going to the higher id. */
  ghost predicate YoungestEventsStay(left: set<EventRow>, rows: set<EventRow>, policy: RetentionPolicy, now: Time) {
    var young := YoungEvents(rows, policy, now);
    && left <= young
    && (|young| <= policy.maxEvents ==> left == young)
    && (|young| > policy.maxEvents ==> |left| == policy.maxEvents)
    && forall k, d :: k in left && d in young && d !in left ==> d.at < k.at || (d.at == k.at && d.id <= k.id)
  }

  /** The young samples of one service. */
  function YoungOf(rows: set<SampleRow>, service: ServiceId, policy: RetentionPolicy, now: Time): set<SampleRow> {
    set r | r in rows && r.service == service && !Outlived(r.at, now, policy.sampleMaxAge)
  }

  /** The same of the samples of every service by itself. */
  ghost predicate YoungestSamplesStay(left: set<SampleRow>, rows: set<SampleRow>, policy: RetentionPolicy, now: Time) {
    forall service :: YoungestOfServiceStay(left, rows, service, policy, now)
  }

  ghost predicate YoungestOfServiceStay(left: set<SampleRow>, rows: set<SampleRow>, service: ServiceId,
          policy: RetentionPolicy, now: Time)
  {
    var young := YoungOf(rows, service, policy, now);
    var kept := SamplesOf(left, service);
    && kept <= young
    && (|young| <= policy.maxSamplesPerService ==> kept == young)
    && (|young| > policy.maxSamplesPerService ==> |kept| == policy.maxSamplesPerService)
    && forall k, d :: k in kept && d in young && d !in kept ==> d.at <= k.at
  }

  /** What a pass leaves, by the ages of the rows alone. */
  lemma PassByAge(left: Rows, rows: Rows, policy: RetentionPolicy, now: Time)
    requires PassLeaves(left, rows, LimitsOf(policy, now)) && AllStored(rows)
    ensures YoungestEventsStay(left.events, rows.events, policy, now)
    ensures YoungestSamplesStay(left.samples, rows.samples, policy, now)
  {
    hide Cutoff, Outlived, Stored;
    var limits := LimitsOf(policy, now);
    RecentAreYoung(rows.events, policy, now);
    NewestStay(left.events, YoungEvents(rows.events, policy, now), policy.maxEvents, EventLeq);
    forall service ensures YoungestOfServiceStay(left.samples, rows.samples, service, policy, now) {
      YoungSamples(rows.samples, service, policy, now);
      NewestStay(SamplesOf(left.samples, service), YoungOf(rows.samples, service, policy, now),
        policy.maxSamplesPerService, SampleLeq);
    }
  }

  lemma RecentAreYoung(rows: set<EventRow>, policy: RetentionPolicy, now: Time)
    requires forall r :: r in rows ==> Stored(r.at)
    ensures RecentEvents(rows, Cutoff(now, policy.eventMaxAge)) == YoungEvents(rows, policy, now)
  {
    hide Cutoff, Outlived, Stored;
    forall r | r in rows
      ensures r.at < Cutoff(now, policy.eventMaxAge) <==> Outlived(r.at, now, policy.eventMaxAge)
    {
      ExpiredExactly(r.at, now, policy.eventMaxAge);
    }
  }

  lemma YoungSamples(rows: set<SampleRow>, service: ServiceId, policy: RetentionPolicy, now: Time)
    requires forall r :: r in rows ==> Stored(r.at)
    ensures SamplesOf(RecentSamples(rows, Cutoff(now, policy.sampleMaxAge)), service)
         == YoungOf(rows, service, policy, now)
  {
    hide Cutoff, Outlived, Stored;
    forall r | r in rows
      ensures r.at < Cutoff(now, policy.sampleMaxAge) <==> Outlived(r.at, now, policy.sampleMaxAge)
    {
      ExpiredExactly(r.at, now, policy.sampleMaxAge);
    }
  }

  lemma NewestStay<T(!new)>(kept: set<T>, rows: set<T>, n: nat, leq: (T, T) -> bool)
    requires IsNewest(kept, rows, n, leq)
    ensures kept <= rows && (|rows| <= n ==> kept == rows) && (|rows| > n ==> |kept| == n)
    ensures forall k, d :: k in kept && d in rows && d !in kept ==> leq(d, k)
  {
    if |rows| <= n {
      SameSize(kept, rows);
    }
    assert forall d :: d in rows && d !in kept ==> d in rows - kept;
  }

  lemma LeastBounds(a: nat, b: nat)
    ensures Least(a, b) <= a && Least(a, b) <= b
  {
  }

  lemma ExpiryOfEvents(held: Rows, victims: set<EventRow>, limits: Limits)
    requires IsLowest(victims, ExpiredEvents(held.events, limits.eventCutoff), BATCH, EventAtLeq)
    ensures Transaction(held, Rows(held.events - victims, held.samples), limits)
  {
    assert held.events - (held.events - victims) == victims;
  }

  lemma ExpiryOfSamples(held: Rows, victims: set<SampleRow>, limits: Limits)
    requires IsLowest(victims, ExpiredSamples(held.samples, limits.sampleCutoff), BATCH, SampleLeq)
    ensures Transaction(held, Rows(held.events, held.samples - victims), limits)
  {
    assert held.samples - (held.samples - victims) == victims;
  }

  lemma TrimOfEvents(held: Rows, victims: set<EventRow>, n: nat, limits: Limits)
    requires IsLowest(victims, held.events, n, EventLeq) && n <= BATCH && limits.maxEvents + n <= |held.events|
    ensures Transaction(held, Rows(held.events - victims, held.samples), limits)
  {
    assert held.events - (held.events - victims) == victims;
    SizeOfRest(victims, held.events);
  }

  lemma TrimOfSamples(held: Rows, service: ServiceId, victims: set<SampleRow>, n: nat, limits: Limits)
    requires IsLowest(victims, SamplesOf(held.samples, service), n, SampleLeq)
    requires n <= BATCH && limits.maxSamples + n <= |SamplesOf(held.samples, service)|
    ensures Transaction(held, Rows(held.events, held.samples - victims), limits)
  {
    var (before, after) := (held.samples, held.samples - victims);
    assert SamplesOf(after, service) == SamplesOf(before, service) - victims;
    assert SamplesOf(before, service) - SamplesOf(after, service) == victims;
    SizeOfRest(victims, SamplesOf(before, service));
    assert TrimsOne(before, after, service, limits.maxSamples);
  }

  /** The first `i` services have been trimmed, the others not yet. */
  ghost predicate Trimming(kept: set<SampleRow>, rows: set<SampleRow>, services: seq<ServiceId>, i: nat, keep: nat)
    requires i <= |services|
  {
    && (forall j ::
      0 <= j < i ==> IsNewest(SamplesOf(kept, services[j]), SamplesOf(rows, services[j]), keep, SampleLeq))
    && (forall service :: service !in services[..i] ==> SamplesOf(kept, service) == SamplesOf(rows, service))
  }

  lemma NotYetVisited(kept: set<SampleRow>, rows: set<SampleRow>, services: seq<ServiceId>, i: nat, keep: nat)
    requires StrictlyAscending(services) && i < |services| && Trimming(kept, rows, services, i, keep)
    ensures SamplesOf(kept, services[i]) == SamplesOf(rows, services[i])
  {
    assert services[i] !in services[..i];
  }

  lemma TrimmingStep(before: set<SampleRow>, after: set<SampleRow>, rows: set<SampleRow>, services: seq<ServiceId>,
          i: nat, keep: nat)
    requires StrictlyAscending(services) && i < |services| && Trimming(before, rows, services, i, keep)
    requires forall other :: other != services[i] ==> SamplesOf(after, other) == SamplesOf(before, other)
    requires IsNewest(SamplesOf(after, services[i]), SamplesOf(rows, services[i]), keep, SampleLeq)
    ensures Trimming(after, rows, services, i + 1, keep)
  {
    hide SamplesOf, IsNewest;
    assert services[..i + 1] == services[..i] + [services[i]];
    assert forall j :: 0 <= j < i ==> services[j] != services[i];
  }

  lemma AllNewest(rows: set<SampleRow>, keep: nat)
    requires |rows| <= keep
    ensures IsNewest(rows, rows, keep, SampleLeq)
  {
  }

  lemma EveryService(kept: set<SampleRow>, rows: set<SampleRow>, services: seq<ServiceId>, keep: nat)
    requires kept <= rows && Elements(services) == ServicesIn(rows) && Trimming(kept, rows, services, |services|, keep)
    ensures TrimmedPerService(kept, rows, keep)
  {
    assert services[..|services|] == services;
    assert forall s :: s in services <==> s in Elements(services);
    forall service: ServiceId ensures IsNewest(SamplesOf(kept, service), SamplesOf(rows, service), keep, SampleLeq) {
      if service in services {
        var j :| 0 <= j < |services| && services[j] == service;
      } else {
        assert SamplesOf(rows, service) == {};
      }
    }
  }

  lemma PassSettles(before: set<SampleRow>, recent: set<SampleRow>, kept: set<SampleRow>, cutoff: int, cap: nat)
    requires recent == RecentSamples(before, cutoff) && TrimmedPerService(kept, recent, cap)
    ensures RecentSamples(kept, cutoff) == kept
    ensures forall service :: service in ServicesIn(kept) ==> |SamplesOf(kept, service)| <= cap
  {
  }

  lemma NothingToDoStays(events: set<EventRow>, samples: set<SampleRow>, keptEvents: set<EventRow>,
          keptSamples: set<SampleRow>, policy: RetentionPolicy, now: Time)
    requires NothingToDo(events, samples, policy, now)
    requires IsNewest(keptEvents, RecentEvents(events, Cutoff(now, policy.eventMaxAge)), policy.maxEvents, EventLeq)
    requires TrimmedPerService(keptSamples, RecentSamples(samples, Cutoff(now, policy.sampleMaxAge)),
        policy.maxSamplesPerService)
    ensures keptEvents == events && keptSamples == samples
  {
    hide Cutoff;
    SameSize(keptEvents, events);
    forall r | r in samples ensures r in keptSamples {
      assert r.service in ServicesIn(samples) && r in SamplesOf(samples, r.service);
      SameSize(SamplesOf(keptSamples, r.service), SamplesOf(samples, r.service));
      assert r in SamplesOf(keptSamples, r.service);
    }
  }

  // ------------------------------------------------- what a pass comes down to

  predicate UniqueIds(rows: set<EventRow>) {
    forall a, b :: a in rows && b in rows && a.id == b.id ==> a == b
  }

  /** At least `n` of the rows left are at least as new. */
  ghost predicate Outranked<T(!new)>(d: T, left: set<T>, n: nat, leq: (T, T) -> bool) {
    |Above(d, left, leq)| >= n
  }

  function Above<T>(d: T, left: set<T>, leq: (T, T) -> bool): set<T> {
    set u | u in left && leq(d, u)
  }

  /** As long as everything lost is outranked by what is left, the newest rows
      left are the newest rows of all. */
  lemma NewestOfRest<T(!new)>(kept: set<T>, left: set<T>, rows: set<T>, n: nat, leq: (T, T) -> bool)
    requires TotalOrder(leq) && left <= rows && forall d :: d in rows - left ==> Outranked(d, left, n, leq)
    requires IsNewest(kept, left, n, leq)
    ensures IsNewest(kept, rows, n, leq)
  {
    SizeOfRest(left, rows);
    if d :| d in rows - left {
      SubsetSize(Above(d, left, leq), left);
    } else {
      assert left == rows;
    }
    forall k, d | k in kept && d in rows - kept ensures leq(d, k) {
      if d !in left && !leq(d, k) {
        assert d in rows - left && Outranked(d, left, n, leq);
        var above := Above(d, left, leq);
        forall u | u in above ensures u in kept {
          assert leq(d, u) && (leq(u, k) ==> leq(d, k));
        }
        ProperIsSmaller(above, kept, k);
        assert false;
      }
    }
  }

  /** Every event lost so far was expired, or is outranked by those left. */
  ghost predicate EventsSpared(recorded: set<EventRow>, left: set<EventRow>, cutoff: int, keep: nat) {
    left <= recorded && forall d :: d in recorded - left ==> d.at < cutoff || Outranked(d, left, keep, EventLeq)
  }

  /** Every sample lost so far was expired, or is outranked by those left of its
      own service. */
  ghost predicate SamplesSpared(recorded: set<SampleRow>, left: set<SampleRow>, cutoff: int, cap: nat) {
    && left <= recorded
    && forall d :: d in recorded - left ==>
      d.at < cutoff || Outranked(d, SamplesOf(left, d.service), cap, SampleLeq)
  }

  ghost predicate Spared(recorded: Rows, left: Rows, limits: Limits) {
    && EventsSpared(recorded.events, left.events, limits.eventCutoff, limits.maxEvents)
    && SamplesSpared(recorded.samples, left.samples, limits.sampleCutoff, limits.maxSamples)
  }

  /** A row that trimming takes is outranked by what it leaves, and so stays
      every row that was outranked before. */
  lemma TrimmedOutranks<T(!new)>(before: set<T>, after: set<T>, keep: nat, d: T, leq: (T, T) -> bool)
    requires TotalOrder(leq) && Trimmed(before, after, keep, leq)
    requires d !in after && (d in before || Outranked(d, before, keep, leq))
    ensures Outranked(d, after, keep, leq)
  {
    var victims := before - after;
    assert before - victims == after;
    if v :| v in victims && leq(d, v) {
      assert forall u :: u in after ==> leq(v, u);
      assert Above(d, after, leq) == after;
    } else {
      assert d in before ==> d in victims && leq(d, d);
      assert Above(d, after, leq) == Above(d, before, leq);
    }
  }

  lemma ExpirySparesEvent(before: set<EventRow>, after: set<EventRow>, cutoff: int, d: EventRow)
    requires after <= before && before - after <= ExpiredEvents(before, cutoff) && d.at >= cutoff
    ensures d in before ==> d in after
    ensures Above(d, after, EventLeq) == Above(d, before, EventLeq)
  {
    assert d in before - after ==> d in ExpiredEvents(before, cutoff);
    forall u | u in before && EventLeq(d, u) ensures u in after {
      assert u in before - after ==> u in ExpiredEvents(before, cutoff);
    }
  }

  lemma ExpirySparesSample(before: set<SampleRow>, after: set<SampleRow>, cutoff: int, d: SampleRow)
    requires after <= before && before - after <= ExpiredSamples(before, cutoff) && d.at >= cutoff
    ensures d in before ==> d in after
    ensures Above(d, SamplesOf(after, d.service), SampleLeq) == Above(d, SamplesOf(before, d.service), SampleLeq)
  {
    assert d in before - after ==> d in ExpiredSamples(before, cutoff);
    forall u | u in before && SampleLeq(d, u) ensures u in after {
      assert u in before - after ==> u in ExpiredSamples(before, cutoff);
    }
  }

  lemma EventBatchSpares(recorded: set<EventRow>, before: set<EventRow>, after: set<EventRow>, cutoff: int, keep: nat)
    requires EventsSpared(recorded, before, cutoff, keep) && EventBatch(before, after, cutoff, keep)
    ensures EventsSpared(recorded, after, cutoff, keep)
  {
    Orders();
    hide TotalOrder;
    forall d | d in recorded - after && d.at >= cutoff ensures Outranked(d, after, keep, EventLeq) {
      if Trimmed(before, after, keep, EventLeq) {
        TrimmedOutranks(before, after, keep, d, EventLeq);
      } else {
        ExpirySparesEvent(before, after, cutoff, d);
      }
    }
  }

  lemma SampleBatchSpares(recorded: set<SampleRow>, before: set<SampleRow>, after: set<SampleRow>, cutoff: int,
          cap: nat)
    requires SamplesSpared(recorded, before, cutoff, cap) && SampleBatch(before, after, cutoff, cap)
    ensures SamplesSpared(recorded, after, cutoff, cap)
  {
    hide TotalOrder;
    forall d | d in recorded - after && d.at >= cutoff
      ensures Outranked(d, SamplesOf(after, d.service), cap, SampleLeq)
    {
      if service :| TrimsOne(before, after, service, cap) {
        TrimSparesSample(before, after, service, cap, d);
      } else {
        ExpirySparesSample(before, after, cutoff, d);
      }
    }
  }

  lemma TrimSparesSample(before: set<SampleRow>, after: set<SampleRow>, service: ServiceId, cap: nat, d: SampleRow)
    requires TrimsOne(before, after, service, cap)
    requires d !in after && (d in before || Outranked(d, SamplesOf(before, d.service), cap, SampleLeq))
    ensures Outranked(d, SamplesOf(after, d.service), cap, SampleLeq)
  {
    assert d in before ==> d in SamplesOf(before, d.service);
    assert d !in SamplesOf(after, d.service);
    hide SamplesOf, Trimmed, Outranked;
    if d.service == service {
      Orders();
      hide TotalOrder;
      TrimmedOutranks(SamplesOf(before, service), SamplesOf(after, service), cap, d, SampleLeq);
    }
  }

  lemma TransactionSpares(recorded: Rows, before: Rows, after: Rows, limits: Limits)
    requires Spared(recorded, before, limits) && Transaction(before, after, limits)
    ensures Spared(recorded, after, limits)
  {
    hide EventsSpared, SamplesSpared, EventBatch, SampleBatch;
    if after.samples == before.samples
      && EventBatch(before.events, after.events, limits.eventCutoff, limits.maxEvents)
    {
      EventBatchSpares(recorded.events, before.events, after.events, limits.eventCutoff, limits.maxEvents);
    } else {
      SampleBatchSpares(recorded.samples, before.samples, after.samples, limits.sampleCutoff, limits.maxSamples);
    }
  }

  // ------------------------------------------------------ the life of a store

  /** A store under one policy: everything ever recorded, what is left of it,
      and the time of the latest pass. */
  datatype Table = Table(recorded: Rows, left: Rows, now: Time)

  ghost predicate NextTable(s: Table, t: Table, policy: RetentionPolicy) {
    || (exists added :: t == Recording(s, added))
    || (t == s.(now := t.now) && s.now <= t.now)
    || (t == s.(left := t.left) && Transaction(s.left, t.left, LimitsOf(policy, s.now)))
  }

  function Both(a: Rows, b: Rows): Rows {
    Rows(a.events + b.events, a.samples + b.samples)
  }

  function Recording(s: Table, added: Rows): Table {
    s.(recorded := Both(s.recorded, added), left := Both(s.left, added))
  }

  ghost predicate IsLife(tables: seq<Table>, policy: RetentionPolicy) {
    && tables != [] && tables[0].left == tables[0].recorded
    && forall i :: 0 <= i < |tables| - 1 ==> NextTable(tables[i], tables[i + 1], policy)
  }

  /** A pass that stops after any of its transactions is part of such a life. */
  lemma CutShortPassIsLife(tables: seq<Table>, policy: RetentionPolicy, trace: seq<Rows>, last: Rows, k: nat)
    requires IsLife(tables, policy) && k < |trace|
    requires var s := tables[|tables| - 1]; Transactions(trace, s.left, last, LimitsOf(policy, s.now))
    ensures var s := tables[|tables| - 1];
      IsLife(tables + seq(k, i requires 0 <= i < k => s.(left := trace[i + 1])), policy)
  {
    hide Transaction, LimitsOf;
    var (n, s) := (|tables|, tables[|tables| - 1]);
    var all := tables + seq(k, i requires 0 <= i < k => s.(left := trace[i + 1]));
    forall i | 0 <= i < |all| - 1 ensures NextTable(all[i], all[i + 1], policy) {
      if i >= n - 1 {
        assert all[i] == s.(left := trace[i - n + 1]) && all[i + 1] == s.(left := trace[i - n + 2]);
      } else {
        assert all[i] == tables[i] && all[i + 1] == tables[i + 1];
      }
    }
  }

  lemma RecordingSpares(s: Table, added: Rows, limits: Limits)
    requires Spared(s.recorded, s.left, limits)
    ensures Spared(Recording(s, added).recorded, Recording(s, added).left, limits)
  {
    var t := Recording(s, added);
    forall d | d in t.recorded.events - t.left.events && Outranked(d, s.left.events, limits.maxEvents, EventLeq)
      ensures Outranked(d, t.left.events, limits.maxEvents, EventLeq)
    {
      SubsetSize(Above(d, s.left.events, EventLeq), Above(d, t.left.events, EventLeq));
    }
    forall d | d in t.recorded.samples - t.left.samples
        && Outranked(d, SamplesOf(s.left.samples, d.service), limits.maxSamples, SampleLeq)
      ensures Outranked(d, SamplesOf(t.left.samples, d.service), limits.maxSamples, SampleLeq)
    {
      SubsetSize(Above(d, SamplesOf(s.left.samples, d.service), SampleLeq),
                 Above(d, SamplesOf(t.left.samples, d.service), SampleLeq));
    }
  }

  lemma LaterSpares(recorded: Rows, left: Rows, policy: RetentionPolicy, now: Time, later: Time)
    requires Spared(recorded, left, LimitsOf(policy, now)) && now <= later
    ensures Spared(recorded, left, LimitsOf(policy, later))
  {
    CutoffIsMonotonic(now, later, policy.eventMaxAge, policy.eventMaxAge);
    CutoffIsMonotonic(now, later, policy.sampleMaxAge, policy.sampleMaxAge);
    hide Cutoff, Outranked, SamplesOf;
  }

  lemma NextSpares(s: Table, t: Table, policy: RetentionPolicy)
    requires NextTable(s, t, policy) && Spared(s.recorded, s.left, LimitsOf(policy, s.now))
    ensures Spared(t.recorded, t.left, LimitsOf(policy, t.now))
  {
    hide LimitsOf, Transaction, Spared, Recording;
    if added :| t == Recording(s, added) {
      RecordingSpares(s, added, LimitsOf(policy, s.now));
      assert Recording(s, added).now == s.now by { RecordingTakesNoTime(s, added); }
    } else if t == s.(now := t.now) && s.now <= t.now {
      LaterSpares(s.recorded, s.left, policy, s.now, t.now);
    } else {
      TransactionSpares(s.recorded, s.left, t.left, LimitsOf(policy, s.now));
    }
  }

  lemma RecordingTakesNoTime(s: Table, added: Rows)
    ensures Recording(s, added).now == s.now
  {
  }

  lemma {:induction false} LifeSpares(tables: seq<Table>, policy: RetentionPolicy)
    requires IsLife(tables, policy)
    ensures var s := tables[|tables| - 1]; Spared(s.recorded, s.left, LimitsOf(policy, s.now))
  {
    hide LimitsOf, NextTable;
    var n := |tables| - 1;
    if n == 0 {
    } else {
      hide Spared;
      LifeSpares(tables[..n], policy);
      NextSpares(tables[n - 1], tables[n], policy);
    }
  }

  lemma SparedEventsFinish(recorded: set<EventRow>, left: set<EventRow>, finished: set<EventRow>, cutoff: int,
          keep: nat)
    requires EventsSpared(recorded, left, cutoff, keep)
    requires IsNewest(finished, RecentEvents(left, cutoff), keep, EventLeq)
    ensures IsNewest(finished, RecentEvents(recorded, cutoff), keep, EventLeq)
  {
    var (some, all) := (RecentEvents(left, cutoff), RecentEvents(recorded, cutoff));
    forall d | d in all - some ensures Outranked(d, some, keep, EventLeq) {
      assert Above(d, some, EventLeq) == Above(d, left, EventLeq);
    }
    Orders();
    NewestOfRest(finished, some, all, keep, EventLeq);
  }

  lemma SparedSamplesFinish(recorded: set<SampleRow>, left: set<SampleRow>, finished: set<SampleRow>, cutoff: int,
          cap: nat)
    requires SamplesSpared(recorded, left, cutoff, cap)
    requires TrimmedPerService(finished, RecentSamples(left, cutoff), cap)
    ensures TrimmedPerService(finished, RecentSamples(recorded, cutoff), cap)
  {
    Orders();
    forall service: ServiceId
      ensures IsNewest(SamplesOf(finished, service), SamplesOf(RecentSamples(recorded, cutoff), service), cap,
          SampleLeq)
    {
      var (some, all) :=
        (SamplesOf(RecentSamples(left, cutoff), service), SamplesOf(RecentSamples(recorded, cutoff), service));
      forall d | d in all - some ensures Outranked(d, some, cap, SampleLeq) {
        assert Above(d, some, SampleLeq) == Above(d, SamplesOf(left, service), SampleLeq);
      }
      NewestOfRest(SamplesOf(finished, service), some, all, cap, SampleLeq);
    }
  }

  lemma OneResult(a: set<EventRow>, b: set<EventRow>, rows: set<EventRow>, keep: nat)
    requires UniqueIds(rows) && IsNewest(a, rows, keep, EventLeq) && IsNewest(b, rows, keep, EventLeq)
    ensures a == b
  {
    assert forall x, y :: x in rows && y in rows && EventLeq(x, y) && EventLeq(y, x) ==> x.id == y.id;
    NewestUnique(a, b, rows, keep, EventLeq);
  }

  /** However many passes were run or cut short between two transactions, and
      whatever was recorded in between: the pass that finishes leaves what one
      pass over everything ever recorded could leave. Of events it is the very
      same rows; samples of one time are not told apart. */
  lemma InterruptedPassFinishes(tables: seq<Table>, policy: RetentionPolicy, now: Time, finished: Rows, full: Rows)
    requires IsLife(tables, policy) && tables[|tables| - 1].now <= now
    requires UniqueIds(tables[|tables| - 1].recorded.events)
    requires PassLeaves(finished, tables[|tables| - 1].left, LimitsOf(policy, now))
    requires PassLeaves(full, tables[|tables| - 1].recorded, LimitsOf(policy, now))
    ensures finished.events == full.events
    ensures PassLeaves(finished, tables[|tables| - 1].recorded, LimitsOf(policy, now))
  {
    hide NextTable, LimitsOf, IsNewest, TrimmedPerService, UniqueIds, EventsSpared, SamplesSpared;
    LifeSpares(tables, policy);
    var (s, limits) := (tables[|tables| - 1], LimitsOf(policy, now));
    LaterSpares(s.recorded, s.left, policy, s.now, now);
    SparedEventsFinish(s.recorded.events, s.left.events, finished.events, limits.eventCutoff, limits.maxEvents);
    SparedSamplesFinish(s.recorded.samples, s.left.samples, finished.samples, limits.sampleCutoff, limits.maxSamples);
    RecentUnique(s.recorded.events, limits.eventCutoff);
    OneResult(finished.events, full.events, RecentEvents(s.recorded.events, limits.eventCutoff), limits.maxEvents);
  }

  lemma RecentUnique(rows: set<EventRow>, cutoff: int)
    requires UniqueIds(rows)
    ensures UniqueIds(RecentEvents(rows, cutoff))
  {
  }

  /** One service's samples are trimmed as if it were alone in the table. */
  lemma ServicesAreIndependent(rows: set<SampleRow>, others: set<SampleRow>, kept: set<SampleRow>, service: ServiceId,
          cap: nat)
    requires SamplesOf(rows, service) == SamplesOf(others, service)
    requires TrimmedPerService(kept, rows, cap)
    ensures IsNewest(SamplesOf(kept, service), SamplesOf(others, service), cap, SampleLeq)
    ensures |SamplesOf(rows, service)| <= cap ==> SamplesOf(kept, service) == SamplesOf(others, service)
  {
    if |SamplesOf(rows, service)| <= cap {
      SameSize(SamplesOf(kept, service), SamplesOf(rows, service));
    }
  }
}
