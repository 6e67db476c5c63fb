/** The standard library's sorts and ordered maps, as far as the model needs
    them: ascending enumeration of integer sets, and sorting by an order. */
module Sorting {
  import opened Basics

  predicate StrictlyAscending(q: seq<int>) {
    forall i, j :: 0 <= i < j < |q| ==> q[i] < q[j]
  }

  function Elements<T>(q: seq<T>): set<T> {
    set x | x in q
  }

  lemma Witness(s: set<int>) returns (y: int)
    requires s != {}
    ensures y in s
  {
    assert (forall x :: x !in s) ==> s == {};
    y :| y in s;
  }

  lemma {:induction false} MinimumExists(s: set<int>)
    requires s != {}
    ensures exists m :: m in s && forall x :: x in s ==> m <= x
  {
    var y := Witness(s);
    var rest := s - {y};
    if rest == {} {
      assert s == {y};
    } else {
      MinimumExists(rest);
      var m :| m in rest && forall x :: x in rest ==> m <= x;
      assert forall x :: x in s ==> x in rest || x == y;
      var least := if y < m then y else m;
      assert least in s && forall x :: x in s ==> least <= x;
    }
  }

  function Minimum(s: set<int>): (m: int)
    requires s != {}
    ensures m in s && forall x :: x in s ==> m <= x
  {
    MinimumExists(s);
    var m :| m in s && forall x :: x in s ==> m <= x;
    m
  }

  /** The keys of an ordered map, in iteration order. */
  function Ascending(s: set<int>): (q: seq<int>)
    ensures StrictlyAscending(q)
    ensures forall x :: x in q <==> x in s
    ensures |q| == |s|
  {
    if s == {} then [] else
      var m := Minimum(s);
      [m] + Ascending(s - {m})
  }

  /** The keys of an ordered map of identifiers, in iteration order. */
  function Keys(s: set<nat>): (q: seq<nat>)
    ensures StrictlyAscending(q) && Elements(q) == s && |q| == |s|
  {
    Ascending(s)
  }

  // -------------------------------------------------------- sort by an order

  ghost predicate TotalOrder<T(!new)>(leq: (T, T) -> bool) {
    && (forall a, b :: leq(a, b) || leq(b, a))
    && (forall a, b, c :: leq(a, b) && leq(b, c) ==> leq(a, c))
  }

  ghost predicate Antisymmetric<T(!new)>(leq: (T, T) -> bool) {
    forall a, b :: leq(a, b) && leq(b, a) ==> a == b
  }

  predicate SortedBy<T>(q: seq<T>, leq: (T, T) -> bool) {
    forall i, j :: 0 <= i < j < |q| ==> leq(q[i], q[j])
  }

  function Insert<T>(x: T, q: seq<T>, leq: (T, T) -> bool): (r: seq<T>)
    ensures |r| == |q| + 1
    ensures multiset(r) == multiset{x} + multiset(q)
  {
    if q == [] then [x]
    else if leq(x, q[0]) then [x] + q
    else
      assert q == [q[0]] + q[1..];
      [q[0]] + Insert(x, q[1..], leq)
  }

  /** A stable sort. */
  function SortBy<T>(q: seq<T>, leq: (T, T) -> bool): (r: seq<T>)
    ensures |r| == |q|
    ensures multiset(r) == multiset(q)
  {
    if q == [] then [] else
      assert q == [q[0]] + q[1..];
      Insert(q[0], SortBy(q[1..], leq), leq)
  }

  lemma SameMembers<T>(q: seq<T>, r: seq<T>)
    requires multiset(q) == multiset(r)
    ensures forall x :: x in q <==> x in r
  {
    forall x ensures x in q <==> x in r {
      assert x in q <==> x in multiset(q);
      assert x in r <==> x in multiset(r);
    }
  }

  lemma {:induction false} InsertSorts<T(!new)>(x: T, q: seq<T>, leq: (T, T) -> bool)
    requires TotalOrder(leq) && SortedBy(q, leq)
    ensures SortedBy(Insert(x, q, leq), leq)
  {
    if q != [] && !leq(x, q[0]) {
      InsertSorts(x, q[1..], leq);
      var tail := Insert(x, q[1..], leq);
      SameMembersOfInsert(x, q[1..], leq);
      forall j | 0 <= j < |tail| ensures leq(q[0], tail[j]) {
        assert tail[j] in tail;
      }
    } else if q != [] {
      forall j | 0 <= j < |q| ensures leq(x, q[j]) {
        assert j == 0 || leq(q[0], q[j]);
      }
    }
  }

  lemma SameMembersOfInsert<T>(x: T, q: seq<T>, leq: (T, T) -> bool)
    ensures forall y :: y in Insert(x, q, leq) <==> y == x || y in q
  {
    assert multiset(Insert(x, q, leq)) == multiset([x] + q);
    SameMembers(Insert(x, q, leq), [x] + q);
  }

  lemma {:induction false} SortBySorts<T(!new)>(q: seq<T>, leq: (T, T) -> bool)
    requires TotalOrder(leq)
    ensures SortedBy(SortBy(q, leq), leq)
    ensures forall x :: x in SortBy(q, leq) <==> x in q
  {
    SameMembers(SortBy(q, leq), q);
    if q != [] {
      SortBySorts(q[1..], leq);
      InsertSorts(q[0], SortBy(q[1..], leq), leq);
    }
  }

  /** A sorted sequence is determined by its elements, counted, as long as the
      order tells them apart. */
  lemma {:induction false} SortedUnique<T(!new)>(q: seq<T>, r: seq<T>, leq: (T, T) -> bool)
    requires TotalOrder(leq)
    requires forall x, y :: x in q && y in q && leq(x, y) && leq(y, x) ==> x == y
    requires SortedBy(q, leq) && SortedBy(r, leq) && multiset(q) == multiset(r)
    ensures q == r
  {
    SameMembers(q, r);
    assert |q| == |multiset(q)| == |multiset(r)| == |r|;
    if q != [] {
      assert q[0] in r && r[0] in q;
      SortedHead(q, r[0], leq);
      SortedHead(r, q[0], leq);
      assert leq(q[0], r[0]) && leq(r[0], q[0]);
      hide TotalOrder;
      TailOf(q, leq);
      TailOf(r, leq);
      hide SortedBy;
      assert forall x :: x in q[1..] ==> x in q;
      SortedUnique(q[1..], r[1..], leq);
    }
  }

  lemma TailOf<T(!new)>(q: seq<T>, leq: (T, T) -> bool)
    requires q != [] && SortedBy(q, leq)
    ensures SortedBy(q[1..], leq)
    ensures q == [q[0]] + q[1..] && multiset(q[1..]) == multiset(q) - multiset{q[0]}
  {
    assert q == [q[0]] + q[1..];
  }

  lemma SortedHead<T(!new)>(q: seq<T>, x: T, leq: (T, T) -> bool)
    requires TotalOrder(leq) && SortedBy(q, leq) && x in q
    ensures leq(q[0], x)
  {
    var i :| 0 <= i < |q| && q[i] == x;
    assert leq(q[0], q[0]);
  }

  predicate NoRepeats<T(==)>(q: seq<T>) {
    forall i, j :: 0 <= i < j < |q| ==> q[i] != q[j]
  }

  lemma {:induction false} NoRepeatsCounts<T>(q: seq<T>)
    ensures NoRepeats(q) <==> forall x :: multiset(q)[x] <= 1
    ensures NoRepeats(q) ==> |Elements(q)| == |q|
  {
    if q != [] {
      var n := |q| - 1;
      var (front, last) := (q[..n], q[n]);
      assert q == front + [last];
      NoRepeatsCounts(front);
      assert forall x :: multiset(q)[x] == multiset(front)[x] + (if x == last then 1 else 0);
      assert last in front <==> multiset(front)[last] > 0;
      if NoRepeats(q) {
        assert last !in front;
        assert Elements(q) == Elements(front) + {last};
      } else if NoRepeats(front) {
        assert last in front;
        assert multiset(q)[last] > 1;
      } else {
        var x :| multiset(front)[x] > 1;
        assert multiset(q)[x] > 1;
      }
    }
  }

  lemma NoRepeatsPermuted<T>(q: seq<T>, r: seq<T>)
    requires multiset(q) == multiset(r) && NoRepeats(q)
    ensures NoRepeats(r)
  {
    NoRepeatsCounts(q);
    NoRepeatsCounts(r);
  }

  lemma SameCounts<T>(q: seq<T>, r: seq<T>)
    requires NoRepeats(q) && NoRepeats(r) && forall x :: x in q <==> x in r
    ensures multiset(q) == multiset(r)
  {
    NoRepeatsCounts(q);
    NoRepeatsCounts(r);
    hide NoRepeats;
    forall x ensures multiset(q)[x] == multiset(r)[x] {
      assert x in q <==> x in multiset(q);
      assert x in r <==> x in multiset(r);
    }
  }

  lemma SubsetSize<T>(a: set<T>, b: set<T>)
    requires a <= b
    ensures |a| <= |b|
  {
    assert b == a + (b - a);
  }

  // ------------------------------------------------ strictly ascending vectors

  predicate AscendsBy<T>(q: seq<T>, less: (T, T) -> bool) {
    forall i, j :: 0 <= i < j < |q| ==> less(q[i], q[j])
  }

  ghost predicate AsymmetricOrder<T(!new)>(less: (T, T) -> bool) {
    forall a, b :: less(a, b) ==> !less(b, a)
  }

  /** A strictly ascending vector is determined by its elements. */
  lemma {:induction false} AscendingUnique<T(!new)>(q: seq<T>, r: seq<T>, less: (T, T) -> bool)
    requires AscendsBy(q, less) && AscendsBy(r, less) && AsymmetricOrder(less) && forall x :: x in q <==> x in r
    ensures q == r
  {
    SameLength(q, r, less);
    if q != [] {
      SameHead(q, r, less);
      forall x ensures x in q[1..] <==> x in r[1..] {
        TailMember(q, x, less);
        TailMember(r, x, less);
      }
      AscendingUnique(q[1..], r[1..], less);
      assert q == [q[0]] + q[1..] && r == [r[0]] + r[1..];
    }
  }

  lemma SameLength<T(!new)>(q: seq<T>, r: seq<T>, less: (T, T) -> bool)
    requires AscendsBy(q, less) && AscendsBy(r, less) && AsymmetricOrder(less) && forall x :: x in q <==> x in r
    ensures |q| == |r|
  {
    NoRepeatsCounts(q);
    NoRepeatsCounts(r);
    assert Elements(q) == Elements(r);
  }

  lemma TailMember<T(!new)>(q: seq<T>, x: T, less: (T, T) -> bool)
    requires AscendsBy(q, less) && AsymmetricOrder(less) && q != []
    ensures x in q[1..] <==> x in q && x != q[0]
  {
    if x in q[1..] {
      var i :| 0 <= i < |q| - 1 && q[1..][i] == x;
      assert less(q[0], q[i + 1]);
    }
  }

  lemma SameHead<T(!new)>(q: seq<T>, r: seq<T>, less: (T, T) -> bool)
    requires AscendsBy(q, less) && AscendsBy(r, less) && AsymmetricOrder(less)
    requires q != [] && r != [] && forall x :: x in q <==> x in r
    ensures q[0] == r[0]
  {
    assert q[0] in r && r[0] in q;
    var i :| 0 <= i < |r| && r[i] == q[0];
    var j :| 0 <= j < |q| && q[j] == r[0];
    assert i > 0 ==> less(r[0], r[i]);
    assert j > 0 ==> less(q[0], q[j]);
  }

  // ---------------------------------------------------------- looking up

  /** The first entry under a key. */
  function Find<T, K(==)>(q: seq<T>, key: T -> K, k: K): Option<T> {
    if q == [] then None else if key(q[0]) == k then Some(q[0]) else Find(q[1..], key, k)
  }

  lemma {:induction false} FindIs<T, K>(q: seq<T>, key: T -> K, k: K)
    ensures Find(q, key, k).Some? ==> Find(q, key, k).value in q && key(Find(q, key, k).value) == k
    ensures Find(q, key, k).None? ==> forall x :: x in q ==> key(x) != k
  {
    if q != [] {
      assert q == [q[0]] + q[1..];
      FindIs(q[1..], key, k);
    }
  }

  // -------------------------------------------------- collecting in one pass

  /** What a loop collects that looks at one element after the other. */
  function Collected<T, U>(q: seq<T>, f: T -> Option<U>): seq<U> {
    if q == [] then []
    else
      var n := |q| - 1;
      var x := f(q[n]);
      Collected(q[..n], f) + (if x.Some? then [x.value] else [])
  }

  lemma {:induction false} CollectedAre<T, U>(q: seq<T>, f: T -> Option<U>)
    ensures forall u :: u in Collected(q, f) <==> exists x :: x in q && f(x) == Some(u)
  {
    if q != [] {
      var n := |q| - 1;
      assert q == q[..n] + [q[n]];
      CollectedAre(q[..n], f);
    }
  }

  lemma {:induction false} CollectedConcat<T, U>(a: seq<T>, b: seq<T>, f: T -> Option<U>)
    ensures Collected(a + b, f) == Collected(a, f) + Collected(b, f)
  {
    if b == [] {
      assert a + b == a;
    } else {
      var n := |b| - 1;
      assert (a + b)[..|a| + n] == a + b[..n];
      CollectedConcat(a, b[..n], f);
    }
  }

  function Without<T>(q: seq<T>, k: nat): seq<T>
    requires k < |q|
  {
    q[..k] + q[k + 1..]
  }

  lemma WithoutOne<T>(q: seq<T>, k: nat)
    requires k < |q|
    ensures multiset(Without(q, k)) == multiset(q) - multiset{q[k]}
    ensures multiset(q) == multiset{q[k]} + multiset(Without(q, k))
  {
    assert q == q[..k] + [q[k]] + q[k + 1..];
    assert multiset(q) == multiset(q[..k]) + multiset{q[k]} + multiset(q[k + 1..]);
  }

  lemma Locate<T>(q: seq<T>, r: seq<T>, x: T) returns (k: nat)
    requires multiset(q) == multiset(r) && x in q
    ensures k < |r| && r[k] == x
  {
    SameMembers(q, r);
    k :| 0 <= k < |r| && r[k] == x;
  }

  lemma CollectedWithout<T, U>(q: seq<T>, k: nat, f: T -> Option<U>)
    requires k < |q|
    ensures multiset(Collected(q, f)) == multiset(Collected([q[k]], f)) + multiset(Collected(Without(q, k), f))
  {
    hide Collected;
    assert q == q[..k] + [q[k]] + q[k + 1..];
    CollectedConcat(q[..k] + [q[k]], q[k + 1..], f);
    CollectedConcat(q[..k], [q[k]], f);
    CollectedConcat(q[..k], q[k + 1..], f);
  }

  /** Element by element, so order does not matter. */
  lemma {:induction false} CollectedPermuted<T, U>(q: seq<T>, r: seq<T>, f: T -> Option<U>)
    requires multiset(q) == multiset(r)
    ensures multiset(Collected(q, f)) == multiset(Collected(r, f))
  {
    if q == [] {
      assert |multiset(q)| == |multiset(r)| == |r|;
    } else {
      var n := |q| - 1;
      var k := Locate(q, r, q[n]);
      var rest := Without(r, k);
      WithoutOne(q, n);
      WithoutOne(r, k);
      assert Without(q, n) == q[..n];
      CollectedPermuted(q[..n], rest, f);
      CollectedWithout(q, n, f);
      CollectedWithout(r, k, f);
    }
  }

  lemma TakeOne<T>(q: seq<T>, a: T) returns (rest: seq<T>)
    requires a in q
    ensures multiset(q) == multiset{a} + multiset(rest)
    ensures forall b :: b in q && b != a ==> b in rest
  {
    var i :| 0 <= i < |q| && q[i] == a;
    rest := Without(q, i);
    WithoutOne(q, i);
    assert forall b :: b in q && b != a ==> b in multiset(q) && b in multiset(rest);
  }

  /** Any two different elements can come first. */
  lemma PairFirst<T>(q: seq<T>, a: T, b: T) returns (rest: seq<T>)
    requires a in q && b in q && a != b
    ensures multiset([a, b] + rest) == multiset(q) && multiset([b, a] + rest) == multiset(q)
  {
    var others := TakeOne(q, a);
    rest := TakeOne(others, b);
    PairCounts(a, b, rest);
    PairCounts(b, a, rest);
  }

  lemma PairCounts<T>(a: T, b: T, rest: seq<T>)
    ensures multiset([a, b] + rest) == multiset{a} + multiset{b} + multiset(rest)
  {
  }
}
