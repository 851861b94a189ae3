/** Python's `sorted` with a key: a stable sort under a total order on keys. */
module StableSort {

  ghost predicate TotalOrder<T(!new)>(le: (T, T) -> bool) {
    && (forall a, b :: le(a, b) || le(b, a))
    && (forall a, b, c :: le(a, b) && le(b, c) ==> le(a, c))
  }

  ghost predicate Ordered<T>(q: seq<T>, le: (T, T) -> bool) {
    forall i, j | 0 <= i < j < |q| :: le(q[i], q[j])
  }

  /** Put x behind every element that may stay before it. */
  function Insert<T>(q: seq<T>, x: T, le: (T, T) -> bool): (r: seq<T>)
    ensures |r| == |q| + 1
    ensures multiset(r) == multiset(q) + multiset{x}
  {
    if q == [] || le(q[|q| - 1], x) then q + [x] else
      assert q == q[..|q| - 1] + [q[|q| - 1]];
      Insert(q[..|q| - 1], x, le) + [q[|q| - 1]]
  }

  function SortBy<T>(q: seq<T>, le: (T, T) -> bool): (r: seq<T>)
    ensures |r| == |q|
    ensures multiset(r) == multiset(q)
  {
    if q == [] then [] else
      assert q == q[..|q| - 1] + [q[|q| - 1]];
      Insert(SortBy(q[..|q| - 1], le), q[|q| - 1], le)
  }

  lemma SameElements<T>(a: seq<T>, b: seq<T>, x: T)
    requires multiset(a) == multiset(b)
    ensures x in a <==> x in b
  {
    assert x in a <==> x in multiset(a);
    assert x in b <==> x in multiset(b);
  }

  lemma {:induction false} InsertKeepsOrder<T(!new)>(q: seq<T>, x: T, le: (T, T) -> bool)
    requires TotalOrder(le) && Ordered(q, le)
    ensures Ordered(Insert(q, x, le), le)
  {
    if q != [] && !le(q[|q| - 1], x) {
      var init, last := q[..|q| - 1], q[|q| - 1];
      InsertKeepsOrder(init, x, le);
      var r := Insert(init, x, le);
      forall i | 0 <= i < |r| ensures le(r[i], last) {
        assert r[i] in multiset(r);
        assert r[i] in init || r[i] == x;
      }
    } else if q != [] {
      forall i | 0 <= i < |q| ensures le(q[i], x) {
        assert i < |q| - 1 ==> le(q[i], q[|q| - 1]);
      }
    }
  }

  lemma {:induction false} SortIsOrdered<T(!new)>(q: seq<T>, le: (T, T) -> bool)
    requires TotalOrder(le)
    ensures Ordered(SortBy(q, le), le)
  {
    if q != [] {
      SortIsOrdered(q[..|q| - 1], le);
      InsertKeepsOrder(SortBy(q[..|q| - 1], le), q[|q| - 1], le);
    }
  }

  /** Elements with equal keys are equal. */
  ghost predicate KeysIdentify<T>(q: seq<T>, le: (T, T) -> bool) {
    forall x, y | x in q && y in q && le(x, y) && le(y, x) :: x == y
  }

  lemma SameFirst<T(!new)>(a: seq<T>, b: seq<T>, le: (T, T) -> bool)
    requires TotalOrder(le) && Ordered(a, le) && Ordered(b, le) && KeysIdentify(a, le)
    requires multiset(a) == multiset(b) && a != [] && b != []
    ensures a[0] == b[0]
  {
    assert le(a[0], a[0]);
    SameElements(a, b, a[0]);
    SameElements(a, b, b[0]);
    var i :| 0 <= i < |b| && b[i] == a[0];
    var j :| 0 <= j < |a| && a[j] == b[0];
    assert i == 0 || le(b[0], b[i]);
    assert j == 0 || le(a[0], a[j]);
  }

  lemma {:induction false} OrderedIsUnique<T(!new)>(a: seq<T>, b: seq<T>, le: (T, T) -> bool)
    requires TotalOrder(le) && Ordered(a, le) && Ordered(b, le) && KeysIdentify(a, le)
    requires multiset(a) == multiset(b)
    ensures a == b
    decreases |a|
  {
    assert |a| == |multiset(a)| == |multiset(b)| == |b|;
    if a != [] {
      SameFirst(a, b, le);
      assert a == [a[0]] + a[1..] && b == [b[0]] + b[1..];
      assert multiset(a[1..]) == multiset(a) - multiset{a[0]};
      assert multiset(b[1..]) == multiset(b) - multiset{b[0]};
      OrderedIsUnique(a[1..], b[1..], le);
    }
  }

  /** Sorting forgets the input order when keys identify the elements. */
  lemma SortIgnoresOrder<T(!new)>(a: seq<T>, b: seq<T>, le: (T, T) -> bool)
    requires TotalOrder(le) && multiset(a) == multiset(b) && KeysIdentify(a, le)
    ensures SortBy(a, le) == SortBy(b, le)
  {
    SortIsOrdered(a, le);
    SortIsOrdered(b, le);
    forall x ensures x in SortBy(a, le) <==> x in a {
      SameElements(SortBy(a, le), a, x);
    }
    OrderedIsUnique(SortBy(a, le), SortBy(b, le), le);
  }

  // ---------------------------------------------------------------- filtering

  function Filter<T(!new)>(q: seq<T>, keep: T -> bool): (r: seq<T>)
    ensures |r| <= |q|
    ensures forall x :: x in r <==> x in q && keep(x)
  {
    if q == [] then [] else
      var init := Filter(q[..|q| - 1], keep);
      var last := q[|q| - 1];
      assert forall x :: x in q <==> x in q[..|q| - 1] || x == last;
      if keep(last) then init + [last] else init
  }

  lemma {:induction false} FilterConcat<T(!new)>(a: seq<T>, b: seq<T>, keep: T -> bool)
    ensures Filter(a + b, keep) == Filter(a, keep) + Filter(b, keep)
  {
    if b == [] {
      assert a + b == a;
    } else {
      assert (a + b)[..|a + b| - 1] == a + b[..|b| - 1];
      FilterConcat(a, b[..|b| - 1], keep);
    }
  }

  lemma {:induction false} InsertFilters<T(!new)>(q: seq<T>, x: T, le: (T, T) -> bool, keep: T -> bool)
    requires TotalOrder(le) && Ordered(q, le)
    ensures Filter(Insert(q, x, le), keep) == if keep(x) then Insert(Filter(q, keep), x, le) else Filter(q, keep)
  {
    if q == [] || le(q[|q| - 1], x) {
      assert (q + [x])[..|q|] == q;
      forall y | y in Filter(q, keep) ensures le(y, x) {
        var i :| 0 <= i < |q| && q[i] == y;
        assert i < |q| - 1 ==> le(q[i], q[|q| - 1]);
      }
    } else {
      var init, last := q[..|q| - 1], q[|q| - 1];
      InsertFilters(init, x, le, keep);
      var r := Insert(init, x, le);
      assert (r + [last])[..|r|] == r;
      if !keep(last) {
        assert Insert(q, x, le) == r + [last];
      } else {
        assert Filter(q, keep) == Filter(init, keep) + [last];
        assert (Filter(init, keep) + [last])[..|Filter(init, keep)|] == Filter(init, keep);
      }
    }
  }

  /** A stable sort commutes with filtering. */
  lemma {:induction false} SortFilters<T(!new)>(q: seq<T>, le: (T, T) -> bool, keep: T -> bool)
    requires TotalOrder(le)
    ensures Filter(SortBy(q, le), keep) == SortBy(Filter(q, keep), le)
  {
    if q != [] {
      var init, last := q[..|q| - 1], q[|q| - 1];
      SortFilters(init, le, keep);
      SortIsOrdered(init, le);
      InsertFilters(SortBy(init, le), last, le, keep);
      if keep(last) {
        assert (Filter(init, keep) + [last])[..|Filter(init, keep)|] == Filter(init, keep);
      }
    }
  }

  /** The elements that sort equal to k. */
  function Peers<T(!new)>(k: T, le: (T, T) -> bool): T -> bool {
    (x: T) => le(x, k) && le(k, x)
  }

  /** A sequence that is in order already stays as it is. */
  lemma {:induction false} OrderedStays<T(!new)>(q: seq<T>, le: (T, T) -> bool)
    requires Ordered(q, le)
    ensures SortBy(q, le) == q
  {
    if q != [] {
      var init, last := q[..|q| - 1], q[|q| - 1];
      OrderedStays(init, le);
      if init != [] {
        assert le(q[|q| - 2], last);
      }
    }
  }

  /** Elements that sort equal keep their input order. */
  lemma SortIsStable<T(!new)>(q: seq<T>, le: (T, T) -> bool, k: T)
    requires TotalOrder(le)
    ensures Filter(SortBy(q, le), Peers(k, le)) == Filter(q, Peers(k, le))
  {
    var peers := Filter(q, Peers(k, le));
    SortFilters(q, le, Peers(k, le));
    forall i, j | 0 <= i < j < |peers| ensures le(peers[i], peers[j]) {
      assert peers[i] in peers && peers[j] in peers;
      assert le(peers[i], k) && le(k, peers[j]);
    }
    OrderedStays(peers, le);
  }

  lemma {:induction false} FilterAll<T(!new)>(q: seq<T>, keep: T -> bool)
    requires forall x | x in q :: keep(x)
    ensures Filter(q, keep) == q
  {
    if q != [] {
      FilterAll(q[..|q| - 1], keep);
    }
  }

  lemma {:induction false} FilterNone<T(!new)>(q: seq<T>, keep: T -> bool)
    requires forall x | x in q :: !keep(x)
    ensures Filter(q, keep) == []
  {
    if q != [] {
      FilterNone(q[..|q| - 1], keep);
    }
  }

  lemma {:induction false} FiltersCommute<T(!new)>(q: seq<T>, a: T -> bool, b: T -> bool)
    ensures Filter(Filter(q, a), b) == Filter(Filter(q, b), a)
  {
    if q != [] {
      var init, last := q[..|q| - 1], q[|q| - 1];
      FiltersCommute(init, a, b);
      FilterConcat(Filter(init, a), [last], b);
      FilterConcat(Filter(init, b), [last], a);
      assert [last][..0] == [];
    }
  }
}
