/** The coverage rotation: each batch is fed back as already scheduled. */
module Rotation {
  import opened Text
  import opened StableSort
  import SortedStrings

  /** The upper-cased non-empty symbols. */
  function Names(symbols: seq<string>): set<string> {
    set s | s in symbols && s != "" :: Upper(s)
  }

  /** `dict.fromkeys`: the first occurrences, in order. */
  function FirstOccurrences(q: seq<string>): (r: seq<string>)
    ensures forall x :: x in r <==> x in q
  {
    if q == [] then [] else
      var init := FirstOccurrences(q[..|q| - 1]);
      var last := q[|q| - 1];
      assert forall x :: x in q <==> x in q[..|q| - 1] || x == last;
      if last in init then init else init + [last]
  }

  function Uppers(symbols: seq<string>): (r: seq<string>)
    ensures |r| == |symbols|
    ensures forall i | 0 <= i < |r| :: r[i] == Upper(symbols[i])
  {
    seq(|symbols|, i requires 0 <= i < |symbols| => Upper(symbols[i]))
  }

  /** The uncovered preferred symbols in rank order, then the other uncovered ones. */
  function Order(eligible: seq<string>, uncovered: set<string>, preferred: seq<string>): seq<string> {
    var first := FirstOccurrences(Filter(Uppers(preferred), s => s in uncovered));
    first + Filter(eligible, s => s in uncovered && s !in first)
  }

  /** `select_rotation_batch` */
  function SelectBatch(eligibleSymbols: seq<string>, alreadyScheduled: seq<string>,
                       preferredSymbols: seq<string>, batchSize: int): seq<string>
  {
    var eligible := SortedStrings.Sorted(Names(eligibleSymbols));
    if batchSize <= 0 || eligible == [] then [] else
      var uncovered := Names(eligibleSymbols) - Names(alreadyScheduled);
      var ordered := Order(eligible, uncovered, preferredSymbols);
      if batchSize < |ordered| then ordered[..batchSize] else ordered
  }

  // ---------------------------------------------------------------- one batch

  ghost predicate Distinct(q: seq<string>) {
    forall i, j | 0 <= i < j < |q| :: q[i] != q[j]
  }

  function Elements(q: seq<string>): set<string> {
    set s | s in q
  }

  lemma {:induction false} FirstOccurrencesAreDistinct(q: seq<string>)
    ensures Distinct(FirstOccurrences(q))
  {
    if q != [] {
      FirstOccurrencesAreDistinct(q[..|q| - 1]);
    }
  }

  lemma {:induction false} FilterKeepsDistinct(q: seq<string>, keep: string -> bool)
    requires Distinct(q)
    ensures Distinct(Filter(q, keep))
  {
    if q != [] {
      var init, last := q[..|q| - 1], q[|q| - 1];
      FilterKeepsDistinct(init, keep);
      forall x | x in Filter(init, keep) ensures x != last {
        var i :| 0 <= i < |init| && init[i] == x;
        assert q[i] == x;
      }
    }
  }

  lemma {:induction false} DistinctSize(q: seq<string>)
    requires Distinct(q)
    ensures |Elements(q)| == |q|
  {
    if q != [] {
      var init, last := q[..|q| - 1], q[|q| - 1];
      DistinctSize(init);
      assert last !in init;
      assert Elements(q) == Elements(init) + {last};
    } else {
      assert Elements(q) == {};
    }
  }

  /** The order lists exactly the uncovered symbols, each once. */
  lemma OrderIsExact(eligible: seq<string>, uncovered: set<string>, preferred: seq<string>)
    requires Distinct(eligible) && uncovered <= Elements(eligible)
    ensures Distinct(Order(eligible, uncovered, preferred))
    ensures Elements(Order(eligible, uncovered, preferred)) == uncovered
    ensures |Order(eligible, uncovered, preferred)| == |uncovered|
  {
    var wanted := Filter(Uppers(preferred), s => s in uncovered);
    var first := FirstOccurrences(wanted);
    var rest := Filter(eligible, s => s in uncovered && s !in first);
    FirstOccurrencesAreDistinct(wanted);
    FilterKeepsDistinct(eligible, s => s in uncovered && s !in first);
    var order := Order(eligible, uncovered, preferred);
    forall i, j | 0 <= i < j < |order| ensures order[i] != order[j] {
      if i < |first| <= j {
        assert order[j] == rest[j - |first|] && rest[j - |first|] in rest;
        assert order[i] in first;
      }
    }
    forall s | s in uncovered ensures s in order {
      assert s in eligible;
      assert s in first || s in rest;
    }
    DistinctSize(order);
  }

  lemma SortedIsDistinct(names: set<string>)
    ensures Distinct(SortedStrings.Sorted(names))
    ensures Elements(SortedStrings.Sorted(names)) == names
  {
  }

  function Least(a: int, b: int): int {
    if a < b then a else b
  }

  /** A batch holds distinct uncovered symbols, as many as fit. */
  lemma BatchIsExact(eligible: seq<string>, scheduled: seq<string>, preferred: seq<string>, batchSize: int)
    requires batchSize >= 1
    ensures var batch := SelectBatch(eligible, scheduled, preferred, batchSize);
      var uncovered := Names(eligible) - Names(scheduled);
      && Distinct(batch) && Elements(batch) <= uncovered
      && |batch| == Least(batchSize, |uncovered|)
  {
    var sorted := SortedStrings.Sorted(Names(eligible));
    var uncovered := Names(eligible) - Names(scheduled);
    SortedIsDistinct(Names(eligible));
    OrderIsExact(sorted, uncovered, preferred);
    if sorted == [] {
      assert forall s :: s !in uncovered;
      assert uncovered == {};
    } else {
      CutIsExact(Order(sorted, uncovered, preferred), uncovered, batchSize);
    }
  }

  lemma CutIsExact(order: seq<string>, uncovered: set<string>, k: nat)
    requires Distinct(order) && Elements(order) == uncovered && |order| == |uncovered|
    ensures var batch := if k < |order| then order[..k] else order;
      Distinct(batch) && Elements(batch) <= uncovered && |batch| == Least(k, |uncovered|)
  {
    PrefixElements(order, k);
  }

  lemma PrefixElements(q: seq<string>, k: nat)
    ensures k <= |q| ==> Elements(q[..k]) <= Elements(q)
  {
  }

  // ---------------------------------------------------------------- preference

  /** s is listed as preferred, and no later than any listing of t. */
  ghost predicate Preferred(preferred: seq<string>, s: string, t: string) {
    exists i :: 0 <= i < |preferred| && Upper(preferred[i]) == s
      && forall j | 0 <= j < i :: Upper(preferred[j]) != t
  }

  ghost predicate Before(q: seq<string>, s: string, t: string) {
    exists i :: 0 <= i < |q| && q[i] == s && t !in q[..i + 1]
  }

  lemma BeforeExtends(q: seq<string>, more: seq<string>, s: string, t: string)
    requires Before(q, s, t)
    ensures Before(q + more, s, t)
  {
    var i :| 0 <= i < |q| && q[i] == s && t !in q[..i + 1];
    assert (q + more)[..i + 1] == q[..i + 1] && (q + more)[i] == s;
  }

  lemma {:induction false} RankKept(ranked: seq<string>, uncovered: set<string>, s: string, t: string, i: nat)
    requires i < |ranked| && ranked[i] == s && s in uncovered && s != t
    requires forall j | 0 <= j < i :: ranked[j] != t
    ensures Before(FirstOccurrences(Filter(ranked, x => x in uncovered)), s, t)
    decreases |ranked|
  {
    var init, last := ranked[..|ranked| - 1], ranked[|ranked| - 1];
    var keep := (x: string) => x in uncovered;
    var before := Filter(init, keep);
    assert Filter(ranked, keep) == if keep(last) then before + [last] else before;
    assert (before + [last])[..|before|] == before;
    var q := FirstOccurrences(before);
    if i < |init| {
      RankKept(init, uncovered, s, t, i);
      BeforeExtends(q, [last], s, t);
    } else if s in q {
      assert t !in init;
      var k :| 0 <= k < |q| && q[k] == s;
      assert forall x | x in q[..k + 1] :: x in q;
      assert Before(q, s, t);
    } else {
      assert t !in init by {
        forall j | 0 <= j < |init| ensures init[j] != t {
          assert ranked[j] == init[j];
        }
      }
      assert t !in before && t !in q;
      assert (q + [s])[..|q| + 1] == q + [s] && (q + [s])[|q|] == s;
      assert t !in (q + [s])[..|q| + 1];
      assert Before(q + [s], s, t);
    }
  }

  /** Uncovered preferred symbols come first and in rank order: no symbol is selected
      while a better-ranked uncovered one is left out. */
  lemma PreferenceIsRespected(eligible: seq<string>, scheduled: seq<string>, preferred: seq<string>, batchSize: int,
                              s: string, t: string)
    requires s in Names(eligible) - Names(scheduled) && s != t && Preferred(preferred, s, t)
    requires t in SelectBatch(eligible, scheduled, preferred, batchSize)
    ensures Before(SelectBatch(eligible, scheduled, preferred, batchSize), s, t)
  {
    var sorted := SortedStrings.Sorted(Names(eligible));
    var uncovered := Names(eligible) - Names(scheduled);
    var ranked := Uppers(preferred);
    var i :| 0 <= i < |preferred| && Upper(preferred[i]) == s && forall j | 0 <= j < i :: Upper(preferred[j]) != t;
    RankKept(ranked, uncovered, s, t, i);
    var first := FirstOccurrences(Filter(ranked, x => x in uncovered));
    var order := Order(sorted, uncovered, preferred);
    BeforeExtends(first, Filter(sorted, x => x in uncovered && x !in first), s, t);
    BeforeInPrefix(order, SelectBatch(eligible, scheduled, preferred, batchSize), s, t);
  }

  lemma {:induction false} FilterKeepsAscending(q: seq<string>, keep: string -> bool)
    requires SortedStrings.Ascending(q)
    ensures SortedStrings.Ascending(Filter(q, keep))
  {
    if q != [] {
      var init, last := q[..|q| - 1], q[|q| - 1];
      FilterKeepsAscending(init, keep);
      forall x | x in Filter(init, keep) ensures SortedStrings.Le(x, last) && x != last {
        var i :| 0 <= i < |init| && init[i] == x;
        assert q[i] == x;
      }
    }
  }

  lemma AscendingBefore(q: seq<string>, s: string, t: string)
    requires SortedStrings.Ascending(q) && s in q && t in q && s != t && SortedStrings.Le(s, t)
    ensures Before(q, s, t)
  {
    var i :| 0 <= i < |q| && q[i] == s;
    forall j | 0 <= j <= i ensures q[j] != t {
      if q[j] == t && j < i {
        assert SortedStrings.Le(q[j], q[i]);
        SortedStrings.LeAntisymmetric(s, t);
      }
    }
  }

  lemma BeforeFollows(first: seq<string>, q: seq<string>, s: string, t: string)
    requires Before(q, s, t) && t !in first
    ensures Before(first + q, s, t)
  {
    var i :| 0 <= i < |q| && q[i] == s && t !in q[..i + 1];
    assert (first + q)[..|first| + i + 1] == first + q[..i + 1] && (first + q)[|first| + i] == s;
  }

  ghost predicate Listed(preferred: seq<string>, s: string) {
    exists i :: 0 <= i < |preferred| && Upper(preferred[i]) == s
  }

  lemma ListedIff(preferred: seq<string>, uncovered: set<string>, s: string)
    ensures s in FirstOccurrences(Filter(Uppers(preferred), x => x in uncovered)) <==> Listed(preferred, s) && s in uncovered
  {
    if i :| 0 <= i < |preferred| && Upper(preferred[i]) == s {
      assert Uppers(preferred)[i] in Uppers(preferred);
    }
    if s in Uppers(preferred) {
      var i :| 0 <= i < |preferred| && Uppers(preferred)[i] == s;
    }
  }

  /** The uncovered symbols that nobody prefers come in ascending order: none is selected
      while a smaller one is left out. */
  lemma OthersAscend(eligible: seq<string>, scheduled: seq<string>, preferred: seq<string>, batchSize: int,
                     s: string, t: string)
    requires s in Names(eligible) - Names(scheduled) && !Listed(preferred, s) && !Listed(preferred, t)
    requires s != t && SortedStrings.Le(s, t)
    requires t in SelectBatch(eligible, scheduled, preferred, batchSize)
    ensures Before(SelectBatch(eligible, scheduled, preferred, batchSize), s, t)
  {
    var sorted := SortedStrings.Sorted(Names(eligible));
    var uncovered := Names(eligible) - Names(scheduled);
    var first := FirstOccurrences(Filter(Uppers(preferred), x => x in uncovered));
    var rest := Filter(sorted, x => x in uncovered && x !in first);
    var order := Order(sorted, uncovered, preferred);
    ListedIff(preferred, uncovered, s);
    ListedIff(preferred, uncovered, t);
    assert order == first + rest;
    assert t in order;
    FilterKeepsAscending(sorted, x => x in uncovered && x !in first);
    AscendingBefore(rest, s, t);
    BeforeFollows(first, rest, s, t);
    BeforeInPrefix(order, SelectBatch(eligible, scheduled, preferred, batchSize), s, t);
  }

  /** The names are the capitals of the symbols that are not empty. */
  lemma NamesMean(symbols: seq<string>, name: string)
    ensures name in Names(symbols) <==> exists i :: 0 <= i < |symbols| && symbols[i] != "" && name == Upper(symbols[i])
  {
    if s :| s in symbols && s != "" && name == Upper(s) {
      var i :| 0 <= i < |symbols| && symbols[i] == s;
    }
  }

  lemma BeforeInPrefix(q: seq<string>, r: seq<string>, s: string, t: string)
    requires Before(q, s, t) && r <= q && t in r
    ensures Before(r, s, t)
  {
    var i :| 0 <= i < |q| && q[i] == s && t !in q[..i + 1];
    var k :| 0 <= k < |r| && r[k] == t;
    forall j | 0 <= j <= i ensures q[j] != t {
      assert q[j] in q[..i + 1];
    }
    assert i < k;
    assert r[..i + 1] == q[..i + 1];
  }

  // ---------------------------------------------------------------- whole rotations

  function Flat(batches: seq<seq<string>>): seq<string> {
    if batches == [] then [] else Flat(batches[..|batches| - 1]) + batches[|batches| - 1]
  }

  /** The batches of consecutive rounds, each fed back as already scheduled; the
      preferences may change from round to round. */
  function Rounds(eligible: seq<string>, preferences: seq<seq<string>>, batchSize: int): (r: seq<seq<string>>)
    ensures |r| == |preferences|
  {
    if preferences == [] then [] else
      var before := Rounds(eligible, preferences[..|preferences| - 1], batchSize);
      before + [SelectBatch(eligible, Flat(before), preferences[|preferences| - 1], batchSize)]
  }

  lemma {:induction false} UpperIsEmpty(s: string)
    ensures Upper(s) == "" <==> s == ""
  {
  }

  /** Selected symbols are their own names. */
  lemma NamesOfSelected(q: seq<string>, eligible: seq<string>)
    requires Elements(q) <= Names(eligible)
    ensures Names(q) == Elements(q)
  {
    forall s | s in q ensures Upper(s) == s && s != "" {
      assert s in Elements(q);
      var x :| x in eligible && x != "" && Upper(x) == s;
      UpperIdempotent(x);
      UpperIsEmpty(x);
    }
  }

  lemma JoinDistinct(a: seq<string>, b: seq<string>)
    requires Distinct(a) && Distinct(b) && Elements(a) !! Elements(b)
    ensures Distinct(a + b)
    ensures Elements(a + b) == Elements(a) + Elements(b)
  {
    forall i, j | 0 <= i < j < |a + b| ensures (a + b)[i] != (a + b)[j] {
      if i < |a| <= j {
        assert (a + b)[i] in Elements(a) && (a + b)[j] in Elements(b);
      }
    }
  }

  /** No symbol scheduled twice, only eligible ones, and as many as there was room for. */
  ghost predicate Advanced(flat: seq<string>, names: set<string>, room: nat) {
    Distinct(flat) && Elements(flat) <= names && |flat| == Least(room, |names|)
  }

  lemma {:induction false} RoundsAdvance(eligible: seq<string>, preferences: seq<seq<string>>, batchSize: int)
    requires batchSize >= 1
    ensures Advanced(Flat(Rounds(eligible, preferences, batchSize)), Names(eligible), |preferences| * batchSize)
  {
    if preferences == [] {
      assert Elements([]) == {};
    } else {
      var init, last := preferences[..|preferences| - 1], preferences[|preferences| - 1];
      var before := Rounds(eligible, init, batchSize);
      RoundsAdvance(eligible, init, batchSize);
      BatchAdds(eligible, Flat(before), last, batchSize, |init| * batchSize);
      FlatSnoc(before, SelectBatch(eligible, Flat(before), last, batchSize));
      OneMore(|init|, batchSize);
    }
  }

  lemma OneMore(n: nat, size: nat)
    ensures (n + 1) * size == n * size + size
  {
  }

  lemma FlatSnoc(batches: seq<seq<string>>, batch: seq<string>)
    ensures Flat(batches + [batch]) == Flat(batches) + batch
  {
    assert (batches + [batch])[..|batches|] == batches;
  }

  lemma BatchAdds(eligible: seq<string>, flat: seq<string>, preferred: seq<string>, batchSize: int, room: nat)
    requires batchSize >= 1 && Advanced(flat, Names(eligible), room)
    ensures Advanced(flat + SelectBatch(eligible, flat, preferred, batchSize), Names(eligible), room + batchSize)
  {
    NamesOfSelected(flat, eligible);
    BatchIsExact(eligible, flat, preferred, batchSize);
    PartAdds(flat, SelectBatch(eligible, flat, preferred, batchSize), Names(eligible), batchSize, room);
  }

  lemma PartAdds(flat: seq<string>, batch: seq<string>, names: set<string>, size: nat, room: nat)
    requires Advanced(flat, names, room)
    requires Distinct(batch) && Elements(batch) <= names - Elements(flat) && |batch| == Least(size, |names - Elements(flat)|)
    ensures Advanced(flat + batch, names, room + size)
  {
    DistinctSize(flat);
    Remainder(names, Elements(flat));
    JoinDistinct(flat, batch);
  }

  lemma Remainder(all: set<string>, part: set<string>)
    requires part <= all
    ensures |all - part| == |all| - |part|
  {
    assert all == part + (all - part);
  }

  lemma {:induction false} FlatHolds(batches: seq<seq<string>>, k: nat, s: string)
    requires k < |batches| && s in batches[k]
    ensures s in Flat(batches)
  {
    if k < |batches| - 1 {
      FlatHolds(batches[..|batches| - 1], k, s);
    }
  }

  lemma {:induction false} FlatDistinctMeansDisjoint(batches: seq<seq<string>>, i: nat, j: nat)
    requires Distinct(Flat(batches)) && i < j < |batches|
    ensures Elements(batches[i]) !! Elements(batches[j])
  {
    var init, last := batches[..|batches| - 1], batches[|batches| - 1];
    var flat := Flat(batches);
    if j < |init| {
      forall a, b | 0 <= a < b < |Flat(init)| ensures Flat(init)[a] != Flat(init)[b] {
        assert flat[a] == Flat(init)[a] && flat[b] == Flat(init)[b];
      }
      FlatDistinctMeansDisjoint(init, i, j);
    } else {
      forall s | s in batches[i] ensures s !in last {
        FlatHolds(init, i, s);
        var a :| 0 <= a < |Flat(init)| && Flat(init)[a] == s;
        forall b | 0 <= b < |last| ensures last[b] != s {
          assert flat[a] == s && flat[|Flat(init)| + b] == last[b];
        }
      }
    }
  }

  /** Feeding batches back gives pairwise disjoint batches. */
  lemma RotationIsDisjoint(eligible: seq<string>, preferences: seq<seq<string>>, batchSize: int, i: nat, j: nat)
    requires batchSize >= 1 && i < j < |preferences|
    ensures Elements(Rounds(eligible, preferences, batchSize)[i]) !! Elements(Rounds(eligible, preferences, batchSize)[j])
  {
    RoundsAdvance(eligible, preferences, batchSize);
    FlatDistinctMeansDisjoint(Rounds(eligible, preferences, batchSize), i, j);
  }

  /** The whole eligible set is covered exactly from round ceiling(n / batch size) on. */
  lemma RotationCovers(eligible: seq<string>, preferences: seq<seq<string>>, batchSize: int)
    requires batchSize >= 1
    ensures Elements(Flat(Rounds(eligible, preferences, batchSize))) == Names(eligible) <==>
      |preferences| >= (|Names(eligible)| + batchSize - 1) / batchSize
  {
    RoundsAdvance(eligible, preferences, batchSize);
    CoveredIff(Flat(Rounds(eligible, preferences, batchSize)), Names(eligible), |preferences| * batchSize);
    EnoughIff(|preferences|, batchSize, |Names(eligible)|);
  }

  lemma CoveredIff(flat: seq<string>, names: set<string>, room: nat)
    requires Advanced(flat, names, room)
    ensures Elements(flat) == names <==> room >= |names|
  {
    DistinctSize(flat);
    Remainder(names, Elements(flat));
    if room >= |names| {
      assert |names - Elements(flat)| == 0;
    }
  }

  lemma EnoughIff(rounds: nat, size: nat, n: nat)
    requires size >= 1
    ensures rounds * size >= n <==> rounds >= (n + size - 1) / size
  {
    var least := (n + size - 1) / size;
    assert n + size - 1 == size * least + (n + size - 1) % size;
    if rounds >= least {
      assert rounds * size >= least * size;
    } else {
      assert rounds * size <= (least - 1) * size == least * size - size;
    }
  }
}
