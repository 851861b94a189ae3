/** Bounded polling in cyclic order, and the shortlist slice built on it. */
module RoundRobin {
  import opened MarketData
  import opened StableSort
  import SortedStrings

  /** How many of n keys one poll takes. */
  function Width(cap: int, n: nat): nat {
    if cap <= 0 then 0 else if cap < n then cap else n
  }

  /** The next keys in cyclic order from the cursor. */
  function Slice<T>(keys: seq<T>, cursor: int, cap: int): seq<T>
    requires keys != []
  {
    seq(Width(cap, |keys|), i requires 0 <= i < Width(cap, |keys|) => keys[(cursor % |keys| + i) % |keys|])
  }

  function Moved(cursor: int, cap: int, n: nat): nat
    requires n > 0
  {
    (cursor % n + Width(cap, n)) % n
  }

  /** The cursor after t polls of n keys. */
  function CursorAfter(n: nat, cap: int, cursor: int, t: nat): int
    requires n > 0
  {
    if t == 0 then cursor else Moved(CursorAfter(n, cap, cursor, t - 1), cap, n)
  }

  /** What t consecutive polls of unchanged keys select. */
  function Polls<T>(keys: seq<T>, cap: int, cursor: int, t: nat): (r: seq<seq<T>>)
    requires keys != []
    ensures |r| == t
  {
    if t == 0 then [] else
      Polls(keys, cap, cursor, t - 1) + [Slice(keys, CursorAfter(|keys|, cap, cursor, t - 1), cap)]
  }

  function TimesSelected<T(==)>(polls: seq<seq<T>>, key: T): nat {
    if polls == [] then 0 else
      TimesSelected(polls[..|polls| - 1], key) + if key in polls[|polls| - 1] then 1 else 0
  }

  // ---------------------------------------------------------------- balance

  lemma Wrap(c: nat, i: nat, n: nat)
    requires c < n && i <= n
    ensures (c + i) % n == if c + i < n then c + i else c + i - n
  {
  }

  /** How far position p is ahead of the cursor, cyclically. */
  function Ahead(c: nat, p: nat, n: nat): (d: nat)
    requires c < n && p < n
    ensures d < n
  {
    if p >= c then p - c else p - c + n
  }

  ghost predicate Unique<T(!new)>(keys: seq<T>) {
    forall i, j | 0 <= i < j < |keys| :: keys[i] != keys[j]
  }

  function Place(c: nat, i: nat, n: nat): nat
    requires c < n && i <= n
  {
    if c + i < n then c + i else c + i - n
  }

  lemma SliceAt<T>(keys: seq<T>, cursor: int, cap: int)
    requires keys != []
    ensures |Slice(keys, cursor, cap)| == Width(cap, |keys|)
    ensures forall i | 0 <= i < Width(cap, |keys|) ::
      Slice(keys, cursor, cap)[i] == keys[Place(cursor % |keys|, i, |keys|)]
  {
    forall i | 0 <= i < Width(cap, |keys|)
      ensures Slice(keys, cursor, cap)[i] == keys[Place(cursor % |keys|, i, |keys|)]
    {
      Wrap(cursor % |keys|, i, |keys|);
    }
  }

  lemma TakenIff<T(!new)>(keys: seq<T>, slice: seq<T>, c: nat, p: nat)
    requires Unique(keys) && p < |keys| && c < |keys| && |slice| <= |keys|
    requires forall i | 0 <= i < |slice| :: slice[i] == keys[Place(c, i, |keys|)]
    ensures keys[p] in slice <==> Ahead(c, p, |keys|) < |slice|
    ensures Unique(slice)
  {
    var n := |keys|;
    forall i | 0 <= i < |slice| ensures slice[i] == keys[p] <==> i == Ahead(c, p, n) {
      assert Place(c, i, n) == p <==> i == Ahead(c, p, n);
    }
    if Ahead(c, p, n) < |slice| {
      assert slice[Ahead(c, p, n)] == keys[p];
    }
    forall i, j | 0 <= i < j < |slice| ensures slice[i] != slice[j] {
      assert Place(c, i, n) != Place(c, j, n);
    }
  }

  /** A poll takes exactly the positions fewer than its width ahead of the cursor, and
      no key twice. */
  lemma SelectedIff<T(!new)>(keys: seq<T>, cursor: int, cap: int, p: nat)
    requires Unique(keys) && p < |keys|
    ensures keys[p] in Slice(keys, cursor, cap) <==> Ahead(cursor % |keys|, p, |keys|) < Width(cap, |keys|)
    ensures Unique(Slice(keys, cursor, cap))
  {
    SliceAt(keys, cursor, cap);
    TakenIff(keys, Slice(keys, cursor, cap), cursor % |keys|, p);
  }

  lemma AheadMoves(cursor: int, cap: int, p: nat, n: nat)
    requires p < n
    ensures Ahead(Moved(cursor, cap, n) % n, p, n) + Width(cap, n) == Ahead(cursor % n, p, n)
      + if Ahead(cursor % n, p, n) < Width(cap, n) then n else 0
  {
    Wrap(cursor % n, Width(cap, n), n);
    var c := Moved(cursor, cap, n);
    assert c % n == c by {
      Wrap(c, 0, n);
    }
  }

  /** n times the polls that took a key is the number of keys polled, up to how much
      closer the cursor came to it. */
  lemma {:induction false} PollsAccount<T(!new)>(keys: seq<T>, cap: int, cursor: int, t: nat, p: nat)
    requires Unique(keys) && p < |keys|
    ensures var n := |keys|;
      n * TimesSelected(Polls(keys, cap, cursor, t), keys[p]) + Ahead(cursor % n, p, n)
      == t * Width(cap, n) + Ahead(CursorAfter(n, cap, cursor, t) % n, p, n)
  {
    if t > 0 {
      var n := |keys|;
      var before := CursorAfter(n, cap, cursor, t - 1);
      var polls := Polls(keys, cap, cursor, t);
      PollsAccount(keys, cap, cursor, t - 1, p);
      SelectedIff(keys, before, cap, p);
      AheadMoves(before, cap, p, n);
      assert polls[..|polls| - 1] == Polls(keys, cap, cursor, t - 1);
      Distribute(n, TimesSelected(Polls(keys, cap, cursor, t - 1), keys[p]), TimesSelected(polls, keys[p]));
      assert t * Width(cap, n) == (t - 1) * Width(cap, n) + Width(cap, n);
    }
  }

  lemma Distribute(n: nat, before: nat, after: nat)
    ensures after == before ==> n * after == n * before
    ensures after == before + 1 ==> n * after == n * before + n
  {
  }

  lemma Cancel(n: nat, a: int, b: int)
    requires n * a < n * b + n
    ensures a <= b
  {
    Monotone(n, b + 1, a);
  }

  lemma Monotone(n: nat, a: int, b: int)
    ensures a <= b ==> n * a <= n * b
  {
  }

  /** Floor or ceiling of total / n. */
  predicate FairShare(times: nat, total: nat, n: nat) {
    n > 0 && total / n <= times <= (total + n - 1) / n
  }

  lemma FloorOrCeiling(n: nat, times: nat, total: nat, start: nat, end: nat)
    requires n > 0 && start < n && end < n
    requires n * times + start == total + end
    ensures FairShare(times, total, n)
    ensures total >= n ==> times >= 1
  {
    assert total == n * (total / n) + total % n;
    assert total + n - 1 == n * ((total + n - 1) / n) + (total + n - 1) % n;
    Cancel(n, total / n, times);
    Cancel(n, times, (total + n - 1) / n);
    if total >= n {
      Cancel(n, 1, times);
    }
  }

  /** Round robin is balanced: after any number of consecutive polls of unchanged keys,
      wherever the cursor started, each key was taken floor or ceiling of its share. */
  lemma PollsAreBalanced<T(!new)>(keys: seq<T>, cap: int, cursor: int, t: nat, key: T)
    requires Unique(keys) && key in keys
    ensures FairShare(TimesSelected(Polls(keys, cap, cursor, t), key), t * Width(cap, |keys|), |keys|)
  {
    var n := |keys|;
    var p :| 0 <= p < n && keys[p] == key;
    PollsAccount(keys, cap, cursor, t, p);
    FloorOrCeiling(n, TimesSelected(Polls(keys, cap, cursor, t), key), t * Width(cap, n),
      Ahead(cursor % n, p, n), Ahead(CursorAfter(n, cap, cursor, t) % n, p, n));
  }

  /** Every key is reached within ceiling(n / cap) polls. */
  lemma EveryKeyIsReached<T(!new)>(keys: seq<T>, cap: int, cursor: int, t: nat, key: T)
    requires Unique(keys) && key in keys
    requires Enough(t, |keys|, cap)
    ensures TimesSelected(Polls(keys, cap, cursor, t), key) >= 1
  {
    var n := |keys|;
    var p :| 0 <= p < n && keys[p] == key;
    PollsAccount(keys, cap, cursor, t, p);
    EnoughPolls(n, cap, t);
    FloorOrCeiling(n, TimesSelected(Polls(keys, cap, cursor, t), key), t * Width(cap, n),
      Ahead(cursor % n, p, n), Ahead(CursorAfter(n, cap, cursor, t) % n, p, n));
  }

  /** At least ceiling(n / cap) polls. */
  predicate Enough(t: nat, n: nat, cap: int) {
    cap >= 1 && t >= (n + cap - 1) / cap
  }

  lemma EnoughPolls(n: nat, cap: int, t: nat)
    requires n > 0 && Enough(t, n, cap)
    ensures t * Width(cap, n) >= n
  {
    var least := (n + cap - 1) / cap;
    assert n + cap - 1 == cap * least + (n + cap - 1) % cap;
    Monotone(cap, least, t);
    Monotone(n, 1, t);
    if cap >= n {
      Cancel(cap, 1, least);
    }
  }

  // ---------------------------------------------------------------- the shortlist slice

  predicate BySymbol(a: MarketSnapshot, b: MarketSnapshot) {
    SortedStrings.Le(a.symbol, b.symbol)
  }

  lemma BySymbolIsTotal()
    ensures TotalOrder(BySymbol)
  {
    forall a, b ensures BySymbol(a, b) || BySymbol(b, a) {
      SortedStrings.LeTotal(a.symbol, b.symbol);
    }
    forall a, b, c | BySymbol(a, b) && BySymbol(b, c) ensures BySymbol(a, c) {
      SortedStrings.LeTransitive(a.symbol, b.symbol, c.symbol);
    }
  }

  /** `round_robin_slice` */
  function RoundRobinSlice(snapshots: seq<MarketSnapshot>, cursor: int, batchSize: int): (seq<MarketSnapshot>, nat) {
    if snapshots == [] || batchSize <= 0 then ([], 0) else
      (Slice(SortBy(snapshots, BySymbol), cursor, batchSize), Moved(cursor, batchSize, |snapshots|))
  }

  /** Without snapshots, or with no room, nothing is taken and the cursor starts over. */
  lemma EmptySlice(snapshots: seq<MarketSnapshot>, cursor: int, batchSize: int)
    requires snapshots == [] || batchSize <= 0
    ensures RoundRobinSlice(snapshots, cursor, batchSize) == ([], 0)
  {
  }

  function SymbolsOf(snapshots: seq<MarketSnapshot>): (r: seq<string>)
    ensures |r| == |snapshots|
    ensures forall i | 0 <= i < |r| :: r[i] == snapshots[i].symbol
  {
    seq(|snapshots|, i requires 0 <= i < |snapshots| => snapshots[i].symbol)
  }

  /** Feeding each cursor back: round k slices the k-th snapshots. */
  function Slices(rounds: seq<seq<MarketSnapshot>>, cursor: int, batchSize: int): (r: (seq<seq<string>>, int))
    ensures |r.0| == |rounds|
  {
    if rounds == [] then ([], cursor) else
      var before := Slices(rounds[..|rounds| - 1], cursor, batchSize);
      var last := RoundRobinSlice(rounds[|rounds| - 1], before.1, batchSize);
      (before.0 + [SymbolsOf(last.0)], last.1)
  }

  /** The snapshots are of exactly these symbols, each once. */
  ghost predicate Of(snapshots: seq<MarketSnapshot>, symbols: set<string>) {
    && |snapshots| == |symbols|
    && forall s :: s in symbols <==> exists m :: m in snapshots && m.symbol == s
  }

  lemma SameLeast(a: seq<string>, b: seq<string>, i: nat, j: nat)
    requires SortedStrings.Ascending(a) && SortedStrings.Ascending(b)
    requires i < |b| && j < |a| && b[i] == a[0] && a[j] == b[0]
    ensures a[0] == b[0]
  {
    SortedStrings.LeReflexive(a[0]);
    SortedStrings.LeReflexive(b[0]);
    assert SortedStrings.Le(a[0], a[j]) && SortedStrings.Le(b[0], b[i]);
    SortedStrings.LeAntisymmetric(a[0], b[0]);
  }

  lemma {:induction false} AscendingIsUnique(a: seq<string>, b: seq<string>)
    requires SortedStrings.Ascending(a) && SortedStrings.Ascending(b)
    requires forall x :: x in a <==> x in b
    requires |a| == |b|
    ensures a == b
  {
    if a != [] {
      assert a[0] in b && b[0] in a;
      var i :| 0 <= i < |b| && b[i] == a[0];
      var j :| 0 <= j < |a| && a[j] == b[0];
      SameLeast(a, b, i, j);
      forall x ensures x in a[1..] <==> x in b[1..] {
        if x in a[1..] {
          assert x in a && x != a[0];
          assert x in b;
        }
        if x in b[1..] {
          assert x in b && x != b[0];
          assert x in a;
        }
      }
      AscendingIsUnique(a[1..], b[1..]);
      assert a == [a[0]] + a[1..] && b == [b[0]] + b[1..];
    }
  }

  lemma SymbolsAreSorted(snapshots: seq<MarketSnapshot>, symbols: set<string>)
    requires Of(snapshots, symbols)
    ensures SymbolsOf(SortBy(snapshots, BySymbol)) == SortedStrings.Sorted(symbols)
  {
    var sorted := SortBy(snapshots, BySymbol);
    var names := SymbolsOf(sorted);
    BySymbolIsTotal();
    SortIsOrdered(snapshots, BySymbol);
    forall s ensures s in names <==> s in symbols {
      NamedIff(sorted, s);
      NamedInBoth(sorted, snapshots, s);
    }
    NamesDiffer(names, symbols);
    forall i, j | 0 <= i < j < |names| ensures SortedStrings.Le(names[i], names[j]) {
      assert BySymbol(sorted[i], sorted[j]);
    }
    AscendingIsUnique(names, SortedStrings.Sorted(symbols));
  }

  lemma NamedIff(snapshots: seq<MarketSnapshot>, s: string)
    ensures s in SymbolsOf(snapshots) <==> exists m :: m in snapshots && m.symbol == s
  {
    if s in SymbolsOf(snapshots) {
      var i :| 0 <= i < |snapshots| && SymbolsOf(snapshots)[i] == s;
      assert snapshots[i] in snapshots;
    }
    if m :| m in snapshots && m.symbol == s {
      var i :| 0 <= i < |snapshots| && snapshots[i] == m;
      assert SymbolsOf(snapshots)[i] == s;
    }
  }

  lemma NamedInBoth(a: seq<MarketSnapshot>, b: seq<MarketSnapshot>, s: string)
    requires multiset(a) == multiset(b)
    ensures (exists m :: m in a && m.symbol == s) <==> exists m :: m in b && m.symbol == s
  {
    forall m ensures m in a <==> m in b {
      SameElements(a, b, m);
    }
  }

  /** As many names as elements: no name is repeated. */
  lemma NamesDiffer(names: seq<string>, symbols: set<string>)
    requires |names| == |symbols|
    requires forall s :: s in names <==> s in symbols
    ensures Unique(names)
  {
    forall i, j | 0 <= i < j < |names| ensures names[i] != names[j] {
      if names[i] == names[j] {
        var shorter := names[..i] + names[i + 1..];
        assert names[j] == shorter[j - 1];
        forall s ensures s in shorter <==> s in symbols {
          if s in symbols {
            var k :| 0 <= k < |names| && names[k] == s;
            assert k < i ==> shorter[k] == s;
            assert k > i ==> shorter[k - 1] == s;
          }
        }
        SetSize(shorter, symbols);
      }
    }
  }

  lemma {:induction false} SetSize(names: seq<string>, symbols: set<string>)
    requires forall s :: s in symbols ==> s in names
    ensures |symbols| <= |names|
  {
    if names == [] {
      assert symbols == {};
    } else {
      SetSize(names[..|names| - 1], symbols - {names[|names| - 1]});
    }
  }

  /** The cursor the slice returns, fed back, polls the sorted symbols: prices may change
      from round to round as long as the symbols do not. */
  lemma {:induction false} SlicesArePolls(rounds: seq<seq<MarketSnapshot>>, symbols: set<string>, cursor: int, batchSize: int)
    requires symbols != {} && batchSize >= 1
    requires forall k | 0 <= k < |rounds| :: Of(rounds[k], symbols)
    ensures Slices(rounds, cursor, batchSize).0 == Polls(SortedStrings.Sorted(symbols), batchSize, cursor, |rounds|)
    ensures Slices(rounds, cursor, batchSize).1 == CursorAfter(|symbols|, batchSize, cursor, |rounds|)
  {
    if rounds != [] {
      var last := rounds[|rounds| - 1];
      var before := Slices(rounds[..|rounds| - 1], cursor, batchSize);
      SlicesArePolls(rounds[..|rounds| - 1], symbols, cursor, batchSize);
      SymbolsAreSorted(last, symbols);
      SliceOfSymbols(SortBy(last, BySymbol), before.1, batchSize);
    }
  }

  lemma SliceOfSymbols(ordered: seq<MarketSnapshot>, cursor: int, cap: int)
    requires ordered != []
    ensures SymbolsOf(Slice(ordered, cursor, cap)) == Slice(SymbolsOf(ordered), cursor, cap)
  {
    SliceAt(ordered, cursor, cap);
    SliceAt(SymbolsOf(ordered), cursor, cap);
  }

  /** So the shortlist slice is balanced over the symbols. */
  lemma ShortlistIsBalanced(rounds: seq<seq<MarketSnapshot>>, symbols: set<string>, cursor: int, batchSize: int, s: string)
    requires batchSize >= 1 && s in symbols
    requires forall k | 0 <= k < |rounds| :: Of(rounds[k], symbols)
    ensures FairShare(TimesSelected(Slices(rounds, cursor, batchSize).0, s),
      |rounds| * Width(batchSize, |symbols|), |symbols|)
  {
    SlicesArePolls(rounds, symbols, cursor, batchSize);
    PollsAreBalanced(SortedStrings.Sorted(symbols), batchSize, cursor, |rounds|, s);
  }

  /** And every symbol is sliced within ceiling(n / batch size) rounds. */
  lemma ShortlistReachesAll(rounds: seq<seq<MarketSnapshot>>, symbols: set<string>, cursor: int, batchSize: int, s: string)
    requires s in symbols && Enough(|rounds|, |symbols|, batchSize)
    requires forall k | 0 <= k < |rounds| :: Of(rounds[k], symbols)
    ensures TimesSelected(Slices(rounds, cursor, batchSize).0, s) >= 1
  {
    SlicesArePolls(rounds, symbols, cursor, batchSize);
    EveryKeyIsReached(SortedStrings.Sorted(symbols), batchSize, cursor, |rounds|, s);
  }
}
