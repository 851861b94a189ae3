/** Every call keeps the tracker's invariant, over any run. */
module ContinuityProofs {
  import opened Text
  import opened MarketData
  import opened SortedInts
  import opened Continuity

  // ---------------------------------------------------------------- windows

  /** `e` holds the `bound` latest minutes of `w`, or all of them if there are fewer. */
  ghost predicate LatestOf(w: Minutes, e: Minutes, bound: nat) {
    && e.Keys <= w.Keys
    && (forall m | m in e :: e[m] == w[m])
    && |e| == (if |w| <= bound then |w| else bound)
    && (forall dropped, m | dropped in w && dropped !in e && m in e :: dropped < m)
  }

  /** Trimming keeps the latest minutes, with the candles they had. */
  lemma {:induction false} EvictedKeepsLatest(w: Minutes, bound: nat)
    ensures LatestOf(w, Evicted(w, bound), bound)
    decreases |w|
  {
    if |w| > bound {
      var least := Least(w.Keys);
      var rest := w - {least};
      assert w.Keys == rest.Keys + {least};
      EvictedKeepsLatest(rest, bound);
    }
  }

  /** Successive sorted minutes are exactly the neighbouring ones. */
  lemma SuccessiveAreNeighbours(minutes: set<int>, i: nat)
    requires i + 1 < |minutes|
    ensures Neighbours(minutes, Sorted(minutes)[i], Sorted(minutes)[i + 1])
  {
    var times := Sorted(minutes);
    forall m | m in minutes ensures m <= times[i] || times[i + 1] <= m {
      assert m in times;
      var k :| 0 <= k < |times| && times[k] == m;
      if k < i {
        assert times[k] < times[i];
      } else if i + 1 < k {
        assert times[i + 1] < times[k];
      }
    }
  }

  lemma Order(times: seq<int>, i: nat, j: nat)
    requires StrictlyIncreasing(times) && i < |times| && j < |times|
    ensures times[i] < times[j] <==> i < j
  {
    if j < i {
      assert times[j] < times[i];
    }
  }

  lemma NeighboursAreSuccessive(minutes: set<int>, previous: int, current: int) returns (i: nat)
    requires Neighbours(minutes, previous, current)
    ensures i + 1 < |minutes|
    ensures Sorted(minutes)[i] == previous && Sorted(minutes)[i + 1] == current
  {
    var times := Sorted(minutes);
    assert previous in times && current in times;
    i :| 0 <= i < |times| && times[i] == previous;
    var j :| 0 <= j < |times| && times[j] == current;
    Order(times, i, j);
    Order(times, i, i + 1);
    Order(times, i + 1, j);
    assert times[i + 1] in minutes;
  }

  // ---------------------------------------------------------------- new gaps

  /** The gap found at the i-th successive pair of `times`, if there is one. */
  ghost predicate IsNewHole(symbol: string, w: Minutes, times: seq<int>, prior: Gaps, detectedAt: int, i: int, gap: GapEvent)
    requires forall t | t in times :: t in w
  {
    && 1 <= i < |times|
    && times[i] - times[i - 1] > 1
    && gap == HoleGap(symbol, w, times[i - 1], times[i], detectedAt)
    && !ContainedInSome(prior, gap)
  }

  lemma {:induction false} NewHolesSound(symbol: string, w: Minutes, times: seq<int>, prior: Gaps, detectedAt: int, k: nat)
    requires forall t | t in times :: t in w
    requires StrictlyIncreasing(times)
    requires k < |NewHoles(symbol, w, times, prior, detectedAt)|
    ensures exists i :: IsNewHole(symbol, w, times, prior, detectedAt, i, NewHoles(symbol, w, times, prior, detectedAt)[k])
  {
    var init := times[..|times| - 1];
    var gaps := NewHoles(symbol, w, times, prior, detectedAt);
    var earlier := NewHoles(symbol, w, init, prior, detectedAt);
    if k < |earlier| {
      NewHolesSound(symbol, w, init, prior, detectedAt, k);
      var i :| IsNewHole(symbol, w, init, prior, detectedAt, i, earlier[k]);
      assert IsNewHole(symbol, w, times, prior, detectedAt, i, gaps[k]);
    } else {
      assert IsNewHole(symbol, w, times, prior, detectedAt, |times| - 1, gaps[k]);
    }
  }

  lemma {:induction false} NewHolesComplete(symbol: string, w: Minutes, times: seq<int>, prior: Gaps, detectedAt: int, i: nat)
    requires forall t | t in times :: t in w
    requires 1 <= i < |times| && times[i] - times[i - 1] > 1
    ensures var gap := HoleGap(symbol, w, times[i - 1], times[i], detectedAt);
      ContainedInSome(prior, gap) || gap in NewHoles(symbol, w, times, prior, detectedAt)
  {
    if i < |times| - 1 {
      NewHolesComplete(symbol, w, times[..|times| - 1], prior, detectedAt, i);
    }
  }

  ghost predicate Ascending(gaps: seq<GapEvent>) {
    forall j, k | 0 <= j < k < |gaps| :: gaps[j].observedNextStart < gaps[k].observedNextStart
  }

  ghost predicate EndBy(gaps: seq<GapEvent>, last: int) {
    forall k | 0 <= k < |gaps| :: gaps[k].observedNextStart <= last
  }

  /** New gaps are found in time order, so no identity occurs twice. */
  lemma {:induction false} NewHolesAscending(symbol: string, w: Minutes, times: seq<int>, prior: Gaps, detectedAt: int)
    requires forall t | t in times :: t in w
    requires StrictlyIncreasing(times)
    ensures Ascending(NewHoles(symbol, w, times, prior, detectedAt))
    ensures times != [] ==> EndBy(NewHoles(symbol, w, times, prior, detectedAt), times[|times| - 1])
  {
    if |times| >= 2 {
      NewHolesAscending(symbol, w, times[..|times| - 1], prior, detectedAt);
    }
  }

  ghost predicate IsAmong(gaps: seq<GapEvent>, id: GapIdentity, gap: GapEvent) {
    exists k :: 0 <= k < |gaps| && gaps[k].Identity() == id && gaps[k] == gap
  }

  /** Where an entry of the extended map comes from. */
  lemma {:induction false} AddGapsOrigin(active: Gaps, gaps: seq<GapEvent>, id: GapIdentity)
    requires id in AddGaps(active, gaps)
    ensures
      || (id in active && AddGaps(active, gaps)[id] == active[id])
      || IsAmong(gaps, id, AddGaps(active, gaps)[id])
  {
    if gaps != [] {
      var last := gaps[|gaps| - 1];
      if id != last.Identity() {
        AddGapsOrigin(active, gaps[..|gaps| - 1], id);
      }
    }
  }

  ghost predicate Distinct(gaps: seq<GapEvent>) {
    forall j, k | 0 <= j < k < |gaps| :: gaps[j].Identity() != gaps[k].Identity()
  }

  ghost predicate NoneIn(gaps: seq<GapEvent>, active: Gaps) {
    forall k | 0 <= k < |gaps| :: gaps[k].Identity() !in active
  }

  ghost predicate AllIn(gaps: seq<GapEvent>, active: Gaps) {
    forall k | 0 <= k < |gaps| :: gaps[k].Identity() in active && active[gaps[k].Identity()] == gaps[k]
  }

  lemma NotAdded(active: Gaps, gaps: seq<GapEvent>, gap: GapEvent)
    requires gap.Identity() !in active && forall k | 0 <= k < |gaps| :: gaps[k].Identity() != gap.Identity()
    ensures gap.Identity() !in AddGaps(active, gaps)
  {
    if gap.Identity() in AddGaps(active, gaps) {
      AddGapsOrigin(active, gaps, gap.Identity());
    }
  }

  /** When no identity clashes, nothing is overwritten. */
  lemma {:induction false} AddGapsDisjoint(active: Gaps, gaps: seq<GapEvent>)
    requires NoneIn(gaps, active) && Distinct(gaps)
    ensures |AddGaps(active, gaps)| == |active| + |gaps|
    ensures forall id | id in active :: id in AddGaps(active, gaps) && AddGaps(active, gaps)[id] == active[id]
    ensures AllIn(gaps, AddGaps(active, gaps))
  {
    if gaps != [] {
      var init := gaps[..|gaps| - 1];
      var last := gaps[|gaps| - 1];
      var before := AddGaps(active, init);
      assert gaps == init + [last];
      AddGapsDisjoint(active, init);
      NotAdded(active, init, last);
      OneMoreGap(active, before, init, last);
    }
  }

  lemma OneMoreGap(active: Gaps, before: Gaps, init: seq<GapEvent>, last: GapEvent)
    requires before == AddGaps(active, init) && |before| == |active| + |init|
    requires forall id | id in active :: id in before && before[id] == active[id]
    requires AllIn(init, before) && last.Identity() !in before
    ensures var after := AddGaps(active, init + [last]);
      && |after| == |active| + |init| + 1
      && (forall id | id in active :: id in after && after[id] == active[id])
      && AllIn(init + [last], after)
  {
    assert (init + [last])[..|init|] == init;
  }

  // ---------------------------------------------------------------- one recomputation

  /** What `_recompute_symbol` leaves, said without the loop. `t` is the state
      with the new candle stored but the gaps not yet recomputed. */
  ghost predicate RecomputeContext(t: Tracker, symbol: string) {
    && symbol in t.candles
    && (forall id | id in t.active ::
          && t.active[id].Identity() == id
          && t.active[id].WellFormed())
  }

  function FoundGaps(t: Tracker, symbol: string, detectedAt: int): seq<GapEvent>
    requires symbol in t.candles
  {
    if |t.candles[symbol]| == 1 then [] else
      NewHoles(symbol, t.candles[symbol], Sorted(t.candles[symbol].Keys), PriorGaps(t.active, symbol), detectedAt)
  }

  /** A gap of the symbol that is not active, lies between two neighbouring minutes that
      no active gap covers, and is unfilled. */
  ghost predicate IsNewGap(t: Tracker, symbol: string, detectedAt: int, gap: GapEvent)
    requires symbol in t.candles
  {
    && gap.symbol == symbol && gap.WellFormed() && gap.detectedAt == detectedAt
    && Neighbours(t.candles[symbol].Keys, gap.expectedStart - 1, gap.observedNextStart)
    && !gap.Filled(t.candles[symbol].Keys)
    && gap.Identity() !in t.active
    && !HasCover(t.active, symbol, gap.expectedStart - 1, gap.observedNextStart)
  }

  lemma FoundGapIsHole(t: Tracker, symbol: string, detectedAt: int, k: nat)
    requires RecomputeContext(t, symbol)
    requires k < |FoundGaps(t, symbol, detectedAt)|
    ensures IsNewGap(t, symbol, detectedAt, FoundGaps(t, symbol, detectedAt)[k])
  {
    FoundIsNewHole(t, symbol, detectedAt, k);
    NewHoleIsHole(t, symbol, Sorted(t.candles[symbol].Keys), PriorGaps(t.active, symbol), detectedAt, FoundGaps(t, symbol, detectedAt)[k]);
  }

  lemma FoundIsNewHole(t: Tracker, symbol: string, detectedAt: int, k: nat)
    requires symbol in t.candles && k < |FoundGaps(t, symbol, detectedAt)|
    ensures exists i :: IsNewHole(symbol, t.candles[symbol], Sorted(t.candles[symbol].Keys), PriorGaps(t.active, symbol),
      detectedAt, i, FoundGaps(t, symbol, detectedAt)[k])
  {
    NewHolesSound(symbol, t.candles[symbol], Sorted(t.candles[symbol].Keys), PriorGaps(t.active, symbol), detectedAt, k);
  }

  lemma NewHoleIsHole(t: Tracker, symbol: string, times: seq<int>, prior: Gaps, detectedAt: int, gap: GapEvent)
    requires RecomputeContext(t, symbol) && times == Sorted(t.candles[symbol].Keys) && prior == PriorGaps(t.active, symbol)
    requires exists i :: IsNewHole(symbol, t.candles[symbol], times, prior, detectedAt, i, gap)
    ensures IsNewGap(t, symbol, detectedAt, gap)
  {
    NewHoleIsBetween(symbol, t.candles[symbol], times, prior, detectedAt, gap);
    NotContainedNotCovered(t.active, symbol, gap);
    CoveredByItself(t.active, gap);
  }

  lemma NewHoleIsBetween(symbol: string, w: Minutes, times: seq<int>, prior: Gaps, detectedAt: int, gap: GapEvent)
    requires times == Sorted(w.Keys) && exists i :: IsNewHole(symbol, w, times, prior, detectedAt, i, gap)
    ensures gap.symbol == symbol && gap.WellFormed() && gap.detectedAt == detectedAt
    ensures Neighbours(w.Keys, gap.expectedStart - 1, gap.observedNextStart)
    ensures !gap.Filled(w.Keys) && !ContainedInSome(prior, gap)
  {
    var i :| IsNewHole(symbol, w, times, prior, detectedAt, i, gap);
    SuccessiveAreNeighbours(w.Keys, i - 1);
    HoleGapIs(symbol, w, times[i - 1], times[i], detectedAt, gap);
  }

  lemma HoleGapIs(symbol: string, w: Minutes, previous: int, current: int, detectedAt: int, gap: GapEvent)
    requires Neighbours(w.Keys, previous, current) && current - previous > 1
    requires gap == HoleGap(symbol, w, previous, current, detectedAt)
    ensures gap.symbol == symbol && gap.WellFormed() && gap.detectedAt == detectedAt
    ensures Neighbours(w.Keys, gap.expectedStart - 1, gap.observedNextStart)
    ensures !gap.Filled(w.Keys)
  {
    assert gap.expectedStart !in w.Keys;
  }

  lemma CoveredByItself(active: Gaps, gap: GapEvent)
    requires forall id | id in active :: active[id].Identity() == id
    ensures gap.Identity() in active ==> HasCover(active, gap.symbol, gap.expectedStart - 1, gap.observedNextStart)
  {
    if gap.Identity() in active {
      assert Covers(active[gap.Identity()], gap.symbol, gap.expectedStart - 1, gap.observedNextStart);
    }
  }

  /** A gap that no prior gap of its symbol contains is covered by no active gap. */
  lemma NotContainedNotCovered(active: Gaps, symbol: string, gap: GapEvent)
    requires gap.symbol == symbol && !ContainedInSome(PriorGaps(active, symbol), gap)
    ensures !HasCover(active, symbol, gap.expectedStart - 1, gap.observedNextStart)
  {
    forall id | id in active ensures !Covers(active[id], symbol, gap.expectedStart - 1, gap.observedNextStart) {
      assert active[id].symbol == symbol ==> id in PriorGaps(active, symbol) && !Contains(PriorGaps(active, symbol)[id], gap);
    }
  }

  lemma FoundGapsDistinct(t: Tracker, symbol: string, detectedAt: int)
    requires RecomputeContext(t, symbol)
    ensures NoneIn(FoundGaps(t, symbol, detectedAt), t.active)
    ensures Distinct(FoundGaps(t, symbol, detectedAt))
  {
    var w := t.candles[symbol];
    var found := FoundGaps(t, symbol, detectedAt);
    forall k | 0 <= k < |found| ensures found[k].Identity() !in t.active {
      FoundGapIsHole(t, symbol, detectedAt, k);
    }
    if |w| != 1 {
      NewHolesAscending(symbol, w, Sorted(w.Keys), PriorGaps(t.active, symbol), detectedAt);
      forall j, k | 0 <= j < k < |found| ensures found[j].Identity() != found[k].Identity() {
        assert found[j].observedNextStart < found[k].observedNextStart;
      }
    }
  }

  /** The active gaps after a recomputation: the kept ones and the found ones. */
  lemma RecomputedActive(t: Tracker, symbol: string, detectedAt: int)
    requires RecomputeContext(t, symbol)
    ensures var r := Recomputed(t, symbol, detectedAt).active;
      var kept := KeptGaps(t.active, symbol, t.candles[symbol].Keys);
      var found := FoundGaps(t, symbol, detectedAt);
      && |r| == |kept| + |found|
      && (forall id | id in kept :: id in r && r[id] == kept[id])
      && AllIn(found, r)
      && (forall id | id in r ::
            || (id in kept && r[id] == kept[id])
            || IsAmong(found, id, r[id]))
  {
    var kept := KeptGaps(t.active, symbol, t.candles[symbol].Keys);
    var found := FoundGaps(t, symbol, detectedAt);
    FoundGapsDistinct(t, symbol, detectedAt);
    AddGapsDisjoint(kept, found);
    var r := AddGaps(kept, found);
    assert r == Recomputed(t, symbol, detectedAt).active;
    forall id | id in r
      ensures
        || (id in kept && r[id] == kept[id])
        || IsAmong(found, id, r[id])
    {
      AddGapsOrigin(kept, found, id);
    }
  }

  /** A hole inside a prior gap: that gap is kept. */
  lemma ContainedIsKept(active: Gaps, symbol: string, minutes: set<int>, gap: GapEvent) returns (id: GapIdentity)
    requires forall id | id in active :: active[id].WellFormed()
    requires gap.symbol == symbol && gap.expectedStart < gap.observedNextStart && gap.expectedStart !in minutes
    requires ContainedInSome(PriorGaps(active, symbol), gap)
    ensures id in KeptGaps(active, symbol, minutes)
    ensures Covers(active[id], symbol, gap.expectedStart - 1, gap.observedNextStart)
  {
    id :| id in PriorGaps(active, symbol) && Contains(PriorGaps(active, symbol)[id], gap);
    assert !active[id].Filled(minutes);
  }

  lemma HoleIsCovered(t: Tracker, symbol: string, detectedAt: int, previous: int, current: int)
    requires RecomputeContext(t, symbol)
    requires Neighbours(t.candles[symbol].Keys, previous, current) && current - previous > 1
    ensures HasCover(Recomputed(t, symbol, detectedAt).active, symbol, previous, current)
  {
    var w := t.candles[symbol];
    var gap := HoleGap(symbol, w, previous, current, detectedAt);
    RecomputedActive(t, symbol, detectedAt);
    if ContainedInSome(PriorGaps(t.active, symbol), gap) {
      var id := ContainedIsKept(t.active, symbol, w.Keys, gap);
      assert Covers(Recomputed(t, symbol, detectedAt).active[id], symbol, previous, current);
    } else {
      HoleIsFound(t, symbol, detectedAt, previous, current, gap);
      assert Covers(Recomputed(t, symbol, detectedAt).active[gap.Identity()], symbol, previous, current);
    }
  }

  lemma HoleIsFound(t: Tracker, symbol: string, detectedAt: int, previous: int, current: int, gap: GapEvent)
    requires symbol in t.candles
    requires Neighbours(t.candles[symbol].Keys, previous, current) && current - previous > 1
    requires gap == HoleGap(symbol, t.candles[symbol], previous, current, detectedAt)
    requires !ContainedInSome(PriorGaps(t.active, symbol), gap)
    ensures gap in FoundGaps(t, symbol, detectedAt)
  {
    var w := t.candles[symbol];
    var i := NeighboursAreSuccessive(w.Keys, previous, current);
    NewHolesComplete(symbol, w, Sorted(w.Keys), PriorGaps(t.active, symbol), detectedAt, i + 1);
  }

  /** After a recomputation each hole of the symbol is covered. */
  lemma RecomputedCovers(t: Tracker, symbol: string, detectedAt: int)
    requires RecomputeContext(t, symbol)
    ensures Covered(Recomputed(t, symbol, detectedAt).active, symbol, t.candles[symbol].Keys)
  {
    forall previous, current | Neighbours(t.candles[symbol].Keys, previous, current) && current - previous > 1
      ensures HasCover(Recomputed(t, symbol, detectedAt).active, symbol, previous, current)
    {
      HoleIsCovered(t, symbol, detectedAt, previous, current);
    }
  }

  // ---------------------------------------------------------------- one candle

  lemma RecomputedFrame(t: Tracker, symbol: string, detectedAt: int)
    requires symbol in t.candles
    ensures var r := Recomputed(t, symbol, detectedAt);
      && r.candles == t.candles && r.conflicts == t.conflicts
      && r.maxCandles == t.maxCandles && r.maxEvents == t.maxEvents
      && r.health.gapsDetected == t.health.gapsDetected + |FoundGaps(t, symbol, detectedAt)|
      && r.health.gapsBackfilled == t.health.gapsBackfilled
      && r.health.backfillFailures == t.health.backfillFailures
  {
  }

  lemma InsertedIs(t: Tracker, c: MarketCandle)
    requires StoresNew(t, c)
    ensures Inserted(t, c).candles == t.candles[Upper(c.symbol) := Extended(t, c)]
    ensures Inserted(t, c).active == Recomputed(Stored(t, c), Upper(c.symbol), c.receivedAt).active
    ensures Inserted(t, c).states == Recomputed(Stored(t, c), Upper(c.symbol), c.receivedAt).states
    ensures Inserted(t, c).maxCandles == t.maxCandles && Inserted(t, c).maxEvents == t.maxEvents
  {
    RecomputedFrame(Stored(t, c), Upper(c.symbol), c.receivedAt);
  }

  lemma StoredContext(t: Tracker, c: MarketCandle)
    requires Inv(t)
    ensures RecomputeContext(Stored(t, c), Upper(c.symbol))
  {
    assert forall id | id in t.active :: GapInv(t, id);
  }

  /** A gap the insertion found: a hole between neighbouring minutes that no gap active
      before contains. */
  ghost predicate IsFound(t: Tracker, c: MarketCandle, gap: GapEvent) {
    && gap.symbol == Upper(c.symbol)
    && Neighbours(Extended(t, c).Keys, gap.expectedStart - 1, gap.observedNextStart)
    && !HasCover(t.active, gap.symbol, gap.expectedStart - 1, gap.observedNextStart)
  }

  /** Each gap active after the insertion was active and is still unfilled, or was found. */
  lemma InsertedOrigin(t: Tracker, c: MarketCandle, id: GapIdentity)
    requires Inv(t) && StoresNew(t, c)
    requires id in Inserted(t, c).active
    ensures var gap := Inserted(t, c).active[id];
      && gap.Identity() == id && gap.WellFormed()
      && (gap.symbol == Upper(c.symbol) ==> !gap.Filled(Extended(t, c).Keys))
      && (if id in t.active then gap == t.active[id] else IsFound(t, c, gap))
  {
    InsertedIs(t, c);
    StoredContext(t, c);
    RecomputedActive(Stored(t, c), Upper(c.symbol), c.receivedAt);
    if id in KeptGaps(t.active, Upper(c.symbol), Extended(t, c).Keys) {
      assert GapInv(t, id);
    } else {
      FoundOrigin(t, c, id, Inserted(t, c).active[id]);
    }
  }

  lemma FoundOrigin(t: Tracker, c: MarketCandle, id: GapIdentity, gap: GapEvent)
    requires Inv(t) && StoresNew(t, c)
    requires IsAmong(FoundGaps(Stored(t, c), Upper(c.symbol), c.receivedAt), id, gap)
    ensures gap.Identity() == id && gap.WellFormed() && !gap.Filled(Extended(t, c).Keys)
    ensures id !in t.active && IsFound(t, c, gap)
  {
    StoredContext(t, c);
    var found := FoundGaps(Stored(t, c), Upper(c.symbol), c.receivedAt);
    var k :| 0 <= k < |found| && found[k].Identity() == id && found[k] == gap;
    FoundGapIsHole(Stored(t, c), Upper(c.symbol), c.receivedAt, k);
  }

  /** A gap of another symbol, or one still unfilled, stays active. */
  lemma InsertedKeeps(t: Tracker, c: MarketCandle, id: GapIdentity)
    requires Inv(t) && StoresNew(t, c)
    requires id in t.active
    ensures (id in Inserted(t, c).active) <==>
      (t.active[id].symbol != Upper(c.symbol) || !t.active[id].Filled(Extended(t, c).Keys))
    ensures id in Inserted(t, c).active ==> Inserted(t, c).active[id] == t.active[id]
  {
    InsertedIs(t, c);
    assert forall other | other in t.active :: GapInv(t, other);
    RecomputedActive(Stored(t, c), Upper(c.symbol), c.receivedAt);
    if id in Inserted(t, c).active {
      InsertedOrigin(t, c, id);
    }
  }

  /** Trimming creates no hole: neighbours of the trimmed window were neighbours. */
  lemma EvictedNeighbours(w: Minutes, bound: nat, previous: int, current: int)
    requires Neighbours(Evicted(w, bound).Keys, previous, current)
    ensures Neighbours(w.Keys, previous, current)
  {
    EvictedKeepsLatest(w, bound);
    forall m | m in w.Keys ensures m <= previous || current <= m {
      assert m in Evicted(w, bound) || m < previous;
    }
  }

  /** `r` is what the call leaves when it stores a new minute. */
  ghost predicate StoredResult(t: Tracker, c: MarketCandle, r: Tracker) {
    && r.maxCandles == t.maxCandles && r.maxEvents == t.maxEvents
    && r.candles == t.candles[Upper(c.symbol) := Evicted(Extended(t, c), t.maxCandles)]
    && r.active == Inserted(t, c).active
    && r.states == Inserted(t, c).states
    && r.health == Inserted(t, c).health
  }

  lemma ObservedStores(t: Tracker, c: MarketCandle)
    requires StoresNew(t, c)
    ensures StoredResult(t, c, Observed(t, c))
  {
    InsertedIs(t, c);
  }

  lemma KeepsGaps(t: Tracker, c: MarketCandle, r: Tracker)
    requires Inv(t) && StoresNew(t, c) && StoredResult(t, c, r)
    ensures GapsInv(r)
  {
    EvictedKeepsLatest(Extended(t, c), t.maxCandles);
    forall id | id in r.active ensures GapInv(r, id) {
      InsertedOrigin(t, c, id);
      if id in t.active {
        assert GapInv(t, id);
      }
    }
  }

  /** A trimmed window of well-keyed candles is again one. */
  lemma TrimmedWindow(w: Minutes, e: Minutes, bound: nat, symbol: string)
    requires LatestOf(w, e, bound) && 1 <= |w| && 1 <= bound
    requires WellKeyed(w, symbol)
    ensures WellKeyed(e, symbol) && 1 <= |e| <= bound
  {
  }

  lemma ExtendedWellKeyed(t: Tracker, c: MarketCandle)
    requires WindowsInv(t) && StoresNew(t, c)
    ensures WellKeyed(Extended(t, c), Upper(c.symbol))
    ensures |Extended(t, c)| == |t.Window(Upper(c.symbol))| + 1
  {
    var w := t.Window(Upper(c.symbol));
    assert Upper(c.symbol) in t.candles ==> WindowInv(t, Upper(c.symbol));
    assert WellKeyed(w, Upper(c.symbol));
    assert Extended(t, c).Keys == w.Keys + {c.openTime};
  }

  lemma KeepsWindows(t: Tracker, c: MarketCandle, r: Tracker)
    requires WindowsInv(t) && 2 <= t.maxCandles && StoresNew(t, c) && StoredResult(t, c, r)
    ensures WindowsInv(r)
  {
    var own := Upper(c.symbol);
    EvictedKeepsLatest(Extended(t, c), t.maxCandles);
    ExtendedWellKeyed(t, c);
    TrimmedWindow(Extended(t, c), r.candles[own], t.maxCandles, own);
    forall symbol | symbol in r.candles && symbol != own ensures WindowInv(r, symbol) {
      assert WindowInv(t, symbol);
    }
  }

  lemma KeepsCover(t: Tracker, c: MarketCandle, r: Tracker)
    requires Inv(t) && StoresNew(t, c) && StoredResult(t, c, r)
    ensures CoverInv(r)
  {
    forall symbol, previous, current |
        symbol in r.candles && Neighbours(r.candles[symbol].Keys, previous, current) && current - previous > 1
      ensures HasCover(r.active, symbol, previous, current)
    {
      if symbol == Upper(c.symbol) {
        EvictedNeighbours(Extended(t, c), t.maxCandles, previous, current);
        InsertedIs(t, c);
        assert forall id | id in t.active :: GapInv(t, id);
        RecomputedCovers(Stored(t, c), symbol, c.receivedAt);
      } else {
        assert HasCover(t.active, symbol, previous, current);
        var id :| id in t.active && Covers(t.active[id], symbol, previous, current);
        InsertedKeeps(t, c, id);
      }
    }
  }

  lemma OtherGaps(t: Tracker, c: MarketCandle, symbol: string)
    requires Inv(t) && StoresNew(t, c)
    requires symbol != Upper(c.symbol)
    ensures HasGap(Inserted(t, c).active, symbol) <==> HasGap(t.active, symbol)
  {
    var active := Inserted(t, c).active;
    if HasGap(active, symbol) {
      var id :| id in active && active[id].symbol == symbol;
      InsertedOrigin(t, c, id);
    }
    if HasGap(t.active, symbol) {
      var id :| id in t.active && t.active[id].symbol == symbol;
      InsertedKeeps(t, c, id);
    }
  }

  lemma KeptHasNoMore(active: Gaps, symbol: string, minutes: set<int>)
    ensures HasGap(KeptGaps(active, symbol, minutes), symbol) ==> HasGap(active, symbol)
  {
  }

  /** The state a recomputation sets fits the window and the gaps it leaves. */
  lemma RecomputedState(t: Tracker, symbol: string, detectedAt: int)
    requires RecomputeContext(t, symbol)
    requires 1 <= |t.candles[symbol]|
    requires |t.candles[symbol]| == 1 ==> !HasGap(t.active, symbol)
    ensures var r := Recomputed(t, symbol, detectedAt);
      && r.states == t.states[symbol := r.State(symbol)]
      && StateFits(r.State(symbol), |t.candles[symbol]|, HasGap(r.active, symbol))
  {
    assert |Sorted(t.candles[symbol].Keys)| == |t.candles[symbol]|;
    KeptHasNoMore(t.active, symbol, t.candles[symbol].Keys);
    OneStateSet(t, symbol, detectedAt);
  }

  lemma OneStateSet(t: Tracker, symbol: string, detectedAt: int)
    requires symbol in t.candles
    ensures Recomputed(t, symbol, detectedAt).states == t.states[symbol := Recomputed(t, symbol, detectedAt).State(symbol)]
  {
  }

  lemma KeepsOwnState(t: Tracker, c: MarketCandle, r: Tracker)
    requires Inv(t) && StoresNew(t, c) && StoredResult(t, c, r)
    ensures StateInv(r, Upper(c.symbol))
    ensures r.states == t.states[Upper(c.symbol) := r.State(Upper(c.symbol))]
  {
    var own := Upper(c.symbol);
    var w := Extended(t, c);
    var stored := Stored(t, c);
    EvictedKeepsLatest(w, t.maxCandles);
    InsertedIs(t, c);
    ExtendedWellKeyed(t, c);
    assert StateInv(t, own);
    assert RecomputeContext(stored, own) by {
      assert forall id | id in t.active :: GapInv(t, id);
    }
    RecomputedState(stored, own, c.receivedAt);
    StillFits(r.State(own), |w|, |r.Window(own)|, HasGap(r.active, own), t.maxCandles);
  }

  lemma KeepsStates(t: Tracker, c: MarketCandle, r: Tracker)
    requires Inv(t) && StoresNew(t, c) && StoredResult(t, c, r)
    ensures StatesInv(r)
  {
    KeepsOwnState(t, c, r);
    forall symbol | symbol != Upper(c.symbol) ensures StateInv(r, symbol) {
      assert StateInv(t, symbol);
      OtherGaps(t, c, symbol);
    }
  }

  lemma StillFits(state: GapState, before: nat, after: nat, gapped: bool, bound: nat)
    requires StateFits(state, before, gapped)
    requires 2 <= bound && after == (if before <= bound then before else bound)
    ensures StateFits(state, after, gapped)
  {
  }

  lemma ObservedKeepsInv(t: Tracker, c: MarketCandle)
    requires Inv(t)
    ensures Inv(Observed(t, c))
  {
    if StoresNew(t, c) {
      var r := Observed(t, c);
      ObservedStores(t, c);
      KeepsGaps(t, c, r);
      KeepsWindows(t, c, r);
      KeepsCover(t, c, r);
      KeepsStates(t, c, r);
    } else {
      SameGapsSameInv(t, Observed(t, c));
    }
  }

  /** The invariant reads only the windows, the gaps and the states. */
  lemma SameGapsSameInv(t: Tracker, r: Tracker)
    requires Inv(t)
    requires r.maxCandles == t.maxCandles && r.maxEvents == t.maxEvents
    requires r.candles == t.candles && r.states == t.states && r.active == t.active
    ensures Inv(r)
  {
    forall id | id in r.active ensures GapInv(r, id) {
      assert GapInv(t, id);
    }
    forall symbol | symbol in r.candles ensures WindowInv(r, symbol) {
      assert WindowInv(t, symbol);
    }
    forall symbol ensures StateInv(r, symbol) {
      assert StateInv(t, symbol);
    }
  }

  /** A mark that fits keeps the invariant. */
  lemma MarkKeepsInv(t: Tracker, r: Tracker, symbol: string)
    requires Inv(t)
    requires r.maxCandles == t.maxCandles && r.maxEvents == t.maxEvents
    requires r.candles == t.candles && r.active == t.active
    requires symbol in r.states && r.states == t.states[symbol := r.states[symbol]]
    requires r.states[symbol] == DEGRADED || (r.states[symbol] == BACKFILLING && HasGap(t.active, symbol))
    ensures Inv(r)
  {
    SameGapsSameInv(t, r.(states := t.states));
    forall id | id in r.active ensures GapInv(r, id) {
      assert GapInv(t, id);
    }
    forall symbol | symbol in r.candles ensures WindowInv(r, symbol) {
      assert WindowInv(t, symbol);
    }
    forall s ensures StateInv(r, s) {
      assert StateInv(t, s);
    }
  }

  lemma MarkedKeepsInv(t: Tracker, gap: GapEvent)
    requires Inv(t)
    ensures Inv(BackfillingMarked(t, gap))
    ensures Inv(FailureMarked(t, gap))
  {
    if gap.Identity() in t.active {
      assert GapInv(t, gap.Identity());
      MarkKeepsInv(t, BackfillingMarked(t, gap), gap.symbol);
    }
    MarkKeepsInv(t, FailureMarked(t, gap), gap.symbol);
  }

  lemma NextKeepsInv(t: Tracker, step: Step)
    requires Inv(t)
    ensures Inv(Next(t, step))
  {
    match step
    case ConnectionOpened => SameGapsSameInv(t, Next(t, ConnectionOpened));
    case ClosedCandle(candle) => ObservedKeepsInv(t, candle);
    case MarkBackfilling(gap) => MarkedKeepsInv(t, gap);
    case MarkFailure(gap) => MarkedKeepsInv(t, gap);
  }

  /** The invariant holds after any run, for candles in any arrival order. */
  lemma {:induction false} RunKeepsInv(maxCandles: nat, maxEvents: nat, steps: seq<Step>)
    requires 2 <= maxCandles && 1 <= maxEvents
    ensures Inv(Run(Fresh(maxCandles, maxEvents), steps))
  {
    if steps != [] {
      RunKeepsInv(maxCandles, maxEvents, steps[..|steps| - 1]);
      NextKeepsInv(Run(Fresh(maxCandles, maxEvents), steps[..|steps| - 1]), steps[|steps| - 1]);
    }
  }
}
