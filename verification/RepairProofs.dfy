/** What feeding a gap's missing minutes to the tracker does to the gap. */
module RepairProofs {
  import opened Text
  import opened MarketData
  import opened SortedInts
  import opened Continuity
  import opened ContinuityProofs
  import opened ContinuityRuns

  function Closed(candles: seq<MarketCandle>): seq<Step> {
    seq(|candles|, i requires 0 <= i < |candles| => ClosedCandle(candles[i]))
  }

  /** The candles are the gap's minutes, in order, for the gap's symbol. */
  ghost predicate FillsInOrder(gap: GapEvent, candles: seq<MarketCandle>) {
    && |candles| == gap.missingCount
    && forall i | 0 <= i < |candles| ::
         candles[i].openTime == gap.expectedStart + i && Accepted(candles[i]) && Upper(candles[i].symbol) == gap.symbol
  }

  /** The retained minutes at or after `end`. */
  function RightOf(w: Minutes, end: int): set<int> {
    set m | m in w.Keys && m >= end
  }

  /** Storing a minute before `end` leaves the retained minutes from `end` on as they were. */
  lemma RightUnchanged(t: Tracker, c: MarketCandle, end: int)
    requires Inv(t) && Accepted(c) && c.openTime < end
    ensures RightOf(Observed(t, c).Window(Upper(c.symbol)), end) == RightOf(t.Window(Upper(c.symbol)), end)
  {
    var own := Upper(c.symbol);
    if StoresNew(t, c) {
      ObservedStores(t, c);
      EvictedKeepsLatest(Extended(t, c), t.maxCandles);
      var e := Observed(t, c).Window(own);
      forall m | m in t.Window(own) && m >= end ensures m in e {
        if m !in e {
          ShortWindow(t, c, e);
        }
      }
    }
  }

  lemma TwoMissing(x: set<int>, e: set<int>, a: int, b: int)
    requires e <= x && a in x && b in x && a !in e && b !in e && a != b
    ensures |e| + 2 <= |x|
  {
    assert {a, b} !! e;
    assert |{a, b} + e| == 2 + |e|;
    SplitSize(x, {a, b} + e);
  }

  /** Storing a minute drops at most one minute, and none later than the stored one. */
  lemma ShortWindow(t: Tracker, c: MarketCandle, e: Minutes)
    requires Inv(t) && StoresNew(t, c)
    requires LatestOf(Extended(t, c), e, t.maxCandles)
    ensures forall m | m in Extended(t, c) && m !in e :: m <= c.openTime
  {
    var x := Extended(t, c);
    ExtendedWellKeyed(t, c);
    assert Upper(c.symbol) in t.candles ==> WindowInv(t, Upper(c.symbol));
    assert |x| <= t.maxCandles + 1;
    forall m | m in x && m !in e ensures m <= c.openTime {
      if c.openTime !in e && m != c.openTime {
        TwoMissing(x.Keys, e.Keys, m, c.openTime);
      }
    }
  }

  /** A gap with a missing minute accounts for fewer retained minutes than it spans. */
  lemma UnfilledCount(x: Minutes, gap: GapEvent)
    requires gap.WellFormed() && !gap.Filled(x.Keys)
    ensures |RightOf(x, gap.expectedStart)| <= gap.missingCount - 1 + |RightOf(x, gap.observedNextStart)|
  {
    var missing :| gap.expectedStart <= missing < gap.expectedStart + gap.missingCount && missing !in x.Keys;
    var inside := Range(gap.expectedStart, gap.observedNextStart);
    var right := RightOf(x, gap.observedNextStart);
    var some := inside - {missing};
    assert |some| == gap.missingCount - 1;
    assert RightOf(x, gap.expectedStart) <= some + right;
    SplitSize(some + right, RightOf(x, gap.expectedStart));
    assert |some + right| <= |some| + |right|;
  }

  /** While the window has room for the gap, filling it drops only earlier minutes. */
  lemma RoomKeepsFilling(t: Tracker, c: MarketCandle, gap: GapEvent)
    requires Inv(t) && StoresNew(t, c) && gap.WellFormed()
    requires gap.expectedStart <= c.openTime < gap.observedNextStart
    requires !gap.Filled(Extended(t, c).Keys)
    requires gap.missingCount - 1 + |RightOf(t.Window(Upper(c.symbol)), gap.observedNextStart)| <= t.maxCandles
    ensures forall m | m in Extended(t, c) && m >= gap.expectedStart :: m in Observed(t, c).Window(Upper(c.symbol))
  {
    var x := Extended(t, c);
    var e := Observed(t, c).Window(Upper(c.symbol));
    ObservedStores(t, c);
    EvictedKeepsLatest(x, t.maxCandles);
    UnfilledCount(x, gap);
    assert RightOf(x, gap.observedNextStart) == RightOf(t.Window(Upper(c.symbol)), gap.observedNextStart);
    forall m | m in x && m >= gap.expectedStart ensures m in e {
      if m !in e {
        LaterThanDropped(x, e, t.maxCandles, m, gap.expectedStart);
      }
    }
  }

  /** All retained minutes are later than a dropped one. */
  lemma LaterThanDropped(x: Minutes, e: Minutes, bound: nat, m: int, start: int)
    requires LatestOf(x, e, bound) && m in x && m !in e && m >= start
    ensures |RightOf(x, start)| > bound
  {
    FullWhenDropping(x, e, bound, m);
    assert e.Keys + {m} <= RightOf(x, start);
    assert |e.Keys + {m}| == bound + 1;
    SplitSize(RightOf(x, start), e.Keys + {m});
  }

  ghost predicate Retained(t: Tracker, symbol: string, lo: int, hi: int) {
    forall m | lo <= m < hi :: m in t.Window(symbol)
  }

  ghost predicate IsActive(t: Tracker, gap: GapEvent) {
    gap.Identity() in t.active && t.active[gap.Identity()] == gap
  }

  /** How far filling has come after `j` candles: the gap is still active and its
      first `j` minutes are retained, or it is closed and the rest are retained. */
  ghost predicate Filling(t: Tracker, gap: GapEvent, j: int) {
    if gap.Identity() in t.active
    then IsActive(t, gap) && Retained(t, gap.symbol, gap.expectedStart, gap.expectedStart + j)
    else Retained(t, gap.symbol, gap.expectedStart + j, gap.observedNextStart)
  }

  /** The candle's minute is new, and with it the gap is complete. */
  lemma FillingCloses(t: Tracker, gap: GapEvent, j: nat, c: MarketCandle)
    requires Inv(t) && StoresNew(t, c) && Upper(c.symbol) == gap.symbol
    requires c.openTime == gap.expectedStart + j
    requires IsActive(t, gap) && gap.WellFormed() && gap.Filled(Extended(t, c).Keys)
    ensures gap.Identity() !in Observed(t, c).active
    ensures Retained(Observed(t, c), gap.symbol, gap.expectedStart + j + 1, gap.observedNextStart)
  {
    GapSurvives(t, ClosedCandle(c), gap.Identity());
    ObservedStores(t, c);
    EvictedKeepsLatest(Extended(t, c), t.maxCandles);
    ShortWindow(t, c, Observed(t, c).Window(gap.symbol));
    forall m | gap.expectedStart + j + 1 <= m < gap.observedNextStart ensures m in Observed(t, c).Window(gap.symbol) {
      assert m in Extended(t, c).Keys;
    }
  }

  /** The candle's minute is new, and the gap still misses one. */
  lemma FillingGoesOn(t: Tracker, gap: GapEvent, j: nat, c: MarketCandle)
    requires Inv(t) && StoresNew(t, c) && Upper(c.symbol) == gap.symbol
    requires c.openTime == gap.expectedStart + j && j < gap.missingCount
    requires gap.WellFormed() && !gap.Filled(Extended(t, c).Keys)
    requires Retained(t, gap.symbol, gap.expectedStart, gap.expectedStart + j)
    requires gap.missingCount - 1 + |RightOf(t.Window(gap.symbol), gap.observedNextStart)| <= t.maxCandles
    ensures Retained(Observed(t, c), gap.symbol, gap.expectedStart, gap.expectedStart + j + 1)
  {
    RoomKeepsFilling(t, c, gap);
    forall m | gap.expectedStart <= m < gap.expectedStart + j + 1 ensures m in Observed(t, c).Window(gap.symbol) {
      assert m in Extended(t, c);
    }
  }

  lemma FillingStep(t: Tracker, gap: GapEvent, j: nat, c: MarketCandle)
    requires Inv(t) && gap.WellFormed() && j < gap.missingCount && Filling(t, gap, j)
    requires c.openTime == gap.expectedStart + j && Accepted(c) && Upper(c.symbol) == gap.symbol
    requires gap.missingCount - 1 + |RightOf(t.Window(gap.symbol), gap.observedNextStart)| <= t.maxCandles
    ensures Filling(Observed(t, c), gap, j + 1)
  {
    if !StoresNew(t, c) {
      FillingRepeats(t, Observed(t, c), gap, j, c);
    } else if gap.Filled(Extended(t, c).Keys) {
      FillingCloses(t, gap, j, c);
    } else {
      NewMinuteFills(t, gap, j, c);
    }
  }

  /** The candle's minute is new, and another one of the gap is still missing. */
  lemma NewMinuteFills(t: Tracker, gap: GapEvent, j: nat, c: MarketCandle)
    requires Inv(t) && StoresNew(t, c) && gap.WellFormed() && j < gap.missingCount && Filling(t, gap, j)
    requires c.openTime == gap.expectedStart + j && Upper(c.symbol) == gap.symbol
    requires gap.missingCount - 1 + |RightOf(t.Window(gap.symbol), gap.observedNextStart)| <= t.maxCandles
    requires !gap.Filled(Extended(t, c).Keys)
    ensures Filling(Observed(t, c), gap, j + 1)
  {
    FillingIsActive(t, gap, j, c);
    FillingGoesOn(t, gap, j, c);
    GapSurvives(t, ClosedCandle(c), gap.Identity());
  }

  /** Were the gap no longer active, all its later minutes would be retained. */
  lemma FillingIsActive(t: Tracker, gap: GapEvent, j: nat, c: MarketCandle)
    requires StoresNew(t, c) && gap.WellFormed() && j < gap.missingCount && Filling(t, gap, j)
    requires c.openTime == gap.expectedStart + j && Upper(c.symbol) == gap.symbol
    ensures IsActive(t, gap) && Retained(t, gap.symbol, gap.expectedStart, gap.expectedStart + j)
  {
  }

  lemma FillingRepeats(t: Tracker, r: Tracker, gap: GapEvent, j: nat, c: MarketCandle)
    requires Filling(t, gap, j) && c.openTime == gap.expectedStart + j
    requires c.openTime in t.Window(gap.symbol)
    requires r.active == t.active && r.candles == t.candles
    ensures Filling(r, gap, j + 1)
  {
  }

  /** Without that room, the gap never gets all its minutes into the window at once. */
  lemma StuckStep(t: Tracker, gap: GapEvent, c: MarketCandle)
    requires Inv(t) && gap.WellFormed() && IsActive(t, gap)
    requires gap.expectedStart <= c.openTime < gap.observedNextStart && Accepted(c) && Upper(c.symbol) == gap.symbol
    requires gap.missingCount - 1 + |RightOf(t.Window(gap.symbol), gap.observedNextStart)| > t.maxCandles
    ensures IsActive(Observed(t, c), gap)
  {
    GapSurvives(t, ClosedCandle(c), gap.Identity());
    if StoresNew(t, c) && gap.Filled(Extended(t, c).Keys) {
      FilledNeedsRoom(t, c, gap);
    }
  }

  lemma FilledNeedsRoom(t: Tracker, c: MarketCandle, gap: GapEvent)
    requires Inv(t) && StoresNew(t, c) && gap.WellFormed() && Upper(c.symbol) == gap.symbol
    requires gap.expectedStart <= c.openTime < gap.observedNextStart
    requires gap.Filled(Extended(t, c).Keys)
    ensures gap.missingCount - 1 + |RightOf(t.Window(gap.symbol), gap.observedNextStart)| <= t.maxCandles
  {
    var w := t.Window(gap.symbol);
    var inside := Range(gap.expectedStart, gap.observedNextStart) - {c.openTime};
    var right := RightOf(w, gap.observedNextStart);
    forall m | m in inside ensures m in w.Keys {
      assert m in Extended(t, c).Keys;
    }
    assert inside !! right && inside + right <= w.Keys;
    assert |inside| == gap.missingCount - 1;
    assert |inside + right| == |inside| + |right|;
    SplitSize(w.Keys, inside + right);
    assert gap.symbol in t.candles ==> WindowInv(t, gap.symbol);
    assert |w.Keys| == |w|;
  }

  /** The repair so far: the minutes after the gap are untouched, and with enough room
      the first j minutes are in. */
  ghost predicate Progressed(t: Tracker, after: Tracker, gap: GapEvent, j: nat) {
    && Inv(after) && after.maxCandles == t.maxCandles
    && RightOf(after.Window(gap.symbol), gap.observedNextStart) == RightOf(t.Window(gap.symbol), gap.observedNextStart)
    && (if gap.missingCount - 1 + |RightOf(t.Window(gap.symbol), gap.observedNextStart)| <= t.maxCandles
        then Filling(after, gap, j) else IsActive(after, gap))
  }

  lemma ProgressStep(t: Tracker, before: Tracker, gap: GapEvent, c: MarketCandle, j: nat)
    requires Progressed(t, before, gap, j) && gap.WellFormed() && j < gap.missingCount
    requires c.openTime == gap.expectedStart + j && Accepted(c) && Upper(c.symbol) == gap.symbol
    ensures Progressed(t, Observed(before, c), gap, j + 1)
  {
    StepFrame(before, ClosedCandle(c));
    ObservedKeepsInv(before, c);
    RightUnchanged(before, c, gap.observedNextStart);
    if gap.missingCount - 1 + |RightOf(t.Window(gap.symbol), gap.observedNextStart)| <= t.maxCandles {
      FillingStep(before, gap, j, c);
    } else {
      StuckStep(before, gap, c);
    }
  }

  lemma {:induction false} FillingProgress(t: Tracker, gap: GapEvent, candles: seq<MarketCandle>, j: nat)
    requires Inv(t) && IsActive(t, gap)
    requires FillsInOrder(gap, candles) && j <= |candles|
    ensures Progressed(t, Run(t, Closed(candles)[..j]), gap, j)
  {
    assert GapInv(t, gap.Identity());
    if j > 0 {
      var steps := Closed(candles)[..j];
      assert steps[..j - 1] == Closed(candles)[..j - 1];
      assert steps[j - 1] == ClosedCandle(candles[j - 1]);
      FillingProgress(t, gap, candles, j - 1);
      ProgressStep(t, Run(t, steps[..j - 1]), gap, candles[j - 1], j - 1);
    }
  }

  /** Feeding an active gap its minutes in order closes it exactly when the gap,
      together with the retained minutes after it, exceeds the window by at most one. */
  lemma FillingClosesIff(t: Tracker, gap: GapEvent, candles: seq<MarketCandle>)
    requires Inv(t) && IsActive(t, gap)
    requires FillsInOrder(gap, candles)
    ensures gap.Identity() !in Run(t, Closed(candles)).active <==>
      gap.missingCount + |RightOf(t.Window(gap.symbol), gap.observedNextStart)| <= t.maxCandles + 1
  {
    assert GapInv(t, gap.Identity());
    FillingProgress(t, gap, candles, |candles|);
    assert Closed(candles)[..|candles|] == Closed(candles);
    var after := Run(t, Closed(candles));
    if gap.Identity() in after.active {
      assert GapInv(after, gap.Identity());
    }
  }

  /** Feeding a gap its minutes never opens that gap again. */
  lemma FillingNeverReopens(t: Tracker, gap: GapEvent, c: MarketCandle)
    requires Inv(t) && gap.Identity() !in t.active
    requires gap.expectedStart <= c.openTime < gap.observedNextStart && Upper(c.symbol) == gap.symbol
    ensures gap.Identity() !in Observed(t, c).active
  {
    var id := gap.Identity();
    if StoresNew(t, c) {
      var stored := Stored(t, c);
      StoredContext(t, c);
      InsertedIs(t, c);
      RecomputedActive(stored, gap.symbol, c.receivedAt);
      var found := FoundGaps(stored, gap.symbol, c.receivedAt);
      forall k | 0 <= k < |found| ensures found[k].Identity() != id {
        FoundGapIsHole(stored, gap.symbol, c.receivedAt, k);
        assert c.openTime in Extended(t, c).Keys;
      }
      ObservedStores(t, c);
    }
  }

  lemma {:induction false} InactiveStaysInactive(t: Tracker, gap: GapEvent, candles: seq<MarketCandle>, j: nat)
    requires Inv(t) && gap.WellFormed() && gap.Identity() !in t.active
    requires FillsInOrder(gap, candles) && j <= |candles|
    ensures Inv(Run(t, Closed(candles)[..j]))
    ensures gap.Identity() !in Run(t, Closed(candles)[..j]).active
  {
    if j > 0 {
      var steps := Closed(candles)[..j];
      assert steps[..j - 1] == Closed(candles)[..j - 1];
      InactiveStaysInactive(t, gap, candles, j - 1);
      var before := Run(t, steps[..j - 1]);
      assert steps[j - 1] == ClosedCandle(candles[j - 1]);
      ObservedKeepsInv(before, candles[j - 1]);
      FillingNeverReopens(before, gap, candles[j - 1]);
    }
  }

  // ---------------------------------------------------------------- marks

  /** `u` differs from `t` in states and counters only, with `extra` more failures. */
  ghost predicate SameContents(t: Tracker, u: Tracker, extra: int) {
    && u.maxCandles == t.maxCandles
    && u.candles == t.candles
    && u.active == t.active
    && u.health.backfillFailures == t.health.backfillFailures + extra
  }

  lemma RecomputedSame(t: Tracker, u: Tracker, symbol: string, detectedAt: int)
    requires symbol in t.candles && t.candles == u.candles && t.active == u.active
    ensures Recomputed(t, symbol, detectedAt).active == Recomputed(u, symbol, detectedAt).active
  {
  }

  lemma InsertedSame(t: Tracker, u: Tracker, c: MarketCandle, extra: int)
    requires SameContents(t, u, extra) && StoresNew(t, c)
    ensures SameContents(Inserted(t, c), Inserted(u, c), extra)
  {
    InsertedIs(t, c);
    InsertedIs(u, c);
    InsertedHealth(t, c);
    InsertedHealth(u, c);
    RecomputedSame(Stored(t, c), Stored(u, c), Upper(c.symbol), c.receivedAt);
  }

  lemma StepSame(t: Tracker, u: Tracker, step: Step, extra: int)
    requires SameContents(t, u, extra)
    ensures SameContents(Next(t, step), Next(u, step), extra)
  {
    if Stores(t, step) {
      InsertedSame(t, u, step.candle, extra);
      ObservedStores(t, step.candle);
      ObservedStores(u, step.candle);
    } else {
      OtherStepsSame(t, u, step, extra);
    }
  }

  lemma OtherStepsSame(t: Tracker, u: Tracker, step: Step, extra: int)
    requires SameContents(t, u, extra) && !Stores(t, step)
    ensures SameContents(Next(t, step), Next(u, step), extra)
  {
  }

  /** Marks change neither the candles nor the gaps of anything that follows. */
  lemma {:induction false} RunSame(t: Tracker, u: Tracker, steps: seq<Step>, extra: int)
    requires SameContents(t, u, extra)
    ensures SameContents(Run(t, steps), Run(u, steps), extra)
  {
    if steps != [] {
      var init := steps[..|steps| - 1];
      RunSame(t, u, init, extra);
      StepSame(Run(t, init), Run(u, init), steps[|steps| - 1], extra);
    }
  }

  lemma {:induction false} RunConcat(t: Tracker, a: seq<Step>, b: seq<Step>)
    ensures Run(t, a + b) == Run(Run(t, a), b)
  {
    if b == [] {
      assert a + b == a;
    } else {
      var init := b[..|b| - 1];
      assert (a + b)[..|a + b| - 1] == a + init;
      RunConcat(t, a, init);
    }
  }

  lemma RunOne(t: Tracker, step: Step)
    ensures Run(t, [step]) == Next(t, step)
  {
    assert [step][..0] == [];
  }

  lemma {:induction false} RunKeepsInvFrom(t: Tracker, steps: seq<Step>)
    requires Inv(t)
    ensures Inv(Run(t, steps))
  {
    if steps != [] {
      RunKeepsInvFrom(t, steps[..|steps| - 1]);
      NextKeepsInv(Run(t, steps[..|steps| - 1]), steps[|steps| - 1]);
    }
  }
}
