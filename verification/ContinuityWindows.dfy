/** When the active gaps agree with the holes of the window, and when a candle opens a
    new gap. */
module ContinuityWindows {
  import opened Text
  import opened MarketData
  import opened SortedInts
  import opened Continuity
  import opened ContinuityProofs
  import opened ContinuityRuns

  // ---------------------------------------------------------------- where gaps end

  /** The minute is retained, or the window is full of later ones. */
  ghost predicate Kept(w: Minutes, bound: nat, minute: int) {
    minute in w || (|w| == bound && forall m | m in w.Keys :: minute < m)
  }

  /** The end of every active gap is retained, or its window is full of later minutes. */
  ghost predicate EndsInv(t: Tracker) {
    forall id | id in t.active :: Kept(t.Window(id.symbol), t.maxCandles, id.observedNextStart)
  }

  lemma RetainedIsKept(x: Minutes, e: Minutes, bound: nat, minute: int)
    requires LatestOf(x, e, bound) && minute in x
    ensures Kept(e, bound, minute)
  {
    if minute !in e && |x| <= bound {
      SameSizeSubset(e.Keys, x.Keys);
    }
  }

  /** Storing a candle and trimming the window keeps it so. */
  lemma KeptStays(w: Minutes, e: Minutes, c: MarketCandle, bound: nat, minute: int)
    requires Kept(w, bound, minute) && 1 <= bound && c.openTime !in w && WellSized(w, bound)
    requires LatestOf(w[c.openTime := c], e, bound)
    ensures Kept(e, bound, minute)
  {
    var x := w[c.openTime := c];
    assert x.Keys == w.Keys + {c.openTime};
    if minute in x {
      RetainedIsKept(x, e, bound, minute);
    } else if c.openTime < minute {
      OlderMinuteIsDropped(w, e, c, bound);
    }
  }

  ghost predicate WellSized(w: Minutes, bound: nat) {
    |w| <= bound
  }

  lemma GapKept(t: Tracker, c: MarketCandle, id: GapIdentity)
    requires Inv(t) && EndsInv(t) && StoresNew(t, c) && id in Inserted(t, c).active
    ensures Kept(Observed(t, c).Window(id.symbol), t.maxCandles, id.observedNextStart)
  {
    var own := Upper(c.symbol);
    var e := Evicted(Extended(t, c), t.maxCandles);
    InsertedOrigin(t, c, id);
    ObservedStores(t, c);
    EvictedKeepsLatest(Extended(t, c), t.maxCandles);
    if id !in t.active {
      RetainedIsKept(Extended(t, c), e, t.maxCandles, id.observedNextStart);
    } else if id.symbol == own {
      assert own in t.candles ==> WindowInv(t, own);
      KeptStays(t.Window(own), e, c, t.maxCandles, id.observedNextStart);
    }
  }

  lemma NextKeepsEnds(t: Tracker, step: Step)
    requires Inv(t) && EndsInv(t)
    ensures EndsInv(Next(t, step))
  {
    if step.ClosedCandle? && StoresNew(t, step.candle) {
      ObservedStores(t, step.candle);
      forall id | id in Next(t, step).active
        ensures Kept(Next(t, step).Window(id.symbol), t.maxCandles, id.observedNextStart)
      {
        GapKept(t, step.candle, id);
      }
    } else {
      OtherStepsKeepEnds(t, step);
    }
  }

  lemma OtherStepsKeepEnds(t: Tracker, step: Step)
    requires EndsInv(t) && !Stores(t, step)
    ensures EndsInv(Next(t, step))
  {
  }

  /** After any run the end of every active gap is retained, or the symbol's window is
      full of later minutes; so every active gap ends at or before a retained minute. */
  lemma {:induction false} RunKeepsEnds(maxCandles: nat, maxEvents: nat, steps: seq<Step>)
    requires 2 <= maxCandles && 1 <= maxEvents
    ensures EndsInv(Run(Fresh(maxCandles, maxEvents), steps))
  {
    if steps != [] {
      var init := steps[..|steps| - 1];
      RunKeepsEnds(maxCandles, maxEvents, init);
      RunKeepsInv(maxCandles, maxEvents, init);
      NextKeepsEnds(Run(Fresh(maxCandles, maxEvents), init), steps[|steps| - 1]);
    }
  }

  lemma EndIsReached(t: Tracker, id: GapIdentity) returns (m: int)
    requires Inv(t) && EndsInv(t) && id in t.active
    ensures m in t.Window(id.symbol) && id.observedNextStart <= m
  {
    var w := t.Window(id.symbol);
    assert GapInv(t, id);
    assert WindowInv(t, id.symbol);
    if id.observedNextStart in w {
      m := id.observedNextStart;
    } else {
      assert |w.Keys| == |w| > 0;
      HasElement(w.Keys);
      m :| m in w.Keys;
    }
  }

  // ---------------------------------------------------------------- when the window has no hole

  /** Every missing minute of the symbol's active gaps is before the whole window. */
  ghost predicate OnlyPast(t: Tracker, symbol: string) {
    forall id, m, r | id in t.active && id.symbol == symbol && InGap(id, m) && m !in t.Window(symbol) && r in t.Window(symbol) ::
      m < r
  }

  ghost predicate InGap(id: GapIdentity, m: int) {
    id.expectedStart <= m < id.observedNextStart
  }

  /** The first minute after a retained one that is missing lies in an active gap. */
  lemma HoleInGap(t: Tracker, symbol: string, a: int, m: int, b: int) returns (id: GapIdentity, previous: int)
    requires Inv(t)
    requires a in t.Window(symbol) && b in t.Window(symbol) && a < m < b && m !in t.Window(symbol)
    ensures id in t.active && id.symbol == symbol && InGap(id, previous + 1)
    ensures previous in t.Window(symbol) && previous + 1 !in t.Window(symbol)
  {
    var current;
    previous, current := HoleAround(t.Window(symbol).Keys, a, m, b);
    assert HasCover(t.active, symbol, previous, current);
    id :| id in t.active && Covers(t.active[id], symbol, previous, current);
    assert GapInv(t, id);
  }

  lemma OnlyPastIff(t: Tracker, symbol: string)
    requires Inv(t) && EndsInv(t)
    ensures Consecutive(t.Window(symbol).Keys) <==> OnlyPast(t, symbol)
  {
    var w := t.Window(symbol);
    if OnlyPast(t, symbol) {
      forall a, m, b | a in w.Keys && b in w.Keys && a <= m <= b ensures m in w.Keys {
        if m !in w {
          var id, previous := HoleInGap(t, symbol, a, m, b);
        }
      }
    }
    if Consecutive(w.Keys) {
      forall id, m, r | id in t.active && id.symbol == symbol && InGap(id, m) && m !in w && r in w ensures m < r {
        var end := EndIsReached(t, id);
        assert end in w.Keys && r in w.Keys;
      }
    }
  }

  /** After any run the retained candles are consecutive minutes if and only if every
      missing minute of the symbol's active gaps is earlier than every retained one. */
  lemma ConsecutiveIff(maxCandles: nat, maxEvents: nat, steps: seq<Step>, symbol: string)
    requires 2 <= maxCandles && 1 <= maxEvents
    ensures var t := Run(Fresh(maxCandles, maxEvents), steps);
      Consecutive(t.Window(symbol).Keys) <==> OnlyPast(t, symbol)
  {
    RunKeepsInv(maxCandles, maxEvents, steps);
    RunKeepsEnds(maxCandles, maxEvents, steps);
    OnlyPastIff(Run(Fresh(maxCandles, maxEvents), steps), symbol);
  }

  // ---------------------------------------------------------------- when a candle opens a gap

  ghost predicate OpensGap(t: Tracker, c: MarketCandle) {
    exists id :: id in Observed(t, c).active && id !in t.active
  }

  /** The candle is more than a minute after the newest retained one. */
  ghost predicate Jumps(w: Minutes, minute: int) {
    w != map[] && forall m | m in w.Keys :: m + 1 < minute
  }

  /** The candle is more than a minute before the earliest retained one, and no active
      gap contains the minutes between. */
  ghost predicate FallsShort(t: Tracker, symbol: string, minute: int) {
    && t.Window(symbol) != map[]
    && minute + 1 < Least(t.Window(symbol).Keys)
    && !HasCover(t.active, symbol, minute, Least(t.Window(symbol).Keys))
  }

  /** A hole of the extended window between two minutes that were retained before was a
      hole then, so an active gap covers it. */
  lemma OldHoleIsCovered(t: Tracker, symbol: string, previous: int, current: int)
    requires Inv(t)
    requires previous in t.Window(symbol) && current in t.Window(symbol) && current - previous > 1
    requires Neighbours(t.Window(symbol).Keys, previous, current)
    ensures HasCover(t.active, symbol, previous, current)
  {
  }

  lemma CoverShrinks(active: Gaps, symbol: string, previous: int, current: int, p: int, q: int)
    requires HasCover(active, symbol, previous, current) && previous <= p && q <= current
    ensures HasCover(active, symbol, p, q)
  {
    var id :| id in active && Covers(active[id], symbol, previous, current);
    assert Covers(active[id], symbol, p, q);
  }

  /** A missing minute between two retained ones lies in a hole that a gap covers. */
  lemma Around(t: Tracker, symbol: string, a: int, minute: int, b: int) returns (previous: int, current: int)
    requires Inv(t)
    requires a in t.Window(symbol) && b in t.Window(symbol) && a < minute < b && minute !in t.Window(symbol)
    ensures Neighbours(t.Window(symbol).Keys, previous, current) && previous < minute < current
    ensures HasCover(t.active, symbol, previous, current)
  {
    previous, current := HoleAround(t.Window(symbol).Keys, a, minute, b);
    OldHoleIsCovered(t, symbol, previous, current);
  }

  lemma ExtendedKeys(t: Tracker, c: MarketCandle)
    ensures Extended(t, c).Keys == t.Window(Upper(c.symbol)).Keys + {c.openTime}
  {
  }

  /** A retained minute on either side of the candle: the holes next to it are covered. */
  lemma InsideIsCovered(t: Tracker, c: MarketCandle, p: int, q: int, other: int)
    requires Inv(t) && StoresNew(t, c) && Neighbours(Extended(t, c).Keys, p, q)
    requires (q == c.openTime < other) || (p == c.openTime > other)
    requires other in t.Window(Upper(c.symbol))
    ensures HasCover(t.active, Upper(c.symbol), p, q)
  {
    var own := Upper(c.symbol);
    ExtendedKeys(t, c);
    var previous, current;
    if q == c.openTime {
      previous, current := Around(t, own, p, c.openTime, other);
    } else {
      previous, current := Around(t, own, other, c.openTime, q);
    }
    assert previous in Extended(t, c).Keys && current in Extended(t, c).Keys;
    CoverShrinks(t.active, own, previous, current, p, q);
  }

  lemma FoundBefore(t: Tracker, c: MarketCandle, p: int)
    requires Inv(t) && StoresNew(t, c)
    requires Neighbours(Extended(t, c).Keys, p, c.openTime) && c.openTime - p > 1
    requires !HasCover(t.active, Upper(c.symbol), p, c.openTime)
    ensures Jumps(t.Window(Upper(c.symbol)), c.openTime)
  {
    var w := t.Window(Upper(c.symbol));
    ExtendedKeys(t, c);
    assert p in w;
    forall m | m in w.Keys ensures m + 1 < c.openTime {
      assert m in Extended(t, c).Keys;
      if m > c.openTime {
        InsideIsCovered(t, c, p, c.openTime, m);
      }
    }
  }

  lemma FoundAfter(t: Tracker, c: MarketCandle, q: int)
    requires Inv(t) && StoresNew(t, c)
    requires Neighbours(Extended(t, c).Keys, c.openTime, q) && q - c.openTime > 1
    requires !HasCover(t.active, Upper(c.symbol), c.openTime, q)
    ensures FallsShort(t, Upper(c.symbol), c.openTime)
  {
    var w := t.Window(Upper(c.symbol));
    ExtendedKeys(t, c);
    assert q in w;
    forall m | m in w.Keys ensures q <= m {
      assert m in Extended(t, c).Keys;
      if m < c.openTime {
        InsideIsCovered(t, c, c.openTime, q, m);
      }
    }
    assert Least(w.Keys) == q;
  }

  lemma FoundMeans(t: Tracker, c: MarketCandle, gap: GapEvent)
    requires Inv(t) && StoresNew(t, c) && gap.WellFormed() && IsFound(t, c, gap)
    ensures Jumps(t.Window(Upper(c.symbol)), c.openTime) || FallsShort(t, Upper(c.symbol), c.openTime)
  {
    var p, q := gap.expectedStart - 1, gap.observedNextStart;
    FoundIsNext(t, c, p, q);
    if q == c.openTime {
      FoundBefore(t, c, p);
    } else {
      FoundAfter(t, c, q);
    }
  }

  /** A hole that no gap covered before is next to the candle. */
  lemma FoundIsNext(t: Tracker, c: MarketCandle, p: int, q: int)
    requires Inv(t) && StoresNew(t, c) && Neighbours(Extended(t, c).Keys, p, q) && q - p > 1
    requires !HasCover(t.active, Upper(c.symbol), p, q)
    ensures p == c.openTime || q == c.openTime
  {
    ExtendedKeys(t, c);
    assert p != c.openTime && q != c.openTime ==> Neighbours(t.Window(Upper(c.symbol)).Keys, p, q);
  }

  /** No active gap reaches past the whole window. */
  lemma NoneReachesPast(t: Tracker, symbol: string, previous: int, minute: int)
    requires Inv(t) && EndsInv(t) && Jumps(t.Window(symbol), minute)
    ensures !HasCover(t.active, symbol, previous, minute)
  {
    forall id | id in t.active ensures !Covers(t.active[id], symbol, previous, minute) {
      assert GapInv(t, id);
      if id.symbol == symbol {
        var end := EndIsReached(t, id);
        assert end in t.Window(symbol).Keys;
      }
    }
  }

  lemma Newest(w: Minutes) returns (p: int)
    requires w != map[]
    ensures IsNewest(w, p) && p in w.Keys
  {
    assert w.Keys != {};
    p := Greatest(w.Keys);
  }

  ghost predicate IsNewest(w: Minutes, p: int) {
    p in w && forall m | m in w.Keys :: m <= p
  }

  /** A candle past the newest minute opens the gap between the two. */
  lemma JumpOpens(t: Tracker, c: MarketCandle, p: int, id: GapIdentity)
    requires Inv(t) && EndsInv(t) && StoresNew(t, c)
    requires IsNewest(t.Window(Upper(c.symbol)), p) && p + 1 < c.openTime
    requires id == GapIdentity(Upper(c.symbol), p + 1, c.openTime)
    ensures id in Observed(t, c).active && id !in t.active
  {
    NewestIsNext(t, c, p);
    NoneReachesPast(t, Upper(c.symbol), p, c.openTime);
    var found := CoverAfter(t, c, p, c.openTime);
    OpenedEnds(t, c, found, p, c.openTime);
  }

  lemma NewestIsNext(t: Tracker, c: MarketCandle, p: int)
    requires IsNewest(t.Window(Upper(c.symbol)), p) && p + 1 < c.openTime
    ensures Neighbours(Extended(t, c).Keys, p, c.openTime) && Jumps(t.Window(Upper(c.symbol)), c.openTime)
  {
    ExtendedKeys(t, c);
  }

  /** After the call each hole of the extended window is covered. */
  lemma CoverAfter(t: Tracker, c: MarketCandle, previous: int, current: int) returns (id: GapIdentity)
    requires Inv(t) && StoresNew(t, c)
    requires Neighbours(Extended(t, c).Keys, previous, current) && current - previous > 1
    ensures id in Observed(t, c).active && Covers(Observed(t, c).active[id], Upper(c.symbol), previous, current)
    ensures id in t.active ==> HasCover(t.active, Upper(c.symbol), previous, current)
  {
    ObservedStores(t, c);
    InsertedIs(t, c);
    StoredContext(t, c);
    HoleIsCovered(Stored(t, c), Upper(c.symbol), c.receivedAt, previous, current);
    id :| id in Inserted(t, c).active && Covers(Inserted(t, c).active[id], Upper(c.symbol), previous, current);
    InsertedOrigin(t, c, id);
  }

  /** A new gap that covers a hole of the extended window is that hole. */
  lemma OpenedEnds(t: Tracker, c: MarketCandle, id: GapIdentity, previous: int, current: int)
    requires Inv(t) && StoresNew(t, c) && id in Observed(t, c).active && id !in t.active
    requires Neighbours(Extended(t, c).Keys, previous, current)
    requires Covers(Observed(t, c).active[id], Upper(c.symbol), previous, current)
    ensures id == GapIdentity(Upper(c.symbol), previous + 1, current)
  {
    ObservedStores(t, c);
    InsertedOrigin(t, c, id);
    assert Neighbours(Extended(t, c).Keys, id.expectedStart - 1, id.observedNextStart);
    SameNeighbours(Extended(t, c).Keys, id.expectedStart - 1, id.observedNextStart, previous, current);
  }

  lemma SameNeighbours(minutes: set<int>, p: int, q: int, previous: int, current: int)
    requires Neighbours(minutes, p, q) && Neighbours(minutes, previous, current)
    requires p <= previous && current <= q
    ensures p == previous && q == current
  {
  }

  lemma ShortfallOpens(t: Tracker, c: MarketCandle)
    requires Inv(t) && StoresNew(t, c) && FallsShort(t, Upper(c.symbol), c.openTime)
    ensures OpensGap(t, c)
  {
    var own := Upper(c.symbol);
    var least := Least(t.Window(own).Keys);
    ExtendedKeys(t, c);
    assert Neighbours(Extended(t, c).Keys, c.openTime, least);
    var id := CoverAfter(t, c, c.openTime, least);
  }

  /** A stored candle opens a new gap exactly when it is more than a minute past the
      newest retained candle, or more than a minute before the earliest one with no
      active gap over the minutes between. */
  lemma OpensGapIff(t: Tracker, c: MarketCandle)
    requires Inv(t) && EndsInv(t) && StoresNew(t, c)
    ensures OpensGap(t, c) <==>
      Jumps(t.Window(Upper(c.symbol)), c.openTime) || FallsShort(t, Upper(c.symbol), c.openTime)
  {
    ObservedStores(t, c);
    if id :| id in Observed(t, c).active && id !in t.active {
      InsertedOrigin(t, c, id);
      FoundMeans(t, c, Inserted(t, c).active[id]);
    }
    if Jumps(t.Window(Upper(c.symbol)), c.openTime) {
      var p := Newest(t.Window(Upper(c.symbol)));
      JumpOpens(t, c, p, GapIdentity(Upper(c.symbol), p + 1, c.openTime));
    } else if FallsShort(t, Upper(c.symbol), c.openTime) {
      ShortfallOpens(t, c);
    }
  }
}
