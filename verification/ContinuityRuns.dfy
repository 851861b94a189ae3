/** What the tracker promises over whole runs: continuity verdicts, gap
    accounting, and refinement of the full candle history. */
module ContinuityRuns {
  import opened Text
  import opened MarketData
  import opened SortedInts
  import opened Continuity
  import opened ContinuityProofs

  // ---------------------------------------------------------------- continuity verdicts

  /** Between any two retained minutes every minute is retained. */
  ghost predicate Consecutive(minutes: set<int>) {
    forall a, m, b | a in minutes && b in minutes && a <= m <= b :: m in minutes
  }

  /** A missing minute between two retained ones lies in a hole between neighbours. */
  lemma HoleAround(minutes: set<int>, a: int, m: int, b: int) returns (previous: int, current: int)
    requires a in minutes && b in minutes && a < m < b && m !in minutes
    ensures Neighbours(minutes, previous, current) && previous < m < current
  {
    var below := set x | x in minutes && x < m;
    var above := set x | x in minutes && x > m;
    assert a in below && b in above;
    current := Least(above);
    var negated := set x | x in below :: -x;
    assert -a in negated;
    var least := Least(negated);
    previous := -least;
    assert previous in below;
    forall x | x in minutes ensures x <= previous || current <= x {
      if x < m {
        assert x in below && -x in negated;
      } else {
        assert x in above;
      }
    }
  }

  lemma HoleMeansGap(t: Tracker, symbol: string, a: int, m: int, b: int)
    requires CoverInv(t)
    requires a in t.Window(symbol) && b in t.Window(symbol) && a < m < b && m !in t.Window(symbol)
    ensures HasGap(t.active, symbol)
  {
    var previous, current := HoleAround(t.Window(symbol).Keys, a, m, b);
    assert HasCover(t.active, symbol, previous, current);
  }

  /** Without an active gap the retained candles are consecutive minutes. */
  lemma NoGapMeansConsecutive(t: Tracker, symbol: string)
    requires Inv(t) && !HasGap(t.active, symbol)
    ensures Consecutive(t.Window(symbol).Keys)
  {
    var minutes := t.Window(symbol).Keys;
    forall a, m, b | a in minutes && b in minutes && a <= m <= b ensures m in minutes {
      if m !in minutes {
        HoleMeansGap(t, symbol, a, m, b);
      }
    }
  }

  /** CONTIGUOUS is truthful after any run: no retained window has a hole. */
  lemma ContiguousIsConsecutive(maxCandles: nat, maxEvents: nat, steps: seq<Step>, symbol: string)
    requires 2 <= maxCandles && 1 <= maxEvents
    requires Run(Fresh(maxCandles, maxEvents), steps).State(symbol) in {CONTIGUOUS, TRACKING}
    ensures Consecutive(Run(Fresh(maxCandles, maxEvents), steps).Window(symbol).Keys)
  {
    var t := Run(Fresh(maxCandles, maxEvents), steps);
    RunKeepsInv(maxCandles, maxEvents, steps);
    assert StateInv(t, symbol);
    NoGapMeansConsecutive(t, symbol);
  }

  /** GAP_DETECTED and BACKFILLING are never raised without cause: the symbol has
      an active gap, and a minute of that gap is not retained. */
  lemma GappedHasMissingMinute(maxCandles: nat, maxEvents: nat, steps: seq<Step>, symbol: string)
    returns (id: GapIdentity, missing: int)
    requires 2 <= maxCandles && 1 <= maxEvents
    requires Run(Fresh(maxCandles, maxEvents), steps).State(symbol) in {GAP_DETECTED, BACKFILLING}
    ensures id in Run(Fresh(maxCandles, maxEvents), steps).active && id.symbol == symbol
    ensures id.expectedStart <= missing < id.observedNextStart
    ensures missing !in Run(Fresh(maxCandles, maxEvents), steps).Window(symbol)
  {
    var t := Run(Fresh(maxCandles, maxEvents), steps);
    RunKeepsInv(maxCandles, maxEvents, steps);
    assert StateInv(t, symbol);
    id :| id in t.active && t.active[id].symbol == symbol;
    assert GapInv(t, id);
    var gap := t.active[id];
    missing :| gap.expectedStart <= missing < gap.expectedStart + gap.missingCount && missing !in t.candles[symbol].Keys;
  }

  // ---------------------------------------------------------------- gap accounting

  /** How many active gaps one step closes. */
  function ClosedBy(t: Tracker, step: Step): nat {
    |t.active.Keys - Next(t, step).active.Keys|
  }

  function ClosedOver(t: Tracker, steps: seq<Step>): nat {
    if steps == [] then 0 else
      ClosedOver(t, steps[..|steps| - 1]) + ClosedBy(Run(t, steps[..|steps| - 1]), steps[|steps| - 1])
  }

  lemma SplitSize<T>(all: set<T>, part: set<T>)
    requires part <= all
    ensures |all - part| == |all| - |part|
  {
    assert all == part + (all - part);
  }

  /** A call that stores a new minute keeps some gaps and finds others. */
  lemma InsertedCounts(t: Tracker, c: MarketCandle)
    requires Inv(t) && StoresNew(t, c)
    ensures var kept := KeptGaps(t.active, Upper(c.symbol), Extended(t, c).Keys);
      var found := FoundGaps(Stored(t, c), Upper(c.symbol), c.receivedAt);
      && |Inserted(t, c).active| == |kept| + |found|
      && t.active.Keys - Inserted(t, c).active.Keys == t.active.Keys - kept.Keys
  {
    var own := Upper(c.symbol);
    var kept := KeptGaps(t.active, own, Extended(t, c).Keys);
    InsertedIs(t, c);
    assert RecomputeContext(Stored(t, c), own) by {
      assert forall id | id in t.active :: GapInv(t, id);
    }
    RecomputedActive(Stored(t, c), own, c.receivedAt);
    forall id | id in t.active ensures id in Inserted(t, c).active <==> id in kept {
      InsertedKeeps(t, c, id);
    }
  }

  lemma InsertedHealth(t: Tracker, c: MarketCandle)
    requires StoresNew(t, c)
    ensures Inserted(t, c).health.gapsDetected
      == t.health.gapsDetected + |FoundGaps(Stored(t, c), Upper(c.symbol), c.receivedAt)|
    ensures Inserted(t, c).health.gapsBackfilled
      <= t.health.gapsBackfilled + if t.active.Keys - Inserted(t, c).active.Keys != {} then 1 else 0
    ensures Inserted(t, c).health.backfillFailures == t.health.backfillFailures
  {
    RecomputedFrame(Stored(t, c), Upper(c.symbol), c.receivedAt);
  }

  lemma InsertedBalances(t: Tracker, c: MarketCandle)
    requires Inv(t) && StoresNew(t, c)
    ensures Inserted(t, c).health.gapsDetected - t.health.gapsDetected
      == |Inserted(t, c).active| + |t.active.Keys - Inserted(t, c).active.Keys| - |t.active|
    ensures Inserted(t, c).health.gapsBackfilled - t.health.gapsBackfilled
      <= |t.active.Keys - Inserted(t, c).active.Keys|
  {
    var kept := KeptGaps(t.active, Upper(c.symbol), Extended(t, c).Keys);
    InsertedCounts(t, c);
    InsertedHealth(t, c);
    SplitSize(t.active.Keys, kept.Keys);
    assert |t.active.Keys| == |t.active| && |kept.Keys| == |kept|;
  }

  predicate Stores(t: Tracker, step: Step) {
    step.ClosedCandle? && StoresNew(t, step.candle)
  }

  lemma OtherStepsKeepGaps(t: Tracker, step: Step)
    requires !Stores(t, step)
    ensures Next(t, step).active == t.active
    ensures Next(t, step).health.gapsDetected == t.health.gapsDetected
    ensures Next(t, step).health.gapsBackfilled == t.health.gapsBackfilled
  {
  }

  lemma StepBalances(t: Tracker, step: Step)
    requires Inv(t)
    ensures Next(t, step).health.gapsDetected - t.health.gapsDetected
      == |Next(t, step).active| + ClosedBy(t, step) - |t.active|
    ensures Next(t, step).health.gapsBackfilled - t.health.gapsBackfilled <= ClosedBy(t, step)
  {
    if Stores(t, step) {
      InsertedBalances(t, step.candle);
      ObservedStores(t, step.candle);
      assert Next(t, step) == Observed(t, step.candle);
    } else {
      OtherStepsKeepGaps(t, step);
      assert t.active.Keys - t.active.Keys == {};
    }
  }

  /** Every gap ever counted as detected is either still active or was closed; so
      the active gaps and the backfills together never exceed the detections. */
  lemma {:induction false} GapsBalance(maxCandles: nat, maxEvents: nat, steps: seq<Step>)
    requires 2 <= maxCandles && 1 <= maxEvents
    ensures var t := Run(Fresh(maxCandles, maxEvents), steps);
      var closed := ClosedOver(Fresh(maxCandles, maxEvents), steps);
      && t.health.gapsDetected == |t.active| + closed
      && t.health.gapsBackfilled <= closed
      && |t.active| + t.health.gapsBackfilled <= t.health.gapsDetected
  {
    if steps != [] {
      var init := steps[..|steps| - 1];
      GapsBalance(maxCandles, maxEvents, init);
      RunKeepsInv(maxCandles, maxEvents, init);
      StepBalances(Run(Fresh(maxCandles, maxEvents), init), steps[|steps| - 1]);
    }
  }

  /** A gap reported by a call has an identity that is not active. */
  lemma NewGapsAreNew(t: Tracker, c: MarketCandle)
    requires Inv(t) && StoresNew(t, c)
    ensures NoneIn(FoundGaps(Stored(t, c), Upper(c.symbol), c.receivedAt), t.active)
    ensures Distinct(FoundGaps(Stored(t, c), Upper(c.symbol), c.receivedAt))
  {
    assert forall id | id in t.active :: GapInv(t, id);
    FoundGapsDistinct(Stored(t, c), Upper(c.symbol), c.receivedAt);
  }

  // ---------------------------------------------------------------- the full history

  /** The first candle ever accepted for each minute of a symbol. */
  function FirstAccepted(steps: seq<Step>, symbol: string): Minutes {
    if steps == [] then map[] else
      var before := FirstAccepted(steps[..|steps| - 1], symbol);
      match steps[|steps| - 1]
      case ClosedCandle(c) =>
        if Accepted(c) && Upper(c.symbol) == symbol && c.openTime !in before
        then before[c.openTime := c] else before
      case _ => before
  }

  lemma SameSizeSubset(a: set<int>, b: set<int>)
    requires a <= b && |a| == |b|
    ensures a == b
  {
    assert |b - a| == 0;
    assert b == a + (b - a);
  }

  /** A minute older than a full window is dropped at once. */
  lemma OlderMinuteIsDropped(w: Minutes, e: Minutes, c: MarketCandle, bound: nat)
    requires |w| == bound && c.openTime !in w
    requires forall m | m in w.Keys :: c.openTime < m
    requires LatestOf(w[c.openTime := c], e, bound)
    ensures e == w
  {
    var m := c.openTime;
    var wide := w[m := c];
    assert wide.Keys == w.Keys + {m};
    var out := DroppedMinute(wide, e, bound);
    assert out == m || out in w.Keys;
    assert m !in e.Keys;
    SameSizeSubset(e.Keys, w.Keys);
    assert forall k | k in e :: e[k] == w[k];
  }

  lemma DroppedMinute(w: Minutes, e: Minutes, bound: nat) returns (m: int)
    requires LatestOf(w, e, bound) && |w| > bound
    ensures m in w && m !in e
  {
    var left := w.Keys - e.Keys;
    SplitSize(w.Keys, e.Keys);
    assert |left| == |w| - |e|;
    HasElement(left);
    m :| m in left;
  }

  lemma FullWhenDropping(history: Minutes, w: Minutes, bound: nat, m: int)
    requires LatestOf(history, w, bound)
    requires m in history && m !in w
    ensures |w| == bound
  {
    if |history| <= bound {
      assert |w.Keys| == |history.Keys|;
      SameSizeSubset(w.Keys, history.Keys);
    }
  }

  /** A minute evicted earlier and sent again is evicted at once. */
  lemma StaleMinuteIsDropped(history: Minutes, w: Minutes, e: Minutes, c: MarketCandle, bound: nat)
    requires LatestOf(history, w, bound)
    requires c.openTime in history && c.openTime !in w
    requires LatestOf(w[c.openTime := c], e, bound)
    ensures e == w
  {
    FullWhenDropping(history, w, bound, c.openTime);
    OlderMinuteIsDropped(w, e, c, bound);
  }

  /** A new minute keeps the window the latest part of the history. */
  lemma NewMinuteKeepsLatest(history: Minutes, w: Minutes, e: Minutes, c: MarketCandle, bound: nat)
    requires LatestOf(history, w, bound)
    requires c.openTime !in history
    requires LatestOf(w[c.openTime := c], e, bound)
    ensures LatestOf(history[c.openTime := c], e, bound)
  {
    var m := c.openTime;
    var wider := w[m := c];
    var longer := history[m := c];
    assert wider.Keys == w.Keys + {m};
    assert longer.Keys == history.Keys + {m};
    LatestSize(history, w, longer, wider, e, bound, m);
    forall dropped, kept | dropped in longer && dropped !in e && kept in e ensures dropped < kept {
      if dropped !in wider && kept == m {
        NewMinuteIsLater(history, w, wider, e, c, bound, dropped);
      }
    }
  }

  lemma LatestSize(history: Minutes, w: Minutes, longer: Minutes, wider: Minutes, e: Minutes, bound: nat, m: int)
    requires longer.Keys == history.Keys + {m} && wider.Keys == w.Keys + {m} && m !in history && m !in w
    requires |w| == (if |history| <= bound then |history| else bound)
    requires |e| == (if |wider| <= bound then |wider| else bound)
    ensures |e| == (if |longer| <= bound then |longer| else bound)
  {
    assert |longer.Keys| == |longer| && |history.Keys| == |history| && |wider.Keys| == |wider| && |w.Keys| == |w|;
  }

  /** A minute that the window lost before is earlier than a new minute that stays. */
  lemma NewMinuteIsLater(history: Minutes, w: Minutes, wider: Minutes, e: Minutes, c: MarketCandle, bound: nat, dropped: int)
    requires LatestOf(history, w, bound) && wider == w[c.openTime := c] && LatestOf(wider, e, bound)
    requires c.openTime !in w && c.openTime in e && dropped in history && dropped !in w
    ensures dropped < c.openTime
  {
    assert wider.Keys == w.Keys + {c.openTime};
    FullWhenDropping(history, w, bound, dropped);
    var out := DroppedMinute(wider, e, bound);
    assert dropped < out < c.openTime;
  }

  /** The bounded store refines the full history: after any run it holds exactly
      the `maxCandles` latest minutes ever accepted for the symbol, each with the
      first candle accepted for it. */
  lemma {:induction false} StoreRefinesHistory(maxCandles: nat, maxEvents: nat, steps: seq<Step>, symbol: string)
    requires 2 <= maxCandles && 1 <= maxEvents
    ensures LatestOf(FirstAccepted(steps, symbol), Run(Fresh(maxCandles, maxEvents), steps).Window(symbol), maxCandles)
  {
    if steps != [] {
      var init := steps[..|steps| - 1];
      var before := Run(Fresh(maxCandles, maxEvents), init);
      StoreRefinesHistory(maxCandles, maxEvents, init, symbol);
      RunFrame(Fresh(maxCandles, maxEvents), init);
      match steps[|steps| - 1]
      case ClosedCandle(c) =>
        if Accepted(c) && Upper(c.symbol) == symbol {
          CandleRefinesHistory(before, c, FirstAccepted(init, symbol));
        } else {
          ObservedOther(before, c, symbol);
        }
      case _ =>
    }
  }

  lemma CandleRefinesHistory(t: Tracker, c: MarketCandle, history: Minutes)
    requires Accepted(c)
    requires LatestOf(history, t.Window(Upper(c.symbol)), t.maxCandles)
    ensures LatestOf(
      if c.openTime in history then history else history[c.openTime := c],
      Observed(t, c).Window(Upper(c.symbol)),
      t.maxCandles)
  {
    var w := t.Window(Upper(c.symbol));
    if StoresNew(t, c) {
      var e := Evicted(Extended(t, c), t.maxCandles);
      ObservedStores(t, c);
      EvictedKeepsLatest(Extended(t, c), t.maxCandles);
      if c.openTime in history {
        StaleMinuteIsDropped(history, w, e, c, t.maxCandles);
      } else {
        NewMinuteKeepsLatest(history, w, e, c, t.maxCandles);
      }
    }
  }

  lemma ObservedOther(t: Tracker, c: MarketCandle, symbol: string)
    requires !Accepted(c) || Upper(c.symbol) != symbol
    ensures Observed(t, c).Window(symbol) == t.Window(symbol)
  {
    if StoresNew(t, c) {
      ObservedStores(t, c);
    }
  }

  lemma StepFrame(t: Tracker, step: Step)
    ensures Next(t, step).maxCandles == t.maxCandles && Next(t, step).maxEvents == t.maxEvents
  {
    if step.ClosedCandle? && StoresNew(t, step.candle) {
      ObservedStores(t, step.candle);
    }
  }

  lemma {:induction false} RunFrame(t: Tracker, steps: seq<Step>)
    ensures Run(t, steps).maxCandles == t.maxCandles && Run(t, steps).maxEvents == t.maxEvents
  {
    if steps != [] {
      RunFrame(t, steps[..|steps| - 1]);
      StepFrame(Run(t, steps[..|steps| - 1]), steps[|steps| - 1]);
    }
  }

  // ---------------------------------------------------------------- unrepaired gaps

  /** One step either leaves a gap active, unchanged, or completes it. */
  lemma GapSurvives(t: Tracker, step: Step, id: GapIdentity)
    requires Inv(t) && id in t.active
    ensures
      if step.ClosedCandle? && StoresNew(t, step.candle) && Upper(step.candle.symbol) == id.symbol
         && t.active[id].Filled(Extended(t, step.candle).Keys)
      then id !in Next(t, step).active
      else id in Next(t, step).active && Next(t, step).active[id] == t.active[id]
  {
    assert GapInv(t, id);
    if step.ClosedCandle? && StoresNew(t, step.candle) {
      ObservedStores(t, step.candle);
      InsertedKeeps(t, step.candle, id);
    }
  }

  /** The gap is active as it was, or each of its minutes is in the history. */
  ghost predicate StillOrDone(t: Tracker, history: Minutes, id: GapIdentity, gap: GapEvent) {
    || (id in t.active && t.active[id] == gap)
    || (forall m | id.expectedStart <= m < id.observedNextStart :: m in history)
  }

  /** A step that takes an active gap away completes its minutes. */
  lemma CompletedWasAccepted(maxCandles: nat, maxEvents: nat, init: seq<Step>, last: Step, id: GapIdentity)
    requires 2 <= maxCandles && 1 <= maxEvents && id in Run(Fresh(maxCandles, maxEvents), init).active
    ensures StillOrDone(Next(Run(Fresh(maxCandles, maxEvents), init), last), FirstAccepted(init + [last], id.symbol), id,
      Run(Fresh(maxCandles, maxEvents), init).active[id])
  {
    var before := Run(Fresh(maxCandles, maxEvents), init);
    RunKeepsInv(maxCandles, maxEvents, init);
    StoreRefinesHistory(maxCandles, maxEvents, init, id.symbol);
    assert (init + [last])[..|init|] == init;
    GapSurvives(before, last, id);
    if id !in Next(before, last).active {
      FilledWasAccepted(before, FirstAccepted(init, id.symbol), FirstAccepted(init + [last], id.symbol), last.candle, id);
    }
  }

  lemma FilledWasAccepted(t: Tracker, history: Minutes, longer: Minutes, c: MarketCandle, id: GapIdentity)
    requires Inv(t) && id in t.active && Upper(c.symbol) == id.symbol && t.active[id].Filled(Extended(t, c).Keys)
    requires t.Window(id.symbol).Keys <= history.Keys <= longer.Keys && c.openTime in longer
    ensures forall m | id.expectedStart <= m < id.observedNextStart :: m in longer
  {
    assert GapInv(t, id);
    forall m | id.expectedStart <= m < id.observedNextStart ensures m in longer {
      assert m in Extended(t, c).Keys;
      assert m in t.Window(id.symbol).Keys ==> m in history.Keys;
    }
  }

  lemma HistoryGrows(init: seq<Step>, last: Step, symbol: string)
    ensures FirstAccepted(init, symbol).Keys <= FirstAccepted(init + [last], symbol).Keys
  {
    assert (init + [last])[..|init|] == init;
  }

  lemma RunSnoc(t: Tracker, init: seq<Step>, last: Step)
    ensures Run(t, init + [last]) == Next(Run(t, init), last)
  {
    assert (init + [last])[..|init|] == init;
  }

  lemma OneStepOn(maxCandles: nat, maxEvents: nat, init: seq<Step>, last: Step, id: GapIdentity, gap: GapEvent)
    requires 2 <= maxCandles && 1 <= maxEvents
    requires StillOrDone(Run(Fresh(maxCandles, maxEvents), init), FirstAccepted(init, id.symbol), id, gap)
    ensures StillOrDone(Run(Fresh(maxCandles, maxEvents), init + [last]), FirstAccepted(init + [last], id.symbol), id, gap)
  {
    RunSnoc(Fresh(maxCandles, maxEvents), init, last);
    HistoryGrows(init, last, id.symbol);
    var before := Run(Fresh(maxCandles, maxEvents), init);
    if id in before.active && before.active[id] == gap {
      CompletedWasAccepted(maxCandles, maxEvents, init, last, id);
    }
  }

  /** Bounded eviction never forgets an unrepaired gap: a gap that was active at
      some point of a run is active at its end, unless a candle was accepted for
      every one of its minutes. */
  lemma {:induction false} UnrepairedGapStaysActive(maxCandles: nat, maxEvents: nat, steps: seq<Step>, k: nat, id: GapIdentity)
    requires 2 <= maxCandles && 1 <= maxEvents && k <= |steps|
    requires id in Run(Fresh(maxCandles, maxEvents), steps[..k]).active
    ensures StillOrDone(Run(Fresh(maxCandles, maxEvents), steps), FirstAccepted(steps, id.symbol), id,
      Run(Fresh(maxCandles, maxEvents), steps[..k]).active[id])
    decreases |steps|
  {
    if k < |steps| {
      var init, last := steps[..|steps| - 1], steps[|steps| - 1];
      assert init[..k] == steps[..k] && init + [last] == steps;
      UnrepairedGapStaysActive(maxCandles, maxEvents, init, k, id);
      OneStepOn(maxCandles, maxEvents, init, last, id, Run(Fresh(maxCandles, maxEvents), steps[..k]).active[id]);
    } else {
      assert steps[..k] == steps;
    }
  }

  // ---------------------------------------------------------------- why active gaps are not the window's holes

  /** A candle older than a full window leaves the window as it was, yet leaves an
      active gap behind that reaches from it to the window. */
  lemma StaleCandleLeavesGap(t: Tracker, c: MarketCandle)
    requires Inv(t) && StoresNew(t, c)
    requires |t.Window(Upper(c.symbol))| == t.maxCandles
    requires forall m | m in t.Window(Upper(c.symbol)) :: c.openTime + 1 < m
    ensures Observed(t, c).Window(Upper(c.symbol)) == t.Window(Upper(c.symbol))
    ensures HasCover(Observed(t, c).active, Upper(c.symbol), c.openTime, Least(t.Window(Upper(c.symbol)).Keys))
    ensures HasGap(Observed(t, c).active, Upper(c.symbol))
  {
    var own := Upper(c.symbol);
    var least := Least(t.Window(own).Keys);
    ObservedStores(t, c);
    InsertedIs(t, c);
    StoredContext(t, c);
    StaleIsNext(t, c, least);
    HoleIsCovered(Stored(t, c), own, c.receivedAt, c.openTime, least);
    EvictedKeepsLatest(Extended(t, c), t.maxCandles);
    OlderMinuteIsDropped(t.Window(own), Evicted(Extended(t, c), t.maxCandles), c, t.maxCandles);
    assert HasCover(Observed(t, c).active, own, c.openTime, least);
  }

  lemma StaleIsNext(t: Tracker, c: MarketCandle, least: int)
    requires least in t.Window(Upper(c.symbol)).Keys && forall m | m in t.Window(Upper(c.symbol)).Keys :: least <= m
    requires c.openTime + 1 < least
    ensures Neighbours(Extended(t, c).Keys, c.openTime, least)
  {
    assert Extended(t, c).Keys == t.Window(Upper(c.symbol)).Keys + {c.openTime};
  }
}
