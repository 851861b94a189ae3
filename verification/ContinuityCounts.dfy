/** What a candle counts and reports: ignored and late candles, new gaps, closed gaps, and
    what the marks do. */
module ContinuityCounts {
  import opened Text
  import opened MarketData
  import opened SortedInts
  import opened Continuity
  import opened ContinuityProofs
  import opened ContinuityRuns
  import opened ContinuityRepeats

  // ---------------------------------------------------------------- ignored and late candles

  /** An unconfirmed candle, or one of another interval, changes nothing. */
  lemma IgnoredIsInert(t: Tracker, c: MarketCandle)
    requires !c.confirmed || c.interval != "1"
    ensures Observed(t, c) == t
  {
  }

  ghost predicate NewMinute(t: Tracker, c: MarketCandle) {
    c.confirmed && c.interval == "1" && c.openTime !in t.Window(Upper(c.symbol))
  }

  ghost predicate LaterRetained(t: Tracker, c: MarketCandle) {
    exists m :: m in t.Window(Upper(c.symbol)).Keys && c.openTime < m
  }

  /** A candle is counted late exactly when its minute is new and a later one is retained. */
  lemma LateCounted(t: Tracker, c: MarketCandle)
    ensures Observed(t, c).health.lateCandles == t.health.lateCandles
      + if NewMinute(t, c) && LaterRetained(t, c) then 1 else 0
  {
    if !NewMinute(t, c) {
      NotStored(t, c);
    } else {
      StoredCounts(t, c);
      StoredLate(t, c);
    }
  }

  lemma NotStored(t: Tracker, c: MarketCandle)
    requires !NewMinute(t, c)
    ensures Observed(t, c).health.lateCandles == t.health.lateCandles
    ensures Observed(t, c).health.gapsBackfilled == t.health.gapsBackfilled
    ensures Observed(t, c).health.connectionsObserved == t.health.connectionsObserved
    ensures Observed(t, c).health.backfillFailures == t.health.backfillFailures
  {
  }

  lemma StoredCounts(t: Tracker, c: MarketCandle)
    requires NewMinute(t, c)
    ensures Observed(t, c).health.lateCandles == Stored(t, c).health.lateCandles
    ensures Observed(t, c).health.connectionsObserved == t.health.connectionsObserved
    ensures Observed(t, c).health.backfillFailures == t.health.backfillFailures
    ensures Counted(Observed(t, c).health) == Counted(t.health)
  {
    RecomputedHealth(Stored(t, c), Upper(c.symbol), c.receivedAt);
    assert Observed(t, c).health == Inserted(t, c).health;
  }

  lemma RecomputedHealth(t: Tracker, symbol: string, detectedAt: int)
    requires symbol in t.candles
    ensures Recomputed(t, symbol, detectedAt).health
      == t.health.(gapsDetected := Recomputed(t, symbol, detectedAt).health.gapsDetected)
  {
  }

  lemma StoredLate(t: Tracker, c: MarketCandle)
    ensures Stored(t, c).health.lateCandles == t.health.lateCandles + if LaterRetained(t, c) then 1 else 0
  {
    var w := t.Window(Upper(c.symbol));
    if m :| m in w.Keys && c.openTime < m {
      assert LaterRetained(t, c);
    }
  }

  // ---------------------------------------------------------------- closed gaps

  ghost predicate ClosesSome(t: Tracker, r: Tracker) {
    exists id :: id in t.active && id !in r.active
  }

  /** A backfill is counted exactly when a new minute from a REST backfill closes a gap:
      one count, however many gaps it closes. */
  lemma BackfillCounted(t: Tracker, c: MarketCandle)
    ensures Observed(t, c).health.gapsBackfilled == t.health.gapsBackfilled
      + if NewMinute(t, c) && c.source == REST_BACKFILL_SOURCE && ClosesSome(t, Observed(t, c)) then 1 else 0
  {
    if !NewMinute(t, c) {
      NotStored(t, c);
    } else {
      InsertedBackfills(t, c);
      assert Observed(t, c).active == Inserted(t, c).active;
    }
  }

  lemma InsertedBackfills(t: Tracker, c: MarketCandle)
    requires NewMinute(t, c)
    ensures Inserted(t, c).health.gapsBackfilled == t.health.gapsBackfilled
      + if c.source == REST_BACKFILL_SOURCE && ClosesSome(t, Inserted(t, c)) then 1 else 0
  {
    var after := Recomputed(Stored(t, c), Upper(c.symbol), c.receivedAt);
    InsertedIs(t, c);
    if id :| id in t.active && id !in after.active {
      assert id in t.active.Keys - after.active.Keys;
    } else {
      assert forall id :: id !in t.active.Keys - after.active.Keys;
    }
    RecomputedFrame(Stored(t, c), Upper(c.symbol), c.receivedAt);
  }

  // ---------------------------------------------------------------- new gaps

  /** The last n of them. */
  function Latest<T>(q: seq<T>, n: nat): seq<T> {
    if |q| <= n then q else q[|q| - n..]
  }

  lemma {:induction false} PushedAreLatest(events: seq<GapEvent>, gaps: seq<GapEvent>, bound: nat)
    requires |events| <= bound
    ensures PushGaps(events, gaps, bound) == Latest(events + gaps, bound)
  {
    if gaps == [] {
      assert events + gaps == events;
    } else {
      var init, last := gaps[..|gaps| - 1], gaps[|gaps| - 1];
      PushedAreLatest(events, init, bound);
      assert events + gaps == (events + init) + [last];
      LatestNext(events + init, last, bound);
    }
  }

  lemma LatestNext<T>(q: seq<T>, x: T, bound: nat)
    ensures Push(Latest(q, bound), x, bound) == Latest(q + [x], bound)
  {
  }

  /** What a reported gap says: when it was found, and on which connection the candle at
      its end came. */
  ghost predicate Reported(t: Tracker, c: MarketCandle, gap: GapEvent) {
    && gap.symbol == Upper(c.symbol) && gap.WellFormed() && gap.detectedAt == c.receivedAt
    && gap.observedNextStart in Extended(t, c)
    && gap.connectionEpoch == Extended(t, c)[gap.observedNextStart].connectionEpoch
  }

  lemma FoundSays(t: Tracker, symbol: string, detectedAt: int, k: nat)
    requires symbol in t.candles && k < |FoundGaps(t, symbol, detectedAt)|
    ensures var gap, w := FoundGaps(t, symbol, detectedAt)[k], t.candles[symbol];
      gap.observedNextStart in w && gap.detectedAt == detectedAt
      && gap.connectionEpoch == w[gap.observedNextStart].connectionEpoch
  {
    FoundIsNewHole(t, symbol, detectedAt, k);
  }

  ghost predicate Opens(t: Tracker, r: Tracker, gap: GapEvent) {
    gap.Identity() !in t.active && gap.Identity() in r.active && r.active[gap.Identity()] == gap
  }

  /** The gaps a call found, as it reports them: in time order, the gaps that are active now
      and were not, each once. */
  ghost predicate AreNew(t: Tracker, c: MarketCandle, r: Tracker, found: seq<GapEvent>) {
    && (forall gap :: gap in found <==> Opens(t, r, gap))
    && (forall gap | gap in found :: Reported(t, c, gap))
    && (forall j, k | 0 <= j < k < |found| :: found[j].observedNextStart < found[k].observedNextStart)
  }

  lemma FoundAreNew(t: Tracker, c: MarketCandle, found: seq<GapEvent>)
    requires Inv(t) && NewMinute(t, c) && found == FoundGaps(Stored(t, c), Upper(c.symbol), c.receivedAt)
    ensures AreNew(t, c, Inserted(t, c), found)
  {
    var own := Upper(c.symbol);
    StoredContext(t, c);
    InsertedIs(t, c);
    RecomputedActive(Stored(t, c), own, c.receivedAt);
    forall gap | gap in found ensures Opens(t, Inserted(t, c), gap) && Reported(t, c, gap) {
      var k :| 0 <= k < |found| && found[k] == gap;
      FoundGapIsHole(Stored(t, c), own, c.receivedAt, k);
      FoundSays(Stored(t, c), own, c.receivedAt, k);
    }
    forall gap | Opens(t, Inserted(t, c), gap) ensures gap in found {
      assert IsAmong(found, gap.Identity(), gap);
    }
    if |Extended(t, c)| != 1 {
      NewHolesAscending(own, Extended(t, c), Sorted(Extended(t, c).Keys), PriorGaps(t.active, own), c.receivedAt);
    }
  }

  lemma InsertedReports(t: Tracker, c: MarketCandle, found: seq<GapEvent>)
    requires NewMinute(t, c) && |t.events| <= t.maxEvents
    requires found == FoundGaps(Stored(t, c), Upper(c.symbol), c.receivedAt)
    ensures Inserted(t, c).events == Latest(t.events + found, t.maxEvents)
    ensures Inserted(t, c).health.gapsDetected == t.health.gapsDetected + |found|
  {
    PushedAreLatest(t.events, found, t.maxEvents);
    RecomputedFrame(Stored(t, c), Upper(c.symbol), c.receivedAt);
    assert t.events + [] == t.events;
  }

  /** A candle of a new minute reports exactly the gaps it opens: they are counted, and
      recorded behind the earlier events, of which the latest are kept. */
  lemma NewGapsAreReported(t: Tracker, c: MarketCandle) returns (found: seq<GapEvent>)
    requires Inv(t) && NewMinute(t, c) && |t.events| <= t.maxEvents
    ensures AreNew(t, c, Observed(t, c), found)
    ensures Observed(t, c).events == Latest(t.events + found, t.maxEvents)
    ensures Observed(t, c).health.gapsDetected == t.health.gapsDetected + |found|
  {
    found := FoundGaps(Stored(t, c), Upper(c.symbol), c.receivedAt);
    FoundAreNew(t, c, found);
    InsertedReports(t, c, found);
    SameReport(t, c, found);
  }

  lemma SameReport(t: Tracker, c: MarketCandle, found: seq<GapEvent>)
    requires NewMinute(t, c) && AreNew(t, c, Inserted(t, c), found)
    ensures AreNew(t, c, Observed(t, c), found)
    ensures Observed(t, c).events == Inserted(t, c).events
    ensures Observed(t, c).health == Inserted(t, c).health
  {
    assert Observed(t, c).active == Inserted(t, c).active;
    forall gap ensures Opens(t, Observed(t, c), gap) <==> Opens(t, Inserted(t, c), gap) {
    }
  }

  lemma OtherEventsStay(t: Tracker, step: Step)
    requires !(step.ClosedCandle? && NewMinute(t, step.candle))
    ensures Next(t, step).events == t.events
  {
  }

  /** The record of gaps never exceeds its bound. */
  lemma {:induction false} EventsAreBounded(maxCandles: nat, maxEvents: nat, steps: seq<Step>)
    requires 2 <= maxCandles && 1 <= maxEvents
    ensures |Run(Fresh(maxCandles, maxEvents), steps).events| <= maxEvents
  {
    if steps != [] {
      var init, last := steps[..|steps| - 1], steps[|steps| - 1];
      var t := Run(Fresh(maxCandles, maxEvents), init);
      EventsAreBounded(maxCandles, maxEvents, init);
      RunFrame(Fresh(maxCandles, maxEvents), init);
      if last.ClosedCandle? && NewMinute(t, last.candle) {
        RunKeepsInv(maxCandles, maxEvents, init);
        var found := NewGapsAreReported(t, last.candle);
      } else {
        OtherEventsStay(t, last);
      }
    }
  }

  // ---------------------------------------------------------------- marks and connections

  /** Marking a repair says BACKFILLING of the gap's symbol exactly when the gap is active. */
  lemma MarkMeans(t: Tracker, gap: GapEvent, symbol: string)
    ensures var r := Next(t, MarkBackfilling(gap));
      && r == t.(states := r.states)
      && r.State(symbol) ==
           if symbol == gap.symbol && GapIdentity(gap.symbol, gap.expectedStart, gap.observedNextStart) in t.active
           then BACKFILLING else t.State(symbol)
  {
  }

  /** A failed repair says DEGRADED of the symbol and counts one failure. */
  lemma FailureMeans(t: Tracker, gap: GapEvent, symbol: string)
    ensures var r := Next(t, MarkFailure(gap));
      && r == t.(states := r.states, health := t.health.(backfillFailures := t.health.backfillFailures + 1))
      && r.State(symbol) == if symbol == gap.symbol then DEGRADED else t.State(symbol)
  {
  }

  /** A connection is counted, and nothing else. */
  lemma ConnectionMeans(t: Tracker)
    ensures Next(t, ConnectionOpened)
      == t.(health := t.health.(connectionsObserved := t.health.connectionsObserved + 1))
  {
  }
}
