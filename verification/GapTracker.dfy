/** The tracker object: every method is the in-place code, proved against the
    value functions of Continuity. */
module GapTracking {
  import opened Text
  import opened MarketData
  import opened SortedInts
  import opened Continuity
  import opened ContinuityProofs

  predicate IsRetained(t: Tracker, symbol: string, c: MarketCandle) {
    c.openTime in t.Window(symbol) && t.Window(symbol)[c.openTime] == c
  }

  /** A candle is late when it is older than the newest retained one. */
  lemma LateIff(w: Minutes, minute: int)
    ensures (exists m | m in w.Keys :: minute < m) <==> w != map[] && minute < Greatest(w.Keys)
  {
    if w != map[] {
      var greatest := Greatest(w.Keys);
      assert greatest in w.Keys;
    }
  }

  /** The first i times, or all of them. */
  function Upto(times: seq<int>, i: nat): (r: seq<int>)
    ensures forall t | t in r :: t in times
    ensures i >= |times| ==> r == times
  {
    if i < |times| then times[..i] else times
  }

  /** One more time in the pass over successive times. */
  lemma NewHolesNext(symbol: string, w: Minutes, times: seq<int>, prior: Gaps, detectedAt: int, i: nat)
    requires 1 <= i < |times| && forall t | t in times :: t in w
    ensures NewHoles(symbol, w, Upto(times, i + 1), prior, detectedAt) ==
      var earlier := NewHoles(symbol, w, Upto(times, i), prior, detectedAt);
      var gap := HoleGap(symbol, w, times[i - 1], times[i], detectedAt);
      if times[i] - times[i - 1] <= 1 || ContainedInSome(prior, gap) then earlier else earlier + [gap]
  {
    assert Upto(times, i + 1)[..i] == Upto(times, i);
  }

  /** What reporting the found gaps leaves. */
  ghost predicate HasReported(t: Tracker, r: Tracker, found: seq<GapEvent>) {
    && r.active == AddGaps(t.active, found)
    && r.events == PushGaps(t.events, found, t.maxEvents)
    && r.health == t.health.(gapsDetected := t.health.gapsDetected + |found|)
  }

  lemma ReportsOneMore(t: Tracker, before: Tracker, r: Tracker, found: seq<GapEvent>, gap: GapEvent)
    requires HasReported(t, before, found)
    requires r == before.(active := before.active[gap.Identity() := gap],
                          events := Push(before.events, gap, t.maxEvents),
                          health := before.health.(gapsDetected := before.health.gapsDetected + 1))
    ensures HasReported(t, r, found + [gap])
  {
    assert (found + [gap])[..|found|] == found;
  }

  /** A gap that is already there is contained in one that is. */
  lemma SameIdentityContains(prior: Gaps, gap: GapEvent)
    requires forall id | id in prior :: prior[id].Identity() == id
    ensures gap.Identity() in prior ==> ContainedInSome(prior, gap)
  {
    if gap.Identity() in prior {
      assert Contains(prior[gap.Identity()], gap);
    }
  }

  lemma RetainedIsKeyed(t: Tracker, symbol: string, minute: int)
    requires Inv(t) && minute in t.Window(symbol)
    ensures IsRetained(t, symbol, t.Window(symbol)[minute]) && t.Window(symbol)[minute].openTime == minute
  {
    assert WindowInv(t, symbol);
  }

  lemma InsertFrame(t: Tracker, c: MarketCandle)
    requires Inv(t) && StoresNew(t, c)
    ensures RecomputeContext(Stored(t, c), Upper(c.symbol))
    ensures Recomputed(Stored(t, c), Upper(c.symbol), c.receivedAt).candles == Stored(t, c).candles
  {
    StoredContext(t, c);
    RecomputedFrame(Stored(t, c), Upper(c.symbol), c.receivedAt);
  }

  class GapTracker {
    const maxCandles: nat
    const maxEvents: nat
    var candles: map<string, Minutes>
    var states: map<string, GapState>
    var active: Gaps
    var events: seq<GapEvent>
    var conflicts: seq<ParityConflict>
    var health: GapHealth

    function Value(): Tracker
      reads this
    {
      Tracker(maxCandles, maxEvents, candles, states, active, events, conflicts, health)
    }

    ghost predicate Valid()
      reads this
    {
      Inv(Value())
    }

    constructor (maxCandles: nat, maxEvents: nat)
      requires 2 <= maxCandles && 1 <= maxEvents
      ensures Value() == Fresh(maxCandles, maxEvents)
      ensures Valid()
    {
      this.maxCandles, this.maxEvents := maxCandles, maxEvents;
      candles, states, active := map[], map[], map[];
      events, conflicts := [], [];
      health := NO_HEALTH;
      new;
      RunKeepsInv(maxCandles, maxEvents, []);
    }

    /** Bounds that are too small are refused. */
    static method Create(maxCandles: int, maxEvents: int) returns (r: Option<GapTracker>)
      ensures r.None? <==> maxCandles < 2 || maxEvents < 1
      ensures r.Some? ==> fresh(r.value) && r.value.Valid() && r.value.Value() == Fresh(maxCandles, maxEvents)
    {
      if maxCandles < 2 || maxEvents < 1 {
        return None;
      }
      var tracker := new GapTracker(maxCandles, maxEvents);
      return Some(tracker);
    }

    method ObserveConnection()
      requires Valid()
      modifies this`health
      ensures Value() == Next(old(Value()), ConnectionOpened) && Valid()
    {
      health := health.(connectionsObserved := health.connectionsObserved + 1);
      SameGapsSameInv(old(Value()), Value());
    }

    method ObserveClosedCandle(candle: MarketCandle)
      requires Valid()
      modifies this
      ensures Value() == Observed(old(Value()), candle)
      ensures Valid()
    {
      ObservedKeepsInv(Value(), candle);
      if !candle.confirmed || candle.interval != "1" {
        return;
      }
      var symbol := Upper(candle.symbol);
      var window := Value().Window(symbol);
      if candle.openTime in window {
        HandleDuplicate(window[candle.openTime], candle);
        return;
      }
      Insert(candle);
      Trim(symbol);
    }

    method Store(candle: MarketCandle)
      requires StoresNew(Value(), candle)
      modifies this`candles, this`health
      ensures Value() == Stored(old(Value()), candle)
    {
      var symbol := Upper(candle.symbol);
      var window := Value().Window(symbol);
      LateIff(window, candle.openTime);
      if window != map[] && candle.openTime < Greatest(window.Keys) {
        health := health.(lateCandles := health.lateCandles + 1);
      }
      candles := candles[symbol := window[candle.openTime := candle]];
    }

    /** The part of `observe_closed_candle` from the late check to the eviction. */
    method Insert(candle: MarketCandle)
      requires Valid() && StoresNew(Value(), candle)
      modifies this
      ensures Value() == Inserted(old(Value()), candle)
      ensures Upper(candle.symbol) in candles
    {
      InsertFrame(Value(), candle);
      var priorActive := active.Keys;
      Store(candle);
      RecomputeSymbol(Upper(candle.symbol), candle.receivedAt);
      if candle.source == REST_BACKFILL_SOURCE && priorActive - active.Keys != {} {
        health := health.(gapsBackfilled := health.gapsBackfilled + 1);
      }
    }

    /** The eviction loop that ends `observe_closed_candle`. */
    method Trim(symbol: string)
      requires symbol in candles
      modifies this`candles
      ensures candles == old(candles)[symbol := Evicted(old(candles)[symbol], maxCandles)]
    {
      var window := candles[symbol];
      while |window| > maxCandles
        invariant Evicted(window, maxCandles) == Evicted(old(candles)[symbol], maxCandles)
      {
        window := window - {Least(window.Keys)};
      }
      candles := candles[symbol := window];
    }

    method HandleDuplicate(existing: MarketCandle, incoming: MarketCandle)
      modifies this`conflicts, this`health
      ensures Value() == DuplicateHandled(old(Value()), existing, incoming)
    {
      var differences := Differences(existing.prices, incoming.prices);
      if {existing.source, incoming.source} == {BYBIT_PUBLIC_WS_SOURCE, REST_BACKFILL_SOURCE} {
        if differences != [] {
          var rest := if existing.source == REST_BACKFILL_SOURCE then existing else incoming;
          var ws := if incoming.source == BYBIT_PUBLIC_WS_SOURCE then incoming else existing;
          var conflict := ParityConflict(incoming.symbol, incoming.openTime, rest, ws, differences,
                                         incoming.receivedAt, incoming.connectionEpoch);
          conflicts := Push(conflicts, conflict, maxEvents);
          health := health.(parityConflicts := health.parityConflicts + 1);
        } else {
          health := health.(sourceConfirmations := health.sourceConfirmations + 1);
        }
        return;
      }
      health := health.(duplicates := health.duplicates + 1);
    }

    method RecomputeSymbol(symbol: string, detectedAt: int)
      requires RecomputeContext(Value(), symbol)
      modifies this`active, this`events, this`health, this`states
      ensures Value() == Recomputed(old(Value()), symbol, detectedAt)
    {
      var window := candles[symbol];
      var times := Sorted(window.Keys);
      var prior := PriorGaps(active, symbol);
      KeepUnfilled(symbol, prior, window.Keys);
      if |times| == 1 {
        states := states[symbol := TRACKING];
        return;
      }
      ReportNewHoles(symbol, window, times, prior, detectedAt);
      states := states[symbol := if HasGap(active, symbol) then GAP_DETECTED else CONTIGUOUS];
    }

    /** Drop the symbol's gaps, then restore those with a minute still missing. */
    method KeepUnfilled(symbol: string, prior: Gaps, minutes: set<int>)
      requires prior == PriorGaps(active, symbol)
      modifies this`active
      ensures active == KeptGaps(old(active), symbol, minutes)
    {
      var remaining := prior.Keys;
      while remaining != {}
        invariant remaining <= prior.Keys
        invariant active == old(active) - (prior.Keys - remaining)
        decreases |remaining|
      {
        var id :| id in remaining;
        active := active - {id};
        remaining := remaining - {id};
      }
      remaining := prior.Keys;
      while remaining != {}
        invariant remaining <= prior.Keys
        invariant active == map id | id in old(active) &&
          (id !in prior || (id !in remaining && !IsFilled(old(active)[id], minutes))) :: old(active)[id]
        decreases |remaining|
      {
        var id :| id in remaining;
        if !IsFilled(prior[id], minutes) {
          active := active[id := prior[id]];
        }
        remaining := remaining - {id};
      }
    }

    /** The gap becomes active, and is recorded and counted unless it was before. */
    method Report(gap: GapEvent, prior: Gaps)
      modifies this`active, this`events, this`health
      ensures gap.Identity() !in prior ==> Value() == old(Value()).(
        active := old(active)[gap.Identity() := gap],
        events := Push(old(events), gap, maxEvents),
        health := old(health).(gapsDetected := old(health).gapsDetected + 1))
    {
      active := active[gap.Identity() := gap];
      if gap.Identity() !in prior {
        events := Push(events, gap, maxEvents);
        health := health.(gapsDetected := health.gapsDetected + 1);
      }
    }

    /** The pass over successive times. */
    method ReportNewHoles(symbol: string, window: Minutes, times: seq<int>, prior: Gaps, detectedAt: int)
      requires forall t | t in times :: t in window
      requires forall id | id in prior :: prior[id].Identity() == id
      modifies this`active, this`events, this`health
      ensures HasReported(old(Value()), Value(), NewHoles(symbol, window, times, prior, detectedAt))
    {
      ghost var start := Value();
      ghost var found: seq<GapEvent> := [];
      var i := 1;
      while i < |times|
        invariant 1 <= i
        invariant found == NewHoles(symbol, window, Upto(times, i), prior, detectedAt)
        invariant HasReported(start, Value(), found)
      {
        var previous, current := times[i - 1], times[i];
        NewHolesNext(symbol, window, times, prior, detectedAt, i);
        var distance := current - previous;
        if distance > 1 {
          var gap := HoleGap(symbol, window, previous, current, detectedAt);
          if !ContainedInSome(prior, gap) {
            SameIdentityContains(prior, gap);
            ghost var before := Value();
            Report(gap, prior);
            ReportsOneMore(start, before, Value(), found, gap);
            found := found + [gap];
          }
        }
        i := i + 1;
      }
    }

    method MarkBackfilling(gap: GapEvent)
      requires Valid()
      modifies this`states
      ensures Value() == BackfillingMarked(old(Value()), gap) && Valid()
    {
      MarkedKeepsInv(Value(), gap);
      if gap.Identity() in active {
        states := states[gap.symbol := BACKFILLING];
      }
    }

    method MarkBackfillFailure(gap: GapEvent)
      requires Valid()
      modifies this`states, this`health
      ensures Value() == FailureMarked(old(Value()), gap) && Valid()
    {
      MarkedKeepsInv(Value(), gap);
      states := states[gap.symbol := DEGRADED];
      health := health.(backfillFailures := health.backfillFailures + 1);
    }

    /** `get_candles`: the retained candles in time order. */
    method GetCandles(symbol: string) returns (r: seq<MarketCandle>)
      requires Valid()
      ensures |r| == |Value().Window(Upper(symbol))|
      ensures forall i | 0 <= i < |r| :: IsRetained(Value(), Upper(symbol), r[i])
      ensures forall i, j | 0 <= i < j < |r| :: r[i].openTime < r[j].openTime
    {
      r := InOrder(Value().Window(Upper(symbol)));
      var window := Value().Window(Upper(symbol));
      forall i | 0 <= i < |r| ensures IsRetained(Value(), Upper(symbol), r[i]) && r[i].openTime == Sorted(window.Keys)[i] {
        assert Sorted(window.Keys)[i] in window.Keys;
        RetainedIsKeyed(Value(), Upper(symbol), Sorted(window.Keys)[i]);
      }
    }

    static method InOrder(window: Minutes) returns (r: seq<MarketCandle>)
      ensures |r| == |window|
      ensures forall i | 0 <= i < |r| :: Sorted(window.Keys)[i] in window && r[i] == window[Sorted(window.Keys)[i]]
    {
      var times := Sorted(window.Keys);
      r := [];
      for i := 0 to |times|
        invariant |r| == i
        invariant forall k | 0 <= k < i :: times[k] in window && r[k] == window[times[k]]
      {
        assert times[i] in window.Keys;
        r := r + [window[times[i]]];
      }
    }
  }
}
