/** What a candle of an already retained minute does: it is counted once, as a
    conflict, a confirmation or a duplicate, and changes nothing else. */
module ContinuityRepeats {
  import opened Text
  import opened MarketData
  import opened Continuity

  /** The candle counts and its minute is retained. */
  predicate Repeats(t: Tracker, c: MarketCandle) {
    Accepted(c) && c.openTime in t.Window(Upper(c.symbol))
  }

  function Existing(t: Tracker, c: MarketCandle): MarketCandle
    requires Repeats(t, c)
  {
    t.Window(Upper(c.symbol))[c.openTime]
  }

  /** One of the two came over the WebSocket and the other from a REST backfill. */
  predicate CrossSource(a: MarketCandle, b: MarketCandle) {
    || (a.source == BYBIT_PUBLIC_WS_SOURCE && b.source == REST_BACKFILL_SOURCE)
    || (a.source == REST_BACKFILL_SOURCE && b.source == BYBIT_PUBLIC_WS_SOURCE)
  }

  function Value(p: Prices, field: Field): real {
    match field
    case Open => p.open
    case High => p.high
    case Low => p.low
    case Close => p.close
    case Volume => p.volume
    case Turnover => p.turnover
  }

  lemma DifferencesAre(a: Prices, b: Prices, field: Field)
    ensures field in Differences(a, b) <==> Value(a, field) != Value(b, field)
    ensures Differences(a, b) == [] <==> a == b
    ensures Differences(a, b) == Differences(b, a)
  {
    var d := Differences(a, b);
    if a.open != b.open {
      assert d[0] == Open;
    }
  }

  /** Nothing but the conflicts and the three repeat counters differs. */
  ghost predicate OnlyCounted(t: Tracker, r: Tracker) {
    r == t.(conflicts := r.conflicts,
            health := t.health.(parityConflicts := r.health.parityConflicts,
                                sourceConfirmations := r.health.sourceConfirmations,
                                duplicates := r.health.duplicates))
  }

  function Counted(h: GapHealth): nat {
    h.parityConflicts + h.sourceConfirmations + h.duplicates
  }

  /** A repeated minute changes no candle, gap, event or state. Exactly one counter
      grows, by one: the conflicts for two sources that disagree, the confirmations for
      two that agree, and the duplicates for anything else. */
  lemma RepeatIsCountedOnce(t: Tracker, c: MarketCandle)
    requires Repeats(t, c)
    ensures var r := Observed(t, c);
      && OnlyCounted(t, r) && Counted(r.health) == Counted(t.health) + 1
      && r.health.parityConflicts == t.health.parityConflicts
           + (if CrossSource(Existing(t, c), c) && Existing(t, c).prices != c.prices then 1 else 0)
      && r.health.sourceConfirmations == t.health.sourceConfirmations
           + (if CrossSource(Existing(t, c), c) && Existing(t, c).prices == c.prices then 1 else 0)
      && (r.health.parityConflicts == t.health.parityConflicts ==> r.conflicts == t.conflicts)
  {
    DifferencesAre(Existing(t, c).prices, c.prices, Open);
  }

  /** The conflict holds the REST candle, the WebSocket candle, which are the two that
      met, and the fields in which they differ. */
  ghost predicate ConflictIs(conflict: ParityConflict, existing: MarketCandle, incoming: MarketCandle) {
    && conflict.symbol == incoming.symbol && conflict.openTime == incoming.openTime
    && conflict.detectedAt == incoming.receivedAt && conflict.connectionEpoch == incoming.connectionEpoch
    && conflict.restCandle.source == REST_BACKFILL_SOURCE && conflict.wsCandle.source == BYBIT_PUBLIC_WS_SOURCE
    && ((conflict.restCandle == existing && conflict.wsCandle == incoming)
        || (conflict.restCandle == incoming && conflict.wsCandle == existing))
    && (forall field :: field in conflict.fieldDifferences <==>
          Value(conflict.restCandle.prices, field) != Value(conflict.wsCandle.prices, field))
  }

  lemma PushIs<T>(q: seq<T>, x: T, bound: nat)
    requires 1 <= bound
    ensures Push(q, x, bound) != [] && Push(q, x, bound)[|Push(q, x, bound)| - 1] == x
    ensures |q| <= bound ==> |Push(q, x, bound)| <= bound
  {
  }

  function ConflictOf(e: MarketCandle, c: MarketCandle): ParityConflict {
    var rest := if e.source == REST_BACKFILL_SOURCE then e else c;
    var ws := if c.source == BYBIT_PUBLIC_WS_SOURCE then c else e;
    ParityConflict(c.symbol, c.openTime, rest, ws, Differences(e.prices, c.prices), c.receivedAt, c.connectionEpoch)
  }

  lemma ConflictOfIs(e: MarketCandle, c: MarketCandle)
    requires CrossSource(e, c)
    ensures ConflictIs(ConflictOf(e, c), e, c)
  {
    var conflict := ConflictOf(e, c);
    forall field
      ensures field in conflict.fieldDifferences <==>
        Value(conflict.restCandle.prices, field) != Value(conflict.wsCandle.prices, field)
    {
      DifferencesAre(e.prices, c.prices, field);
    }
  }

  lemma ConflictIsPushed(t: Tracker, e: MarketCandle, c: MarketCandle)
    requires CrossSource(e, c) && e.prices != c.prices
    ensures DuplicateHandled(t, e, c).conflicts == Push(t.conflicts, ConflictOf(e, c), t.maxEvents)
  {
    DifferencesAre(e.prices, c.prices, Open);
  }

  /** Two sources that disagree: the conflict is recorded as the newest one. */
  lemma ConflictIsRecorded(t: Tracker, c: MarketCandle)
    requires Repeats(t, c) && 1 <= t.maxEvents
    requires CrossSource(Existing(t, c), c) && Existing(t, c).prices != c.prices
    ensures var conflicts := Observed(t, c).conflicts;
      conflicts != [] && ConflictIs(conflicts[|conflicts| - 1], Existing(t, c), c)
  {
    ConflictIsPushed(t, Existing(t, c), c);
    ConflictOfIs(Existing(t, c), c);
    PushIs(t.conflicts, ConflictOf(Existing(t, c), c), t.maxEvents);
  }

  /** How many candles of a run repeated a minute retained at the time. */
  function RepeatCount(start: Tracker, steps: seq<Step>): nat {
    if steps == [] then 0 else
      var init, last := steps[..|steps| - 1], steps[|steps| - 1];
      RepeatCount(start, init) + if last.ClosedCandle? && Repeats(Run(start, init), last.candle) then 1 else 0
  }

  lemma StepCounts(t: Tracker, step: Step)
    ensures Counted(Next(t, step).health) == Counted(t.health) +
      if step.ClosedCandle? && Repeats(t, step.candle) then 1 else 0
  {
    if step.ClosedCandle? && Repeats(t, step.candle) {
      RepeatIsCountedOnce(t, step.candle);
    }
  }

  /** Over any run the three counters together are the number of repeated minutes. */
  lemma {:induction false} RepeatsBalance(maxCandles: nat, maxEvents: nat, steps: seq<Step>)
    ensures Counted(Run(Fresh(maxCandles, maxEvents), steps).health) == RepeatCount(Fresh(maxCandles, maxEvents), steps)
  {
    if steps != [] {
      var init := steps[..|steps| - 1];
      RepeatsBalance(maxCandles, maxEvents, init);
      StepCounts(Run(Fresh(maxCandles, maxEvents), init), steps[|steps| - 1]);
    }
  }
}
