/** The closed-candle gap tracker as a value: its state, what one call does to
    it, and the invariant every call keeps. */
module Continuity {
  import opened Text
  import opened MarketData
  import opened SortedInts

  datatype GapState = TRACKING | GAP_DETECTED | BACKFILLING | CONTIGUOUS | DEGRADED | UNINITIALIZED

  datatype GapIdentity = GapIdentity(symbol: string, expectedStart: int, observedNextStart: int)

  datatype GapEvent = GapEvent(
    symbol: string,
    expectedStart: int,
    observedNextStart: int,
    missingCount: int,
    detectedAt: int,
    connectionEpoch: Option<ConnectionEpoch>)
  {
    function Identity(): GapIdentity {
      GapIdentity(symbol, expectedStart, observedNextStart)
    }

    /** A gap the tracker itself can produce. */
    ghost predicate WellFormed() {
      && missingCount == observedNextStart - expectedStart
      && missingCount >= 1
    }

    /** Every missing minute is among the given ones. */
    ghost predicate Filled(minutes: set<int>) {
      forall m | expectedStart <= m < expectedStart + missingCount :: m in minutes
    }
  }

  datatype Field = Open | High | Low | Close | Volume | Turnover

  datatype ParityConflict = ParityConflict(
    symbol: string,
    openTime: int,
    restCandle: MarketCandle,
    wsCandle: MarketCandle,
    fieldDifferences: seq<Field>,
    detectedAt: int,
    connectionEpoch: Option<ConnectionEpoch>)

  datatype GapHealth = GapHealth(
    connectionsObserved: nat,
    gapsDetected: nat,
    gapsBackfilled: nat,
    backfillFailures: nat,
    parityConflicts: nat,
    sourceConfirmations: nat,
    duplicates: nat,
    lateCandles: nat)

  const NO_HEALTH := GapHealth(0, 0, 0, 0, 0, 0, 0, 0)

  type Minutes = map<int, MarketCandle>
  type Gaps = map<GapIdentity, GapEvent>

  datatype Tracker = Tracker(
    maxCandles: nat,
    maxEvents: nat,
    candles: map<string, Minutes>,
    states: map<string, GapState>,
    active: Gaps,
    events: seq<GapEvent>,
    conflicts: seq<ParityConflict>,
    health: GapHealth)
  {
    function Window(symbol: string): Minutes {
      if symbol in candles then candles[symbol] else map[]
    }

    /** `get_symbol_state`, for an already upper-cased symbol. */
    function State(symbol: string): GapState {
      if symbol in states then states[symbol] else UNINITIALIZED
    }
  }

  function Fresh(maxCandles: nat, maxEvents: nat): Tracker {
    Tracker(maxCandles, maxEvents, map[], map[], map[], [], [], NO_HEALTH)
  }

  // ---------------------------------------------------------------- one call

  predicate Contains(existing: GapEvent, candidate: GapEvent) {
    && existing.symbol == candidate.symbol
    && existing.expectedStart <= candidate.expectedStart
    && candidate.observedNextStart <= existing.observedNextStart
  }

  /** Append to a bounded deque. */
  function Push<T>(q: seq<T>, x: T, bound: nat): seq<T> {
    var r := q + [x];
    if |r| > bound then r[|r| - bound..] else r
  }

  predicate IsFilled(gap: GapEvent, minutes: set<int>)
    ensures IsFilled(gap, minutes) <==> gap.Filled(minutes)
  {
    forall m | gap.expectedStart <= m < gap.expectedStart + gap.missingCount :: m in minutes
  }

  function PriorGaps(active: Gaps, symbol: string): Gaps {
    map id | id in active && active[id].symbol == symbol :: active[id]
  }

  /** The gaps that stay: other symbols' gaps, and this symbol's unfilled ones. */
  function KeptGaps(active: Gaps, symbol: string, minutes: set<int>): Gaps {
    map id | id in active && (active[id].symbol != symbol || !IsFilled(active[id], minutes)) :: active[id]
  }

  function HoleGap(symbol: string, w: Minutes, previous: int, current: int, detectedAt: int): GapEvent
    requires current in w
  {
    GapEvent(symbol, previous + 1, current, current - previous - 1, detectedAt, w[current].connectionEpoch)
  }

  predicate ContainedInSome(gaps: Gaps, candidate: GapEvent) {
    exists id | id in gaps :: Contains(gaps[id], candidate)
  }

  /** The holes between successive times that no prior gap contains, in order. */
  function NewHoles(symbol: string, w: Minutes, times: seq<int>, prior: Gaps, detectedAt: int): seq<GapEvent>
    requires forall t | t in times :: t in w
  {
    if |times| < 2 then [] else
      var earlier := NewHoles(symbol, w, times[..|times| - 1], prior, detectedAt);
      var previous, current := times[|times| - 2], times[|times| - 1];
      if current - previous <= 1 then earlier
      else
        var gap := HoleGap(symbol, w, previous, current, detectedAt);
        if ContainedInSome(prior, gap) then earlier else earlier + [gap]
  }

  function AddGaps(active: Gaps, gaps: seq<GapEvent>): Gaps {
    if gaps == [] then active else
      var last := gaps[|gaps| - 1];
      AddGaps(active, gaps[..|gaps| - 1])[last.Identity() := last]
  }

  function PushGaps(events: seq<GapEvent>, gaps: seq<GapEvent>, bound: nat): seq<GapEvent> {
    if gaps == [] then events else
      Push(PushGaps(events, gaps[..|gaps| - 1], bound), gaps[|gaps| - 1], bound)
  }

  predicate HasGap(active: Gaps, symbol: string) {
    exists id | id in active :: active[id].symbol == symbol
  }

  /** `_recompute_symbol` */
  function Recomputed(t: Tracker, symbol: string, detectedAt: int): Tracker
    requires symbol in t.candles
  {
    var w := t.candles[symbol];
    var times := Sorted(w.Keys);
    var kept := KeptGaps(t.active, symbol, w.Keys);
    if |times| == 1 then
      t.(active := kept, states := t.states[symbol := TRACKING])
    else
      var found := NewHoles(symbol, w, times, PriorGaps(t.active, symbol), detectedAt);
      var active := AddGaps(kept, found);
      t.(active := active,
         events := PushGaps(t.events, found, t.maxEvents),
         health := t.health.(gapsDetected := t.health.gapsDetected + |found|),
         states := t.states[symbol := if HasGap(active, symbol) then GAP_DETECTED else CONTIGUOUS])
  }

  function Differences(a: Prices, b: Prices): seq<Field> {
    (if a.open != b.open then [Open] else []) +
    (if a.high != b.high then [High] else []) +
    (if a.low != b.low then [Low] else []) +
    (if a.close != b.close then [Close] else []) +
    (if a.volume != b.volume then [Volume] else []) +
    (if a.turnover != b.turnover then [Turnover] else [])
  }

  /** `_handle_duplicate` */
  function DuplicateHandled(t: Tracker, existing: MarketCandle, incoming: MarketCandle): Tracker {
    var differences := Differences(existing.prices, incoming.prices);
    if {existing.source, incoming.source} == {BYBIT_PUBLIC_WS_SOURCE, REST_BACKFILL_SOURCE} then
      if differences != [] then
        var rest := if existing.source == REST_BACKFILL_SOURCE then existing else incoming;
        var ws := if incoming.source == BYBIT_PUBLIC_WS_SOURCE then incoming else existing;
        t.(conflicts := Push(t.conflicts,
             ParityConflict(incoming.symbol, incoming.openTime, rest, ws, differences,
                            incoming.receivedAt, incoming.connectionEpoch),
             t.maxEvents),
           health := t.health.(parityConflicts := t.health.parityConflicts + 1))
      else
        t.(health := t.health.(sourceConfirmations := t.health.sourceConfirmations + 1))
    else
      t.(health := t.health.(duplicates := t.health.duplicates + 1))
  }

  /** Drop the earliest minutes until at most `bound` remain. */
  function Evicted(w: Minutes, bound: nat): Minutes
    decreases |w|
  {
    if |w| <= bound then w else Evicted(w - {Least(w.Keys)}, bound)
  }

  predicate Accepted(c: MarketCandle) {
    c.confirmed && c.interval == "1"
  }

  /** The call stores a new minute: the candle counts and its minute is not retained. */
  predicate StoresNew(t: Tracker, c: MarketCandle) {
    Accepted(c) && c.openTime !in t.Window(Upper(c.symbol))
  }

  /** The symbol's minutes with the new candle, before the window is trimmed. */
  function Extended(t: Tracker, c: MarketCandle): Minutes {
    t.Window(Upper(c.symbol))[c.openTime := c]
  }

  function Stored(t: Tracker, c: MarketCandle): Tracker {
    var late := exists m | m in t.Window(Upper(c.symbol)).Keys :: c.openTime < m;
    t.(candles := t.candles[Upper(c.symbol) := Extended(t, c)],
       health := t.health.(lateCandles := t.health.lateCandles + if late then 1 else 0))
  }

  /** `observe_closed_candle` for a minute that is not retained: the state just
      before the window is trimmed. */
  function Inserted(t: Tracker, c: MarketCandle): Tracker {
    var after := Recomputed(Stored(t, c), Upper(c.symbol), c.receivedAt);
    if c.source == REST_BACKFILL_SOURCE && t.active.Keys - after.active.Keys != {}
    then after.(health := after.health.(gapsBackfilled := after.health.gapsBackfilled + 1))
    else after
  }

  /** `observe_closed_candle` */
  function Observed(t: Tracker, c: MarketCandle): Tracker {
    var symbol := Upper(c.symbol);
    if !Accepted(c) then t
    else if c.openTime in t.Window(symbol) then DuplicateHandled(t, t.Window(symbol)[c.openTime], c)
    else
      var after := Inserted(t, c);
      after.(candles := after.candles[symbol := Evicted(after.Window(symbol), t.maxCandles)])
  }

  /** `mark_backfilling` */
  function BackfillingMarked(t: Tracker, gap: GapEvent): Tracker {
    if gap.Identity() in t.active then t.(states := t.states[gap.symbol := BACKFILLING]) else t
  }

  /** `mark_backfill_failure` */
  function FailureMarked(t: Tracker, gap: GapEvent): Tracker {
    t.(states := t.states[gap.symbol := DEGRADED],
       health := t.health.(backfillFailures := t.health.backfillFailures + 1))
  }

  // ---------------------------------------------------------------- runs

  datatype Step =
    | ConnectionOpened
    | ClosedCandle(candle: MarketCandle)
    | MarkBackfilling(gap: GapEvent)
    | MarkFailure(gap: GapEvent)

  function Next(t: Tracker, step: Step): Tracker {
    match step
    case ConnectionOpened =>
      t.(health := t.health.(connectionsObserved := t.health.connectionsObserved + 1))
    case ClosedCandle(candle) => Observed(t, candle)
    case MarkBackfilling(gap) => BackfillingMarked(t, gap)
    case MarkFailure(gap) => FailureMarked(t, gap)
  }

  function Run(t: Tracker, steps: seq<Step>): Tracker {
    if steps == [] then t else Next(Run(t, steps[..|steps| - 1]), steps[|steps| - 1])
  }

  // ---------------------------------------------------------------- invariant

  /** Two retained minutes with no retained minute between them. */
  ghost predicate Neighbours(minutes: set<int>, previous: int, current: int) {
    && previous in minutes && current in minutes && previous < current
    && forall m | m in minutes :: m <= previous || current <= m
  }

  ghost predicate Covers(gap: GapEvent, symbol: string, previous: int, current: int) {
    && gap.symbol == symbol
    && gap.expectedStart <= previous + 1
    && current <= gap.observedNextStart
  }

  ghost predicate HasCover(active: Gaps, symbol: string, previous: int, current: int) {
    exists id | id in active :: Covers(active[id], symbol, previous, current)
  }

  /** Each hole between neighbouring retained candles lies inside an active gap. */
  ghost predicate Covered(active: Gaps, symbol: string, minutes: set<int>) {
    forall previous, current | Neighbours(minutes, previous, current) && current - previous > 1 ::
      HasCover(active, symbol, previous, current)
  }

  /** An active gap is one the tracker made, and a minute of it is not retained. */
  ghost predicate GapInv(t: Tracker, id: GapIdentity)
    requires id in t.active
  {
    var gap := t.active[id];
    && gap.Identity() == id
    && gap.WellFormed()
    && gap.symbol in t.candles
    && !gap.Filled(t.candles[gap.symbol].Keys)
  }

  ghost predicate WellKeyed(w: Minutes, symbol: string) {
    forall m | m in w :: w[m].openTime == m && Upper(w[m].symbol) == symbol && Accepted(w[m])
  }

  ghost predicate WindowInv(t: Tracker, symbol: string)
    requires symbol in t.candles
  {
    1 <= |t.candles[symbol]| <= t.maxCandles && WellKeyed(t.candles[symbol], symbol)
  }

  ghost predicate StateInv(t: Tracker, symbol: string) {
    StateFits(t.State(symbol), |t.Window(symbol)|, HasGap(t.active, symbol))
  }

  ghost predicate StateFits(state: GapState, retained: nat, gapped: bool) {
    && (gapped ==> retained > 1)
    && match state
       case UNINITIALIZED => retained == 0
       case TRACKING => retained == 1
       case GAP_DETECTED => gapped
       case BACKFILLING => gapped
       case CONTIGUOUS => retained > 1 && !gapped
       case DEGRADED => true
  }

  ghost predicate GapsInv(t: Tracker) {
    forall id | id in t.active :: GapInv(t, id)
  }

  ghost predicate WindowsInv(t: Tracker) {
    forall symbol | symbol in t.candles :: WindowInv(t, symbol)
  }

  ghost predicate CoverInv(t: Tracker) {
    forall symbol | symbol in t.candles :: Covered(t.active, symbol, t.candles[symbol].Keys)
  }

  ghost predicate StatesInv(t: Tracker) {
    forall symbol :: StateInv(t, symbol)
  }

  ghost predicate Inv(t: Tracker) {
    2 <= t.maxCandles && 1 <= t.maxEvents && GapsInv(t) && WindowsInv(t) && CoverInv(t) && StatesInv(t)
  }
}
