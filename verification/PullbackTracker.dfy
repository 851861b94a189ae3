/** One tracked pump event: pullback, reset after a higher high, and expiry. */
module PullbackTracker {
  import opened MarketData

  const SIGNAL_LIFETIME := 15 * MS_PER_MINUTE
  const KILL_SHARE := 0.35

  datatype EventStatus = IDLE | PUMP_DETECTED | PULLBACK_OBSERVED | SHORT_ZONE_ACTIVE | SIGNAL_SENT | EXPIRED

  datatype EventState = EventState(
    symbol: string,
    eventId: string,
    status: EventStatus,
    startTime: Option<int>,
    high: Option<real>,
    highTime: Option<int>,
    basePrice: Option<real>,
    rangePct: Option<real>,
    triggerWindow: Option<string>,
    pullbackDetectedAt: Option<int>,
    pullbackDepthPct: Option<real>,
    pullbackLowPrice: Option<real>,
    zoneLow: Option<real>,
    zoneHigh: Option<real>,
    signalSentAt: Option<int>,
    signalId: Option<nat>,
    expiresAt: Option<int>,
    updatedAt: Option<int>)

  /** The features this logic reads, and all the others. */
  datatype Features = Features(
    symbol: string,
    asof: int,
    price: real,
    lastHigh: real,
    lastHighTime: Option<int>,
    lastLow: real,
    lastStructuralCloseTime: Option<int>,
    distToVwapPct: real,
    others: map<string, real>)

  datatype Config = Config(
    pullbackMinPct: real,
    pullbackMaxPct: real,
    pullbackHoldVwapMin: real,
    pullbackHoldRangeFloorPct: real,
    signalExpiry: int)

  // ---------------------------------------------------------------- reset

  /** A confirmed higher high resets an event that has no signal yet. */
  predicate CanReset(e: EventState, f: Features) {
    && e.signalId.None? && e.high.Some? && e.basePrice.Some?
    && f.lastHighTime.Some? && f.lastHigh > e.high.value
  }

  /** The reset divides by the base price, which fails for zero. */
  predicate ResetRaises(e: EventState, f: Features) {
    CanReset(e, f) && e.basePrice.value == 0.0
  }

  function RangePct(high: real, base: real): real
    requires base != 0.0
  {
    (high / base - 1.0) * 100.0
  }

  function Reset(e: EventState, f: Features, now: int): EventState
    requires CanReset(e, f) && !ResetRaises(e, f)
  {
    e.(high := Some(f.lastHigh),
       highTime := f.lastHighTime,
       rangePct := Some(RangePct(f.lastHigh, e.basePrice.value)),
       pullbackDetectedAt := None,
       pullbackDepthPct := None,
       pullbackLowPrice := None,
       zoneLow := None,
       zoneHigh := None,
       status := PUMP_DETECTED,
       updatedAt := Some(now))
  }

  // ---------------------------------------------------------------- expiry

  /** The price a given share of the way from the base to the high. */
  function PriceAt(base: real, high: real, share: real): real {
    base + share * (high - base)
  }

  /** `_should_expire` */
  predicate ShouldExpire(e: EventState, f: Features, now: int) {
    || (e.expiresAt.Some? && now >= e.expiresAt.value)
    || (e.high.Some? && e.basePrice.Some?
        && f.price < PriceAt(e.basePrice.value, e.high.value, KILL_SHARE))
  }

  predicate SignalIsOld(e: EventState, now: int) {
    e.signalSentAt.Some? && now >= e.signalSentAt.value + SIGNAL_LIFETIME
  }

  function Expired(e: EventState, now: int): EventState {
    e.(status := EXPIRED, expiresAt := Some(now), updatedAt := Some(now))
  }

  // ---------------------------------------------------------------- pullback

  function PullbackPct(e: EventState, f: Features): real
    requires e.high.Some?
  {
    if e.high.value != 0.0 then (e.high.value - f.price) / e.high.value * 100.0 else 0.0
  }

  function Larger(a: real, b: real): real {
    if a < b then b else a
  }

  function Smaller(a: real, b: real): real {
    if b < a then b else a
  }

  function Measured(e: EventState, f: Features): EventState
    requires e.high.Some?
  {
    var depth := if e.pullbackDepthPct.Some? then e.pullbackDepthPct.value else 0.0;
    e.(pullbackDepthPct := Some(Larger(depth, PullbackPct(e, f))),
       pullbackLowPrice := Some(
         if e.pullbackLowPrice.Some? then Smaller(e.pullbackLowPrice.value, f.lastLow) else f.lastLow))
  }

  predicate PullbackSeen(c: Config, e: EventState, f: Features)
    requires e.high.Some? && e.basePrice.Some?
  {
    && e.pullbackDetectedAt.None?
    && c.pullbackMinPct <= PullbackPct(e, f) <= c.pullbackMaxPct
    && f.distToVwapPct >= c.pullbackHoldVwapMin
    && f.price >= PriceAt(e.basePrice.value, e.high.value, c.pullbackHoldRangeFloorPct)
  }

  function Observed(e: EventState, f: Features, now: int): EventState
    requires e.high.Some?
  {
    e.(status := PULLBACK_OBSERVED,
       pullbackDetectedAt := Some(now),
       pullbackDepthPct := Some(PullbackPct(e, f)),
       pullbackLowPrice := Some(f.lastLow))
  }

  /** `advance` gets as far as the reset, which would divide by a zero base price. */
  predicate AdvanceRaises(e: EventState, f: Features, now: int) {
    !ShouldExpire(e, f, now) && !SignalIsOld(e, now) && ResetRaises(e, f)
  }

  /** `advance` */
  function Advanced(c: Config, e: EventState, f: Features, now: int): EventState
    requires !AdvanceRaises(e, f, now)
  {
    if ShouldExpire(e, f, now) || SignalIsOld(e, now) then Expired(e, now)
    else if e.high.None? || e.basePrice.None? then e.(updatedAt := Some(now))
    else if CanReset(e, f) then Reset(e, f, now)
    else
      var measured := Measured(e.(updatedAt := Some(now)), f);
      if PullbackSeen(c, e, f) then Observed(measured, f, now) else measured
  }

  /** `mark_signal_sent` */
  function Marked(e: EventState, signalId: nat, when: int): EventState {
    e.(status := SIGNAL_SENT, signalId := Some(signalId), signalSentAt := Some(when), updatedAt := Some(when))
  }

  // ---------------------------------------------------------------- what an event keeps

  ghost predicate WellFormed(e: EventState) {
    && (e.status in {PULLBACK_OBSERVED, SHORT_ZONE_ACTIVE, SIGNAL_SENT} ==> e.pullbackDetectedAt.Some?)
    && (e.status == SIGNAL_SENT ==> e.signalId.Some?)
    && (e.signalId.Some? ==> e.status in {SIGNAL_SENT, EXPIRED})
    && (e.signalSentAt.Some? <==> e.signalId.Some?)
  }

  /** What may become of an event before the next one replaces it. */
  ghost predicate Progress(before: EventState, after: EventState) {
    && after.symbol == before.symbol && after.eventId == before.eventId
    && after.basePrice == before.basePrice
    && (before.high.None? <==> after.high.None?)
    && (before.high.Some? ==> after.high.value >= before.high.value)
    && (before.signalId.Some? ==>
          && after.signalId == before.signalId && after.signalSentAt == before.signalSentAt
          && after.high == before.high
          && (after.status == before.status || after.status == EXPIRED))
    && (before.status == EXPIRED ==> after == before)
  }

  lemma ProgressTransitive(a: EventState, b: EventState, c: EventState)
    requires Progress(a, b) && Progress(b, c)
    ensures Progress(a, c)
  {
  }

  /** Advancing a live event keeps its base, never lowers its high, never touches a sent
      signal except to expire it, and expires it once 15 minutes old. */
  lemma AdvanceProgresses(c: Config, e: EventState, f: Features, now: int)
    requires WellFormed(e) && e.status != EXPIRED && !AdvanceRaises(e, f, now)
    ensures WellFormed(Advanced(c, e, f, now)) && Progress(e, Advanced(c, e, f, now))
    ensures SignalIsOld(e, now) ==> Advanced(c, e, f, now).status == EXPIRED
    ensures Advanced(c, e, f, now).signalId == e.signalId
  {
  }

  lemma ResetProgresses(e: EventState, f: Features, now: int)
    requires WellFormed(e) && e.status != EXPIRED && CanReset(e, f) && !ResetRaises(e, f)
    ensures WellFormed(Reset(e, f, now)) && Progress(e, Reset(e, f, now))
    ensures Reset(e, f, now).high.value > e.high.value
    ensures !CanReset(Reset(e, f, now), f)
  {
  }

  lemma PercentBounds(high: real, price: real, low: real, up: real)
    requires high > 0.0 && low <= (high - price) / high * 100.0 <= up
    ensures low * high <= (high - price) * 100.0 <= up * high
  {
    var q := (high - price) / high;
    assert q * high == high - price;
    assert (q * 100.0 - low) * high >= 0.0;
    assert (up - q * 100.0) * high >= 0.0;
  }

  /** A pullback is observed once per event high: on a price that is neither below the
      floor nor below the kill price, with a drop from the high within the bounds. */
  lemma ObservedMeans(c: Config, e: EventState, f: Features, now: int)
    requires !AdvanceRaises(e, f, now)
    requires e.status != PULLBACK_OBSERVED && Advanced(c, e, f, now).status == PULLBACK_OBSERVED
    ensures e.pullbackDetectedAt.None? && Advanced(c, e, f, now).pullbackDetectedAt == Some(now)
    ensures e.high.Some? && e.basePrice.Some?
    ensures f.price >= PriceAt(e.basePrice.value, e.high.value, KILL_SHARE)
    ensures f.price >= PriceAt(e.basePrice.value, e.high.value, c.pullbackHoldRangeFloorPct)
    ensures f.distToVwapPct >= c.pullbackHoldVwapMin
    ensures e.high.value > 0.0 ==>
      c.pullbackMinPct * e.high.value <= (e.high.value - f.price) * 100.0 <= c.pullbackMaxPct * e.high.value
  {
    if e.high.value > 0.0 {
      PercentBounds(e.high.value, f.price, c.pullbackMinPct, c.pullbackMaxPct);
    }
  }

  /** Once observed, the recorded pullback only deepens until a reset or the expiry. */
  lemma PullbackDeepens(c: Config, e: EventState, f: Features, now: int)
    requires !CanReset(e, f) && e.pullbackDetectedAt.Some? && e.high.Some? && e.basePrice.Some?
    requires Advanced(c, e, f, now).status != EXPIRED
    ensures var r := Advanced(c, e, f, now);
      && r.pullbackDetectedAt == e.pullbackDetectedAt && r.status == e.status
      && r.pullbackDepthPct.Some? && r.pullbackDepthPct.value >= PullbackPct(e, f)
      && (e.pullbackDepthPct.Some? ==> r.pullbackDepthPct.value >= e.pullbackDepthPct.value)
      && r.pullbackLowPrice.Some? && r.pullbackLowPrice.value <= f.lastLow
      && (e.pullbackLowPrice.Some? ==> r.pullbackLowPrice.value <= e.pullbackLowPrice.value)
  {
  }

  // ---------------------------------------------------------------- exactly when

  /** The event is over: past its time, below 35 percent of the way from the base to the
      high, or 15 minutes after its signal. */
  ghost predicate Over(e: EventState, f: Features, now: int) {
    || (e.expiresAt.Some? && now >= e.expiresAt.value)
    || (e.high.Some? && e.basePrice.Some? && f.price < e.basePrice.value + 0.35 * (e.high.value - e.basePrice.value))
    || (e.signalSentAt.Some? && now >= e.signalSentAt.value + 900_000)
  }

  /** Advancing expires a live event exactly when it is over, and changes nothing else. */
  lemma ExpiresIff(c: Config, e: EventState, f: Features, now: int)
    requires e.status != EXPIRED && !AdvanceRaises(e, f, now)
    ensures Advanced(c, e, f, now).status == EXPIRED <==> Over(e, f, now)
    ensures Over(e, f, now) ==> Advanced(c, e, f, now) == e.(status := EXPIRED, expiresAt := Some(now), updatedAt := Some(now))
  {
  }

  /** A later confirmed high above the event's, before any signal. */
  ghost predicate HigherHigh(e: EventState, f: Features) {
    && e.signalId.None? && e.high.Some? && e.basePrice.Some?
    && f.lastHighTime.Some? && f.lastHigh > e.high.value
  }

  /** The reset to the new high: its range is measured from the base, and the pullback and
      the zone are forgotten. */
  ghost predicate IsReset(e: EventState, f: Features, now: int, r: EventState) {
    && r.high == Some(f.lastHigh) && r.highTime == f.lastHighTime
    && e.basePrice.Some? && r.rangePct.Some? && r.rangePct.value * e.basePrice.value == (f.lastHigh - e.basePrice.value) * 100.0
    && r == e.(high := r.high, highTime := r.highTime, rangePct := r.rangePct, pullbackDetectedAt := None,
               pullbackDepthPct := None, pullbackLowPrice := None, zoneLow := None, zoneHigh := None,
               status := PUMP_DETECTED, updatedAt := Some(now))
  }

  lemma RangeOf(high: real, base: real)
    requires base != 0.0
    ensures RangePct(high, base) * base == (high - base) * 100.0
  {
    var q := high / base;
    assert q * base == high;
  }

  /** The reset is possible exactly for a higher high, and is the reset to it. */
  lemma ResetMeans(e: EventState, f: Features, now: int)
    ensures CanReset(e, f) <==> HigherHigh(e, f)
    ensures CanReset(e, f) && e.basePrice.value != 0.0 ==> IsReset(e, f, now, Reset(e, f, now))
  {
    if CanReset(e, f) && e.basePrice.value != 0.0 {
      RangeOf(f.lastHigh, e.basePrice.value);
    }
  }

  /** An event that is not over: an incomplete one is only touched, and one with a higher
      high is reset. */
  lemma AdvanceResets(c: Config, e: EventState, f: Features, now: int)
    requires !Over(e, f, now) && !AdvanceRaises(e, f, now)
    ensures e.high.None? || e.basePrice.None? ==> Advanced(c, e, f, now) == e.(updatedAt := Some(now))
    ensures HigherHigh(e, f) ==> IsReset(e, f, now, Advanced(c, e, f, now))
  {
    ResetMeans(e, f, now);
  }

  /** The drop from the high to the price, in percent of the high. */
  ghost predicate IsDrop(high: real, price: real, drop: real) {
    if high == 0.0 then drop == 0.0 else drop * high == (high - price) * 100.0
  }

  lemma DropIs(e: EventState, f: Features, drop: real)
    requires e.high.Some? && IsDrop(e.high.value, f.price, drop)
    ensures PullbackPct(e, f) == drop
  {
    if e.high.value != 0.0 {
      SameQuotient(e.high.value, (e.high.value - f.price), drop);
    }
  }

  lemma SameQuotient(high: real, fall: real, drop: real)
    requires high != 0.0 && drop * high == fall * 100.0
    ensures fall / high * 100.0 == drop
  {
    var q := fall / high;
    assert q * high == fall;
    assert (q * 100.0 - drop) * high == 0.0;
  }

  /** The conditions of a pullback: none was observed, the drop is within the bounds, and
      the price holds above the volume-weighted average and the floor. */
  ghost predicate HoldsPullback(c: Config, e: EventState, f: Features, drop: real) {
    && e.pullbackDetectedAt.None? && e.high.Some? && e.basePrice.Some?
    && c.pullbackMinPct <= drop <= c.pullbackMaxPct
    && f.distToVwapPct >= c.pullbackHoldVwapMin
    && f.price >= e.basePrice.value + c.pullbackHoldRangeFloorPct * (e.high.value - e.basePrice.value)
  }

  /** An event that is not over and has no higher high becomes PULLBACK_OBSERVED exactly
      when a pullback holds; then the drop and the last low are recorded. Otherwise the
      deepest drop and the lowest low so far are, and the status stays. */
  lemma ObservedIff(c: Config, e: EventState, f: Features, now: int, drop: real)
    requires !Over(e, f, now) && !HigherHigh(e, f) && e.high.Some? && e.basePrice.Some?
    requires IsDrop(e.high.value, f.price, drop)
    ensures var r := Advanced(c, e, f, now);
      if HoldsPullback(c, e, f, drop) then
        r == e.(status := PULLBACK_OBSERVED, pullbackDetectedAt := Some(now), pullbackDepthPct := Some(drop),
                pullbackLowPrice := Some(f.lastLow), updatedAt := Some(now))
      else
        && r.pullbackDepthPct.Some? && r.pullbackLowPrice.Some?
        && r == e.(pullbackDepthPct := r.pullbackDepthPct, pullbackLowPrice := r.pullbackLowPrice, updatedAt := Some(now))
        && IsLarger(r.pullbackDepthPct.value, if e.pullbackDepthPct.Some? then e.pullbackDepthPct.value else 0.0, drop)
        && IsSmaller(r.pullbackLowPrice.value, if e.pullbackLowPrice.Some? then e.pullbackLowPrice.value else f.lastLow, f.lastLow)
    ensures e.status != PULLBACK_OBSERVED ==>
      (Advanced(c, e, f, now).status == PULLBACK_OBSERVED <==> HoldsPullback(c, e, f, drop))
  {
    DropIs(e, f, drop);
    DropIs(e.(updatedAt := Some(now)), f, drop);
    ResetMeans(e, f, now);
  }

  ghost predicate IsLarger(m: real, a: real, b: real) {
    m >= a && m >= b && (m == a || m == b)
  }

  ghost predicate IsSmaller(m: real, a: real, b: real) {
    m <= a && m <= b && (m == a || m == b)
  }

  /** The mark sets the signal, its time and the status, and nothing else. */
  lemma MarkMeans(e: EventState, id: nat, when: int)
    ensures var r := Marked(e, id, when);
      && r.status == SIGNAL_SENT && r.signalId == Some(id) && r.signalSentAt == Some(when) && r.updatedAt == Some(when)
      && r == e.(status := r.status, signalId := r.signalId, signalSentAt := r.signalSentAt, updatedAt := r.updatedAt)
  {
  }

  // ---------------------------------------------------------------- the objects

  /** The event record that the tracker updates in place. */
  class EventRecord {
    var symbol: string
    var eventId: string
    var status: EventStatus
    var startTime: Option<int>
    var high: Option<real>
    var highTime: Option<int>
    var basePrice: Option<real>
    var rangePct: Option<real>
    var triggerWindow: Option<string>
    var pullbackDetectedAt: Option<int>
    var pullbackDepthPct: Option<real>
    var pullbackLowPrice: Option<real>
    var zoneLow: Option<real>
    var zoneHigh: Option<real>
    var signalSentAt: Option<int>
    var signalId: Option<nat>
    var expiresAt: Option<int>
    var updatedAt: Option<int>

    function Value(): EventState
      reads this
    {
      EventState(symbol, eventId, status, startTime, high, highTime, basePrice, rangePct, triggerWindow,
                 pullbackDetectedAt, pullbackDepthPct, pullbackLowPrice, zoneLow, zoneHigh,
                 signalSentAt, signalId, expiresAt, updatedAt)
    }

    /** A deep copy of the state. */
    constructor (e: EventState)
      ensures Value() == e
    {
      symbol, eventId, status, startTime := e.symbol, e.eventId, e.status, e.startTime;
      high, highTime, basePrice, rangePct := e.high, e.highTime, e.basePrice, e.rangePct;
      triggerWindow := e.triggerWindow;
      pullbackDetectedAt, pullbackDepthPct := e.pullbackDetectedAt, e.pullbackDepthPct;
      pullbackLowPrice, zoneLow, zoneHigh := e.pullbackLowPrice, e.zoneLow, e.zoneHigh;
      signalSentAt, signalId := e.signalSentAt, e.signalId;
      expiresAt, updatedAt := e.expiresAt, e.updatedAt;
    }
  }

  class Tracker {
    const config: Config

    constructor (config: Config)
      ensures this.config == config
    {
      this.config := config;
    }

    /** `reset_after_confirmed_high` */
    method ResetAfterConfirmedHigh(state: EventRecord, f: Features, now: int) returns (reset: bool)
      requires !ResetRaises(state.Value(), f)
      modifies state
      ensures reset == CanReset(old(state.Value()), f)
      ensures state.Value() == if reset then Reset(old(state.Value()), f, now) else old(state.Value())
    {
      if state.signalId.Some? || state.high.None? || state.basePrice.None?
         || f.lastHighTime.None? || f.lastHigh <= state.high.value {
        return false;
      }
      Raise(state, f);
      ForgetPullback(state);
      state.status := PUMP_DETECTED;
      state.updatedAt := Some(now);
      return true;
    }

    method Raise(state: EventRecord, f: Features)
      requires state.basePrice.Some? && state.basePrice.value != 0.0
      modifies state`high, state`highTime, state`rangePct
      ensures state.Value() == old(state.Value()).(high := Some(f.lastHigh), highTime := f.lastHighTime,
        rangePct := Some(RangePct(f.lastHigh, state.basePrice.value)))
    {
      state.high := Some(f.lastHigh);
      state.highTime := f.lastHighTime;
      state.rangePct := Some(RangePct(f.lastHigh, state.basePrice.value));
    }

    method ForgetPullback(state: EventRecord)
      modifies state`pullbackDetectedAt, state`pullbackDepthPct, state`pullbackLowPrice, state`zoneLow, state`zoneHigh
      ensures state.Value() == old(state.Value()).(pullbackDetectedAt := None, pullbackDepthPct := None,
        pullbackLowPrice := None, zoneLow := None, zoneHigh := None)
    {
      state.pullbackDetectedAt := None;
      state.pullbackDepthPct := None;
      state.pullbackLowPrice := None;
      state.zoneLow := None;
      state.zoneHigh := None;
    }

    method Expire(state: EventRecord, now: int)
      requires state.updatedAt == Some(now)
      modifies state`status, state`expiresAt
      ensures state.Value() == Expired(old(state.Value()), now)
    {
      state.status := EXPIRED;
      state.expiresAt := Some(now);
    }

    method Measure(state: EventRecord, f: Features)
      requires state.high.Some?
      modifies state`pullbackDepthPct, state`pullbackLowPrice
      ensures state.Value() == Measured(old(state.Value()), f)
    {
      var pullback := PullbackPct(state.Value(), f);
      var depth := if state.pullbackDepthPct.Some? then state.pullbackDepthPct.value else 0.0;
      state.pullbackDepthPct := Some(Larger(depth, pullback));
      state.pullbackLowPrice := Some(
        if state.pullbackLowPrice.Some? then Smaller(state.pullbackLowPrice.value, f.lastLow) else f.lastLow);
    }

    method Observe(state: EventRecord, f: Features, now: int)
      requires state.high.Some?
      modifies state`status, state`pullbackDetectedAt, state`pullbackDepthPct, state`pullbackLowPrice
      ensures state.Value() == Observed(old(state.Value()), f, now)
    {
      var pullback := PullbackPct(state.Value(), f);
      state.status := PULLBACK_OBSERVED;
      state.pullbackDetectedAt := Some(now);
      state.pullbackDepthPct := Some(pullback);
      state.pullbackLowPrice := Some(f.lastLow);
    }

    /** `advance` */
    method Advance(state: EventRecord, f: Features, now: int)
      requires !AdvanceRaises(state.Value(), f, now)
      modifies state
      ensures state.Value() == Advanced(config, old(state.Value()), f, now)
    {
      state.updatedAt := Some(now);
      if ShouldExpire(state.Value(), f, now) {
        Expire(state, now);
        return;
      }
      if state.signalSentAt.Some? && now >= state.signalSentAt.value + SIGNAL_LIFETIME {
        Expire(state, now);
        return;
      }
      if state.high.None? || state.basePrice.None? {
        return;
      }
      var reset := ResetAfterConfirmedHigh(state, f, now);
      if reset {
        return;
      }
      var seen := PullbackSeen(config, state.Value(), f);
      Measure(state, f);
      if seen {
        Observe(state, f, now);
      }
    }

    /** `mark_signal_sent` */
    method MarkSignalSent(state: EventRecord, signalId: nat, when: int)
      modifies state
      ensures state.Value() == Marked(old(state.Value()), signalId, when)
    {
      state.status := SIGNAL_SENT;
      state.signalId := Some(signalId);
      state.signalSentAt := Some(when);
      state.updatedAt := Some(when);
    }
  }
}
