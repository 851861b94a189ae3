/** The event lifecycle around the pullback tracker. Feature building, pump detection,
    zone building and the evaluator are function values; none of them reads a signal id. */
module Lifecycle {
  import opened MarketData
  import opened PullbackTracker

  datatype Kind = CLOSED_CANDLE | PARTIAL_ASOF_CANDLE

  /** Candle input: a frame with its time column, if it has one (in milliseconds), or
      something that is not a frame. */
  datatype Candles = NoFrame | Frame(stamps: Option<seq<int>>, rows: seq<seq<real>>)

  type Context = map<string, real>

  datatype Opportunity = Opportunity(
    symbol: string,
    decisionTime: int,
    candles: Candles,
    kind: Kind,
    derivatives: Option<Context>,
    liquidity: Option<Context>,
    sequence: int,
    trigger: string,
    flags: seq<string>)

  datatype Pump = Pump(
    eventId: string, startTime: int, high: real, highTime: int, basePrice: real, triggerWindow: string)

  datatype Zone = Zone(low: real, high: real, mode: string)

  datatype StrategyInput = StrategyInput(state: EventState, features: Features, zone: Zone, decisionTime: int)

  datatype Decision = Decision(actionable: bool, score: int, grade: string, signalType: string)

  datatype Evaluation = Evaluation(checked: bool, decision: Option<Decision>)
  {
    predicate Actionable() {
      decision.Some? && decision.value.actionable
    }
  }

  datatype Strategy = Strategy(
    validate: Opportunity -> bool,
    availability: Opportunity -> Option<int>,
    build: (string, Candles, Option<EventState>, Option<Context>, Option<Context>, int) -> Features,
    pump: (string, Candles, Features, int) -> Option<Pump>,
    zone: (EventState, Features) -> Option<Zone>,
    evaluate: StrategyInput -> Evaluation)

  /** The evaluator's contract: no decision outside the two set-up states. */
  ghost predicate DecidesInSetupOnly(s: Strategy) {
    forall item :: s.evaluate(item).decision.Some? ==> item.state.status in {PULLBACK_OBSERVED, SHORT_ZONE_ACTIVE}
  }

  datatype TransitionRecord = TransitionRecord(
    symbol: string,
    eventId: string,
    time: int,
    fromState: EventStatus,
    toState: EventStatus,
    trigger: string,
    sourceTime: Option<int>,
    reason: Option<string>,
    sequence: nat)

  const EVENT_CREATED := "EVENT_CREATED"
  const NEW_HIGH_RESET := "NEW_HIGH_RESET"
  const STATE_ADVANCE := "STATE_ADVANCE"
  const ZONE_ENTERED := "ZONE_ENTERED"
  const SIGNAL_MARKED := "SIGNAL_MARKED"

  datatype LifecycleResult = LifecycleResult(
    state: Option<EventState>,
    item: Option<StrategyInput>,
    transitions: seq<TransitionRecord>,
    availability: Option<int>)

  /** The state without the number of its signal. */
  function Unmarked(e: EventState): EventState {
    e.(signalId := if e.signalId.Some? then Some(0) else None)
  }

  function Transition(e: EventState, fromState: EventStatus, trigger: string, now: int,
                      sourceTime: Option<int>, reason: Option<string>, sequence: nat): TransitionRecord
  {
    TransitionRecord(e.symbol, e.eventId, now, fromState, e.status, trigger, sourceTime, reason, sequence)
  }

  // ---------------------------------------------------------------- detection

  /** The state `build_event` makes of a qualifying pump. */
  function NewEvent(c: Config, symbol: string, p: Pump, now: int): EventState {
    EventState(symbol, p.eventId, PUMP_DETECTED, Some(p.startTime), Some(p.high), Some(p.highTime), Some(p.basePrice),
      Some(if p.basePrice > 0.0 then RangePct(p.high, p.basePrice) else 0.0), Some(p.triggerWindow),
      None, None, None, None, None, None, None, Some(now + c.signalExpiry), Some(now))
  }

  /** `detect_event` */
  function Detected(c: Config, s: Strategy, o: Opportunity, features: Option<Features>): LifecycleResult {
    var now := o.decisionTime;
    var current := if features.Some? then features.value else s.build(o.symbol, o.candles, None, None, None, now);
    match s.pump(o.symbol, o.candles, current, now)
    case None => LifecycleResult(None, None, [], s.availability(o))
    case Some(p) =>
      var e := NewEvent(c, o.symbol, p, now);
      LifecycleResult(Some(e), None,
        [Transition(e, IDLE, EVENT_CREATED, now, e.highTime, e.triggerWindow, 0)], s.availability(o))
  }

  // ---------------------------------------------------------------- advance

  function ResetResult(e: EventState, f: Features, now: int, availability: Option<int>): LifecycleResult
    requires CanReset(e, f) && !ResetRaises(e, f)
  {
    var w := Reset(e, f, now);
    LifecycleResult(Some(w), None,
      [Transition(w, e.status, NEW_HIGH_RESET, now, f.lastHighTime, Some("confirmed higher 1m high"), 0)], availability)
  }

  function AdvanceRecords(before: EventState, w: EventState, f: Features, now: int): seq<TransitionRecord> {
    if w.status != before.status
    then [Transition(w, before.status, STATE_ADVANCE, now, f.lastStructuralCloseTime, None, 0)]
    else []
  }

  /** The part of the core after the zone was built. */
  function Zoned(w: EventState, zone: Zone, final: Features, now: int, records: seq<TransitionRecord>,
                 availability: Option<int>): LifecycleResult
  {
    var zoned := w.(zoneLow := Some(zone.low), zoneHigh := Some(zone.high));
    if zone.low <= final.price <= zone.high && zoned.status == PULLBACK_OBSERVED then
      var entered := zoned.(status := SHORT_ZONE_ACTIVE, updatedAt := Some(now));
      LifecycleResult(Some(entered), Some(StrategyInput(Unmarked(entered), final, zone, now)),
        records + [Transition(entered, PULLBACK_OBSERVED, ZONE_ENTERED, now, final.lastStructuralCloseTime, None, |records|)],
        availability)
    else
      LifecycleResult(Some(zoned), Some(StrategyInput(Unmarked(zoned), final, zone, now)), records, availability)
  }

  /** What a core step reads besides the state. */
  datatype Moment = Moment(
    symbol: string,
    now: int,
    current: Features,
    derivatives: Option<Context>,
    liquidity: Option<Context>,
    availability: Option<int>,
    candles: Option<Candles>)

  function FinalFeatures(s: Strategy, m: Moment, w: EventState, zone: Zone): Features {
    if m.candles.None? then m.current else
      s.build(m.symbol, m.candles.value,
        Some(Unmarked(w.(zoneLow := Some(zone.low), zoneHigh := Some(zone.high)))), m.derivatives, m.liquidity, m.now)
  }

  /** `_advance_active_event_core`; None where it raises. */
  function Core(c: Config, s: Strategy, e: EventState, m: Moment): Option<LifecycleResult> {
    if ResetRaises(e, m.current) then None
    else if CanReset(e, m.current) then Some(ResetResult(e, m.current, m.now, m.availability))
    else
      var w := Advanced(c, e, m.current, m.now);
      var records := AdvanceRecords(e, w, m.current, m.now);
      if w.status == EXPIRED || w.status == PUMP_DETECTED then
        Some(LifecycleResult(Some(w), None, records, m.availability))
      else
        match s.zone(Unmarked(w), m.current)
        case None => Some(LifecycleResult(Some(w), None, records, m.availability))
        case Some(zone) => Some(Zoned(w, zone, FinalFeatures(s, m, w, zone), m.now, records, m.availability))
  }

  /** What the driver passes for a tracked event. */
  function MomentOf(s: Strategy, e: EventState, o: Opportunity, features: Option<Features>): Moment {
    var now := o.decisionTime;
    if features.Some? && o.candles.NoFrame? then
      Moment(features.value.symbol, now, features.value, o.derivatives, o.liquidity, None, None)
    else
      var current := if features.Some? then features.value
        else s.build(o.symbol, o.candles, Some(Unmarked(e)), o.derivatives, None, now);
      Moment(o.symbol, now, current, o.derivatives, o.liquidity, s.availability(o), Some(o.candles))
  }

  predicate Tracked(prior: Option<EventState>) {
    prior.Some? && prior.value.status !in {IDLE, EXPIRED}
  }

  /** The lifecycle call the driver makes for an opportunity. */
  function Called(c: Config, s: Strategy, prior: Option<EventState>, o: Opportunity, features: Option<Features>):
    Option<LifecycleResult>
  {
    if Tracked(prior) then Core(c, s, prior.value, MomentOf(s, prior.value, o, features))
    else Some(Detected(c, s, o, features))
  }

  // ---------------------------------------------------------------- what one call keeps

  /** Every record of the call is of this event and time, and none of them creates or
      marks an event. */
  ghost predicate PlainRecords(records: seq<TransitionRecord>, e: EventState, now: int) {
    forall i | 0 <= i < |records| ::
      && records[i].symbol == e.symbol && records[i].eventId == e.eventId && records[i].time == now
      && records[i].trigger in {NEW_HIGH_RESET, STATE_ADVANCE, ZONE_ENTERED}
  }

  lemma CoreProgresses(c: Config, s: Strategy, e: EventState, m: Moment)
    requires WellFormed(e) && e.status !in {IDLE, EXPIRED}
    requires Core(c, s, e, m).Some?
    ensures var r := Core(c, s, e, m).value;
      && r.state.Some? && WellFormed(r.state.value) && Progress(e, r.state.value)
      && r.state.value.signalId == e.signalId
      && PlainRecords(r.transitions, e, m.now)
      && (SignalIsOld(e, m.now) ==> r.state.value.status == EXPIRED)
      && (r.item.Some? ==> r.item.value.state == Unmarked(r.state.value) && r.item.value.decisionTime == m.now)
  {
    if CanReset(e, m.current) {
      ResetProgresses(e, m.current, m.now);
    } else {
      AdvanceProgresses(c, e, m.current, m.now);
    }
  }

  /** The core does not depend on the number of the signal. */
  lemma CoreIsBlind(c: Config, s: Strategy, a: EventState, b: EventState, m: Moment)
    requires Unmarked(a) == Unmarked(b)
    ensures Core(c, s, a, m).Some? <==> Core(c, s, b, m).Some?
    ensures Core(c, s, a, m).Some? ==> Alike(Core(c, s, a, m).value, Core(c, s, b, m).value)
  {
    AdvanceIsBlind(c, a, b, m.current, m.now);
  }

  ghost predicate Alike(a: LifecycleResult, b: LifecycleResult) {
    && a.transitions == b.transitions && a.item == b.item && a.availability == b.availability
    && (a.state.Some? <==> b.state.Some?)
    && (a.state.Some? ==> Unmarked(a.state.value) == Unmarked(b.state.value))
  }

  lemma AdvanceIsBlind(c: Config, a: EventState, b: EventState, f: Features, now: int)
    requires Unmarked(a) == Unmarked(b)
    ensures CanReset(a, f) == CanReset(b, f) && ResetRaises(a, f) == ResetRaises(b, f)
    ensures CanReset(a, f) && !ResetRaises(a, f) ==> Unmarked(Reset(a, f, now)) == Unmarked(Reset(b, f, now))
    ensures !ResetRaises(a, f) ==> Unmarked(Advanced(c, a, f, now)) == Unmarked(Advanced(c, b, f, now))
  {
    assert b == a.(signalId := b.signalId);
    if !ResetRaises(a, f) {
      Renumbered(c, a, b.signalId, f, now);
    }
  }

  lemma Renumbered(c: Config, a: EventState, id: Option<nat>, f: Features, now: int)
    requires !ResetRaises(a, f) && a.signalId.Some? == id.Some?
    ensures !ResetRaises(a.(signalId := id), f)
    ensures Advanced(c, a.(signalId := id), f, now) == Advanced(c, a, f, now).(signalId := id)
    ensures CanReset(a, f) ==> Reset(a.(signalId := id), f, now) == Reset(a, f, now).(signalId := id)
    ensures Advanced(c, a, f, now).signalId == a.signalId
  {
    var b := a.(signalId := id);
    assert ShouldExpire(b, f, now) == ShouldExpire(a, f, now) && SignalIsOld(b, now) == SignalIsOld(a, now);
    if a.high.Some? && a.basePrice.Some? {
      MeasureRenumbered(c, a.(updatedAt := Some(now)), b.(updatedAt := Some(now)), id, f, now);
    }
  }

  lemma MeasureRenumbered(c: Config, a: EventState, b: EventState, id: Option<nat>, f: Features, now: int)
    requires b == a.(signalId := id) && a.high.Some? && a.basePrice.Some?
    ensures Measured(b, f) == Measured(a, f).(signalId := id)
    ensures PullbackSeen(c, b, f) == PullbackSeen(c, a, f)
    ensures Observed(Measured(b, f), f, now) == Observed(Measured(a, f), f, now).(signalId := id)
  {
  }

  // ---------------------------------------------------------------- the object

  class BaselineLifecycle {
    const config: Config
    const strategy: Strategy
    const tracker: Tracker

    constructor (config: Config, strategy: Strategy)
      ensures this.config == config && this.strategy == strategy && tracker.config == config
    {
      this.config, this.strategy := config, strategy;
      tracker := new Tracker(config);
    }

    /** `_advance_active_event_core`: works on a deep copy, which it returns. */
    method AdvanceCore(state: EventState, m: Moment) returns (r: Option<LifecycleResult>, working: EventRecord)
      requires tracker.config == config
      ensures r == Core(config, strategy, state, m)
      ensures fresh(working) && (r.Some? ==> r.value.state == Some(working.Value()))
    {
      working := new EventRecord(state);
      if ResetRaises(state, m.current) {
        return None, working;
      }
      var reset := tracker.ResetAfterConfirmedHigh(working, m.current, m.now);
      if reset {
        r := Some(ResetResult(state, m.current, m.now, m.availability));
        return;
      }
      tracker.Advance(working, m.current, m.now);
      var records := AdvanceRecords(state, working.Value(), m.current, m.now);
      if working.status == EXPIRED || working.status == PUMP_DETECTED {
        r := Some(LifecycleResult(Some(working.Value()), None, records, m.availability));
        return;
      }
      var zone := strategy.zone(Unmarked(working.Value()), m.current);
      if zone.None? {
        r := Some(LifecycleResult(Some(working.Value()), None, records, m.availability));
        return;
      }
      var final := FinalFeatures(strategy, m, working.Value(), zone.value);
      ghost var advanced := working.Value();
      records := EnterZone(working, zone.value, final, m.now, records);
      var item := StrategyInput(Unmarked(working.Value()), final, zone.value, m.now);
      assert Zoned(advanced, zone.value, final, m.now, AdvanceRecords(state, advanced, m.current, m.now), m.availability)
        == LifecycleResult(Some(working.Value()), Some(item), records, m.availability);
      r := Some(LifecycleResult(Some(working.Value()), Some(item), records, m.availability));
    }

    /** The tail of the core: the zone is set, and entered when the price is in it. */
    method EnterZone(working: EventRecord, zone: Zone, final: Features, now: int, earlier: seq<TransitionRecord>)
      returns (records: seq<TransitionRecord>)
      modifies working
      ensures records == Zoned(old(working.Value()), zone, final, now, earlier, None).transitions
      ensures Some(working.Value()) == Zoned(old(working.Value()), zone, final, now, earlier, None).state
      ensures working.zoneLow == Some(zone.low) && working.zoneHigh == Some(zone.high)
      ensures working.status ==
        if old(working.status) == PULLBACK_OBSERVED && zone.low <= final.price && final.price <= zone.high
        then SHORT_ZONE_ACTIVE else old(working.status)
      ensures |records| == |earlier| + (if working.status == old(working.status) then 0 else 1) && earlier <= records
    {
      working.zoneLow := Some(zone.low);
      working.zoneHigh := Some(zone.high);
      records := earlier;
      if zone.low <= final.price <= zone.high && working.status == PULLBACK_OBSERVED {
        working.status := SHORT_ZONE_ACTIVE;
        working.updatedAt := Some(now);
        records := records +
          [Transition(working.Value(), PULLBACK_OBSERVED, ZONE_ENTERED, now, final.lastStructuralCloseTime, None, |records|)];
      }
    }
  }
}
