/** What one lifecycle call does, case by case. */
module LifecycleSteps {
  import opened MarketData
  import opened PullbackTracker
  import opened Lifecycle

  /** A record of the event's move at this time. */
  ghost predicate IsRecord(t: TransitionRecord, e: EventState, fromState: EventStatus, toState: EventStatus, trigger: string,
                           now: int, source: Option<int>, reason: Option<string>, place: nat)
  {
    && t.symbol == e.symbol && t.eventId == e.eventId && t.time == now
    && t.fromState == fromState && t.toState == toState && t.trigger == trigger
    && t.sourceTime == source && t.reason == reason && t.sequence == place
  }

  // ---------------------------------------------------------------- creation

  /** A detected pump becomes an event with its times, prices and window, nothing observed
      or sent yet, that expires after the configured time. */
  ghost predicate IsEventOf(c: Config, symbol: string, p: Pump, now: int, e: EventState) {
    && e.symbol == symbol && e.eventId == p.eventId && e.status == PUMP_DETECTED
    && e.startTime == Some(p.startTime) && e.high == Some(p.high) && e.highTime == Some(p.highTime)
    && e.basePrice == Some(p.basePrice) && e.triggerWindow == Some(p.triggerWindow)
    && e.rangePct.Some?
    && (if p.basePrice > 0.0 then e.rangePct.value * p.basePrice == (p.high - p.basePrice) * 100.0 else e.rangePct.value == 0.0)
    && e.pullbackDetectedAt.None? && e.pullbackDepthPct.None? && e.pullbackLowPrice.None?
    && e.zoneLow.None? && e.zoneHigh.None? && e.signalSentAt.None? && e.signalId.None?
    && e.expiresAt == Some(now + c.signalExpiry) && e.updatedAt == Some(now)
  }

  /** The features of the moment: the given ones, or those built of the candles. */
  function CurrentFeatures(s: Strategy, o: Opportunity, features: Option<Features>, state: Option<EventState>): Features {
    match features
    case Some(f) => f
    case None => s.build(o.symbol, o.candles, state, if state.Some? then o.derivatives else None, None, o.decisionTime)
  }

  /** An event is created exactly when the detector finds a pump in the current features,
      with one EVENT_CREATED record from the time of its high. */
  lemma CreatedIff(c: Config, s: Strategy, o: Opportunity, features: Option<Features>)
    ensures var l := Detected(c, s, o, features);
      var found := s.pump(o.symbol, o.candles, CurrentFeatures(s, o, features, None), o.decisionTime);
      && (l.state.Some? <==> found.Some?) && l.item.None? && l.availability == s.availability(o)
      && (if found.None? then l.transitions == [] else
            && IsEventOf(c, o.symbol, found.value, o.decisionTime, l.state.value)
            && |l.transitions| == 1
            && IsRecord(l.transitions[0], l.state.value, IDLE, PUMP_DETECTED, "EVENT_CREATED", o.decisionTime,
                        Some(found.value.highTime), Some(found.value.triggerWindow), 0))
  {
    var found := s.pump(o.symbol, o.candles, CurrentFeatures(s, o, features, None), o.decisionTime);
    if found.Some? && found.value.basePrice > 0.0 {
      RangeOf(found.value.high, found.value.basePrice);
    }
  }

  // ---------------------------------------------------------------- a reset, and the end of an event

  /** A higher high ends the step at once: one NEW_HIGH_RESET record, and nothing to
      evaluate. A base price of zero raises. */
  lemma HigherHighResets(c: Config, s: Strategy, e: EventState, m: Moment)
    requires HigherHigh(e, m.current)
    ensures Core(c, s, e, m).None? <==> e.basePrice.value == 0.0
    ensures Core(c, s, e, m).Some? ==> var l := Core(c, s, e, m).value;
      && l.state.Some? && IsReset(e, m.current, m.now, l.state.value) && l.item.None? && l.availability == m.availability
      && |l.transitions| == 1
      && IsRecord(l.transitions[0], e, e.status, PUMP_DETECTED, "NEW_HIGH_RESET", m.now, m.current.lastHighTime,
                  Some("confirmed higher 1m high"), 0)
  {
    ResetMeans(e, m.current, m.now);
  }

  /** The advanced event, for a step without a reset. */
  ghost predicate Advances(c: Config, e: EventState, m: Moment, w: EventState) {
    !HigherHigh(e, m.current) && !AdvanceRaises(e, m.current, m.now) && w == Advanced(c, e, m.current, m.now)
  }

  /** The records of the advance: one STATE_ADVANCE exactly when the status changed. */
  ghost predicate AdvanceRecorded(e: EventState, w: EventState, m: Moment, records: seq<TransitionRecord>) {
    if w.status == e.status then records == [] else
      |records| == 1
      && IsRecord(records[0], e, e.status, w.status, "STATE_ADVANCE", m.now, m.current.lastStructuralCloseTime, None, 0)
  }

  lemma AdvanceIsRecorded(c: Config, e: EventState, m: Moment, w: EventState)
    requires Advances(c, e, m, w)
    ensures AdvanceRecorded(e, w, m, AdvanceRecords(e, w, m.current, m.now))
  {
  }

  /** Without a reset an expired event, one back at or still at PUMP_DETECTED, and one for
      which no zone can be built are not evaluated, and are as the advance left them. */
  lemma NotEvaluated(c: Config, s: Strategy, e: EventState, m: Moment, w: EventState)
    requires Advances(c, e, m, w)
    requires w.status in {EXPIRED, PUMP_DETECTED} || s.zone(Unmarked(w), m.current).None?
    ensures Core(c, s, e, m).Some?
    ensures var l := Core(c, s, e, m).value;
      && l.state == Some(w) && l.item.None? && l.availability == m.availability
      && AdvanceRecorded(e, w, m, l.transitions)
  {
    ResetMeans(e, m.current, m.now);
    AdvanceIsRecorded(c, e, m, w);
  }

  // ---------------------------------------------------------------- the short zone

  /** The features the evaluation sees: built again with the zone in the state, where there
      are candles. */
  ghost predicate AreFinal(s: Strategy, m: Moment, w: EventState, zone: Zone, f: Features) {
    match m.candles
    case None => f == m.current
    case Some(candles) =>
      f == s.build(m.symbol, candles, Some(Unmarked(w.(zoneLow := Some(zone.low), zoneHigh := Some(zone.high)))),
                   m.derivatives, m.liquidity, m.now)
  }

  ghost predicate EntersZone(w: EventState, zone: Zone, f: Features) {
    w.status == PULLBACK_OBSERVED && zone.low <= f.price && f.price <= zone.high
  }

  /** The event with the zone's bounds, in SHORT_ZONE_ACTIVE if it enters. */
  ghost predicate IsZoned(w: EventState, zone: Zone, f: Features, now: int, r: EventState) {
    && r.zoneLow == Some(zone.low) && r.zoneHigh == Some(zone.high)
    && (if EntersZone(w, zone, f) then r.status == SHORT_ZONE_ACTIVE && r.updatedAt == Some(now)
        else r.status == w.status && r.updatedAt == w.updatedAt)
    && r == w.(zoneLow := r.zoneLow, zoneHigh := r.zoneHigh, status := r.status, updatedAt := r.updatedAt)
  }

  /** Records that end with the entry, if there is one. */
  ghost predicate EntryRecorded(e: EventState, w: EventState, zone: Zone, f: Features, m: Moment, records: seq<TransitionRecord>) {
    if !EntersZone(w, zone, f) then AdvanceRecorded(e, w, m, records) else
      && |records| >= 1 && AdvanceRecorded(e, w, m, records[..|records| - 1])
      && IsRecord(records[|records| - 1], e, PULLBACK_OBSERVED, SHORT_ZONE_ACTIVE, "ZONE_ENTERED", m.now,
                  f.lastStructuralCloseTime, None, |records| - 1)
  }

  lemma ZonedMeans(e: EventState, w: EventState, zone: Zone, f: Features, m: Moment, records: seq<TransitionRecord>)
    requires w.symbol == e.symbol && w.eventId == e.eventId && AdvanceRecorded(e, w, m, records)
    ensures var l := Zoned(w, zone, f, m.now, records, m.availability);
      && l.state.Some? && IsZoned(w, zone, f, m.now, l.state.value)
      && EntryRecorded(e, w, zone, f, m, l.transitions) && l.availability == m.availability
      && l.item == Some(StrategyInput(Unmarked(l.state.value), f, zone, m.now))
  {
    var l := Zoned(w, zone, f, m.now, records, m.availability);
    if EntersZone(w, zone, f) {
      assert l.transitions[..|records|] == records;
    }
  }

  /** Where the advanced event is set up and a zone is built, the event gets the zone's
      bounds and is evaluated with the final features. It enters SHORT_ZONE_ACTIVE, with one
      ZONE_ENTERED record as the last, exactly when it is PULLBACK_OBSERVED and the final
      price is within the zone. */
  lemma ZoneEnteredIff(c: Config, s: Strategy, e: EventState, m: Moment, w: EventState, zone: Zone, f: Features)
    requires Advances(c, e, m, w) && w.status !in {EXPIRED, PUMP_DETECTED}
    requires s.zone(Unmarked(w), m.current) == Some(zone) && AreFinal(s, m, w, zone, f)
    ensures Core(c, s, e, m).Some?
    ensures var l := Core(c, s, e, m).value;
      && l.state.Some? && IsZoned(w, zone, f, m.now, l.state.value)
      && EntryRecorded(e, w, zone, f, m, l.transitions) && l.availability == m.availability
      && l.item == Some(StrategyInput(Unmarked(l.state.value), f, zone, m.now))
  {
    ResetMeans(e, m.current, m.now);
    AdvanceIsRecorded(c, e, m, w);
    AdvancedIsSameEvent(c, e, m, w);
    ZonedMeans(e, w, zone, f, m, AdvanceRecords(e, w, m.current, m.now));
  }

  lemma AdvancedIsSameEvent(c: Config, e: EventState, m: Moment, w: EventState)
    requires Advances(c, e, m, w)
    ensures w.symbol == e.symbol && w.eventId == e.eventId
  {
  }

  // ---------------------------------------------------------------- what the driver passes

  /** A tracked event is stepped with the opportunity's own inputs at its time. Injected
      features with no frame are used as they are; else they are built of the candles, with
      the derivatives and without liquidity, which only the final features see. */
  lemma MomentMeans(s: Strategy, e: EventState, o: Opportunity, features: Option<Features>)
    ensures var m := MomentOf(s, e, o, features);
      && m.now == o.decisionTime && m.derivatives == o.derivatives && m.liquidity == o.liquidity
      && m.current == CurrentFeatures(s, o, features, Some(Unmarked(e)))
      && (if features.Some? && o.candles.NoFrame?
          then m.symbol == features.value.symbol && m.availability.None? && m.candles.None?
          else m.symbol == o.symbol && m.availability == s.availability(o) && m.candles == Some(o.candles))
  {
  }

  /** A symbol without an event, or with an idle or expired one, is searched for a new one;
      any other event is stepped. */
  lemma CalledMeans(c: Config, s: Strategy, prior: Option<EventState>, o: Opportunity, features: Option<Features>)
    ensures if prior.None? || prior.value.status == IDLE || prior.value.status == EXPIRED
      then Called(c, s, prior, o, features) == Some(Detected(c, s, o, features))
      else Called(c, s, prior, o, features) == Core(c, s, prior.value, MomentOf(s, prior.value, o, features))
  {
  }
}
