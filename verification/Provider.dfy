/** The ticker gate: when a ticker may come from the hub, and what is returned. */
module Provider {
  import opened Text
  import opened MarketData
  import opened Planning
  import opened Hub
  import opened HubTickers
  import opened HubObject
  import opened HubCases
  import Continuity
  import ContinuityRuns
  import ContinuityProofs
  import ContinuityWindows
  import ContinuityCases
  import GapTracking

  const HUB_TICKER_FRESHNESS := 45_000

  datatype Mode = REST_ONLY | HUB_SHADOW | HUB_PREFERRED

  datatype Refusal =
    | HUB_UNAVAILABLE | HUB_NOT_HEALTHY | HUB_UNACKNOWLEDGED | HUB_MISSING | HUB_OLD_GENERATION
    | HUB_CONTINUITY_UNAVAILABLE | HUB_UNINITIALIZED | HUB_GAP_DETECTED | HUB_INCOMPLETE
    | HUB_FUTURE | HUB_STALE

  datatype Gate = Served(ticker: Ticker) | Refused(reason: Refusal)

  datatype Source = HUB | REST | REST_FALLBACK

  datatype SourceProvenance = SourceProvenance(
    source: Source,
    reason: string,
    capturedAt: int,
    maxInputAvailability: int,
    fallback: Option<FallbackReason>)

  datatype ResolvedTicker = ResolvedTicker(snapshot: MarketSnapshot, provenance: SourceProvenance)

  datatype FallbackReason =
    | DISABLED | DISCONNECTED | UNINITIALIZED_GENERATION | STALE | MISSING_FIELD | GAP
    | FUTURE_TIMESTAMP | SOURCE_CONFLICT

  // ---------------------------------------------------------------- the gate

  const REQUIRED_FIELDS := {
    "lastPrice", "price24hPcnt", "turnover24h", "volume24h", "markPrice", "openInterest" }

  predicate Complete(values: Values) {
    forall f | f in REQUIRED_FIELDS :: f in values && values[f].Number?
  }

  /** `_eligible_hub_snapshot` once the hub is there and healthy */
  function HealthyGate(h: HubState, continuity: Option<Continuity.Tracker>, symbol: string, captured: int): Gate {
    if TICKERS + Upper(symbol) !in h.acknowledged then Refused(HUB_UNACKNOWLEDGED)
    else if Upper(symbol) !in h.snapshots then Refused(HUB_MISSING)
    else
      var ticker := h.snapshots[Upper(symbol)];
      if !IsCurrent(h, ticker.connectionEpoch) then Refused(HUB_OLD_GENERATION)
      else if continuity.None? then Refused(HUB_CONTINUITY_UNAVAILABLE)
      else
        var state := continuity.value.State(Upper(symbol));
        if state.UNINITIALIZED? then Refused(HUB_UNINITIALIZED)
        else if state.GAP_DETECTED? then Refused(HUB_GAP_DETECTED)
        else if !Complete(ticker.values) then Refused(HUB_INCOMPLETE)
        else if ticker.receivedAt > captured then Refused(HUB_FUTURE)
        else if ticker.exchangeTimestamp.Some? && ticker.exchangeTimestamp.value > captured then Refused(HUB_FUTURE)
        else if captured - ticker.receivedAt > HUB_TICKER_FRESHNESS then Refused(HUB_STALE)
        else Served(ticker)
  }

  /** `_eligible_hub_snapshot` */
  function Eligible(hub: Option<HubState>, healthy: bool, continuity: Option<Continuity.Tracker>,
                    symbol: string, captured: int): (gate: Gate)
    ensures gate.Served? ==> Complete(gate.ticker.values)
  {
    if hub.None? then Refused(HUB_UNAVAILABLE)
    else if !healthy then Refused(HUB_NOT_HEALTHY)
    else HealthyGate(hub.value, continuity, symbol, captured)
  }

  function Fallback(reason: Refusal): FallbackReason {
    match reason
    case HUB_NOT_HEALTHY => DISCONNECTED
    case HUB_UNINITIALIZED => UNINITIALIZED_GENERATION
    case HUB_OLD_GENERATION => UNINITIALIZED_GENERATION
    case HUB_CONTINUITY_UNAVAILABLE => UNINITIALIZED_GENERATION
    case HUB_STALE => STALE
    case HUB_INCOMPLETE => MISSING_FIELD
    case HUB_FUTURE => FUTURE_TIMESTAMP
    case HUB_GAP_DETECTED => GAP
    case HUB_UNAVAILABLE => DISABLED
    case _ => SOURCE_CONFLICT
  }

  function FromHub(rest: MarketSnapshot, ticker: Ticker): MarketSnapshot
    requires Complete(ticker.values)
  {
    var v := ticker.values;
    assert forall f | f in REQUIRED_FIELDS :: f in v && v[f].Number?;
    rest.(lastPrice := v["lastPrice"].value,
      price24hPct := v["price24hPcnt"].value * 100.0,
      turnover24h := v["turnover24h"].value,
      volume24h := v["volume24h"].value,
      markPrice := Some(v["markPrice"].value),
      openInterest := Some(v["openInterest"].value),
      timestamp := Some(ticker.receivedAt))
  }

  /** `_resolve_ticker` */
  function Resolved(mode: Mode, gate: Gate, rest: MarketSnapshot, captured: int): ResolvedTicker
    requires gate.Served? ==> Complete(gate.ticker.values)
  {
    match mode
    case REST_ONLY => ResolvedTicker(rest, SourceProvenance(REST, "REST_ONLY", captured, captured, Some(DISABLED)))
    case HUB_SHADOW => ResolvedTicker(rest, SourceProvenance(REST, "HUB_SHADOW", captured, captured, None))
    case HUB_PREFERRED =>
      (match gate
       case Refused(reason) =>
         ResolvedTicker(rest,
           SourceProvenance(REST_FALLBACK, "REST_FALLBACK", captured, captured, Some(Fallback(reason))))
       case Served(ticker) =>
         ResolvedTicker(FromHub(rest, ticker),
           SourceProvenance(HUB, "HUB_PREFERRED", captured, ticker.receivedAt, None)))
  }

  // ---------------------------------------------------------------- states without a repair probe

  /** No repair marks: the tracker only sees connections and closed candles. */
  ghost predicate Unprobed(steps: seq<Continuity.Step>) {
    forall i | 0 <= i < |steps| :: steps[i].ConnectionOpened? || steps[i].ClosedCandle?
  }

  ghost predicate PlainStates(t: Continuity.Tracker) {
    forall s | s in t.states :: t.states[s].TRACKING? || t.states[s].GAP_DETECTED? || t.states[s].CONTIGUOUS?
  }

  lemma RecomputedIsPlain(t: Continuity.Tracker, symbol: string, detectedAt: int)
    requires PlainStates(t) && symbol in t.candles
    ensures PlainStates(Continuity.Recomputed(t, symbol, detectedAt))
  {
  }

  lemma ObservedIsPlain(t: Continuity.Tracker, c: MarketCandle)
    requires PlainStates(t)
    ensures PlainStates(Continuity.Observed(t, c))
  {
    if Continuity.StoresNew(t, c) {
      RecomputedIsPlain(Continuity.Stored(t, c), Upper(c.symbol), c.receivedAt);
    }
  }

  lemma {:induction false} UnprobedIsPlain(maxCandles: nat, maxEvents: nat, steps: seq<Continuity.Step>)
    requires Unprobed(steps)
    ensures PlainStates(Continuity.Run(Continuity.Fresh(maxCandles, maxEvents), steps))
  {
    if steps != [] {
      var init, last := steps[..|steps| - 1], steps[|steps| - 1];
      UnprobedIsPlain(maxCandles, maxEvents, init);
      if last.ClosedCandle? {
        ObservedIsPlain(Continuity.Run(Continuity.Fresh(maxCandles, maxEvents), init), last.candle);
      }
    }
  }

  // ---------------------------------------------------------------- end to end

  /** The retained minutes have no hole. */
  ghost predicate HoleFree(t: Continuity.Tracker, symbol: string) {
    ContinuityRuns.Consecutive(t.Window(symbol).Keys)
  }

  /** What a served ticker is promised to be, apart from the candles. */
  ghost predicate Sound(h: HubState, ticker: Ticker, symbol: string, captured: int) {
    && TICKERS + symbol in h.acknowledged
    && symbol in h.snapshots && h.snapshots[symbol] == ticker
    && IsCurrent(h, ticker.connectionEpoch)
    && Complete(ticker.values)
    && 0 <= captured - ticker.receivedAt <= HUB_TICKER_FRESHNESS
    && (ticker.exchangeTimestamp.Some? ==> ticker.exchangeTimestamp.value <= captured)
  }

  /** A ticker can be marked as coming from the hub only in HUB_PREFERRED mode, behind
      the gate; in every other case the REST snapshot comes back as it was. The inputs
      are never dated after the capture, so building the provenance cannot fail. */
  lemma HubOnlyBehindGate(mode: Mode, hub: Option<HubState>, healthy: bool, continuity: Option<Continuity.Tracker>,
                          rest: MarketSnapshot, captured: int)
    ensures var r := Resolved(mode, Eligible(hub, healthy, continuity, rest.symbol, captured), rest, captured);
      && (r.provenance.source == HUB <==>
            && mode == HUB_PREFERRED && hub.Some? && healthy && continuity.Some?
            && (exists ticker :: Sound(hub.value, ticker, Upper(rest.symbol), captured))
            && continuity.value.State(Upper(rest.symbol)) !in {Continuity.UNINITIALIZED, Continuity.GAP_DETECTED})
      && (r.provenance.source != HUB ==> r.snapshot == rest)
      && r.provenance.maxInputAvailability <= r.provenance.capturedAt == captured
  {
    var gate := Eligible(hub, healthy, continuity, rest.symbol, captured);
    if gate.Served? {
      assert Sound(hub.value, gate.ticker, Upper(rest.symbol), captured);
    }
  }

  /** End to end without a repair probe: a ticker served from the hub, after any run of
      hub and tracker, is acknowledged, current, complete and fresh; its symbol is in the
      universe; and the symbol's retained candles are there and have no hole. */
  lemma ServedMeansNoHole(h: HubState, maxCandles: nat, maxEvents: nat, steps: seq<Continuity.Step>,
                          healthy: bool, symbol: string, captured: int)
    requires 2 <= maxCandles && 1 <= maxEvents && Unprobed(steps)
    requires Eligible(Some(h), healthy, Some(Continuity.Run(Continuity.Fresh(maxCandles, maxEvents), steps)), symbol, captured).Served?
    ensures var t := Continuity.Run(Continuity.Fresh(maxCandles, maxEvents), steps);
      && Sound(h, Eligible(Some(h), healthy, Some(t), symbol, captured).ticker, Upper(symbol), captured)
      && HoleFree(t, Upper(symbol)) && t.Window(Upper(symbol)) != map[]
  {
    var t := Continuity.Run(Continuity.Fresh(maxCandles, maxEvents), steps);
    var own := Upper(symbol);
    UnprobedIsPlain(maxCandles, maxEvents, steps);
    assert t.State(own) in {Continuity.TRACKING, Continuity.CONTIGUOUS};
    ContinuityRuns.ContiguousIsConsecutive(maxCandles, maxEvents, steps, own);
    ContinuityProofs.RunKeepsInv(maxCandles, maxEvents, steps);
    assert Continuity.StateInv(t, own);
    assert |t.Window(own)| != 0;
  }

  /** The rest of the story: a ticker served while its symbol's candles have a hole
      means the symbol is being repaired or its repair failed. */
  lemma HoleServedOnlyInRepair(h: HubState, maxCandles: nat, maxEvents: nat, steps: seq<Continuity.Step>,
                               healthy: bool, symbol: string, captured: int)
    requires 2 <= maxCandles && 1 <= maxEvents
    requires !HoleFree(Continuity.Run(Continuity.Fresh(maxCandles, maxEvents), steps), Upper(symbol))
    ensures var t := Continuity.Run(Continuity.Fresh(maxCandles, maxEvents), steps);
      var gate := Eligible(Some(h), healthy, Some(t), symbol, captured);
      gate.Served? <==>
        && healthy && (exists ticker :: Sound(h, ticker, Upper(symbol), captured))
        && t.State(Upper(symbol)) in {Continuity.BACKFILLING, Continuity.DEGRADED}
  {
    var t := Continuity.Run(Continuity.Fresh(maxCandles, maxEvents), steps);
    var own := Upper(symbol);
    if t.State(own) in {Continuity.TRACKING, Continuity.CONTIGUOUS} {
      ContinuityRuns.ContiguousIsConsecutive(maxCandles, maxEvents, steps, own);
    }
    var gate := Eligible(Some(h), healthy, Some(t), symbol, captured);
    if gate.Served? {
      assert Sound(h, gate.ticker, own, captured);
    }
  }

  // ---------------------------------------------------------------- a repair opens the gate

  function FailedRepair(symbol: string): seq<Continuity.Step> {
    ContinuityCases.Minutely(symbol, ContinuityCases.GapMinutes(2, 1))
    + [Continuity.MarkFailure(Continuity.GapEvent(symbol, 1, 2, 1, 3 * MS_PER_MINUTE, None))]
  }

  lemma FailedRepairLeavesHole(symbol: string)
    requires Upper(symbol) == symbol
    ensures var t := Continuity.Run(Continuity.Fresh(2, 1), FailedRepair(symbol));
      !HoleFree(t, symbol) && t.State(symbol) == Continuity.DEGRADED
  {
    var steps := ContinuityCases.Minutely(symbol, ContinuityCases.GapMinutes(2, 1));
    var t := Continuity.Run(Continuity.Fresh(2, 1), steps);
    ContinuityCases.HoleIsRetained(symbol, 2, 1, 2, 1);
    ContinuityRuns.RunSnoc(Continuity.Fresh(2, 1), steps, FailedRepair(symbol)[|steps|]);
    FailureLeaves(t, FailedRepair(symbol)[|steps|].gap);
  }

  lemma FailureLeaves(t: Continuity.Tracker, gap: Continuity.GapEvent)
    ensures var r := Continuity.Next(t, Continuity.MarkFailure(gap));
      r.Window(gap.symbol) == t.Window(gap.symbol) && r.State(gap.symbol) == Continuity.DEGRADED
  {
  }

  /** So the gate can serve a symbol with a hole once a repair was tried and failed:
      in every hub state in which its ticker is sound. */
  lemma HoleCanBeServed(h: HubState, ticker: Ticker, symbol: string, captured: int)
    requires Upper(symbol) == symbol && Sound(h, ticker, symbol, captured)
    ensures var t := Continuity.Run(Continuity.Fresh(2, 1), FailedRepair(symbol));
      Eligible(Some(h), true, Some(t), symbol, captured) == Served(ticker) && !HoleFree(t, symbol)
  {
    FailedRepairLeavesHole(symbol);
    var t := Continuity.Run(Continuity.Fresh(2, 1), FailedRepair(symbol));
    assert t.State(symbol).DEGRADED?;
  }

  lemma FullTickerIsComplete(symbol: string, at: int)
    ensures Complete(FullTicker(symbol, at).values)
  {
    forall f | f in REQUIRED_FIELDS
      ensures f in ValidValues(FullSnapshot(symbol, at)) && ValidValues(FullSnapshot(symbol, at))[f].Number?
    {
      assert f in FULL_FIELDS && f in TICKER_FIELDS;
    }
  }

  /** And the hub does reach such a state: from its start, over a universe of one
      symbol, in six steps. */
  lemma SoundTickerIsReached(symbol: string, maxConnections: int, captured: int) returns (steps: seq<Step>)
    requires IsNormal(symbol) && |symbol| <= 3_900 && maxConnections >= 1
    ensures IsRun(NewHub([symbol], maxConnections), steps)
    ensures Sound(Run(NewHub([symbol], maxConnections), steps), FullTicker(symbol, captured), symbol, captured)
  {
    steps := TickerCanArrive(symbol, maxConnections, captured);
    FullTickerIsComplete(symbol, captured);
  }

  // ---------------------------------------------------------------- a gap that is not there

  /** Every check of the gate before the candles' state passes. */
  ghost predicate Reached(h: HubState, symbol: string) {
    TICKERS + symbol in h.acknowledged && symbol in h.snapshots && IsCurrent(h, h.snapshots[symbol].connectionEpoch)
  }

  /** Without repair marks the state says GAP_DETECTED exactly when a gap is active. */
  lemma DetectedIff(maxCandles: nat, maxEvents: nat, steps: seq<Continuity.Step>, symbol: string)
    requires 2 <= maxCandles && 1 <= maxEvents && Unprobed(steps)
    ensures var t := Continuity.Run(Continuity.Fresh(maxCandles, maxEvents), steps);
      t.State(symbol).GAP_DETECTED? <==> Continuity.HasGap(t.active, symbol)
  {
    var t := Continuity.Run(Continuity.Fresh(maxCandles, maxEvents), steps);
    UnprobedIsPlain(maxCandles, maxEvents, steps);
    ContinuityProofs.RunKeepsInv(maxCandles, maxEvents, steps);
    assert Continuity.StateInv(t, symbol);
  }

  /** The gate refuses HUB_GAP_DETECTED although the retained candles have no hole exactly
      when the ticker passes the earlier checks, the state says GAP_DETECTED, and every
      missing minute of the symbol's active gaps is earlier than every retained one. */
  lemma FalseRefusalIff(h: HubState, maxCandles: nat, maxEvents: nat, steps: seq<Continuity.Step>,
                        healthy: bool, symbol: string, captured: int)
    requires 2 <= maxCandles && 1 <= maxEvents
    ensures var t := Continuity.Run(Continuity.Fresh(maxCandles, maxEvents), steps);
      Eligible(Some(h), healthy, Some(t), symbol, captured) == Refused(HUB_GAP_DETECTED) && HoleFree(t, Upper(symbol)) <==>
        && healthy && Reached(h, Upper(symbol))
        && t.State(Upper(symbol)).GAP_DETECTED?
        && ContinuityWindows.OnlyPast(t, Upper(symbol))
  {
    ContinuityWindows.ConsecutiveIff(maxCandles, maxEvents, steps, Upper(symbol));
  }

  /** Without a repair probe that is: exactly when an active gap of the symbol is left,
      and none of its active gaps' missing minutes is among or after the retained ones. */
  lemma UnprobedFalseRefusalIff(h: HubState, maxCandles: nat, maxEvents: nat, steps: seq<Continuity.Step>,
                                healthy: bool, symbol: string, captured: int)
    requires 2 <= maxCandles && 1 <= maxEvents && Unprobed(steps)
    ensures var t := Continuity.Run(Continuity.Fresh(maxCandles, maxEvents), steps);
      Eligible(Some(h), healthy, Some(t), symbol, captured) == Refused(HUB_GAP_DETECTED) && HoleFree(t, Upper(symbol)) <==>
        && healthy && Reached(h, Upper(symbol))
        && Continuity.HasGap(t.active, Upper(symbol))
        && ContinuityWindows.OnlyPast(t, Upper(symbol))
  {
    DetectedIff(maxCandles, maxEvents, steps, Upper(symbol));
    FalseRefusalIff(h, maxCandles, maxEvents, steps, healthy, symbol, captured);
  }

  lemma MinutesAreUnprobed(symbol: string, minutes: seq<int>)
    ensures Unprobed(ContinuityCases.Minutely(symbol, minutes))
  {
  }

  /** It does happen, with every bound: minute 0, a gap, and then as many consecutive
      minutes as the window holds, or more. */
  lemma FalseRefusalHappens(h: HubState, ticker: Ticker, maxCandles: nat, maxEvents: nat, a: nat, n: nat,
                            symbol: string, captured: int)
    requires Upper(symbol) == symbol && Sound(h, ticker, symbol, captured)
    requires 2 <= maxCandles <= n && 1 <= maxEvents && a >= 2
    ensures var steps := ContinuityCases.Minutely(symbol, ContinuityCases.GapMinutes(a, n));
      var t := Continuity.Run(Continuity.Fresh(maxCandles, maxEvents), steps);
      Eligible(Some(h), true, Some(t), symbol, captured) == Refused(HUB_GAP_DETECTED) && HoleFree(t, symbol)
  {
    var steps := ContinuityCases.Minutely(symbol, ContinuityCases.GapMinutes(a, n));
    ContinuityCases.GapOutlivesHole(symbol, maxCandles, maxEvents, a, n);
    MinutesAreUnprobed(symbol, ContinuityCases.GapMinutes(a, n));
    ContinuityProofs.RunKeepsInv(maxCandles, maxEvents, steps);
    GapIsOwn(Continuity.Run(Continuity.Fresh(maxCandles, maxEvents), steps), ContinuityCases.TheGap(symbol, a));
    ContinuityWindows.ConsecutiveIff(maxCandles, maxEvents, steps, symbol);
    UnprobedFalseRefusalIff(h, maxCandles, maxEvents, steps, true, symbol, captured);
  }

  lemma GapIsOwn(t: Continuity.Tracker, id: Continuity.GapIdentity)
    requires Continuity.Inv(t) && id in t.active
    ensures Continuity.HasGap(t.active, id.symbol)
  {
    assert Continuity.GapInv(t, id);
  }

  /** One run of the hub is enough for both: over a failed repair its ticker is served
      although a candle is missing, and after a bridged gap it is refused although none is. */
  lemma GateErrsBothWays(symbol: string, maxConnections: int, maxCandles: nat, maxEvents: nat, a: nat, n: nat, captured: int)
    returns (hubSteps: seq<Step>)
    requires IsNormal(symbol) && |symbol| <= 3_900 && maxConnections >= 1
    requires 2 <= maxCandles <= n && 1 <= maxEvents && a >= 2
    ensures IsRun(NewHub([symbol], maxConnections), hubSteps)
    ensures var h := Run(NewHub([symbol], maxConnections), hubSteps);
      var failed := Continuity.Run(Continuity.Fresh(2, 1), FailedRepair(symbol));
      var bridged := Continuity.Run(Continuity.Fresh(maxCandles, maxEvents),
        ContinuityCases.Minutely(symbol, ContinuityCases.GapMinutes(a, n)));
      && Eligible(Some(h), true, Some(failed), symbol, captured).Served? && !HoleFree(failed, symbol)
      && Eligible(Some(h), true, Some(bridged), symbol, captured) == Refused(HUB_GAP_DETECTED) && HoleFree(bridged, symbol)
  {
    hubSteps := SoundTickerIsReached(symbol, maxConnections, captured);
    var h := Run(NewHub([symbol], maxConnections), hubSteps);
    HoleCanBeServed(h, FullTicker(symbol, captured), symbol, captured);
    FalseRefusalHappens(h, FullTicker(symbol, captured), maxCandles, maxEvents, a, n, symbol, captured);
  }

  // ---------------------------------------------------------------- what a served ticker says

  predicate Says(ms: seq<TickerMessage>, field: string, value: real) {
    LastValue(ms, field) == Some(Number(value))
  }

  predicate SaidIn(ms: seq<TickerMessage>, r: MarketSnapshot) {
    && Says(ms, "lastPrice", r.lastPrice)
    && Says(ms, "price24hPcnt", r.price24hPct / 100.0)
    && Says(ms, "turnover24h", r.turnover24h)
    && Says(ms, "volume24h", r.volume24h)
    && r.markPrice.Some? && Says(ms, "markPrice", r.markPrice.value)
    && r.openInterest.Some? && Says(ms, "openInterest", r.openInterest.value)
  }

  lemma PricesAreSaid(rest: MarketSnapshot, ticker: Ticker, ms: seq<TickerMessage>)
    requires Complete(ticker.values) && ValuesAre(ticker.values, ms)
    ensures SaidIn(ms, FromHub(rest, ticker))
  {
    forall f | f in REQUIRED_FIELDS ensures Says(ms, f, ticker.values[f].value) {
      assert LastValue(ms, f) == if f in ticker.values then Some(ticker.values[f]) else None;
    }
  }

  /** At every point of every run of the hub, each price of a ticker resolved from it is
      the last valid value the exchange sent since the symbol's last full snapshot of the
      current socket cycle, or of the last one when none is under way. */
  lemma ResolvedPricesAreLatest(symbols: seq<string>, maxConnections: int, hubSteps: seq<Step>, h: HubState,
                                continuity: Option<Continuity.Tracker>, healthy: bool, rest: MarketSnapshot, captured: int)
    requires IsRun(NewHub(symbols, maxConnections), hubSteps) && h == Run(NewHub(symbols, maxConnections), hubSteps)
    requires Eligible(Some(h), healthy, continuity, rest.symbol, captured).Served?
    ensures SaidIn(Since(Log(hubSteps), Upper(rest.symbol)),
      Resolved(HUB_PREFERRED, Eligible(Some(h), healthy, continuity, rest.symbol, captured), rest, captured).snapshot)
  {
    StoredValues(symbols, maxConnections, hubSteps, h, Upper(rest.symbol));
    ServedIsSaid(h, continuity, healthy, rest, captured, Since(Log(hubSteps), Upper(rest.symbol)));
  }

  lemma ServedIsSaid(h: HubState, continuity: Option<Continuity.Tracker>, healthy: bool, rest: MarketSnapshot,
                     captured: int, ms: seq<TickerMessage>)
    requires Eligible(Some(h), healthy, continuity, rest.symbol, captured).Served?
    requires ValuesAre(h.snapshots[Upper(rest.symbol)].values, ms)
    ensures SaidIn(ms, Resolved(HUB_PREFERRED, Eligible(Some(h), healthy, continuity, rest.symbol, captured), rest, captured).snapshot)
  {
    PricesAreSaid(rest, h.snapshots[Upper(rest.symbol)], ms);
  }

  lemma StoredValues(symbols: seq<string>, maxConnections: int, hubSteps: seq<Step>, h: HubState, s: string)
    requires IsRun(NewHub(symbols, maxConnections), hubSteps) && h == Run(NewHub(symbols, maxConnections), hubSteps)
    requires s in h.snapshots && TICKERS + s in h.acknowledged
    ensures ValuesAre(h.snapshots[s].values, Since(Log(hubSteps), s))
  {
    AcknowledgedTickersAreFolds(symbols, maxConnections, hubSteps, s);
  }

  // ---------------------------------------------------------------- the provider object

  datatype CandleRefusal =
    | CLOSED_1M_MISSING | CLOSED_1M_UNCONFIRMED | CLOSED_1M_UNINITIALIZED | CLOSED_1M_OLD_GENERATION
    | CLOSED_1M_FUTURE | CLOSED_1M_GAP_OR_UNINITIALIZED

  datatype Reason = OfTicker(refusal: Refusal) | OfCandle(candleRefusal: CandleRefusal)

  datatype Evidence = Evidence(event: string, symbol: string, reason: Option<Reason>)

  /** `_ticker_differences` is not empty */
  predicate Differs(rest: MarketSnapshot, ticker: Ticker)
    requires Complete(ticker.values)
  {
    FromHub(rest, ticker) != rest.(timestamp := Some(ticker.receivedAt))
  }

  /** What is recorded when the chosen source is decided. */
  function SourceEvidence(gate: Gate, rest: MarketSnapshot): Evidence {
    match gate
    case Refused(reason) => Evidence("rest_fallback", rest.symbol, Some(OfTicker(reason)))
    case Served(_) => Evidence("hub_selected", rest.symbol, None)
  }

  /** What is recorded in shadow mode. */
  function ShadowEvidence(gate: Gate, rest: MarketSnapshot): Evidence
    requires gate.Served? ==> Complete(gate.ticker.values)
  {
    match gate
    case Refused(reason) => Evidence("hub_shadow_unavailable", rest.symbol, Some(OfTicker(reason)))
    case Served(ticker) =>
      Evidence(if Differs(rest, ticker) then "hub_shadow_mismatch" else "hub_shadow_match", rest.symbol, None)
  }

  /** Why the hub's last closed candle cannot be compared, if it cannot. */
  function CandleRefused(h: HubState, continuity: Option<Continuity.Tracker>, closed: Option<MarketCandle>,
                         symbol: string, captured: int): Option<CandleRefusal>
  {
    if closed.None? then Some(CLOSED_1M_MISSING)
    else if !closed.value.confirmed || closed.value.interval != "1" then Some(CLOSED_1M_UNCONFIRMED)
    else if closed.value.connectionEpoch.None? then Some(CLOSED_1M_UNINITIALIZED)
    else if !IsCurrent(h, closed.value.connectionEpoch.value) then Some(CLOSED_1M_OLD_GENERATION)
    else if closed.value.receivedAt > captured then Some(CLOSED_1M_FUTURE)
    else if continuity.None? || continuity.value.State(Upper(symbol)).UNINITIALIZED?
            || continuity.value.State(Upper(symbol)).GAP_DETECTED?
    then Some(CLOSED_1M_GAP_OR_UNINITIALIZED)
    else None
  }

  /** `_record_closed_1m_shadow` without a REST frame: nothing without a hub. */
  function ClosedEvidence(hub: Option<HubState>, continuity: Option<Continuity.Tracker>, closed: Option<MarketCandle>,
                          symbol: string, captured: int): seq<Evidence>
  {
    if hub.None? then [] else
      match CandleRefused(hub.value, continuity, closed, symbol, captured)
      case Some(reason) => [Evidence("hub_closed_1m_shadow_unavailable", symbol, Some(OfCandle(reason)))]
      case None => [Evidence("hub_closed_1m_shadow", symbol, None)]
  }

  ghost predicate SoundCandle(h: HubState, c: MarketCandle, captured: int) {
    && Continuity.Accepted(c) && c.connectionEpoch.Some? && IsCurrent(h, c.connectionEpoch.value) && c.receivedAt <= captured
  }

  /** Over any run without repair marks the hub's last closed candle is recorded as usable
      exactly when it is a confirmed one-minute candle of the current generation, not from
      the future, and candles of its symbol are retained with no gap active; and then they
      have no hole. */
  lemma ClosedShadowIff(h: HubState, maxCandles: nat, maxEvents: nat, steps: seq<Continuity.Step>,
                        closed: Option<MarketCandle>, symbol: string, captured: int)
    requires 2 <= maxCandles && 1 <= maxEvents && Unprobed(steps)
    ensures var t := Continuity.Run(Continuity.Fresh(maxCandles, maxEvents), steps);
      && (ClosedEvidence(Some(h), Some(t), closed, symbol, captured) == [Evidence("hub_closed_1m_shadow", symbol, None)] <==>
            && closed.Some? && SoundCandle(h, closed.value, captured)
            && t.Window(Upper(symbol)) != map[] && !Continuity.HasGap(t.active, Upper(symbol)))
      && (!Continuity.HasGap(t.active, Upper(symbol)) ==> HoleFree(t, Upper(symbol)))
  {
    var t := Continuity.Run(Continuity.Fresh(maxCandles, maxEvents), steps);
    ContinuityProofs.RunKeepsInv(maxCandles, maxEvents, steps);
    DetectedIff(maxCandles, maxEvents, steps, Upper(symbol));
    UninitializedIff(t, Upper(symbol), maxCandles, maxEvents, steps);
    if !Continuity.HasGap(t.active, Upper(symbol)) {
      ContinuityRuns.NoGapMeansConsecutive(t, Upper(symbol));
    }
  }

  lemma UninitializedIff(t: Continuity.Tracker, symbol: string, maxCandles: nat, maxEvents: nat, steps: seq<Continuity.Step>)
    requires 2 <= maxCandles && 1 <= maxEvents && Unprobed(steps)
    requires t == Continuity.Run(Continuity.Fresh(maxCandles, maxEvents), steps)
    ensures t.State(symbol).UNINITIALIZED? <==> t.Window(symbol) == map[]
  {
    UnprobedIsPlain(maxCandles, maxEvents, steps);
    ContinuityProofs.RunKeepsInv(maxCandles, maxEvents, steps);
    assert Continuity.StateInv(t, symbol);
  }

  class MarketDataProvider {
    const mode: Mode
    const hub: MarketDataHub?
    const tracker: GapTracking.GapTracker?
    var candidateSources: map<string, Option<Source>>
    var candidateDifferences: map<string, bool>
    var evidence: seq<Evidence>

    constructor (mode: Mode, hub: MarketDataHub?, tracker: GapTracking.GapTracker?)
      ensures this.mode == mode && this.hub == hub && this.tracker == tracker
      ensures candidateSources == map[] && candidateDifferences == map[] && evidence == []
    {
      this.mode, this.hub, this.tracker := mode, hub, tracker;
      candidateSources, candidateDifferences, evidence := map[], map[], [];
    }

    function HubValue(): Option<HubState>
      reads hub
    {
      if hub == null then None else Some(hub.Value())
    }

    function TrackerValue(): Option<Continuity.Tracker>
      reads tracker
    {
      if tracker == null then None else Some(tracker.Value())
    }

    /** `_eligible_hub_snapshot`, read from the attached objects */
    function Judge(healthy: bool, symbol: string, captured: int): (gate: Gate)
      reads hub, tracker
      ensures gate.Served? ==> Complete(gate.ticker.values)
      ensures gate.Served? ==> hub != null && tracker != null && Sound(hub.Value(), gate.ticker, Upper(symbol), captured)
    {
      Eligible(HubValue(), healthy, TrackerValue(), symbol, captured)
    }

    /** `_resolve_ticker`; `closed` is the hub's last closed candle of the symbol. */
    method ResolveTicker(healthy: bool, closed: Option<MarketCandle>, rest: MarketSnapshot, captured: int)
      returns (r: ResolvedTicker)
      modifies this
      ensures r == Resolved(mode, Judge(healthy, rest.symbol, captured), rest, captured)
      ensures candidateSources == old(candidateSources)[rest.symbol :=
        if mode != REST_ONLY && Judge(healthy, rest.symbol, captured).Served? then Some(HUB) else None]
      ensures candidateDifferences == old(candidateDifferences)[rest.symbol :=
        mode == HUB_SHADOW && Judge(healthy, rest.symbol, captured).Served?
        && Differs(rest, Judge(healthy, rest.symbol, captured).ticker)]
      ensures evidence == old(evidence) + (match mode
        case REST_ONLY => []
        case HUB_SHADOW =>
          [ShadowEvidence(Judge(healthy, rest.symbol, captured), rest)]
          + ClosedEvidence(HubValue(), TrackerValue(), closed, rest.symbol, captured)
        case HUB_PREFERRED => [SourceEvidence(Judge(healthy, rest.symbol, captured), rest)])
    {
      if mode == REST_ONLY {
        SetCandidate(rest.symbol, None, false);
        return ResolvedTicker(rest, SourceProvenance(REST, "REST_ONLY", captured, captured, Some(DISABLED)));
      }
      if mode == HUB_SHADOW {
        ShadowCompare(healthy, closed, rest, captured);
        return ResolvedTicker(rest, SourceProvenance(REST, "HUB_SHADOW", captured, captured, None));
      }
      match Judge(healthy, rest.symbol, captured) {
        case Refused(reason) =>
          SetCandidate(rest.symbol, None, false);
          Record(Evidence("rest_fallback", rest.symbol, Some(OfTicker(reason))));
          return ResolvedTicker(rest,
            SourceProvenance(REST_FALLBACK, "REST_FALLBACK", captured, captured, Some(Fallback(reason))));
        case Served(ticker) =>
          SetCandidate(rest.symbol, Some(HUB), false);
          Record(Evidence("hub_selected", rest.symbol, None));
          return ResolvedTicker(FromHub(rest, ticker),
            SourceProvenance(HUB, "HUB_PREFERRED", captured, ticker.receivedAt, None));
      }
    }

    /** `_shadow_compare` */
    method ShadowCompare(healthy: bool, closed: Option<MarketCandle>, rest: MarketSnapshot, captured: int)
      modifies this
      ensures candidateSources == old(candidateSources)[rest.symbol :=
        if Judge(healthy, rest.symbol, captured).Served? then Some(HUB) else None]
      ensures candidateDifferences == old(candidateDifferences)[rest.symbol :=
        Judge(healthy, rest.symbol, captured).Served? && Differs(rest, Judge(healthy, rest.symbol, captured).ticker)]
      ensures evidence == old(evidence) + [ShadowEvidence(Judge(healthy, rest.symbol, captured), rest)]
        + ClosedEvidence(HubValue(), TrackerValue(), closed, rest.symbol, captured)
    {
      match Judge(healthy, rest.symbol, captured) {
        case Refused(reason) =>
          SetCandidate(rest.symbol, None, false);
          Record(Evidence("hub_shadow_unavailable", rest.symbol, Some(OfTicker(reason))));
        case Served(ticker) =>
          SetCandidate(rest.symbol, Some(HUB), Differs(rest, ticker));
          Record(Evidence(if Differs(rest, ticker) then "hub_shadow_mismatch" else "hub_shadow_match", rest.symbol, None));
      }
      RecordClosedShadow(closed, rest.symbol, captured);
    }

    /** `_record_closed_1m_shadow`, called without a REST frame */
    method RecordClosedShadow(closed: Option<MarketCandle>, symbol: string, captured: int)
      modifies this`evidence
      ensures evidence == old(evidence) + ClosedEvidence(HubValue(), TrackerValue(), closed, symbol, captured)
    {
      if hub == null {
        return;
      }
      var refused := CandleRefused(hub.Value(), TrackerValue(), closed, symbol, captured);
      if refused.Some? {
        Record(Evidence("hub_closed_1m_shadow_unavailable", symbol, Some(OfCandle(refused.value))));
        return;
      }
      Record(Evidence("hub_closed_1m_shadow", symbol, None));
    }

    method SetCandidate(symbol: string, source: Option<Source>, differs: bool)
      modifies this`candidateSources, this`candidateDifferences
      ensures candidateSources == old(candidateSources)[symbol := source]
      ensures candidateDifferences == old(candidateDifferences)[symbol := differs]
    {
      candidateSources := candidateSources[symbol := source];
      candidateDifferences := candidateDifferences[symbol := differs];
    }

    method Record(e: Evidence)
      modifies this`evidence
      ensures evidence == old(evidence) + [e]
    {
      evidence := evidence + [e];
    }
  }
}
