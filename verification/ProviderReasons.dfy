/** Why the gate refuses a ticker, what is then returned, and when two tickers differ. */
module ProviderReasons {
  import opened Text
  import opened MarketData
  import opened Hub
  import opened Provider
  import Continuity

  // ---------------------------------------------------------------- refusals

  ghost predicate HasNumber(values: Values, field: string) {
    field in values && values[field].Number?
  }

  /** All six fields a ticker must have. */
  ghost predicate HasAllSix(values: Values) {
    && HasNumber(values, "lastPrice") && HasNumber(values, "price24hPcnt") && HasNumber(values, "turnover24h")
    && HasNumber(values, "volume24h") && HasNumber(values, "markPrice") && HasNumber(values, "openInterest")
  }

  /** The hub is there and healthy, and the symbol's ticker topic is acknowledged. */
  ghost predicate Acknowledged(hub: Option<HubState>, healthy: bool, symbol: string) {
    hub.Some? && healthy && "tickers." + Upper(symbol) in hub.value.acknowledged
  }

  /** It has a ticker, on a connection of the current generation. */
  ghost predicate HasCurrent(hub: Option<HubState>, healthy: bool, symbol: string) {
    && Acknowledged(hub, healthy, symbol) && Upper(symbol) in hub.value.snapshots
    && var epoch := hub.value.snapshots[Upper(symbol)].connectionEpoch;
       epoch.shardId in hub.value.generations && hub.value.generations[epoch.shardId] == epoch.generation
  }

  /** And its candles are followed, retained, and without a detected gap. */
  ghost predicate HasCandles(hub: Option<HubState>, healthy: bool, continuity: Option<Continuity.Tracker>, symbol: string) {
    && HasCurrent(hub, healthy, symbol) && continuity.Some?
    && continuity.value.State(Upper(symbol)) != Continuity.UNINITIALIZED
    && continuity.value.State(Upper(symbol)) != Continuity.GAP_DETECTED
  }

  ghost predicate FromFuture(ticker: Ticker, captured: int) {
    ticker.receivedAt > captured || (ticker.exchangeTimestamp.Some? && ticker.exchangeTimestamp.value > captured)
  }

  /** Each reason is given exactly where its own check is the first one to fail. */
  ghost predicate FirstToFail(reason: Refusal, hub: Option<HubState>, healthy: bool, continuity: Option<Continuity.Tracker>,
                              symbol: string, captured: int)
  {
    match reason
    case HUB_UNAVAILABLE => hub.None?
    case HUB_NOT_HEALTHY => hub.Some? && !healthy
    case HUB_UNACKNOWLEDGED => hub.Some? && healthy && !Acknowledged(hub, healthy, symbol)
    case HUB_MISSING => Acknowledged(hub, healthy, symbol) && Upper(symbol) !in hub.value.snapshots
    case HUB_OLD_GENERATION =>
      Acknowledged(hub, healthy, symbol) && Upper(symbol) in hub.value.snapshots && !HasCurrent(hub, healthy, symbol)
    case HUB_CONTINUITY_UNAVAILABLE => HasCurrent(hub, healthy, symbol) && continuity.None?
    case HUB_UNINITIALIZED =>
      HasCurrent(hub, healthy, symbol) && continuity.Some? && continuity.value.State(Upper(symbol)).UNINITIALIZED?
    case HUB_GAP_DETECTED =>
      HasCurrent(hub, healthy, symbol) && continuity.Some? && continuity.value.State(Upper(symbol)).GAP_DETECTED?
    case HUB_INCOMPLETE =>
      HasCandles(hub, healthy, continuity, symbol) && !HasAllSix(hub.value.snapshots[Upper(symbol)].values)
    case HUB_FUTURE =>
      && HasCandles(hub, healthy, continuity, symbol) && HasAllSix(hub.value.snapshots[Upper(symbol)].values)
      && FromFuture(hub.value.snapshots[Upper(symbol)], captured)
    case HUB_STALE =>
      && HasCandles(hub, healthy, continuity, symbol) && HasAllSix(hub.value.snapshots[Upper(symbol)].values)
      && !FromFuture(hub.value.snapshots[Upper(symbol)], captured)
      && captured - hub.value.snapshots[Upper(symbol)].receivedAt > 45_000
  }

  lemma SixAreComplete(values: Values)
    ensures Complete(values) <==> HasAllSix(values)
  {
    if Complete(values) {
      forall f | f in REQUIRED_FIELDS ensures HasNumber(values, f) {
      }
    }
  }

  /** The gate refuses with a reason exactly where that check is the first to fail, and
      else serves the stored ticker as it is. */
  lemma RefusedIff(reason: Refusal, hub: Option<HubState>, healthy: bool, continuity: Option<Continuity.Tracker>,
                   symbol: string, captured: int)
    ensures var gate := Eligible(hub, healthy, continuity, symbol, captured);
      && (gate == Refused(reason) <==> FirstToFail(reason, hub, healthy, continuity, symbol, captured))
      && (gate.Served? ==> hub.Some? && Upper(symbol) in hub.value.snapshots && gate.ticker == hub.value.snapshots[Upper(symbol)])
  {
    if hub.Some? && Upper(symbol) in hub.value.snapshots {
      SixAreComplete(hub.value.snapshots[Upper(symbol)].values);
    }
  }

  // ---------------------------------------------------------------- what is returned

  /** What a refusal is reported as. */
  lemma FallbackMeans(reason: Refusal)
    ensures Fallback(reason) == DISCONNECTED <==> reason == HUB_NOT_HEALTHY
    ensures Fallback(reason) == UNINITIALIZED_GENERATION <==>
      reason in {HUB_UNINITIALIZED, HUB_OLD_GENERATION, HUB_CONTINUITY_UNAVAILABLE}
    ensures Fallback(reason) == STALE <==> reason == HUB_STALE
    ensures Fallback(reason) == MISSING_FIELD <==> reason == HUB_INCOMPLETE
    ensures Fallback(reason) == FUTURE_TIMESTAMP <==> reason == HUB_FUTURE
    ensures Fallback(reason) == GAP <==> reason == HUB_GAP_DETECTED
    ensures Fallback(reason) == DISABLED <==> reason == HUB_UNAVAILABLE
    ensures Fallback(reason) == SOURCE_CONFLICT <==> reason in {HUB_UNACKNOWLEDGED, HUB_MISSING}
  {
    match reason
    case HUB_UNAVAILABLE =>
    case _ =>
  }

  /** A snapshot from the hub has the ticker's six figures and its time of receipt, and is
      otherwise the REST one. */
  ghost predicate IsFromHub(rest: MarketSnapshot, ticker: Ticker, r: MarketSnapshot) {
    && HasAllSix(ticker.values)
    && r.lastPrice == ticker.values["lastPrice"].value
    && r.price24hPct == ticker.values["price24hPcnt"].value * 100.0
    && r.turnover24h == ticker.values["turnover24h"].value
    && r.volume24h == ticker.values["volume24h"].value
    && r.markPrice == Some(ticker.values["markPrice"].value)
    && r.openInterest == Some(ticker.values["openInterest"].value)
    && r.timestamp == Some(ticker.receivedAt) && r.symbol == rest.symbol
  }

  /** Every mode returns a provenance of the capture: REST data are as of the capture, hub
      data as of the ticker's receipt. Only a refusal in HUB_PREFERRED mode falls back with
      the gate's reason; REST_ONLY says the hub is disabled. */
  lemma ProvenanceMeans(mode: Mode, gate: Gate, rest: MarketSnapshot, captured: int)
    requires gate.Served? ==> Complete(gate.ticker.values)
    ensures var r := Resolved(mode, gate, rest, captured);
      && r.provenance.capturedAt == captured
      && (mode == HUB_PREFERRED && gate.Served? ==>
            && IsFromHub(rest, gate.ticker, r.snapshot)
            && r.provenance == SourceProvenance(HUB, "HUB_PREFERRED", captured, gate.ticker.receivedAt, None))
      && (mode == HUB_PREFERRED && gate.Refused? ==>
            && r.snapshot == rest
            && r.provenance == SourceProvenance(REST_FALLBACK, "REST_FALLBACK", captured, captured, Some(Fallback(gate.reason))))
      && (mode == HUB_SHADOW ==>
            r.snapshot == rest && r.provenance == SourceProvenance(REST, "HUB_SHADOW", captured, captured, None))
      && (mode == REST_ONLY ==>
            r.snapshot == rest && r.provenance == SourceProvenance(REST, "REST_ONLY", captured, captured, Some(DISABLED)))
  {
    if gate.Served? {
      SixAreComplete(gate.ticker.values);
    }
  }

  /** The six figures are those of the REST snapshot. */
  ghost predicate AgreesWith(rest: MarketSnapshot, ticker: Ticker)
    requires HasAllSix(ticker.values)
  {
    && rest.lastPrice == ticker.values["lastPrice"].value
    && rest.price24hPct == ticker.values["price24hPcnt"].value * 100.0
    && rest.turnover24h == ticker.values["turnover24h"].value
    && rest.volume24h == ticker.values["volume24h"].value
    && rest.markPrice == Some(ticker.values["markPrice"].value)
    && rest.openInterest == Some(ticker.values["openInterest"].value)
  }

  /** Two tickers differ exactly when one of the six figures does. */
  lemma DiffersIff(rest: MarketSnapshot, ticker: Ticker)
    requires Complete(ticker.values)
    ensures HasAllSix(ticker.values)
    ensures Differs(rest, ticker) <==> !AgreesWith(rest, ticker)
  {
    SixAreComplete(ticker.values);
  }

  /** What is recorded of a ticker: its choice or the fallback, and in shadow mode whether
      the six figures agree; a refusal with its reason. */
  lemma TickerEvidenceMeans(gate: Gate, rest: MarketSnapshot)
    requires gate.Served? ==> Complete(gate.ticker.values)
    ensures gate.Served? ==> HasAllSix(gate.ticker.values)
    ensures SourceEvidence(gate, rest) == match gate
      case Refused(reason) => Evidence("rest_fallback", rest.symbol, Some(OfTicker(reason)))
      case Served(_) => Evidence("hub_selected", rest.symbol, None)
    ensures ShadowEvidence(gate, rest) == match gate
      case Refused(reason) => Evidence("hub_shadow_unavailable", rest.symbol, Some(OfTicker(reason)))
      case Served(ticker) =>
        Evidence(if AgreesWith(rest, ticker) then "hub_shadow_match" else "hub_shadow_mismatch", rest.symbol, None)
  {
    if gate.Served? {
      DiffersIff(rest, gate.ticker);
    }
  }

  // ---------------------------------------------------------------- the closed candle

  /** The candle can be compared, as far as the hub goes. */
  ghost predicate Comparable(h: HubState, closed: Option<MarketCandle>) {
    && closed.Some? && closed.value.confirmed && closed.value.interval == "1" && closed.value.connectionEpoch.Some?
    && var epoch := closed.value.connectionEpoch.value;
       epoch.shardId in h.generations && h.generations[epoch.shardId] == epoch.generation
  }

  /** Each reason against the last closed candle is given exactly where its own check is
      the first to fail. */
  lemma CandleRefusedIff(reason: CandleRefusal, h: HubState, continuity: Option<Continuity.Tracker>, closed: Option<MarketCandle>,
                         symbol: string, captured: int)
    ensures CandleRefused(h, continuity, closed, symbol, captured) == Some(reason) <==>
      match reason
      case CLOSED_1M_MISSING => closed.None?
      case CLOSED_1M_UNCONFIRMED => closed.Some? && !(closed.value.confirmed && closed.value.interval == "1")
      case CLOSED_1M_UNINITIALIZED =>
        closed.Some? && closed.value.confirmed && closed.value.interval == "1" && closed.value.connectionEpoch.None?
      case CLOSED_1M_OLD_GENERATION =>
        && closed.Some? && closed.value.confirmed && closed.value.interval == "1" && closed.value.connectionEpoch.Some?
        && !Comparable(h, closed)
      case CLOSED_1M_FUTURE => Comparable(h, closed) && closed.value.receivedAt > captured
      case CLOSED_1M_GAP_OR_UNINITIALIZED =>
        && Comparable(h, closed) && closed.value.receivedAt <= captured
        && (continuity.None? || continuity.value.State(Upper(symbol)) in {Continuity.UNINITIALIZED, Continuity.GAP_DETECTED})
  {
  }

  /** One record a comparison: unavailable exactly with a reason, and none without a hub. */
  lemma CandleEvidenceMeans(hub: Option<HubState>, continuity: Option<Continuity.Tracker>, closed: Option<MarketCandle>,
                            symbol: string, captured: int, e: Evidence)
    ensures e in ClosedEvidence(hub, continuity, closed, symbol, captured) <==>
      && hub.Some? && e.symbol == symbol
      && (e.reason.None? ==>
            e.event == "hub_closed_1m_shadow" && CandleRefused(hub.value, continuity, closed, symbol, captured).None?)
      && (e.reason.Some? ==>
            && e.event == "hub_closed_1m_shadow_unavailable" && e.reason.value.OfCandle?
            && CandleRefused(hub.value, continuity, closed, symbol, captured) == Some(e.reason.value.candleRefusal))
    ensures |ClosedEvidence(hub, continuity, closed, symbol, captured)| == if hub.Some? then 1 else 0
  {
  }
}
