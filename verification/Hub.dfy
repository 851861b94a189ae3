/** The WebSocket hub as a state machine. A socket cycle opens one connection per
    planned group, sends every subscription batch, then receives; any step may be
    interleaved wherever the cycle waits. */
module Hub {
  import opened Text
  import opened MarketData
  import opened Planning

  datatype RequestId = RequestId(operation: string, number: nat)

  const SUBSCRIBE := "subscribe"

  datatype FieldValue = Number(value: real) | Time(ms: int)

  /** The fields a ticker keeps. */
  const TICKER_FIELDS := {
    "lastPrice", "markPrice", "indexPrice", "fundingRate", "openInterest", "volume24h",
    "turnover24h", "price24hPcnt", "highPrice24h", "lowPrice24h", "prevPrice24h", "bid1Price",
    "bid1Size", "ask1Price", "ask1Size", "openInterestValue", "nextFundingTime" }

  type Values = map<string, FieldValue>

  datatype Ticker = Ticker(
    symbol: string,
    connectionEpoch: ConnectionEpoch,
    values: Values,
    cs: Option<int>,
    exchangeTimestamp: Option<int>,
    receivedAt: int)

  /** A ticker message whose data is an object with a textual symbol: its fields with
      what they parse to (None for an invalid value), and the connection it came on. */
  datatype TickerMessage = TickerMessage(
    symbol: string,
    isSnapshot: bool,
    fields: map<string, Option<FieldValue>>,
    cs: Option<int>,
    exchangeTimestamp: Option<int>,
    receivedAt: int,
    shard: nat)

  datatype Phase =
    | Idle
    | Opening(plan: TopicPlan, epochs: seq<ConnectionEpoch>)
    | Sending(plan: TopicPlan, epochs: seq<ConnectionEpoch>, sent: nat)
    | Receiving(plan: TopicPlan, epochs: seq<ConnectionEpoch>)

  datatype HubState = HubState(
    maxConnections: int,
    symbols: seq<string>,
    snapshots: map<string, Ticker>,
    pending: map<RequestId, seq<string>>,
    expected: set<string>,
    acknowledged: set<string>,
    failed: set<string>,
    generations: map<nat, nat>,
    requests: nat,
    universeChanged: bool,
    phase: Phase)

  function NewHub(symbols: seq<string>, maxConnections: int): HubState {
    HubState(maxConnections, NormalizeSymbols(symbols), map[], map[], {}, {}, {}, map[], 0, false, Idle)
  }

  // ---------------------------------------------------------------- handlers

  function Elements(topics: seq<string>): set<string> {
    set t | t in topics
  }

  /** The stores are cut down to the new names. */
  function Cut(h: HubState, names: seq<string>): HubState {
    h.(symbols := names, snapshots := map s | s in h.snapshots && s in names :: h.snapshots[s])
  }

  /** A new plan empties the sets and expects its topics. */
  function Adopted(h: HubState, planned: Result<TopicPlan>): HubState {
    match planned
    case Failure(_) => h
    case Success(plan) =>
      h.(expected := Elements(plan.topics), acknowledged := {}, failed := {}, pending := map[], universeChanged := true)
  }

  /** `update_universe`. Planning comes after the stores are cut down, so when it
      raises, the subscription sets stay as they were. */
  function UniverseUpdated(h: HubState, symbols: seq<string>, planned: Result<TopicPlan>): HubState {
    Adopted(Cut(h, NormalizeSymbols(symbols)), planned)
  }

  function PendingTopics(pending: map<RequestId, seq<string>>): set<string> {
    set id, t | id in pending && t in pending[id] :: t
  }

  /** `_fail_pending` */
  function PendingFailed(h: HubState): HubState {
    h.(failed := h.failed + PendingTopics(h.pending), pending := map[])
  }

  /** `_register_subscribe` under the next request id */
  function Registered(h: HubState, topics: seq<string>): HubState {
    h.(requests := h.requests + 1,
       pending := h.pending[RequestId(SUBSCRIBE, h.requests + 1) := topics],
       expected := h.expected + Elements(topics))
  }

  /** `_handle_ack` */
  function AckHandled(h: HubState, id: RequestId, success: bool): HubState {
    if id !in h.pending then h else
      var topics := Elements(h.pending[id]);
      var popped := h.(pending := h.pending - {id});
      if success
      then popped.(acknowledged := h.acknowledged + topics, failed := h.failed - topics)
      else popped.(failed := h.failed + topics)
  }

  function Generation(h: HubState, shard: nat): nat {
    if shard in h.generations then h.generations[shard] else 0
  }

  /** `_next_connection_epoch` */
  function NextEpoch(h: HubState, shard: nat): ConnectionEpoch {
    ConnectionEpoch(shard, Generation(h, shard) + 1)
  }

  /** `is_current_connection_epoch` */
  predicate IsCurrent(h: HubState, epoch: ConnectionEpoch) {
    epoch.shardId in h.generations && h.generations[epoch.shardId] == epoch.generation
  }

  /** `_invalidate_tickers_for_topics` */
  function Invalidated(snapshots: map<string, Ticker>, topics: seq<string>): map<string, Ticker> {
    map s | s in snapshots && TICKERS + s !in topics :: snapshots[s]
  }

  function ValidValues(m: TickerMessage): Values {
    map f | f in m.fields && f in TICKER_FIELDS && m.fields[f].Some? :: m.fields[f].value
  }

  function Or<T>(a: Option<T>, b: Option<T>): Option<T> {
    if a.Some? then a else b
  }

  /** `_handle_ticker` */
  function TickerHandled(h: HubState, m: TickerMessage, epoch: ConnectionEpoch): HubState {
    var symbol := Upper(m.symbol);
    if symbol !in h.symbols || (!m.isSnapshot && symbol !in h.snapshots) then h
    else if m.isSnapshot then
      h.(snapshots := h.snapshots[symbol :=
        Ticker(symbol, epoch, ValidValues(m), m.cs, m.exchangeTimestamp, m.receivedAt)])
    else
      var stored := h.snapshots[symbol];
      h.(snapshots := h.snapshots[symbol :=
        stored.(values := stored.values + ValidValues(m),
             cs := Or(m.cs, stored.cs),
             exchangeTimestamp := Or(m.exchangeTimestamp, stored.exchangeTimestamp),
             receivedAt := m.receivedAt,
             connectionEpoch := epoch)])
  }

  // ---------------------------------------------------------------- steps

  datatype Step =
    | UpdateUniverse(names: seq<string>, planned: Result<TopicPlan>)
    | StartCycle(planned: Result<TopicPlan>)
    | OpenConnection
    | SendBatch
    | StartReceiving
    | Ack(id: RequestId, success: bool)
    | TickerArrives(message: TickerMessage)
    | Ping
    | Drop
    | UniverseNoticed
    | Stop
    | ClearEvent

  /** The symbols' topics fit the default budgets and the connections there are. */
  ghost predicate Plannable(topics: seq<string>, maxConnections: int) {
    && Splittable(topics, DEFAULT_CONNECTION_TOPIC_BUDGET)
    && Fits(topics, DEFAULT_CONNECTION_TOPIC_BUDGET, maxConnections)
    && (topics == [] || Splittable(topics, DEFAULT_REQUEST_BATCH_BUDGET))
  }

  /** What `plan_topics` returns for the symbols, with its default budgets: a plan
      exactly when there is one. */
  ghost predicate Planned(symbols: seq<string>, maxConnections: int, r: Result<TopicPlan>) {
    PlannedTopics(Topics(symbols), maxConnections, r)
  }

  ghost predicate PlannedTopics(topics: seq<string>, maxConnections: int, r: Result<TopicPlan>) {
    && (r.Success? <==> Plannable(topics, maxConnections))
    && (r.Success? ==> IsPlan(r.value, topics,
          DEFAULT_CONNECTION_TOPIC_BUDGET, DEFAULT_REQUEST_BATCH_BUDGET, maxConnections))
  }

  /** The step can happen in this state. */
  ghost predicate Enabled(h: HubState, step: Step) {
    match step
    case UpdateUniverse(names, planned) => Planned(NormalizeSymbols(names), h.maxConnections, planned)
    case StartCycle(planned) => h.phase.Idle? && h.symbols != [] && Planned(h.symbols, h.maxConnections, planned)
    case OpenConnection => h.phase.Opening? && |h.phase.epochs| < |h.phase.plan.connections|
    case SendBatch =>
      || (h.phase.Opening? && |h.phase.epochs| == |h.phase.plan.connections| && AllBatches(h.phase.plan.connections) != [])
      || (h.phase.Sending? && h.phase.sent < |AllBatches(h.phase.plan.connections)|)
    case StartReceiving => h.phase.Sending? && h.phase.sent == |AllBatches(h.phase.plan.connections)|
    case Ack(_, _) => h.phase.Receiving?
    case TickerArrives(m) => h.phase.Receiving? && m.shard < |h.phase.epochs|
    case Ping => h.phase.Receiving?
    case Drop => !h.phase.Idle?
    case UniverseNoticed => h.phase.Receiving? && h.universeChanged
    case Stop => true
    case ClearEvent => h.phase.Idle?
  }

  function Next(h: HubState, step: Step): HubState {
    match step
    case UpdateUniverse(names, planned) => UniverseUpdated(h, names, planned)
    case StartCycle(planned) =>
      (match planned
       case Failure(_) => PendingFailed(h)
       case Success(plan) =>
         h.(expected := Elements(plan.topics), acknowledged := {}, failed := {}, pending := map[],
            phase := Opening(plan, [])))
    case OpenConnection =>
      if !h.phase.Opening? || |h.phase.epochs| >= |h.phase.plan.connections| then h else
        var shard := |h.phase.epochs|;
        var epoch := NextEpoch(h, shard);
        h.(generations := h.generations[shard := epoch.generation],
           snapshots := Invalidated(h.snapshots, h.phase.plan.connections[shard].topics),
           phase := Opening(h.phase.plan, h.phase.epochs + [epoch]))
    case SendBatch =>
      if h.phase.Idle? || h.phase.Receiving? then h else
        var sent := if h.phase.Sending? then h.phase.sent else 0;
        var batches := AllBatches(h.phase.plan.connections);
        if sent >= |batches| then h else
          Registered(h, batches[sent]).(phase := Sending(h.phase.plan, h.phase.epochs, sent + 1))
    case StartReceiving =>
      if h.phase.Sending? then h.(phase := Receiving(h.phase.plan, h.phase.epochs)) else h
    case Ack(id, success) => AckHandled(h, id, success)
    case TickerArrives(m) =>
      if h.phase.Receiving? && m.shard < |h.phase.epochs| then TickerHandled(h, m, h.phase.epochs[m.shard]) else h
    case Ping => h.(requests := h.requests + 1)
    case Drop => PendingFailed(h).(phase := Idle)
    case UniverseNoticed => h.(phase := Idle, universeChanged := false)
    case Stop => h.(phase := Idle, universeChanged := true)
    case ClearEvent => h.(universeChanged := false)
  }

  /** A run: every step is enabled where it happens. */
  ghost predicate IsRun(start: HubState, steps: seq<Step>) {
    forall i | 0 <= i < |steps| :: Enabled(Run(start, steps[..i]), steps[i])
  }

  function Run(start: HubState, steps: seq<Step>): HubState {
    if steps == [] then start else Next(Run(start, steps[..|steps| - 1]), steps[|steps| - 1])
  }

  // ---------------------------------------------------------------- history

  /** The ticker messages handled since the last planned cycle started. */
  function Log(steps: seq<Step>): seq<TickerMessage> {
    if steps == [] then [] else
      var before := Log(steps[..|steps| - 1]);
      match steps[|steps| - 1]
      case StartCycle(Success(_)) => []
      case TickerArrives(m) => before + [m]
      case _ => before
  }

  /** No universe change since the current cycle started. */
  predicate Quiet(steps: seq<Step>) {
    steps != [] &&
    match steps[|steps| - 1]
    case StartCycle(_) => true
    case UpdateUniverse(_, _) => false
    case _ => Quiet(steps[..|steps| - 1])
  }

  /** The request counter when the subscription sets were last emptied: ids up to it
      belong to earlier cycles or universes. */
  function Floor(start: HubState, steps: seq<Step>): nat {
    if steps == [] then start.requests else
      var before := Run(start, steps[..|steps| - 1]);
      match steps[|steps| - 1]
      case StartCycle(Success(_)) => before.requests
      case UpdateUniverse(_, Success(_)) => before.requests
      case _ => Floor(start, steps[..|steps| - 1])
  }
}
