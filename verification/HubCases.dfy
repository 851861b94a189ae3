/** A run of the hub that ends with a ticker in the receive loop. */
module HubCases {
  import opened Text
  import opened MarketData
  import opened Planning
  import opened Hub
  import opened HubTickers
  import SortedStrings

  // ---------------------------------------------------------------- a universe of one symbol

  lemma OneSymbol(s: string)
    requires IsNormal(s)
    ensures NormalizeSymbols([s]) == [s]
  {
    assert s in [s];
    assert Canonical([s]) == {s};
    var names := NormalizeSymbols([s]);
    assert |names| == 1 && names[0] in names;
  }

  function OnePlan(s: string): TopicPlan {
    TopicPlan(Topics([s]), [ConnectionTopics(Topics([s]), [Topics([s])])])
  }

  lemma TwoTopics(s: string)
    ensures |TopicsOf({s})| == 2
    ensures forall t | t in TopicsOf({s}) :: |t| <= |s| + 8
  {
    var ticker, kline := TICKERS + s, KLINE + s;
    assert ticker[0] != kline[0];
    assert TopicsOf({s}) == {ticker, kline};
  }

  /** The symbol's two topics, which fit one batch. */
  lemma OneSymbolTopics(s: string)
    requires IsNormal(s)
    ensures |Topics([s])| == 2 && TICKERS + s in Topics([s])
    ensures forall t | t in Topics([s]) :: |t| <= |s| + 8
  {
    OneSymbolSet(s);
    TwoTopics(s);
    TickerIsPlanned([s], s);
  }

  lemma OneSymbolSet(s: string)
    requires IsNormal(s)
    ensures Topics([s]) == SortedStrings.Sorted(TopicsOf({s}))
  {
    OneSymbol(s);
    assert (set x | x in NormalizeSymbols([s])) == {s};
  }

  lemma OneBatch(topics: seq<string>, size: nat)
    requires |topics| == 2 && forall t | t in topics :: |t| <= size
    ensures Size(topics) <= 2 * size
    ensures Flatten([topics]) == topics
  {
    SizeSnoc(topics[..1], topics[1]);
    SizeSnoc([], topics[0]);
    assert topics == topics[..1] + [topics[1]] && topics[..1] == [] + [topics[0]];
    FlattenSnoc([], topics);
    assert [] + [topics] == [topics];
  }

  lemma OnePlanIsPlanned(s: string, maxConnections: int)
    requires IsNormal(s) && |s| <= 3_900 && maxConnections >= 1
    ensures Planned([s], maxConnections, Success(OnePlan(s)))
  {
    OneSymbolTopics(s);
    OneBatchPlan(Topics([s]), |s| + 8, maxConnections);
  }

  lemma OneBatchPlan(topics: seq<string>, size: nat, maxConnections: int)
    requires |topics| == 2 && size <= 4_000 && maxConnections >= 1 && forall t | t in topics :: |t| <= size
    ensures PlannedTopics(topics, maxConnections, Success(TopicPlan(topics, [ConnectionTopics(topics, [topics])])))
  {
    OneBatch(topics, size);
    OneFits(topics, maxConnections);
    OneIsPlan(topics, maxConnections);
  }

  lemma OneIsPlan(topics: seq<string>, maxConnections: int)
    requires topics != [] && Size(topics) <= 8_000 && Flatten([topics]) == topics && maxConnections >= 1
    ensures IsPlan(TopicPlan(topics, [ConnectionTopics(topics, [topics])]), topics,
      DEFAULT_CONNECTION_TOPIC_BUDGET, DEFAULT_REQUEST_BATCH_BUDGET, maxConnections)
  {
    OneConnection(topics);
    OneIsGreedy(topics, DEFAULT_CONNECTION_TOPIC_BUDGET);
    OneIsGreedy(topics, DEFAULT_REQUEST_BATCH_BUDGET);
  }

  lemma OneIsGreedy(topics: seq<string>, budget: int)
    requires topics != [] && Size(topics) <= budget && Flatten([topics]) == topics
    ensures ValidSplit(topics, [topics], budget) && Greedy([topics], budget)
    ensures Batched(ConnectionTopics(topics, [topics]), budget)
  {
  }

  lemma OneConnection(topics: seq<string>)
    ensures AllBatches([ConnectionTopics(topics, [topics])]) == [topics]
    ensures AllGroups([ConnectionTopics(topics, [topics])]) == [topics]
  {
    assert [ConnectionTopics(topics, [topics])][..0] == [];
  }

  lemma OneFits(topics: seq<string>, maxConnections: int)
    requires ValidSplit(topics, [topics], DEFAULT_CONNECTION_TOPIC_BUDGET) && maxConnections >= 1
    ensures Fits(topics, DEFAULT_CONNECTION_TOPIC_BUDGET, maxConnections)
  {
    assert |[topics]| <= maxConnections;
  }

  // ---------------------------------------------------------------- the run

  lemma OneMore(start: HubState, steps: seq<Step>, step: Step)
    requires IsRun(start, steps) && Enabled(Run(start, steps), step)
    ensures IsRun(start, steps + [step]) && Run(start, steps + [step]) == Next(Run(start, steps), step)
  {
    var all := steps + [step];
    assert all[..|steps|] == steps;
    forall i | 0 <= i < |all| ensures Enabled(Run(start, all[..i]), all[i]) {
      if i < |steps| {
        SamePrefix(steps, step, i);
        assert Enabled(Run(start, steps[..i]), steps[i]);
      }
    }
  }

  lemma SamePrefix(steps: seq<Step>, step: Step, i: nat)
    requires i < |steps|
    ensures (steps + [step])[..i] == steps[..i] && (steps + [step])[i] == steps[i]
  {
  }

  const FULL_FIELDS: map<string, Option<FieldValue>> := map[
    "lastPrice" := Some(Number(1.0)), "price24hPcnt" := Some(Number(1.0)), "turnover24h" := Some(Number(1.0)),
    "volume24h" := Some(Number(1.0)), "markPrice" := Some(Number(1.0)), "openInterest" := Some(Number(1.0))]

  function FullSnapshot(s: string, at: int): TickerMessage {
    TickerMessage(s, true, FULL_FIELDS, None, None, at, 0)
  }

  function FirstRequest(): RequestId {
    RequestId(SUBSCRIBE, 1)
  }

  function FirstEpoch(): ConnectionEpoch {
    ConnectionEpoch(0, 1)
  }

  /** The symbol's one connection is open. */
  ghost predicate Connected(h: HubState, s: string) {
    h.symbols == [s] && IsCurrent(h, FirstEpoch())
  }

  lemma Connects(h: HubState, plan: TopicPlan)
    requires h.phase == Opening(plan, []) && |plan.connections| == 1 && h.generations == map[]
    ensures Enabled(h, OpenConnection)
    ensures Next(h, OpenConnection) ==
      h.(generations := h.generations[0 := 1],
         snapshots := Invalidated(h.snapshots, plan.connections[0].topics),
         phase := Opening(plan, [FirstEpoch()]))
  {
    assert NextEpoch(h, 0) == FirstEpoch();
    assert h.phase.epochs + [FirstEpoch()] == [FirstEpoch()];
  }

  lemma Asks(h: HubState, s: string)
    requires Connected(h, s) && h.phase == Opening(OnePlan(s), [FirstEpoch()]) && h.requests == 0 && h.pending == map[]
    ensures Enabled(h, SendBatch)
    ensures var r := Next(h, SendBatch);
      && Connected(r, s) && r.phase == Sending(OnePlan(s), [FirstEpoch()], 1)
      && r.pending == map[FirstRequest() := Topics([s])]
      && Enabled(r, StartReceiving)
  {
    OneConnection(Topics([s]));
    assert h.phase.plan.connections == OnePlan(s).connections;
  }

  lemma Acks(h: HubState, s: string)
    requires Connected(h, s) && h.phase == Receiving(OnePlan(s), [FirstEpoch()])
    requires h.pending == map[FirstRequest() := Topics([s])]
    ensures Enabled(h, Ack(FirstRequest(), true))
    ensures var r := Next(h, Ack(FirstRequest(), true));
      Connected(r, s) && r.phase == h.phase && Elements(Topics([s])) <= r.acknowledged
  {
  }

  function FullTicker(s: string, at: int): Ticker {
    Ticker(s, FirstEpoch(), ValidValues(FullSnapshot(s, at)), None, None, at)
  }

  lemma Arrives(h: HubState, s: string, at: int)
    requires Connected(h, s) && h.phase == Receiving(OnePlan(s), [FirstEpoch()]) && Upper(s) == s
    ensures Enabled(h, TickerArrives(FullSnapshot(s, at)))
    ensures var r := Next(h, TickerArrives(FullSnapshot(s, at)));
      r == h.(snapshots := h.snapshots[s := FullTicker(s, at)])
  {
  }

  /** A hub over one symbol can get as far as an acknowledged, current ticker with
      every required field. */
  lemma TickerCanArrive(s: string, maxConnections: int, at: int) returns (steps: seq<Step>)
    requires IsNormal(s) && |s| <= 3_900 && maxConnections >= 1
    ensures IsRun(NewHub([s], maxConnections), steps)
    ensures var h := Run(NewHub([s], maxConnections), steps);
      && h.phase.Receiving? && TICKERS + s in h.acknowledged
      && s in h.snapshots && h.snapshots[s] == FullTicker(s, at)
      && IsCurrent(h, FirstEpoch())
  {
    var start := NewHub([s], maxConnections);
    steps := AskingRun(s, maxConnections);
    var asked := Run(start, steps);
    OneMore(start, steps, StartReceiving);
    steps := steps + [StartReceiving];
    Acks(Run(start, steps), s);
    OneMore(start, steps, Ack(FirstRequest(), true));
    steps := steps + [Ack(FirstRequest(), true)];
    Arrives(Run(start, steps), s, at);
    OneMore(start, steps, TickerArrives(FullSnapshot(s, at)));
    steps := steps + [TickerArrives(FullSnapshot(s, at))];
    OneSymbolTopics(s);
  }

  lemma AskingRun(s: string, maxConnections: int) returns (steps: seq<Step>)
    requires IsNormal(s) && |s| <= 3_900 && maxConnections >= 1
    ensures IsRun(NewHub([s], maxConnections), steps)
    ensures var h := Run(NewHub([s], maxConnections), steps);
      && Connected(h, s) && h.phase == Sending(OnePlan(s), [FirstEpoch()], 1)
      && h.pending == map[FirstRequest() := Topics([s])]
      && Enabled(h, StartReceiving)
  {
    var start := NewHub([s], maxConnections);
    steps := OpeningRun(s, maxConnections);
    Connects(Run(start, steps), OnePlan(s));
    OneMore(start, steps, OpenConnection);
    steps := steps + [OpenConnection];
    Asks(Run(start, steps), s);
    OneMore(start, steps, SendBatch);
    steps := steps + [SendBatch];
  }

  lemma OpeningRun(s: string, maxConnections: int) returns (steps: seq<Step>)
    requires IsNormal(s) && |s| <= 3_900 && maxConnections >= 1
    ensures IsRun(NewHub([s], maxConnections), steps)
    ensures var h := Run(NewHub([s], maxConnections), steps);
      && h.symbols == [s] && h.phase == Opening(OnePlan(s), []) && h.generations == map[]
      && h.requests == 0 && h.pending == map[]
  {
    FirstCycle(s, maxConnections);
    steps := [StartCycle(Success(OnePlan(s)))];
    FirstStep(NewHub([s], maxConnections), steps[0]);
  }

  lemma FirstStep(start: HubState, step: Step)
    requires Enabled(start, step)
    ensures IsRun(start, [step]) && Run(start, [step]) == Next(start, step)
  {
    assert [step][..0] == [];
  }

  lemma FirstCycle(s: string, maxConnections: int)
    requires IsNormal(s) && |s| <= 3_900 && maxConnections >= 1
    ensures Enabled(NewHub([s], maxConnections), StartCycle(Success(OnePlan(s))))
    ensures var h := Next(NewHub([s], maxConnections), StartCycle(Success(OnePlan(s))));
      && h.symbols == [s] && h.phase == Opening(OnePlan(s), []) && h.generations == map[]
      && h.requests == 0 && h.pending == map[]
  {
    OneSymbol(s);
    OnePlanIsPlanned(s, maxConnections);
    CycleStarts(NewHub([s], maxConnections), s);
  }

  lemma CycleStarts(h: HubState, s: string)
    requires h.phase.Idle? && h.symbols == [s] && Planned([s], h.maxConnections, Success(OnePlan(s)))
    ensures Enabled(h, StartCycle(Success(OnePlan(s))))
    ensures var r := Next(h, StartCycle(Success(OnePlan(s))));
      && r.symbols == h.symbols && r.phase == Opening(OnePlan(s), []) && r.generations == h.generations
      && r.requests == h.requests && r.pending == map[]
  {
  }
}
