/** The stored tickers over any run of the hub. */
module HubTickers {
  import opened Text
  import opened MarketData
  import opened Planning
  import opened Hub
  import opened HubSubscriptions

  // ---------------------------------------------------------------- normal symbols

  ghost predicate Trimmed(s: string) {
    s == "" || (!IsSpace(s[0]) && !IsSpace(s[|s| - 1]))
  }

  lemma {:induction false} StripLeftFacts(s: string)
    ensures StripLeft(s) == "" || !IsSpace(StripLeft(s)[0])
  {
    if s != "" {
      StripLeftFacts(s[1..]);
    }
  }

  lemma {:induction false} StripRightFacts(s: string)
    requires s == "" || !IsSpace(s[0])
    ensures Trimmed(StripRight(s))
  {
    if s != "" {
      StripRightFacts(s[..|s| - 1]);
    }
  }

  lemma StripTrims(s: string)
    ensures Trimmed(Strip(s))
  {
    StripLeftFacts(s);
    StripRightFacts(StripLeft(s));
  }

  lemma {:induction false} UpperAt(s: string, i: nat)
    requires i < |s|
    ensures |Upper(s)| == |s| && Upper(s)[i] == UpperChar(s[i])
  {
    if i > 0 {
      UpperAt(s[1..], i - 1);
    } else if |s| > 1 {
      UpperAt(s[1..], 0);
    }
  }

  /** A symbol in the form `normalize_symbols` leaves. */
  ghost predicate IsNormal(s: string) {
    s != "" && Strip(s) == s && Upper(s) == s
  }

  lemma NormalizedIsNormal(symbols: seq<string>, s: string)
    requires s in NormalizeSymbols(symbols)
    ensures IsNormal(s)
  {
    assert s in Canonical(symbols);
    var x :| x in symbols && Strip(x) != "" && s == Upper(Strip(x));
    StripTrims(x);
    UpperIsNormal(Strip(x));
  }

  lemma UpperIsNormal(t: string)
    requires t != "" && Trimmed(t)
    ensures IsNormal(Upper(t))
  {
    UpperIdempotent(t);
    UpperAt(t, 0);
    UpperAt(t, |t| - 1);
  }

  /** A normal symbol's ticker topic is planned. */
  lemma TickerIsPlanned(symbols: seq<string>, s: string)
    requires s in symbols && IsNormal(s)
    ensures TICKERS + s in Topics(symbols)
  {
    TopicsAreExact(symbols, TICKERS + s);
  }

  // ---------------------------------------------------------------- the reference

  /** The messages for a symbol from its last full snapshot on. */
  function Since(log: seq<TickerMessage>, symbol: string): seq<TickerMessage> {
    if log == [] then [] else
      var last := log[|log| - 1];
      var before := Since(log[..|log| - 1], symbol);
      if Upper(last.symbol) != symbol then before
      else if last.isSnapshot then [last] else before + [last]
  }

  /** The last valid value of a ticker field in the messages. */
  function LastValue(ms: seq<TickerMessage>, field: string): Option<FieldValue> {
    if ms == [] then None else
      var last := ms[|ms| - 1];
      if field in TICKER_FIELDS && field in last.fields && last.fields[field].Some? then last.fields[field]
      else LastValue(ms[..|ms| - 1], field)
  }

  /** The last one given. */
  function LastCs(ms: seq<TickerMessage>): Option<int> {
    if ms == [] then None else
      var last := ms[|ms| - 1];
      if last.cs.Some? then last.cs else LastCs(ms[..|ms| - 1])
  }

  function LastTimestamp(ms: seq<TickerMessage>): Option<int> {
    if ms == [] then None else
      var last := ms[|ms| - 1];
      if last.exchangeTimestamp.Some? then last.exchangeTimestamp else LastTimestamp(ms[..|ms| - 1])
  }

  /** The messages start with a full snapshot and the others are deltas. */
  ghost predicate FromSnapshot(ms: seq<TickerMessage>) {
    ms != [] && ms[0].isSnapshot && forall k | 1 <= k < |ms| :: !ms[k].isSnapshot
  }

  /** Each field holds the last valid value sent since the snapshot, and no other field is set. */
  ghost predicate ValuesAre(values: Values, ms: seq<TickerMessage>) {
    forall field :: LastValue(ms, field) == if field in values then Some(values[field]) else None
  }

  /** The ticker is what the messages say. */
  ghost predicate TickerSays(t: Ticker, symbol: string, ms: seq<TickerMessage>) {
    && t.symbol == symbol
    && FromSnapshot(ms)
    && ValuesAre(t.values, ms)
    && t.cs == LastCs(ms)
    && t.exchangeTimestamp == LastTimestamp(ms)
    && t.receivedAt == ms[|ms| - 1].receivedAt
  }

  ghost predicate TickerIs(t: Ticker, symbol: string, ms: seq<TickerMessage>, epochs: seq<ConnectionEpoch>) {
    && TickerSays(t, symbol, ms)
    && ms[|ms| - 1].shard < |epochs|
    && t.connectionEpoch == epochs[ms[|ms| - 1].shard]
  }

  // ---------------------------------------------------------------- invariant

  ghost predicate EpochsInv(h: HubState) {
    !h.phase.Idle? ==>
      && |h.phase.epochs| <= |h.phase.plan.connections|
      && forall i | 0 <= i < |h.phase.epochs| :: h.phase.epochs[i].shardId == i && IsCurrent(h, h.phase.epochs[i])
  }

  ghost predicate SymbolsInv(h: HubState) {
    && (forall s | s in h.symbols :: IsNormal(s))
    && (forall s | s in h.snapshots :: s in h.symbols)
  }

  function TopicsFrom(plan: TopicPlan, i: nat): seq<string>
    requires i <= |AllGroups(plan.connections)|
  {
    Flatten(AllGroups(plan.connections)[i..])
  }

  /** While connections open, only tickers of connections still to open are left; while
      batches are sent there are none, and until messages arrive no topic is acknowledged;
      while messages arrive each ticker is as the log says; between cycles each ticker
      whose topic is still acknowledged is. */
  ghost predicate StoredInv(h: HubState, log: seq<TickerMessage>) {
    match h.phase
    case Idle =>
      forall s | s in h.snapshots && TICKERS + s in h.acknowledged :: TickerSays(h.snapshots[s], s, Since(log, s))
    case Opening(plan, epochs) =>
      && log == [] && h.acknowledged == {}
      && |AllGroups(plan.connections)| == |plan.connections|
      && |epochs| <= |plan.connections|
      && forall s | s in h.snapshots :: TICKERS + s in TopicsFrom(plan, |epochs|)
    case Sending(_, _, _) => log == [] && h.acknowledged == {} && h.snapshots == map[]
    case Receiving(_, epochs) =>
      forall s | s in h.snapshots :: TickerIs(h.snapshots[s], s, Since(log, s), epochs)
  }

  ghost predicate TickersInv(h: HubState, log: seq<TickerMessage>) {
    SymbolsInv(h) && EpochsInv(h) && StoredInv(h, log)
  }

  /** In an unchanged universe nothing is lost: a snapshot in the log means a ticker. */
  ghost predicate NoneLost(h: HubState, log: seq<TickerMessage>) {
    h.phase.Idle? || forall s | s in h.symbols && FromSnapshot(Since(log, s)) :: s in h.snapshots
  }

  function LogAfter(log: seq<TickerMessage>, step: Step): seq<TickerMessage> {
    match step
    case StartCycle(Success(_)) => []
    case TickerArrives(m) => log + [m]
    case _ => log
  }

  // ---------------------------------------------------------------- steps

  lemma {:induction false} AllGroupsAt(connections: seq<ConnectionTopics>, i: nat)
    requires i < |connections|
    ensures |AllGroups(connections)| == |connections|
    ensures AllGroups(connections)[i] == connections[i].topics
    decreases |connections|
  {
    GroupCount(connections);
    var init := connections[..|connections| - 1];
    GroupCount(init);
    if i < |init| {
      AllGroupsAt(init, i);
    }
  }

  lemma OpenKeeps(h: HubState, log: seq<TickerMessage>)
    requires TickersInv(h, log) && Enabled(h, OpenConnection)
    ensures TickersInv(Next(h, OpenConnection), log)
  {
    OpenKeepsEpochs(h);
    OpenKeepsStored(h, log);
  }

  lemma OpenKeepsEpochs(h: HubState)
    requires EpochsInv(h) && SymbolsInv(h) && Enabled(h, OpenConnection)
    ensures EpochsInv(Next(h, OpenConnection)) && SymbolsInv(Next(h, OpenConnection))
  {
  }

  lemma OpenKeepsStored(h: HubState, log: seq<TickerMessage>)
    requires StoredInv(h, log) && Enabled(h, OpenConnection)
    ensures StoredInv(Next(h, OpenConnection), log)
  {
    var plan := h.phase.plan;
    var i := |h.phase.epochs|;
    AllGroupsAt(plan.connections, i);
    SplitAt(AllGroups(plan.connections), i);
    OpenLeavesLater(h, log, plan, plan.connections[i].topics, TopicsFrom(plan, i + 1));
  }

  lemma OpenLeavesLater(h: HubState, log: seq<TickerMessage>, plan: TopicPlan, topics: seq<string>, later: seq<string>)
    requires StoredInv(h, log) && h.phase.Opening? && plan == h.phase.plan && |h.phase.epochs| < |plan.connections|
    requires topics == plan.connections[|h.phase.epochs|].topics && later == TopicsFrom(plan, |h.phase.epochs| + 1)
    requires TopicsFrom(plan, |h.phase.epochs|) == topics + later
    ensures StoredInv(Next(h, OpenConnection), log)
  {
    LaterTopics(h.snapshots, topics, later);
    assert Next(h, OpenConnection).snapshots == Invalidated(h.snapshots, topics);
  }

  lemma LaterTopics(snapshots: map<string, Ticker>, topics: seq<string>, later: seq<string>)
    requires forall s | s in snapshots :: TICKERS + s in topics + later
    ensures forall s | s in Invalidated(snapshots, topics) :: TICKERS + s in later
  {
  }

  lemma StartTickers(h: HubState, log: seq<TickerMessage>, planned: Result<TopicPlan>)
    requires TickersInv(h, log) && Enabled(h, StartCycle(planned))
    ensures TickersInv(Next(h, StartCycle(planned)), LogAfter(log, StartCycle(planned)))
    ensures NoneLost(Next(h, StartCycle(planned)), LogAfter(log, StartCycle(planned)))
  {
    if planned.Success? {
      var plan := planned.value;
      GroupCount(plan.connections);
      assert AllGroups(plan.connections)[0..] == AllGroups(plan.connections);
      forall s | s in h.snapshots ensures TICKERS + s in TopicsFrom(plan, 0) {
        TickerIsPlanned(h.symbols, s);
      }
    }
  }

  /** Once no topic is left to open, no ticker is left. */
  lemma NoneLeft(snapshots: map<string, Ticker>, topics: seq<string>)
    requires topics == []
    requires forall s | s in snapshots :: TICKERS + s in topics
    ensures snapshots == map[]
  {
    forall s ensures s !in snapshots {
    }
  }

  lemma FirstSendTickers(h: HubState, log: seq<TickerMessage>)
    requires TickersInv(h, log) && Enabled(h, SendBatch)
    ensures TickersInv(Next(h, SendBatch), log)
    ensures Next(h, SendBatch).snapshots == h.snapshots && Next(h, SendBatch).symbols == h.symbols
    ensures !Next(h, SendBatch).phase.Idle?
  {
    if h.phase.Opening? {
      var groups := AllGroups(h.phase.plan.connections);
      assert groups[|groups|..] == [];
      assert TopicsFrom(h.phase.plan, |h.phase.epochs|) == [];
      NoneLeft(h.snapshots, TopicsFrom(h.phase.plan, |h.phase.epochs|));
    }
  }

  lemma ValuesExtend(values: Values, ms: seq<TickerMessage>, m: TickerMessage)
    requires ValuesAre(values, ms)
    ensures ValuesAre(values + ValidValues(m), ms + [m])
  {
    assert (ms + [m])[..|ms|] == ms;
    forall field
      ensures LastValue(ms + [m], field) ==
        if field in values + ValidValues(m) then Some((values + ValidValues(m))[field]) else None
    {
      assert LastValue(ms, field) == if field in values then Some(values[field]) else None;
    }
  }

  lemma SnapshotTicker(m: TickerMessage, symbol: string, epochs: seq<ConnectionEpoch>)
    requires m.isSnapshot && m.shard < |epochs|
    ensures TickerIs(Ticker(symbol, epochs[m.shard], ValidValues(m), m.cs, m.exchangeTimestamp, m.receivedAt),
      symbol, [m], epochs)
  {
    assert [m][..0] == [];
  }

  lemma DeltaTicker(t: Ticker, r: Ticker, symbol: string, ms: seq<TickerMessage>, m: TickerMessage, epochs: seq<ConnectionEpoch>)
    requires TickerIs(t, symbol, ms, epochs) && !m.isSnapshot && m.shard < |epochs|
    requires r == t.(values := t.values + ValidValues(m), cs := Or(m.cs, t.cs),
      exchangeTimestamp := Or(m.exchangeTimestamp, t.exchangeTimestamp), receivedAt := m.receivedAt,
      connectionEpoch := epochs[m.shard])
    ensures TickerIs(r, symbol, ms + [m], epochs)
  {
    ValuesExtend(t.values, ms, m);
    assert (ms + [m])[..|ms|] == ms;
  }

  /** One message changes the reference of its own symbol only. */
  lemma SinceNext(log: seq<TickerMessage>, m: TickerMessage, symbol: string)
    ensures Since(log + [m], symbol) ==
      if Upper(m.symbol) != symbol then Since(log, symbol)
      else if m.isSnapshot then [m] else Since(log, symbol) + [m]
  {
    assert (log + [m])[..|log|] == log;
  }

  lemma MessageTicker(h: HubState, log: seq<TickerMessage>, m: TickerMessage, s: string)
    requires SymbolsInv(h) && StoredInv(h, log) && Enabled(h, TickerArrives(m))
    requires s in Next(h, TickerArrives(m)).snapshots
    ensures TickerIs(Next(h, TickerArrives(m)).snapshots[s], s, Since(log + [m], s), h.phase.epochs)
  {
    SinceNext(log, m, s);
    if Upper(m.symbol) != s {
      OtherTicker(h, m, s);
    } else {
      OwnIsListed(h, m, s);
      OwnTicker(h, log, m, s);
    }
  }

  lemma OtherTicker(h: HubState, m: TickerMessage, s: string)
    requires Enabled(h, TickerArrives(m)) && s in Next(h, TickerArrives(m)).snapshots
    requires Upper(m.symbol) != s
    ensures s in h.snapshots && Next(h, TickerArrives(m)).snapshots[s] == h.snapshots[s]
  {
  }

  lemma OwnIsListed(h: HubState, m: TickerMessage, s: string)
    requires SymbolsInv(h) && Enabled(h, TickerArrives(m)) && s in Next(h, TickerArrives(m)).snapshots
    requires Upper(m.symbol) == s
    ensures s in h.symbols
  {
  }

  lemma OwnTicker(h: HubState, log: seq<TickerMessage>, m: TickerMessage, s: string)
    requires StoredInv(h, log) && Enabled(h, TickerArrives(m))
    requires s in Next(h, TickerArrives(m)).snapshots && Upper(m.symbol) == s && s in h.symbols
    ensures TickerIs(Next(h, TickerArrives(m)).snapshots[s], s,
      if m.isSnapshot then [m] else Since(log, s) + [m], h.phase.epochs)
  {
    if m.isSnapshot {
      SnapshotTicker(m, s, h.phase.epochs);
    } else {
      assert s in h.snapshots;
      DeltaTicker(h.snapshots[s], Next(h, TickerArrives(m)).snapshots[s], s, Since(log, s), m, h.phase.epochs);
    }
  }

  lemma MessageFrame(h: HubState, m: TickerMessage)
    requires SymbolsInv(h) && EpochsInv(h) && Enabled(h, TickerArrives(m))
    ensures var r := Next(h, TickerArrives(m));
      && r.symbols == h.symbols && r.phase == h.phase && SymbolsInv(r) && EpochsInv(r)
      && forall s | s in h.snapshots :: s in r.snapshots
    ensures Upper(m.symbol) in h.symbols && m.isSnapshot ==> Upper(m.symbol) in Next(h, TickerArrives(m)).snapshots
  {
  }

  lemma SnapshotBefore(log: seq<TickerMessage>, m: TickerMessage, s: string)
    requires FromSnapshot(Since(log + [m], s)) && !(Upper(m.symbol) == s && m.isSnapshot)
    ensures FromSnapshot(Since(log, s))
  {
    SinceNext(log, m, s);
    var before := Since(log, s);
    if Upper(m.symbol) == s {
      assert before != [];
      assert (before + [m])[0] == before[0];
      forall k | 1 <= k < |before| ensures !before[k].isSnapshot {
        assert (before + [m])[k] == before[k];
      }
    }
  }

  lemma MessageKeeps(h: HubState, log: seq<TickerMessage>, m: TickerMessage)
    requires TickersInv(h, log) && Enabled(h, TickerArrives(m))
    ensures TickersInv(Next(h, TickerArrives(m)), log + [m])
    ensures NoneLost(h, log) ==> NoneLost(Next(h, TickerArrives(m)), log + [m])
  {
    var r := Next(h, TickerArrives(m));
    MessageFrame(h, m);
    forall s | s in r.snapshots ensures TickerIs(r.snapshots[s], s, Since(log + [m], s), h.phase.epochs) {
      MessageTicker(h, log, m, s);
    }
    if NoneLost(h, log) {
      MessageLosesNone(h, r, log, m);
    }
  }

  lemma MessageLosesNone(h: HubState, r: HubState, log: seq<TickerMessage>, m: TickerMessage)
    requires NoneLost(h, log) && !h.phase.Idle? && r.phase == h.phase && r.symbols == h.symbols
    requires forall s | s in h.snapshots :: s in r.snapshots
    requires Upper(m.symbol) in h.symbols && m.isSnapshot ==> Upper(m.symbol) in r.snapshots
    ensures NoneLost(r, log + [m])
  {
    forall s | s in r.symbols && FromSnapshot(Since(log + [m], s)) ensures s in r.snapshots {
      if !(Upper(m.symbol) == s && m.isSnapshot) {
        SnapshotBefore(log, m, s);
      }
    }
  }

  lemma UpdateTickers(h: HubState, log: seq<TickerMessage>, names: seq<string>, planned: Result<TopicPlan>)
    requires TickersInv(h, log)
    ensures TickersInv(Next(h, UpdateUniverse(names, planned)), log)
  {
    forall s | s in NormalizeSymbols(names) ensures IsNormal(s) {
      NormalizedIsNormal(names, s);
    }
  }

  lemma StepTickers(h: HubState, log: seq<TickerMessage>, step: Step)
    requires TickersInv(h, log) && Enabled(h, step)
    ensures TickersInv(Next(h, step), LogAfter(log, step))
    ensures NoneLost(h, log) && !step.UpdateUniverse? ==> NoneLost(Next(h, step), LogAfter(log, step))
  {
    match step
    case UpdateUniverse(names, planned) => UpdateTickers(h, log, names, planned);
    case StartCycle(planned) => StartTickers(h, log, planned);
    case OpenConnection => OpenKeeps(h, log);
    case SendBatch => FirstSendTickers(h, log);
    case StartReceiving =>
    case Ack(id, success) =>
    case TickerArrives(m) => MessageKeeps(h, log, m);
    case Ping =>
    case Drop =>
    case UniverseNoticed =>
    case Stop =>
    case ClearEvent =>
  }

  lemma {:induction false} RunTickers(symbols: seq<string>, maxConnections: int, steps: seq<Step>)
    requires IsRun(NewHub(symbols, maxConnections), steps)
    ensures TickersInv(Run(NewHub(symbols, maxConnections), steps), Log(steps))
    ensures Quiet(steps) ==> NoneLost(Run(NewHub(symbols, maxConnections), steps), Log(steps))
  {
    var start := NewHub(symbols, maxConnections);
    if steps == [] {
      forall s | s in start.symbols ensures IsNormal(s) {
        NormalizedIsNormal(symbols, s);
      }
    } else {
      var init := steps[..|steps| - 1];
      var last := steps[|steps| - 1];
      forall i | 0 <= i < |init| ensures Enabled(Run(start, init[..i]), init[i]) {
        assert init[..i] == steps[..i];
        assert Enabled(Run(start, steps[..i]), steps[i]);
      }
      RunTickers(symbols, maxConnections, init);
      assert Enabled(Run(start, steps[..|steps| - 1]), last);
      StepTickers(Run(start, init), Log(init), last);
      if last.StartCycle? {
        StartTickers(Run(start, init), Log(init), last.planned);
      }
    }
  }

  /** While the receive loop runs, every stored ticker is of the current socket
      generation and holds, field by field, the last valid value sent since that
      symbol's last full snapshot of this cycle. */
  lemma TickersAreCurrentFolds(symbols: seq<string>, maxConnections: int, steps: seq<Step>, s: string)
    requires IsRun(NewHub(symbols, maxConnections), steps)
    requires Run(NewHub(symbols, maxConnections), steps).phase.Receiving?
    requires s in Run(NewHub(symbols, maxConnections), steps).snapshots
    ensures var h := Run(NewHub(symbols, maxConnections), steps);
      && s in h.symbols
      && IsCurrent(h, h.snapshots[s].connectionEpoch)
      && TickerIs(h.snapshots[s], s, Since(Log(steps), s), h.phase.epochs)
  {
    RunTickers(symbols, maxConnections, steps);
    var h := Run(NewHub(symbols, maxConnections), steps);
    assert TickerIs(h.snapshots[s], s, Since(Log(steps), s), h.phase.epochs);
  }

  /** At every point of every run, a stored ticker whose topic is acknowledged holds what
      was sent since the symbol's last full snapshot of the last planned cycle. */
  lemma AcknowledgedTickersAreFolds(symbols: seq<string>, maxConnections: int, steps: seq<Step>, s: string)
    requires IsRun(NewHub(symbols, maxConnections), steps)
    requires s in Run(NewHub(symbols, maxConnections), steps).snapshots
    requires TICKERS + s in Run(NewHub(symbols, maxConnections), steps).acknowledged
    ensures TickerSays(Run(NewHub(symbols, maxConnections), steps).snapshots[s], s, Since(Log(steps), s))
  {
    RunTickers(symbols, maxConnections, steps);
    var h := Run(NewHub(symbols, maxConnections), steps);
    assert h.phase.Receiving? ==> TickerIs(h.snapshots[s], s, Since(Log(steps), s), h.phase.epochs);
  }

  /** In an unchanged universe a symbol has a ticker exactly when a full snapshot for
      it arrived in this cycle. */
  lemma StoredIff(symbols: seq<string>, maxConnections: int, steps: seq<Step>, s: string)
    requires IsRun(NewHub(symbols, maxConnections), steps) && Quiet(steps)
    requires Run(NewHub(symbols, maxConnections), steps).phase.Receiving?
    requires s in Run(NewHub(symbols, maxConnections), steps).symbols
    ensures s in Run(NewHub(symbols, maxConnections), steps).snapshots <==>
      exists m :: m in Log(steps) && Upper(m.symbol) == s && m.isSnapshot
  {
    RunTickers(symbols, maxConnections, steps);
    SinceHasSnapshot(Log(steps), s);
    var h := Run(NewHub(symbols, maxConnections), steps);
    if s in h.snapshots {
      assert TickerIs(h.snapshots[s], s, Since(Log(steps), s), h.phase.epochs);
    }
  }

  lemma {:induction false} SinceHasSnapshot(log: seq<TickerMessage>, s: string)
    ensures FromSnapshot(Since(log, s)) <==> exists m :: m in log && Upper(m.symbol) == s && m.isSnapshot
    ensures forall k | 1 <= k < |Since(log, s)| :: !Since(log, s)[k].isSnapshot
    ensures Since(log, s) != [] && Since(log, s)[0].isSnapshot ==> FromSnapshot(Since(log, s))
  {
    if log != [] {
      var init, last := log[..|log| - 1], log[|log| - 1];
      SinceHasSnapshot(init, s);
      assert forall m | m in log :: m in init || m == last;
      assert last in log && forall m | m in init :: m in log;
      if Upper(last.symbol) == s && !last.isSnapshot {
        if Since(init, s) == [] {
          assert Since(log, s) == [last];
        } else {
          assert Since(log, s)[0] == Since(init, s)[0];
        }
      }
    }
  }
}
