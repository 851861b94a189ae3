/** Socket cycles: generations, the universe event, and what a step keeps. */
module HubCycles {
  import opened MarketData
  import opened Planning
  import opened Hub

  // ---------------------------------------------------------------- generations

  /** How often the shard's connection was opened. */
  function Opens(start: HubState, steps: seq<Step>, shard: nat): nat {
    if steps == [] then 0 else
      var init, last := steps[..|steps| - 1], steps[|steps| - 1];
      var phase := Run(start, init).phase;
      Opens(start, init, shard) + if last.OpenConnection? && phase.Opening? && |phase.epochs| == shard then 1 else 0
  }

  lemma OneMoreOpen(h: HubState, step: Step, shard: nat)
    requires Enabled(h, step)
    ensures Generation(Next(h, step), shard) == Generation(h, shard)
      + if step.OpenConnection? && h.phase.Opening? && |h.phase.epochs| == shard then 1 else 0
  {
  }

  lemma PrefixIsRun(start: HubState, steps: seq<Step>)
    requires IsRun(start, steps) && steps != []
    ensures IsRun(start, steps[..|steps| - 1]) && Enabled(Run(start, steps[..|steps| - 1]), steps[|steps| - 1])
  {
    var init := steps[..|steps| - 1];
    forall i | 0 <= i < |init| ensures Enabled(Run(start, init[..i]), init[i]) {
      assert init[..i] == steps[..i];
      assert Enabled(Run(start, steps[..i]), steps[i]);
    }
  }

  /** A shard's generation is the number of times its connection was opened, over the
      whole life of the hub. */
  lemma {:induction false} GenerationsCountOpens(symbols: seq<string>, maxConnections: int, steps: seq<Step>, shard: nat)
    requires IsRun(NewHub(symbols, maxConnections), steps)
    ensures Generation(Run(NewHub(symbols, maxConnections), steps), shard) == Opens(NewHub(symbols, maxConnections), steps, shard)
  {
    if steps != [] {
      var start := NewHub(symbols, maxConnections);
      PrefixIsRun(start, steps);
      GenerationsCountOpens(symbols, maxConnections, steps[..|steps| - 1], shard);
      OneMoreOpen(Run(start, steps[..|steps| - 1]), steps[|steps| - 1], shard);
    }
  }

  /** How many subscription batches and pings were sent. */
  function Requests(steps: seq<Step>): nat {
    if steps == [] then 0 else
      var last := steps[|steps| - 1];
      Requests(steps[..|steps| - 1]) + if last.SendBatch? || last.Ping? then 1 else 0
  }

  lemma OneMoreRequest(h: HubState, step: Step)
    requires Enabled(h, step)
    ensures Next(h, step).requests == h.requests + if step.SendBatch? || step.Ping? then 1 else 0
  {
  }

  /** The request counter is the number of batches and pings sent, over the whole life of
      the hub. */
  lemma {:induction false} CounterCountsRequests(symbols: seq<string>, maxConnections: int, steps: seq<Step>)
    requires IsRun(NewHub(symbols, maxConnections), steps)
    ensures Run(NewHub(symbols, maxConnections), steps).requests == Requests(steps)
  {
    if steps != [] {
      var start := NewHub(symbols, maxConnections);
      PrefixIsRun(start, steps);
      CounterCountsRequests(symbols, maxConnections, steps[..|steps| - 1]);
      OneMoreRequest(Run(start, steps[..|steps| - 1]), steps[|steps| - 1]);
    }
  }

  /** Opening gives the next shard its next generation and drops exactly the tickers whose
      topics the connection carries; nothing is asked or answered yet. */
  lemma OpeningMeans(h: HubState, symbol: string)
    requires Enabled(h, OpenConnection)
    ensures var r, shard := Next(h, OpenConnection), |h.phase.epochs|;
      && r.phase == Opening(h.phase.plan, h.phase.epochs + [ConnectionEpoch(shard, Generation(h, shard) + 1)])
      && Generation(r, shard) == Generation(h, shard) + 1
      && (symbol in r.snapshots <==> symbol in h.snapshots && "tickers." + symbol !in h.phase.plan.connections[shard].topics)
      && (symbol in r.snapshots ==> r.snapshots[symbol] == h.snapshots[symbol])
      && r == h.(generations := r.generations, snapshots := r.snapshots, phase := r.phase)
  {
  }

  // ---------------------------------------------------------------- the universe

  /** A new universe keeps the tickers of the symbols it lists and drops the others. With
      a plan all its topics are expected and nothing is pending, acknowledged or failed,
      and the event is set; without one the sets stay as they were. */
  lemma UniverseMeans(h: HubState, names: seq<string>, planned: Result<TopicPlan>, symbol: string, topic: string)
    ensures var r := Next(h, UpdateUniverse(names, planned));
      && r.symbols == NormalizeSymbols(names) && r.phase == h.phase && r.generations == h.generations
      && r.requests == h.requests
      && (symbol in r.snapshots <==> symbol in h.snapshots && symbol in NormalizeSymbols(names))
      && (symbol in r.snapshots ==> r.snapshots[symbol] == h.snapshots[symbol])
      && (planned.Success? ==>
            && r.pending == map[] && r.acknowledged == {} && r.failed == {} && r.universeChanged
            && (topic in r.expected <==> topic in planned.value.topics))
      && (planned.Failure? ==>
            && r.pending == h.pending && r.acknowledged == h.acknowledged && r.failed == h.failed
            && r.expected == h.expected && r.universeChanged == h.universeChanged)
  {
  }

  predicate Sets(step: Step) {
    step.Stop? || (step.UpdateUniverse? && step.planned.Success?)
  }

  predicate Clears(step: Step) {
    step.UniverseNoticed? || step.ClearEvent?
  }

  /** Step i sets the event, and no later one clears it. */
  ghost predicate SetAt(steps: seq<Step>, i: nat)
    requires i < |steps|
  {
    Sets(steps[i]) && forall j | i < j < |steps| :: !Clears(steps[j])
  }

  /** A universe was adopted, or the hub stopped, and no later step cleared the event. */
  ghost predicate IsSet(steps: seq<Step>) {
    exists i: nat :: i < |steps| && SetAt(steps, i)
  }

  lemma SetNext(steps: seq<Step>, last: Step)
    ensures IsSet(steps + [last]) <==> Sets(last) || (!Clears(last) && IsSet(steps))
  {
    var all := steps + [last];
    if Sets(last) {
      assert SetAt(all, |steps|);
    }
    forall i: nat | i < |steps| ensures SetAt(all, i) <==> SetAt(steps, i) && !Clears(last) {
      if SetAt(all, i) {
        assert !Clears(all[|steps|]);
        assert forall j | i < j < |steps| :: all[j] == steps[j];
      }
    }
  }

  lemma EventNext(h: HubState, step: Step)
    ensures Next(h, step).universeChanged <==> Sets(step) || (!Clears(step) && h.universeChanged)
  {
    if step.Ack? || step.TickerArrives? {
      MessageKeepsEvent(h, step);
    }
  }

  lemma MessageKeepsEvent(h: HubState, step: Step)
    requires step.Ack? || step.TickerArrives?
    ensures Next(h, step).universeChanged == h.universeChanged
  {
  }

  lemma EventStep(start: HubState, init: seq<Step>, last: Step)
    requires Run(start, init).universeChanged <==> IsSet(init)
    ensures Run(start, init + [last]).universeChanged <==> IsSet(init + [last])
  {
    assert (init + [last])[..|init|] == init;
    EventNext(Run(start, init), last);
    SetNext(init, last);
  }

  lemma LastStep(steps: seq<Step>) returns (init: seq<Step>, last: Step)
    requires steps != []
    ensures steps == init + [last]
  {
    init, last := steps[..|steps| - 1], steps[|steps| - 1];
  }

  /** The universe event is set exactly when a universe was adopted, or the hub stopped,
      and it was neither noticed by the receive loop nor cleared since: no adopted universe
      is overlooked. */
  lemma {:induction false} EventIff(start: HubState, steps: seq<Step>)
    requires !start.universeChanged
    ensures Run(start, steps).universeChanged <==> IsSet(steps)
    decreases |steps|
  {
    if steps != [] {
      var init, last := LastStep(steps);
      EventIff(start, init);
      EventStep(start, init, last);
    }
  }

  // ---------------------------------------------------------------- the end of a cycle

  /** A lost connection, a noticed universe and a stop end the cycle. They keep the stored
      tickers, the generations and what was acknowledged; only a lost connection gives up
      the requests under way. */
  lemma EndingMeans(h: HubState, step: Step)
    requires step.Drop? || step.UniverseNoticed? || step.Stop?
    ensures var r := Next(h, step);
      && r.phase.Idle? && r.snapshots == h.snapshots && r.generations == h.generations
      && r.acknowledged == h.acknowledged && r.expected == h.expected && r.symbols == h.symbols && r.requests == h.requests
      && r.pending == (if step.Drop? then map[] else h.pending)
      && (!step.Drop? ==> r.failed == h.failed)
  {
  }

  /** A planned cycle opens connections from the first on, expects exactly the plan's topics
      and keeps the stored tickers until their connections open; one without a plan gives
      up the requests under way and stays idle. */
  lemma StartMeans(h: HubState, planned: Result<TopicPlan>, topic: string)
    requires Enabled(h, StartCycle(planned))
    ensures var r := Next(h, StartCycle(planned));
      && r.snapshots == h.snapshots && r.generations == h.generations && r.requests == h.requests && r.pending == map[]
      && (planned.Success? ==>
            && r.phase == Opening(planned.value, []) && r.acknowledged == {} && r.failed == {}
            && (topic in r.expected <==> topic in planned.value.topics))
      && (planned.Failure? ==> r.phase.Idle? && r.acknowledged == h.acknowledged && r.expected == h.expected)
  {
  }
}
