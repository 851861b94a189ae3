/** The hub object: every method is the in-place code, proved against the steps of
    Hub. `phase` is where the supervising task stands between two awaits. */
module HubObject {
  import opened Text
  import opened MarketData
  import opened Planning
  import opened Hub
  import opened HubSubscriptions
  import opened HubTickers

  lemma NewKeeps(symbols: seq<string>, maxConnections: int)
    ensures Kept(NewHub(symbols, maxConnections), [])
  {
    RunKeeps(symbols, maxConnections, []);
    RunTickers(symbols, maxConnections, []);
  }

  /** What the steps keep: the subscription sets and the stored tickers. */
  ghost predicate Kept(h: HubState, log: seq<TickerMessage>) {
    SubscriptionInv(h) && TickersInv(h, log)
  }

  lemma NextKeeps(h: HubState, log: seq<TickerMessage>, step: Step)
    requires Kept(h, log) && Enabled(h, step)
    ensures Kept(Next(h, step), LogAfter(log, step))
  {
    StepKeeps(h, step);
    StepTickers(h, log, step);
  }

  lemma UpdateIs(before: HubState, log: seq<TickerMessage>, after: HubState, names: seq<string>, planned: Result<TopicPlan>)
    requires Kept(before, log) && Planned(NormalizeSymbols(names), before.maxConnections, planned)
    requires after == Adopted(Cut(before, NormalizeSymbols(names)), planned)
    ensures after == Next(before, UpdateUniverse(names, planned)) && Kept(after, log)
  {
    NextKeeps(before, log, UpdateUniverse(names, planned));
  }

  class MarketDataHub {
    const maxConnections: int
    var symbols: seq<string>
    var snapshots: map<string, Ticker>
    var pending: map<RequestId, seq<string>>
    var expected: set<string>
    var acknowledged: set<string>
    var failed: set<string>
    var generations: map<nat, nat>
    var requests: nat
    var universeChanged: bool
    var phase: Phase
    ghost var log: seq<TickerMessage>

    function Value(): HubState
      reads this
    {
      HubState(maxConnections, symbols, snapshots, pending, expected, acknowledged, failed,
               generations, requests, universeChanged, phase)
    }

    ghost predicate Valid()
      reads this
    {
      Kept(Value(), log)
    }

    constructor (symbols: seq<string>, maxConnections: int)
      ensures Value() == NewHub(symbols, maxConnections) && log == []
      ensures Valid()
    {
      this.maxConnections := maxConnections;
      this.symbols := NormalizeSymbols(symbols);
      snapshots, pending := map[], map[];
      expected, acknowledged, failed := {}, {}, {};
      generations, requests, universeChanged := map[], 0, false;
      phase, log := Idle, [];
      new;
      NewKeeps(symbols, maxConnections);
    }

    /** `plan_topics` over the current symbols, with the default budgets. */
    method Plan() returns (planned: Result<TopicPlan>)
      ensures Planned(symbols, maxConnections, planned)
    {
      planned := PlanTopics(symbols, DEFAULT_CONNECTION_TOPIC_BUDGET, DEFAULT_REQUEST_BATCH_BUDGET, maxConnections);
    }

    // -------------------------------------------------------------- handlers

    /** `_next_request_id` */
    method NextRequestId(operation: string) returns (id: RequestId)
      modifies this`requests
      ensures requests == old(requests) + 1
      ensures id == RequestId(operation, requests)
    {
      requests := requests + 1;
      id := RequestId(operation, requests);
    }

    /** `_register_subscribe` */
    method RegisterSubscribe(id: RequestId, topics: seq<string>)
      modifies this`pending, this`expected
      ensures pending == old(pending)[id := topics]
      ensures expected == old(expected) + Elements(topics)
    {
      pending := pending[id := topics];
      expected := expected + Elements(topics);
    }

    /** `_fail_pending` */
    method FailPending()
      modifies this`pending, this`failed
      ensures Value() == PendingFailed(old(Value()))
    {
      var remaining := pending.Keys;
      ghost var done: set<RequestId> := {};
      while remaining != {}
        invariant remaining <= pending.Keys && done == pending.Keys - remaining
        invariant failed == old(failed) + PendingTopics(map id | id in pending && id in done :: pending[id])
        invariant pending == old(pending)
        decreases |remaining|
      {
        var id :| id in remaining;
        ghost var before := map other | other in pending && other in done :: pending[other];
        PendingAdds(before, id, pending[id]);
        done := done + {id};
        assert (map other | other in pending && other in done :: pending[other]) == before[id := pending[id]];
        failed := failed + Elements(pending[id]);
        remaining := remaining - {id};
      }
      assert (map id | id in pending && id in done :: pending[id]) == pending;
      pending := map[];
    }

    /** `_handle_ack` */
    method HandleAck(id: RequestId, success: bool)
      modifies this`pending, this`acknowledged, this`failed
      ensures Value() == AckHandled(old(Value()), id, success)
      ensures id in old(pending) ==>
        && pending == old(pending) - {id}
        && acknowledged == old(acknowledged) + (if success then Elements(old(pending)[id]) else {})
        && failed == if success then old(failed) - Elements(old(pending)[id]) else old(failed) + Elements(old(pending)[id])
      ensures id !in old(pending) ==> pending == old(pending) && acknowledged == old(acknowledged) && failed == old(failed)
    {
      if id !in pending {
        return;
      }
      var topics := pending[id];
      pending := pending - {id};
      if success {
        acknowledged := acknowledged + Elements(topics);
        failed := failed - Elements(topics);
      } else {
        failed := failed + Elements(topics);
      }
    }

    /** `_next_connection_epoch` */
    method NextConnectionEpoch(shard: nat) returns (epoch: ConnectionEpoch)
      modifies this`generations
      ensures epoch == NextEpoch(old(Value()), shard)
      ensures generations == old(generations)[shard := epoch.generation]
      ensures IsCurrent(Value(), epoch)
      ensures forall other: ConnectionEpoch | other.shardId == shard && IsCurrent(old(Value()), other) ::
        !IsCurrent(Value(), other)
    {
      var generation := (if shard in generations then generations[shard] else 0) + 1;
      generations := generations[shard := generation];
      epoch := ConnectionEpoch(shard, generation);
    }

    /** `_invalidate_tickers_for_topics`: pop the symbol of every ticker topic. */
    method InvalidateTickers(topics: seq<string>)
      modifies this`snapshots
      ensures snapshots == Invalidated(old(snapshots), topics)
    {
      for i := 0 to |topics|
        invariant snapshots == Invalidated(old(snapshots), topics[..i])
      {
        var topic := topics[i];
        assert topics[..i + 1] == topics[..i] + [topic];
        if TICKERS <= topic {
          assert topic == TICKERS + topic[|TICKERS|..];
          snapshots := snapshots - {topic[|TICKERS|..]};
          assert forall s :: TICKERS + s == topic <==> s == topic[|TICKERS|..] by {
            forall s | TICKERS + s == topic ensures s == topic[|TICKERS|..] {
              assert (TICKERS + s)[|TICKERS|..] == s;
            }
          }
        } else {
          assert forall s :: TICKERS + s != topic by {
            forall s ensures TICKERS + s != topic {
              assert TICKERS <= TICKERS + s;
            }
          }
        }
      }
      assert topics[..|topics|] == topics;
    }

    /** `_handle_ticker` */
    method HandleTicker(m: TickerMessage, epoch: ConnectionEpoch)
      modifies this`snapshots
      ensures Value() == TickerHandled(old(Value()), m, epoch)
    {
      var symbol := Upper(m.symbol);
      if symbol !in symbols {
        return;
      }
      if !m.isSnapshot && symbol !in snapshots {
        return;
      }
      var values := ValidValues(m);
      if m.isSnapshot {
        snapshots := snapshots[symbol :=
          Ticker(symbol, epoch, values, m.cs, m.exchangeTimestamp, m.receivedAt)];
      } else {
        var stored := snapshots[symbol];
        snapshots := snapshots[symbol := stored.(
          values := stored.values + values,
          cs := if m.cs.Some? then m.cs else stored.cs,
          exchangeTimestamp := if m.exchangeTimestamp.Some? then m.exchangeTimestamp else stored.exchangeTimestamp,
          receivedAt := m.receivedAt,
          connectionEpoch := epoch)];
      }
    }

    // -------------------------------------------------------------- steps

    /** The stores are cut down to the new names before planning. */
    method CutTo(names: seq<string>)
      modifies this`symbols, this`snapshots
      ensures Value() == Cut(old(Value()), NormalizeSymbols(names))
    {
      symbols := NormalizeSymbols(names);
      snapshots := map s | s in snapshots && s in symbols :: snapshots[s];
    }

    /** Expect exactly the plan's topics, none answered yet. */
    method Expect(topics: seq<string>)
      modifies this`expected, this`acknowledged, this`failed, this`pending
      ensures expected == Elements(topics)
      ensures acknowledged == {} && failed == {} && pending == map[]
    {
      expected := Elements(topics);
      acknowledged, failed, pending := {}, {}, map[];
    }

    /** The end of `update_universe`; when planning raised, the sets stay. */
    method Adopt(planned: Result<TopicPlan>)
      modifies this`expected, this`acknowledged, this`failed, this`pending, this`universeChanged
      ensures Value() == Adopted(old(Value()), planned)
    {
      if planned.Success? {
        Expect(planned.value.topics);
        universeChanged := true;
      }
    }

    method CutAndPlan(names: seq<string>) returns (planned: Result<TopicPlan>)
      modifies this`symbols, this`snapshots
      ensures Planned(NormalizeSymbols(names), maxConnections, planned)
      ensures Value() == Cut(old(Value()), NormalizeSymbols(names))
    {
      CutTo(names);
      planned := Plan();
    }

    /** `update_universe` */
    method Update(names: seq<string>) returns (planned: Result<TopicPlan>)
      requires Valid()
      modifies this
      ensures Planned(NormalizeSymbols(names), maxConnections, planned)
      ensures Value() == Next(old(Value()), UpdateUniverse(names, planned)) && log == old(log)
      ensures Valid()
    {
      ghost var before := Value();
      planned := CutAndPlan(names);
      Adopt(planned);
      UpdateIs(before, log, Value(), names, planned);
    }

    /** The head of a supervising round, once planned: forget the last cycle's answers. */
    method Start(planned: Result<TopicPlan>)
      modifies this
      ensures Value() == Next(old(Value()), StartCycle(planned)) && log == LogAfter(old(log), StartCycle(planned))
    {
      match planned {
        case Failure(_) => FailPending();
        case Success(plan) =>
          Expect(plan.topics);
          phase := Opening(plan, []);
          log := [];
      }
    }

    /** A supervising round starts. */
    method Begin() returns (planned: Result<TopicPlan>)
      requires Valid() && phase.Idle? && symbols != []
      modifies this
      ensures Planned(old(symbols), maxConnections, planned)
      ensures Value() == Next(old(Value()), StartCycle(planned)) && log == LogAfter(old(log), StartCycle(planned))
      ensures Valid()
    {
      ghost var before := Value();
      ghost var earlier := log;
      planned := Plan();
      Start(planned);
      NextKeeps(before, earlier, StartCycle(planned));
    }

    /** The next connection of the cycle opened. */
    method Open()
      requires Valid() && Enabled(Value(), OpenConnection)
      modifies this`generations, this`snapshots, this`phase
      ensures Value() == Next(old(Value()), OpenConnection)
      ensures Valid()
    {
      NextKeeps(Value(), log, OpenConnection);
      var shard := |phase.epochs|;
      var epoch := NextConnectionEpoch(shard);
      InvalidateTickers(phase.plan.connections[shard].topics);
      phase := Opening(phase.plan, phase.epochs + [epoch]);
    }

    /** The next batch is registered, then sent. */
    method SendNext(sent: nat)
      requires !phase.Idle? && sent < |AllBatches(phase.plan.connections)|
      modifies this`requests, this`pending, this`expected, this`phase
      ensures Value() == Registered(old(Value()), AllBatches(old(phase).plan.connections)[sent]).(
        phase := Sending(old(phase).plan, old(phase).epochs, sent + 1))
    {
      var batch := AllBatches(phase.plan.connections)[sent];
      var id := NextRequestId(SUBSCRIBE);
      RegisterSubscribe(id, batch);
      phase := Sending(phase.plan, phase.epochs, sent + 1);
    }

    method Send()
      requires Valid() && Enabled(Value(), SendBatch)
      modifies this`requests, this`pending, this`expected, this`phase
      ensures Value() == Next(old(Value()), SendBatch)
      ensures Valid()
    {
      ghost var before := Value();
      SendIs(before);
      SendNext(if phase.Sending? then phase.sent else 0);
      NextKeeps(before, log, SendBatch);
    }

    method Listen()
      requires Valid() && Enabled(Value(), StartReceiving)
      modifies this`phase
      ensures Value() == Next(old(Value()), StartReceiving)
      ensures Valid()
    {
      NextKeeps(Value(), log, StartReceiving);
      phase := Receiving(phase.plan, phase.epochs);
    }

    method ReceiveAck(id: RequestId, success: bool)
      requires Valid() && phase.Receiving?
      modifies this`pending, this`acknowledged, this`failed
      ensures Value() == Next(old(Value()), Ack(id, success))
      ensures id in old(pending) ==>
        && acknowledged == old(acknowledged) + (if success then Elements(old(pending)[id]) else {})
        && failed == old(failed) + (if success then {} else Elements(old(pending)[id]))
      ensures Valid()
    {
      NextKeeps(Value(), log, Ack(id, success));
      HandleAck(id, success);
    }

    method ReceiveTicker(m: TickerMessage)
      requires Valid() && phase.Receiving? && m.shard < |phase.epochs|
      modifies this`snapshots, this`log
      ensures Value() == Next(old(Value()), TickerArrives(m)) && log == old(log) + [m]
      ensures Valid()
    {
      NextKeeps(Value(), log, TickerArrives(m));
      HandleTicker(m, phase.epochs[m.shard]);
      log := log + [m];
    }

    /** The transport failed: the cycle ends and unanswered batches count as failed. */
    method Disconnect()
      requires Valid() && !phase.Idle?
      modifies this`pending, this`failed, this`phase
      ensures Value() == Next(old(Value()), Drop)
      ensures Valid()
    {
      NextKeeps(Value(), log, Drop);
      FailPending();
      phase := Idle;
    }

    /** The receive loop sees the universe event: the cycle ends and the event is cleared. */
    method LeaveForUniverse()
      requires Valid() && phase.Receiving? && universeChanged
      modifies this`phase, this`universeChanged
      ensures Value() == Next(old(Value()), UniverseNoticed)
      ensures Valid()
    {
      NextKeeps(Value(), log, UniverseNoticed);
      phase, universeChanged := Idle, false;
    }

    /** `get_snapshot` */
    method GetSnapshot(symbol: string) returns (r: Option<Ticker>)
      requires Valid()
      ensures r.Some? <==> Upper(symbol) in snapshots
      ensures r.Some? ==> r.value == snapshots[Upper(symbol)] && Upper(symbol) in symbols
      ensures r.Some? && phase.Receiving? ==> IsCurrent(Value(), r.value.connectionEpoch)
    {
      var name := Upper(symbol);
      if name !in snapshots {
        return None;
      }
      assert phase.Receiving? ==> TickerIs(snapshots[name], name, Since(log, name), phase.epochs);
      return Some(snapshots[name]);
    }
  }
}
