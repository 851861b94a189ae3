/** The four subscription sets over any run of the hub. */
module HubSubscriptions {
  import opened Planning
  import opened Hub

  // ---------------------------------------------------------------- batches

  ghost predicate NoRepeats(q: seq<string>) {
    forall i, j | 0 <= i < j < |q| :: q[i] != q[j]
  }

  function Batches(plan: TopicPlan): seq<seq<string>> {
    AllBatches(plan.connections)
  }

  /** How many batches of the cycle were sent. */
  function Sent(phase: Phase): nat
    requires !phase.Idle?
  {
    match phase
    case Opening(_, _) => 0
    case Sending(_, _, sent) => sent
    case Receiving(plan, _) => |Batches(plan)|
  }

  /** The topics of the batches not sent yet. */
  function Unsent(phase: Phase): set<string>
    requires !phase.Idle? && Sent(phase) <= |Batches(phase.plan)|
  {
    Elements(Flatten(Batches(phase.plan)[Sent(phase)..]))
  }

  lemma FlattenCons(first: seq<string>, rest: seq<seq<string>>)
    ensures Flatten([first] + rest) == first + Flatten(rest)
  {
    FlattenConcat([first], rest);
    assert [first][..0] == [];
    assert Flatten([first]) == Flatten([]) + first;
  }

  lemma PartsDisjoint(before: seq<string>, middle: seq<string>, rest: seq<string>)
    requires NoRepeats(before + middle + rest)
    ensures Elements(middle) !! Elements(rest)
  {
    var all := before + middle + rest;
    forall i, j | 0 <= i < |middle| && 0 <= j < |rest| ensures middle[i] != rest[j] {
      assert all[|before| + i] == middle[i] && all[|before| + |middle| + j] == rest[j];
    }
  }

  lemma ElementsConcat(a: seq<string>, b: seq<string>)
    ensures Elements(a + b) == Elements(a) + Elements(b)
  {
  }

  lemma FlattenParts(front: seq<seq<string>>, middle: seq<string>, back: seq<seq<string>>)
    ensures Flatten([middle] + back) == middle + Flatten(back)
    ensures Flatten(front + [middle]) == Flatten(front) + middle
    ensures Flatten(front + [middle] + back) == Flatten(front) + middle + Flatten(back)
  {
    FlattenCons(middle, back);
    FlattenSnoc(front, middle);
    FlattenConcat(front + [middle], back);
  }

  lemma Parts<T>(q: seq<T>, k: nat)
    requires k < |q|
    ensures q[k..] == [q[k]] + q[k + 1..]
    ensures q[..k + 1] == q[..k] + [q[k]]
    ensures q == q[..k] + [q[k]] + q[k + 1..]
  {
  }

  lemma SplitAt(batches: seq<seq<string>>, k: nat)
    requires k < |batches|
    ensures Flatten(batches[k..]) == batches[k] + Flatten(batches[k + 1..])
    ensures Flatten(batches[..k + 1]) == Flatten(batches[..k]) + batches[k]
    ensures Flatten(batches) == Flatten(batches[..k]) + batches[k] + Flatten(batches[k + 1..])
  {
    Parts(batches, k);
    FlattenParts(batches[..k], batches[k], batches[k + 1..]);
  }

  /** The next batch and the later ones share no topic. */
  lemma NextBatch(batches: seq<seq<string>>, k: nat)
    requires NoRepeats(Flatten(batches)) && k < |batches|
    ensures Elements(Flatten(batches[k..])) == Elements(batches[k]) + Elements(Flatten(batches[k + 1..]))
    ensures Elements(batches[k]) !! Elements(Flatten(batches[k + 1..]))
    ensures Elements(Flatten(batches[..k + 1])) == Elements(Flatten(batches[..k])) + Elements(batches[k])
    ensures Elements(batches[k]) <= Elements(Flatten(batches))
  {
    SplitAt(batches, k);
    var before, rest := Flatten(batches[..k]), Flatten(batches[k + 1..]);
    ElementsConcat(batches[k], rest);
    ElementsConcat(before, batches[k]);
    ElementsConcat(before + batches[k], rest);
    PartsDisjoint(before, batches[k], rest);
  }

  lemma PlanHasNoRepeats(symbols: seq<string>, maxConnections: int, plan: TopicPlan)
    requires Planned(symbols, maxConnections, Success(plan))
    ensures NoRepeats(Flatten(Batches(plan))) && Flatten(Batches(plan)) == plan.topics
  {
  }

  // ---------------------------------------------------------------- invariant

  ghost predicate PendingInv(h: HubState) {
    && (forall id | id in h.pending :: id.number <= h.requests)
    && (forall id | id in h.pending ::
          && Elements(h.pending[id]) <= h.expected
          && Elements(h.pending[id]) !! h.acknowledged
          && Elements(h.pending[id]) !! h.failed)
    && (forall a, b | a in h.pending && b in h.pending && a != b :: Elements(h.pending[a]) !! Elements(h.pending[b]))
  }

  ghost predicate SetsInv(h: HubState) {
    h.acknowledged !! h.failed && h.acknowledged <= h.expected && h.failed <= h.expected
  }

  function Settled(h: HubState): set<string> {
    h.acknowledged + h.failed + PendingTopics(h.pending)
  }

  ghost predicate CycleInv(h: HubState) {
    h.phase.Idle? || (
      && Sent(h.phase) <= |Batches(h.phase.plan)|
      && NoRepeats(Flatten(Batches(h.phase.plan)))
      && Unsent(h.phase) !! Settled(h))
  }

  ghost predicate SubscriptionInv(h: HubState) {
    PendingInv(h) && SetsInv(h) && CycleInv(h)
  }

  /** While the universe is unchanged, the settled topics are those of the batches sent. */
  ghost predicate ExactInv(h: HubState) {
    h.phase.Idle? || (
      && Sent(h.phase) <= |Batches(h.phase.plan)|
      && Flatten(Batches(h.phase.plan)) == Topics(h.symbols)
      && h.expected == Elements(Topics(h.symbols))
      && Settled(h) == Elements(Flatten(Batches(h.phase.plan)[..Sent(h.phase)])))
  }

  // ---------------------------------------------------------------- steps

  lemma PendingAdds(pending: map<RequestId, seq<string>>, id: RequestId, topics: seq<string>)
    requires id !in pending
    ensures PendingTopics(pending[id := topics]) == PendingTopics(pending) + Elements(topics)
  {
    var after := pending[id := topics];
    forall t | t in PendingTopics(pending) + Elements(topics) ensures t in PendingTopics(after) {
      if t in Elements(topics) {
        assert id in after && t in after[id];
      } else {
        var other :| other in pending && t in pending[other];
        assert other in after && t in after[other];
      }
    }
  }

  lemma PendingDrops(pending: map<RequestId, seq<string>>, id: RequestId)
    requires id in pending
    ensures PendingTopics(pending) == PendingTopics(pending - {id}) + Elements(pending[id])
  {
    assert (pending - {id})[id := pending[id]] == pending;
    PendingAdds(pending - {id}, id, pending[id]);
  }

  /** Sending registers the next batch of the cycle. */
  lemma SendIs(h: HubState)
    requires CycleInv(h) && Enabled(h, SendBatch)
    ensures !h.phase.Idle? && Sent(h.phase) < |Batches(h.phase.plan)|
    ensures Next(h, SendBatch) ==
      Registered(h, Batches(h.phase.plan)[Sent(h.phase)]).(phase := Sending(h.phase.plan, h.phase.epochs, Sent(h.phase) + 1))
  {
  }

  /** A batch that shares no topic with the settled ones can be registered. */
  lemma RegisterKeeps(h: HubState, topics: seq<string>)
    requires PendingInv(h) && SetsInv(h)
    requires Elements(topics) !! Settled(h)
    ensures PendingInv(Registered(h, topics)) && SetsInv(Registered(h, topics))
    ensures Settled(Registered(h, topics)) == Settled(h) + Elements(topics)
  {
    var id := RequestId(SUBSCRIBE, h.requests + 1);
    assert id !in h.pending;
    PendingAdds(h.pending, id, topics);
    PendingInside(h);
    RegisterPending(h, Registered(h, topics), id, topics);
  }

  lemma RegisterPending(h: HubState, r: HubState, id: RequestId, topics: seq<string>)
    requires PendingInv(h) && id.number == h.requests + 1
    requires r == h.(requests := h.requests + 1, pending := h.pending[id := topics], expected := h.expected + Elements(topics))
    requires Elements(topics) !! h.acknowledged && Elements(topics) !! h.failed
    requires forall other | other in h.pending :: Elements(topics) !! Elements(h.pending[other])
    ensures PendingInv(r)
  {
  }

  lemma SendKeeps(h: HubState)
    requires SubscriptionInv(h) && Enabled(h, SendBatch)
    ensures SubscriptionInv(Next(h, SendBatch))
    ensures ExactInv(h) ==> ExactInv(Next(h, SendBatch))
  {
    SendIs(h);
    var batch := Batches(h.phase.plan)[Sent(h.phase)];
    NextBatch(Batches(h.phase.plan), Sent(h.phase));
    RegisterKeeps(h, batch);
    SentOneMore(h, Registered(h, batch), Next(h, SendBatch), Sent(h.phase));
  }

  /** Once the batch is registered, only the phase moves on. */
  lemma SentOneMore(h: HubState, g: HubState, r: HubState, k: nat)
    requires !h.phase.Idle? && k == Sent(h.phase) < |Batches(h.phase.plan)| && CycleInv(h)
    requires r == g.(phase := Sending(h.phase.plan, h.phase.epochs, k + 1))
    requires g == Registered(h, Batches(h.phase.plan)[k]) && PendingInv(g) && SetsInv(g)
    requires Settled(g) == Settled(h) + Elements(Batches(h.phase.plan)[k])
    ensures SubscriptionInv(r)
    ensures ExactInv(h) ==> ExactInv(r)
  {
    NextBatch(Batches(h.phase.plan), k);
    assert Settled(r) == Settled(g);
    SamePending(g, r);
    if ExactInv(h) {
      SentIsExact(h, r, Batches(h.phase.plan), k);
    }
  }

  lemma SamePending(g: HubState, r: HubState)
    requires PendingInv(g) && SetsInv(g)
    requires r.requests == g.requests && r.pending == g.pending
    requires r.expected == g.expected && r.acknowledged == g.acknowledged && r.failed == g.failed
    ensures PendingInv(r) && SetsInv(r)
  {
  }

  lemma SentIsExact(h: HubState, r: HubState, batches: seq<seq<string>>, k: nat)
    requires !h.phase.Idle? && batches == Batches(h.phase.plan) && k == Sent(h.phase) < |batches| && ExactInv(h)
    requires NoRepeats(Flatten(batches))
    requires r.phase == Sending(h.phase.plan, h.phase.epochs, k + 1) && r.symbols == h.symbols
    requires r.expected == h.expected + Elements(batches[k]) && Settled(r) == Settled(h) + Elements(batches[k])
    ensures ExactInv(r)
  {
    NextBatch(batches, k);
  }

  lemma PendingInside(h: HubState)
    ensures forall id | id in h.pending :: Elements(h.pending[id]) <= PendingTopics(h.pending)
  {
  }

  lemma AckKeeps(h: HubState, id: RequestId, success: bool)
    requires SubscriptionInv(h)
    ensures SubscriptionInv(AckHandled(h, id, success))
    ensures Settled(AckHandled(h, id, success)) == Settled(h)
    ensures ExactInv(h) ==> ExactInv(AckHandled(h, id, success))
    ensures id in h.pending ==> var r := AckHandled(h, id, success);
      && r.acknowledged == h.acknowledged + (if success then Elements(h.pending[id]) else {})
      && r.failed == h.failed + (if success then {} else Elements(h.pending[id]))
  {
    if id in h.pending {
      PendingDrops(h.pending, id);
    }
  }

  lemma FailKeeps(h: HubState)
    requires SubscriptionInv(h)
    ensures SubscriptionInv(PendingFailed(h))
    ensures PendingTopics(h.pending) <= h.expected
    ensures PendingTopics(h.pending) !! h.acknowledged
  {
    assert PendingTopics(map[]) == {};
  }

  lemma NewCycleIsExact(r: HubState, plan: TopicPlan)
    requires r.phase == Opening(plan, []) && r.expected == Elements(plan.topics)
    requires r.acknowledged == {} && r.failed == {} && r.pending == map[]
    requires NoRepeats(Flatten(Batches(plan))) && Flatten(Batches(plan)) == plan.topics == Topics(r.symbols)
    ensures SubscriptionInv(r) && ExactInv(r)
  {
    assert PendingTopics(map[]) == {};
    assert Batches(plan)[..0] == [];
  }

  /** Starting a cycle empties the sets and expects the plan's topics. */
  lemma StartKeeps(h: HubState, planned: Result<TopicPlan>)
    requires SubscriptionInv(h) && Enabled(h, StartCycle(planned))
    ensures SubscriptionInv(Next(h, StartCycle(planned)))
    ensures ExactInv(Next(h, StartCycle(planned)))
  {
    match planned
    case Failure(_) => FailKeeps(h);
    case Success(plan) =>
      PlanHasNoRepeats(h.symbols, h.maxConnections, plan);
      NewCycleIsExact(Next(h, StartCycle(planned)), plan);
  }

  lemma UpdateKeeps(h: HubState, names: seq<string>, planned: Result<TopicPlan>)
    requires SubscriptionInv(h)
    ensures SubscriptionInv(UniverseUpdated(h, names, planned))
  {
    assert PendingTopics(map[]) == {};
  }

  /** The invariants look at the sets, the batches and how many were sent. */
  lemma SameSetsSameInv(h: HubState, r: HubState)
    requires r.pending == h.pending && r.expected == h.expected && r.acknowledged == h.acknowledged && r.failed == h.failed
    requires r.symbols == h.symbols && r.requests >= h.requests
    requires !r.phase.Idle? ==> !h.phase.Idle? && r.phase.plan == h.phase.plan && Sent(r.phase) == Sent(h.phase)
    ensures SubscriptionInv(h) ==> SubscriptionInv(r)
    ensures ExactInv(h) ==> ExactInv(r)
  {
    assert Settled(r) == Settled(h);
    assert PendingInv(h) ==> PendingInv(r);
  }

  lemma OtherStepKeeps(h: HubState, step: Step)
    requires SubscriptionInv(h) && Enabled(h, step)
    requires step.OpenConnection? || step.TickerArrives? || step.Ping? || step.UniverseNoticed? || step.Stop? || step.ClearEvent?
    ensures SubscriptionInv(Next(h, step))
    ensures ExactInv(h) ==> ExactInv(Next(h, step))
  {
    SameSetsSameInv(h, Next(h, step));
  }

  /** Every step keeps the subscription invariant, and all but a universe change keep
      the exact account. */
  lemma StepKeeps(h: HubState, step: Step)
    requires SubscriptionInv(h) && Enabled(h, step)
    ensures SubscriptionInv(Next(h, step))
    ensures ExactInv(h) && !step.UpdateUniverse? ==> ExactInv(Next(h, step))
  {
    match step
    case UpdateUniverse(names, planned) => UpdateKeeps(h, names, planned);
    case StartCycle(planned) => StartKeeps(h, planned);
    case SendBatch => SendKeeps(h);
    case StartReceiving => ReceivingKeeps(h);
    case Ack(id, success) => AckKeeps(h, id, success);
    case Drop => FailKeeps(h);
    case _ => OtherStepKeeps(h, step);
  }

  lemma ReceivingKeeps(h: HubState)
    requires SubscriptionInv(h) && Enabled(h, StartReceiving)
    ensures SubscriptionInv(Next(h, StartReceiving))
    ensures ExactInv(h) ==> ExactInv(Next(h, StartReceiving))
  {
  }

  lemma {:induction false} RunKeeps(symbols: seq<string>, maxConnections: int, steps: seq<Step>)
    requires IsRun(NewHub(symbols, maxConnections), steps)
    ensures SubscriptionInv(Run(NewHub(symbols, maxConnections), steps))
    ensures Quiet(steps) ==> ExactInv(Run(NewHub(symbols, maxConnections), steps))
  {
    var start := NewHub(symbols, maxConnections);
    if steps == [] {
      assert PendingTopics(map[]) == {};
    } else {
      var init := steps[..|steps| - 1];
      forall i | 0 <= i < |init| ensures Enabled(Run(start, init[..i]), init[i]) {
        assert init[..i] == steps[..i];
        assert Enabled(Run(start, steps[..i]), steps[i]);
      }
      RunKeeps(symbols, maxConnections, init);
      assert Enabled(Run(start, steps[..|steps| - 1]), steps[|steps| - 1]);
      StepKeeps(Run(start, init), steps[|steps| - 1]);
      if steps[|steps| - 1].StartCycle? {
        StartKeeps(Run(start, init), steps[|steps| - 1].planned);
      }
    }
  }

  /** At any point of any run the acknowledged, failed and pending topics are pairwise
      disjoint, each topic is pending under at most one request, and all are expected. */
  lemma SetsAreDisjoint(symbols: seq<string>, maxConnections: int, steps: seq<Step>)
    requires IsRun(NewHub(symbols, maxConnections), steps)
    ensures var h := Run(NewHub(symbols, maxConnections), steps);
      var pending := PendingTopics(h.pending);
      && h.acknowledged !! h.failed && h.acknowledged !! pending && h.failed !! pending
      && h.acknowledged + h.failed + pending <= h.expected
      && forall a, b | a in h.pending && b in h.pending && a != b :: Elements(h.pending[a]) !! Elements(h.pending[b])
  {
    RunKeeps(symbols, maxConnections, steps);
  }

  /** Once all batches of an unchanged universe are sent, the three sets together are
      exactly the expected topics, which are those of the current symbols. */
  lemma SetsAreComplete(symbols: seq<string>, maxConnections: int, steps: seq<Step>)
    requires IsRun(NewHub(symbols, maxConnections), steps) && Quiet(steps)
    requires Run(NewHub(symbols, maxConnections), steps).phase.Receiving?
    ensures var h := Run(NewHub(symbols, maxConnections), steps);
      h.acknowledged + h.failed + PendingTopics(h.pending) == h.expected == Elements(Topics(h.symbols))
  {
    RunKeeps(symbols, maxConnections, steps);
    var h := Run(NewHub(symbols, maxConnections), steps);
    assert Batches(h.phase.plan)[..|Batches(h.phase.plan)|] == Batches(h.phase.plan);
  }

  // ---------------------------------------------------------------- late acknowledgements

  ghost predicate Recent(h: HubState, floor: nat) {
    floor <= h.requests && forall id | id in h.pending :: floor < id.number <= h.requests
  }

  /** A step that empties the sets raises the floor to the current counter. */
  function Raised(h: HubState, step: Step, floor: nat): nat {
    match step
    case StartCycle(Success(_)) => h.requests
    case UpdateUniverse(_, Success(_)) => h.requests
    case _ => floor
  }

  lemma StepIsRecent(h: HubState, step: Step, floor: nat)
    requires Recent(h, floor)
    ensures Recent(Next(h, step), Raised(h, step, floor))
  {
  }

  lemma {:induction false} PendingIsRecent(start: HubState, steps: seq<Step>)
    requires start.pending == map[]
    ensures Recent(Run(start, steps), Floor(start, steps))
  {
    if steps != [] {
      var init := steps[..|steps| - 1];
      PendingIsRecent(start, init);
      StepIsRecent(Run(start, init), steps[|steps| - 1], Floor(start, init));
    }
  }

  /** An acknowledgement or rejection of a request made in an earlier cycle, or before
      the latest universe change, changes none of the four sets. */
  lemma LateAcksAreIgnored(symbols: seq<string>, maxConnections: int, steps: seq<Step>, id: RequestId, success: bool)
    requires id.number <= Floor(NewHub(symbols, maxConnections), steps)
    ensures AckHandled(Run(NewHub(symbols, maxConnections), steps), id, success)
      == Run(NewHub(symbols, maxConnections), steps)
  {
    PendingIsRecent(NewHub(symbols, maxConnections), steps);
  }

  // ---------------------------------------------------------------- request ids

  /** The step takes the next request id. */
  ghost predicate Issues(h: HubState, step: Step, id: RequestId) {
    id.number == Next(h, step).requests > h.requests
  }

  lemma CounterGrows(h: HubState, step: Step)
    ensures h.requests <= Next(h, step).requests <= h.requests + 1
    ensures forall id | id in Next(h, step).pending && id !in h.pending :: Issues(h, step, id)
  {
  }

  lemma {:induction false} RequestsGrow(start: HubState, steps: seq<Step>, k: nat)
    requires k <= |steps|
    ensures Run(start, steps[..k]).requests <= Run(start, steps).requests
    decreases |steps|
  {
    if k == |steps| {
      assert steps[..k] == steps;
    } else {
      var init := steps[..|steps| - 1];
      assert init[..k] == steps[..k];
      RequestsGrow(start, init, k);
      CounterGrows(Run(start, init), steps[|steps| - 1]);
    }
  }

  /** The ids a run issues, for subscriptions and pings alike, have ascending numbers,
      so none is issued twice. */
  lemma IdsAscend(start: HubState, steps: seq<Step>, i: nat, j: nat, first: RequestId, second: RequestId)
    requires i < j < |steps|
    requires Issues(Run(start, steps[..i]), steps[i], first) && Issues(Run(start, steps[..j]), steps[j], second)
    ensures first.number < second.number
  {
    assert steps[..i + 1][..i] == steps[..i];
    assert steps[..j][..i + 1] == steps[..i + 1];
    RequestsGrow(start, steps[..j], i + 1);
  }

  // ---------------------------------------------------------------- repeated answers

  /** The id was issued and is not pending. */
  ghost predicate Spent(h: HubState, id: RequestId) {
    id.number <= h.requests && id !in h.pending
  }

  lemma StaysSpent(h: HubState, step: Step, id: RequestId)
    requires Spent(h, id)
    ensures Spent(Next(h, step), id)
  {
    CounterGrows(h, step);
  }

  lemma {:induction false} SpentForGood(start: HubState, steps: seq<Step>, k: nat, id: RequestId)
    requires k <= |steps| && Spent(Run(start, steps[..k]), id)
    ensures Spent(Run(start, steps), id)
    decreases |steps|
  {
    if k == |steps| {
      assert steps[..k] == steps;
    } else {
      var init := steps[..|steps| - 1];
      assert init[..k] == steps[..k];
      SpentForGood(start, init, k, id);
      StaysSpent(Run(start, init), steps[|steps| - 1], id);
    }
  }

  /** A request is settled at most once: after its first answer, whatever happened in
      between, a further answer changes nothing. */
  lemma SettledOnce(start: HubState, steps: seq<Step>, i: nat, id: RequestId, first: bool, again: bool)
    requires i < |steps| && steps[i] == Ack(id, first) && id.number <= Run(start, steps[..i]).requests
    ensures Next(Run(start, steps), Ack(id, again)) == Run(start, steps)
  {
    assert steps[..i + 1][..i] == steps[..i];
    SpentForGood(start, steps, i + 1, id);
  }
}
