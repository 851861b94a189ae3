/** What the lanes guarantee after any interleaving, and the coordinator object. */
module SymbolLanes {
  import opened Text
  import opened MarketData
  import opened SymbolMutation

  ghost predicate InsideOn(s: Coordinator, c: CallId, key: string) {
    c in s.calls && s.calls[c].key == key && s.calls[c].phase == Inside
  }

  /** Two calls whose symbols agree up to case are never inside together. */
  lemma MutualExclusion(steps: seq<Step>, c: CallId, d: CallId, key: string)
    requires InsideOn(Run(steps), c, key) && InsideOn(Run(steps), d, key)
    ensures c == d
  {
    var s := Run(steps);
    RunKeepsInv(steps);
    assert c in On(s.calls, key) && d in On(s.calls, key);
    assert HolderInv(s.store[s.lanes[key]], On(s.calls, key));
  }

  /** A lane exists exactly while its symbol has calls under way, all on that lane,
      and `users` counts them. */
  lemma LaneCountsCalls(steps: seq<Step>, key: string)
    ensures key in Run(steps).lanes <==> exists c :: c in Run(steps).calls && Run(steps).calls[c].key == key
    ensures forall c | c in Run(steps).calls && Run(steps).calls[c].key == key ::
      key in Run(steps).lanes && Run(steps).calls[c].lane == Run(steps).lanes[key]
    ensures key in Run(steps).lanes ==>
      && Run(steps).lanes[key] in Run(steps).store
      && Run(steps).store[Run(steps).lanes[key]].users == |On(Run(steps).calls, key)| > 0
  {
    var s := Run(steps);
    RunKeepsInv(steps);
    if key in s.lanes {
      assert LaneInv(s.store[s.lanes[key]], On(s.calls, key));
      assert |On(s.calls, key)| == 0 ==> On(s.calls, key) == map[];
      var c :| c in On(s.calls, key);
      assert c in s.calls && s.calls[c].key == key;
    }
  }

  /** Re-entry is refused exactly when the calling task is inside that lane, and
      then nothing changes. */
  lemma ReentryIff(steps: seq<Step>, c: CallId, task: TaskId, symbol: string)
    requires c !in Run(steps).calls
    ensures c !in Next(Run(steps), Enter(c, task, symbol)).calls <==>
      exists d :: InsideOn(Run(steps), d, Upper(symbol)) && Run(steps).calls[d].task == task
    ensures c !in Next(Run(steps), Enter(c, task, symbol)).calls ==>
      Next(Run(steps), Enter(c, task, symbol)) == Run(steps)
  {
    var s := Run(steps);
    RunKeepsInv(steps);
    OwnerIff(s, task, Upper(symbol));
    if Starts(s, c, task, symbol) {
      EnterStep(s, c, task, symbol);
    }
  }

  /** The waiters of a symbol's lane, first to last. */
  function Queue(s: Coordinator, key: string): seq<CallId> {
    if key in s.lanes && s.lanes[key] in s.store then s.store[s.lanes[key]].waiters else []
  }

  lemma HeadResumes(s: Coordinator, c: CallId)
    requires Inv(s) && c in s.calls && s.calls[c].phase == Woken
    ensures Queue(s, s.calls[c].key) != [] && Queue(s, s.calls[c].key)[0] == c
  {
    var key := s.calls[c].key;
    var lane := s.store[s.lanes[key]];
    assert c in On(s.calls, key);
    LaneResumes(lane, On(s.calls, key), c,
      lane.(waiters := Without(lane.waiters, c), locked := true, owner := Some(s.calls[c].task)));
  }

  lemma EntersPastCancelled(s: Coordinator, c: CallId, task: TaskId, symbol: string)
    requires Inv(s) && Starts(s, c, task, symbol)
    requires c in Entered(s, c, task, symbol).calls && Entered(s, c, task, symbol).calls[c].phase == Inside
    ensures forall d | d in Queue(s, Upper(symbol)) :: d in s.calls && s.calls[d].phase == Cancelled
  {
    EnteredLane(s, c, task, symbol);
  }

  /** The call was not inside before the step and is after it. */
  ghost predicate GetsIn(s: Coordinator, r: Coordinator, c: CallId) {
    && c in r.calls && r.calls[c].phase == Inside
    && !(c in s.calls && s.calls[c].phase == Inside)
  }

  lemma EnterGetsIn(s: Coordinator, d: CallId, task: TaskId, symbol: string, c: CallId)
    requires TableInv(s) && GetsIn(s, Entered(s, d, task, symbol), c)
    ensures c == d && Starts(s, c, task, symbol) && Entered(s, d, task, symbol).calls[c].key == Upper(symbol)
  {
    if Starts(s, d, task, symbol) {
      EnterStep(s, d, task, symbol);
    }
  }

  /** Which call a step lets in: one entering, or a woken one. */
  lemma WhoGetsIn(s: Coordinator, step: Step, c: CallId)
    requires TableInv(s) && GetsIn(s, Next(s, step), c)
    ensures
      if c in s.calls
      then step == Resume(c) && s.calls[c].phase == Woken && Next(s, step).calls[c].key == s.calls[c].key
      else step.Enter? && step.call == c && Starts(s, c, step.task, step.symbol)
           && Next(s, step).calls[c].key == Upper(step.symbol)
  {
    match step
    case Enter(d, task, symbol) => EnterGetsIn(s, d, task, symbol, c);
    case Cancel(d) =>
    case Exit(d) => ExitPhases(s, d, c);
    case Resume(d) => ResumePhases(s, d, c);
  }

  /** Nothing overtakes: a waiter gets inside only as the first of its queue, and a
      call that enters without waiting finds only cancelled calls in the queue. */
  lemma NoOvertaking(steps: seq<Step>, step: Step, c: CallId)
    requires GetsIn(Run(steps), Next(Run(steps), step), c)
    ensures var queue := Queue(Run(steps), Next(Run(steps), step).calls[c].key);
      if c in Run(steps).calls then queue != [] && queue[0] == c
      else forall d | d in queue :: d in Run(steps).calls && Run(steps).calls[d].phase == Cancelled
  {
    var s := Run(steps);
    RunKeepsInv(steps);
    WhoGetsIn(s, step, c);
    if c in s.calls {
      HeadResumes(s, c);
    } else {
      EntersPastCancelled(s, c, step.task, step.symbol);
    }
  }

  lemma ExitPhases(s: Coordinator, d: CallId, c: CallId)
    requires c in Exited(s, d).calls && Exited(s, d).calls[c].phase == Inside
    ensures c in s.calls && s.calls[c].phase == Inside
  {
  }

  lemma ResumePhases(s: Coordinator, d: CallId, c: CallId)
    requires c in Resumed(s, d).calls && Resumed(s, d).calls[c].phase == Inside
    ensures c in s.calls && Resumed(s, d).calls[c].key == s.calls[c].key
    ensures s.calls[c].phase == Inside || (c == d && s.calls[c].phase == Woken)
  {
  }

  // ---------------------------------------------------------------- nobody is stranded

  /** The call can move on by itself: it can leave, or run again. */
  predicate CanMove(s: Coordinator, c: CallId) {
    c in s.calls && s.calls[c].phase != Pending
  }

  function Move(s: Coordinator, c: CallId): Step
    requires c in s.calls
  {
    if s.calls[c].phase == Inside then Exit(c) else Resume(c)
  }

  /** A lane with calls has one inside, or a waiter it has woken. */
  lemma LaneHasMover(lane: Lane, m: Calls) returns (c: CallId)
    requires LaneInv(lane, m) && |m| > 0
    ensures c in m && m[c].phase != Pending
  {
    if lane.locked {
      c :| c in m && m[c].phase == Inside;
    } else {
      assert |m| == 0 <==> m == map[];
      var d :| d in m;
      assert m[d].phase != Inside;
      assert d in lane.waiters;
      c := lane.waiters[0];
    }
  }

  /** No lost wake-up: a symbol with calls under way has one that can move. */
  lemma SomeoneCanMove(s: Coordinator, key: string) returns (c: CallId)
    requires Inv(s) && key in s.lanes
    ensures CanMove(s, c) && s.calls[c].key == key
  {
    LookedUp(s, key);
    c := LaneHasMover(s.store[s.lanes[key]], On(s.calls, key));
  }

  function Waiting(calls: Calls): set<CallId> {
    set c | c in calls && calls[c].phase != Inside
  }

  /** Moves left: two for a waiting call, one for a call inside. */
  function Effort(s: Coordinator): nat {
    |s.calls| + |Waiting(s.calls)|
  }

  lemma Fewer(a: set<CallId>, b: set<CallId>)
    requires a <= b
    ensures |a| <= |b|
    ensures a != b ==> |a| < |b|
  {
    assert b == a + (b - a);
    assert |b - a| == 0 ==> b - a == {};
  }

  /** Every move of a call uses up some of the effort. */
  lemma MovesAreBounded(s: Coordinator, c: CallId)
    requires Inv(s) && CanMove(s, c)
    ensures Effort(Next(s, Move(s, c))) < Effort(s)
  {
    var r := Next(s, Move(s, c));
    assert s.calls[c].lane in s.store;
    WaitersShrink(s, c);
    Fewer(r.calls.Keys, s.calls.Keys);
    Fewer(Waiting(r.calls), Waiting(s.calls));
    assert |r.calls.Keys| == |r.calls| && |s.calls.Keys| == |s.calls|;
  }

  lemma WakeFirstKeeps(waiters: seq<CallId>, calls: Calls)
    ensures WakeFirst(waiters, calls).Keys == calls.Keys
    ensures Waiting(WakeFirst(waiters, calls)) == Waiting(calls)
  {
  }

  lemma LeftCalls(s: Coordinator, c: CallId, lane: Lane, calls: Calls)
    requires c in s.calls && calls.Keys == s.calls.Keys && Waiting(calls) == Waiting(s.calls)
    ensures Left(s, c, lane, calls).calls.Keys == s.calls.Keys - {c}
    ensures Waiting(Left(s, c, lane, calls).calls) == Waiting(s.calls) - {c}
  {
  }

  /** A move takes the call out of the waiting ones, or out of the calls. */
  lemma WaitersShrink(s: Coordinator, c: CallId)
    requires CanMove(s, c) && s.calls[c].lane in s.store
    ensures Next(s, Move(s, c)).calls.Keys <= s.calls.Keys
    ensures Waiting(Next(s, Move(s, c)).calls) <= Waiting(s.calls)
    ensures if s.calls[c].phase == Woken then c !in Waiting(Next(s, Move(s, c)).calls) && c in Waiting(s.calls)
      else c !in Next(s, Move(s, c)).calls
  {
    var lane := s.store[s.calls[c].lane];
    if s.calls[c].phase == Inside {
      WakeFirstKeeps(lane.waiters, s.calls);
      LeftCalls(s, c, lane.(owner := None, locked := false), WakeFirst(lane.waiters, s.calls));
    } else if s.calls[c].phase != Woken {
      var queue := Without(lane.waiters, c);
      WakeFirstKeeps(queue, s.calls);
      LeftCalls(s, c, lane.(waiters := queue), if lane.locked then s.calls else WakeFirst(queue, s.calls));
    }
  }

  lemma SomeMove(s: Coordinator) returns (c: CallId)
    requires Inv(s) && s.lanes != map[]
    ensures CanMove(s, c)
  {
    var key :| key in s.lanes;
    c := SomeoneCanMove(s, key);
  }

  lemma MoveIs(s: Coordinator, c: CallId)
    requires CanMove(s, c)
    ensures Next(s, Move(s, c)) == if s.calls[c].phase == Inside then Exited(s, c) else Resumed(s, c)
  {
  }

  lemma MoveKeepsInv(s: Coordinator, c: CallId)
    requires Inv(s) && CanMove(s, c)
    ensures Inv(Next(s, Move(s, c)))
  {
    MoveIs(s, c);
    if s.calls[c].phase == Inside {
      ExitKeepsInv(s, c);
    } else {
      ResumeKeepsInv(s, c);
    }
  }

  lemma NextMove(s: Coordinator) returns (move: Step, r: Coordinator)
    requires Inv(s) && s.lanes != map[]
    ensures move.Resume? || move.Exit?
    ensures r == Next(s, move) && Inv(r) && Effort(r) < Effort(s)
  {
    var c := SomeMove(s);
    MovesAreBounded(s, c);
    MoveKeepsInv(s, c);
    move := Move(s, c);
    r := Next(s, move);
  }

  lemma NoLaneNoCalls(s: Coordinator)
    requires SharedInv(s) && s.lanes == map[]
    ensures s.calls == map[]
  {
    assert forall c | c in s.calls :: s.calls[c].key in s.lanes;
  }

  function RunFrom(s: Coordinator, moves: seq<Step>): Coordinator
    decreases |moves|
  {
    if moves == [] then s else RunFrom(Next(s, moves[0]), moves[1..])
  }

  lemma {:induction false} RunOn(steps: seq<Step>, moves: seq<Step>)
    ensures Run(steps + moves) == RunFrom(Run(steps), moves)
    decreases |moves|
  {
    if moves == [] {
      assert steps + [] == steps;
    } else {
      var first := steps + [moves[0]];
      assert first[..|steps|] == steps;
      assert steps + moves == first + moves[1..];
      RunOn(first, moves[1..]);
    }
  }

  ghost predicate OnlyMoves(moves: seq<Step>) {
    forall i | 0 <= i < |moves| :: moves[i].Resume? || moves[i].Exit?
  }

  lemma RunFromFirst(s: Coordinator, move: Step, rest: seq<Step>)
    ensures RunFrom(s, [move] + rest) == RunFrom(Next(s, move), rest)
    ensures (move.Resume? || move.Exit?) && OnlyMoves(rest) ==> OnlyMoves([move] + rest)
  {
    assert ([move] + rest)[1..] == rest;
  }

  lemma {:induction false} DrainsFrom(s: Coordinator) returns (moves: seq<Step>)
    requires Inv(s)
    ensures |moves| <= Effort(s) && OnlyMoves(moves)
    ensures RunFrom(s, moves).calls == map[] && RunFrom(s, moves).lanes == map[]
    decreases Effort(s)
  {
    if s.lanes == map[] {
      NoLaneNoCalls(s);
      moves := [];
    } else {
      var move, r := NextMove(s);
      var rest := DrainsFrom(r);
      RunFromFirst(s, move, rest);
      moves := [move] + rest;
    }
  }

  /** From any reachable state the calls under way can all finish without outside
      help, in at most `Effort` moves, and then no lane is left. */
  lemma Drains(steps: seq<Step>) returns (moves: seq<Step>)
    ensures |moves| <= Effort(Run(steps)) && OnlyMoves(moves)
    ensures Run(steps + moves).calls == map[] && Run(steps + moves).lanes == map[]
  {
    RunKeepsInv(steps);
    moves := DrainsFrom(Run(steps));
    RunOn(steps, moves);
  }

  // ---------------------------------------------------------------- the object

  datatype Entry = Acquired | Waits | Reentrant

  /** The coordinator object. Its lanes are held by identity in `store`; `calls` are
      the activations of `mutation` under way. */
  class SymbolMutationCoordinator {
    var lanes: map<string, LaneId>
    var store: map<LaneId, Lane>
    var created: nat
    var calls: Calls

    function Value(): Coordinator
      reads this
    {
      Coordinator(lanes, store, created, calls)
    }

    ghost predicate Valid()
      reads this
    {
      Inv(Value())
    }

    constructor ()
      ensures Value() == IDLE && Valid()
    {
      lanes, store, created, calls := map[], map[], 0, map[];
      new;
      RunKeepsInv([]);
    }

    /** `mutation` up to its wait or its body. */
    method Enter(c: CallId, task: TaskId, symbol: string) returns (entry: Entry)
      requires Valid() && c !in calls
      modifies this
      ensures Valid() && Value() == Entered(old(Value()), c, task, symbol)
      ensures entry == Reentrant <==> exists d :: InsideOn(old(Value()), d, Upper(symbol)) && old(calls)[d].task == task
      ensures entry == Acquired <==> c in calls && calls[c].phase == Inside
    {
      EnterKeepsInv(Value(), c, task, symbol);
      OwnerIff(Value(), task, Upper(symbol));
      entry := EnterLane(c, task, symbol);
    }

    method EnterLane(c: CallId, task: TaskId, symbol: string) returns (entry: Entry)
      requires Wellformed(Value()) && c !in calls
      modifies this
      ensures Value() == Entered(old(Value()), c, task, symbol)
      ensures entry == Reentrant <==>
        Upper(symbol) in old(lanes) && old(store)[old(lanes)[Upper(symbol)]].owner == Some(task)
      ensures entry == Acquired <==> c in calls && calls[c].phase == Inside
    {
      var key := Upper(symbol);
      if key !in lanes {
        store := store[created := NEW_LANE];
        lanes := lanes[key := created];
        created := created + 1;
      }
      var id := lanes[key];
      var lane := store[id];
      if lane.owner == Some(task) {
        return Reentrant;
      }
      var counted := lane.(users := lane.users + 1);
      if lane.locked {
        counted := counted.(contention := counted.contention + 1);
      }
      if TakesAtOnce(lane, calls) {
        store := store[id := counted.(locked := true, owner := Some(task))];
        calls := calls[c := Call(task, key, id, Inside)];
        return Acquired;
      }
      store := store[id := counted.(waiters := counted.waiters + [c])];
      calls := calls[c := Call(task, key, id, Pending)];
      return Waits;
    }

    method Cancel(c: CallId)
      requires Valid() && c in calls
      modifies this`calls
      ensures Valid() && Value() == CancelRequested(old(Value()), c)
    {
      CancelKeepsInv(Value(), c);
      MarkCancelled(c);
    }

    method MarkCancelled(c: CallId)
      requires c in calls
      modifies this`calls
      ensures Value() == CancelRequested(old(Value()), c)
    {
      calls := calls[c := calls[c].(phase := CancelPhase(calls[c].phase))];
    }

    /** A waiter that was woken or cancelled runs again. */
    method Resume(c: CallId) returns (acquired: bool)
      requires Valid() && c in calls && calls[c].phase != Pending && calls[c].phase != Inside
      modifies this
      ensures Valid() && Value() == Resumed(old(Value()), c)
      ensures acquired <==> c in calls
    {
      ResumeKeepsInv(Value(), c);
      acquired := ResumeLane(c);
    }

    method ResumeLane(c: CallId) returns (acquired: bool)
      requires c in calls && calls[c].lane in store && calls[c].phase != Pending && calls[c].phase != Inside
      modifies this
      ensures Value() == Resumed(old(Value()), c)
      ensures acquired <==> c in calls
    {
      var call := calls[c];
      var lane := store[call.lane];
      lane := lane.(waiters := Without(lane.waiters, c));
      if call.phase == Woken {
        store := store[call.lane := lane.(locked := true, owner := Some(call.task))];
        calls := calls[c := call.(phase := Inside)];
        return true;
      }
      store := store[call.lane := lane];
      if !lane.locked {
        calls := WakeFirst(lane.waiters, calls);
      }
      Leave(c, call.key, call.lane);
      return false;
    }

    method Exit(c: CallId)
      requires Valid() && c in calls && calls[c].phase == Inside
      modifies this
      ensures Valid() && Value() == Exited(old(Value()), c)
    {
      ExitKeepsInv(Value(), c);
      ExitLane(c);
    }

    method ExitLane(c: CallId)
      requires c in calls && calls[c].lane in store && calls[c].phase == Inside
      modifies this
      ensures Value() == Exited(old(Value()), c)
    {
      var call := calls[c];
      var lane := store[call.lane];
      lane := lane.(owner := None);
      lane := lane.(locked := false);
      store := store[call.lane := lane];
      calls := WakeFirst(lane.waiters, calls);
      Leave(c, call.key, call.lane);
    }

    /** The end of the `finally` block. */
    method Leave(c: CallId, key: string, id: LaneId)
      requires id in store
      modifies this`store, this`lanes, this`calls
      ensures store == old(store)[id := old(store)[id].(users := old(store)[id].users - 1)]
      ensures calls == old(calls) - {c}
      ensures lanes == if store[id].users == 0 && !store[id].locked then old(lanes) - {key} else old(lanes)
    {
      store := store[id := store[id].(users := store[id].users - 1)];
      calls := calls - {c};
      if store[id].users == 0 && !store[id].locked {
        lanes := lanes - {key};
      }
    }
  }

  lemma OwnerIff(s: Coordinator, task: TaskId, key: string)
    requires Inv(s)
    ensures (key in s.lanes && s.store[s.lanes[key]].owner == Some(task)) <==>
      exists d :: InsideOn(s, d, key) && s.calls[d].task == task
  {
    if key in s.lanes {
      var lane := s.store[s.lanes[key]];
      assert HolderInv(lane, On(s.calls, key));
      if lane.owner == Some(task) {
        var d :| d in On(s.calls, key) && On(s.calls, key)[d].phase == Inside;
        assert InsideOn(s, d, key);
      }
      forall d | InsideOn(s, d, key) ensures lane.owner == Some(s.calls[d].task) {
        assert d in On(s.calls, key);
      }
    } else {
      assert forall d | d in s.calls :: s.calls[d].key in s.lanes;
    }
  }
}
