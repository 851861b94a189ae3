/** What each step does to a symbol's lane and its calls, from any reachable state. */
module LaneSteps {
  import opened Text
  import opened MarketData
  import opened SymbolMutation
  import opened SymbolLanes

  ghost predicate Held(s: Coordinator, key: string) {
    exists d :: InsideOn(s, d, key)
  }

  lemma HeldIff(s: Coordinator, key: string)
    requires Inv(s) && key in s.lanes
    ensures s.lanes[key] in s.store && (s.store[s.lanes[key]].locked <==> Held(s, key))
  {
    LookedUp(s, key);
    var lane, m := s.store[s.lanes[key]], On(s.calls, key);
    assert LaneInv(lane, m);
    if lane.locked {
      var d :| d in m && m[d].phase == Inside;
      assert InsideOn(s, d, key);
    }
    assert forall d :: InsideOn(s, d, key) ==> d in m;
  }

  lemma UnusedIsFree(s: Coordinator, key: string)
    requires Inv(s) && key !in s.lanes
    ensures !Held(s, key) && Queue(s, key) == []
  {
    NoCallsOff(s, key);
    forall d ensures !InsideOn(s, d, key) {
      assert InsideOn(s, d, key) ==> d in On(s.calls, key);
    }
  }

  /** A call that is not a re-entry enters at once exactly when no call is inside and every
      waiter was cancelled; else it waits behind all the others. */
  lemma EnterMeans(s: Coordinator, c: CallId, task: TaskId, symbol: string)
    requires Inv(s) && Starts(s, c, task, symbol)
    ensures var r, key := Next(s, Enter(c, task, symbol)), Upper(symbol);
      && c in r.calls && r.calls[c].task == task && r.calls[c].key == key
      && (r.calls[c].phase == Inside <==>
            !Held(s, key) && forall d | d in Queue(s, key) :: d in s.calls && s.calls[d].phase == Cancelled)
      && (r.calls[c].phase == Inside || r.calls[c].phase == Pending)
      && Queue(r, key) == Queue(s, key) + (if r.calls[c].phase == Inside then [] else [c])
  {
    EnteredLane(s, c, task, symbol);
    FoundIsFree(s, Upper(symbol));
  }

  /** The lane a call finds or creates. */
  lemma FoundIsFree(s: Coordinator, key: string)
    requires Inv(s)
    ensures FoundLane(s, key).waiters == Queue(s, key) && (FoundLane(s, key).locked <==> Held(s, key))
  {
    if key in s.lanes {
      HeldIff(s, key);
    } else {
      UnusedIsFree(s, key);
    }
  }

  /** An entry counts as contended exactly when some call is inside. */
  lemma ContentionMeans(s: Coordinator, c: CallId, task: TaskId, symbol: string)
    requires Inv(s) && Starts(s, c, task, symbol)
    ensures var r, key := Next(s, Enter(c, task, symbol)), Upper(symbol);
      && key in r.lanes && r.lanes[key] in r.store
      && r.store[r.lanes[key]].contention
           == (if key in s.lanes && s.lanes[key] in s.store then s.store[s.lanes[key]].contention else 0)
              + if Held(s, key) then 1 else 0
  {
    var key := Upper(symbol);
    if key in s.lanes {
      HeldIff(s, key);
    } else {
      UnusedIsFree(s, key);
    }
  }

  /** A cancellation reaches a waiting call, woken or not; it changes nothing else, and
      nothing at all for a call that is inside or was cancelled before. */
  lemma CancelMeans(s: Coordinator, c: CallId)
    requires c in s.calls
    ensures var r, phase := Next(s, Cancel(c)), s.calls[c].phase;
      && r == s.(calls := r.calls)
      && r.calls == s.calls[c := s.calls[c].(phase := r.calls[c].phase)]
      && (phase == Pending ==> r.calls[c].phase == Cancelled)
      && (phase == Woken ==> r.calls[c].phase == WokenCancelled)
      && (phase != Pending && phase != Woken ==> r == s)
  {
    if s.calls[c].phase != Pending && s.calls[c].phase != Woken {
      assert s.calls[c := s.calls[c]] == s.calls;
    }
  }

  /** The call at the head of the queue, if it still waits, is woken. */
  ghost predicate HeadWoken(s: Coordinator, r: Coordinator, queue: seq<CallId>, gone: CallId) {
    forall d | d in s.calls && d != gone ::
      d in r.calls && r.calls[d] == s.calls[d].(phase :=
        if queue != [] && queue[0] == d && s.calls[d].phase == Pending then Woken else s.calls[d].phase)
  }

  /** A waiting call does not run, nor does one that is inside wait again. */
  lemma ResumeWaits(s: Coordinator, c: CallId)
    requires c in s.calls && s.calls[c].phase in {Pending, Inside}
    ensures Next(s, Resume(c)) == s
  {
  }

  /** A woken call gets inside and leaves the queue. */
  lemma ResumeWoken(s: Coordinator, c: CallId)
    requires Inv(s) && c in s.calls && s.calls[c].phase == Woken
    ensures var r, key := Next(s, Resume(c)), s.calls[c].key;
      && r.calls == s.calls[c := s.calls[c].(phase := Inside)]
      && Queue(r, key) == Without(Queue(s, key), c)
  {
    LaneOf(s, c);
  }

  /** A cancelled call is gone, and wakes the new head of the queue unless some call is
      inside. */
  lemma ResumeCancelled(s: Coordinator, c: CallId)
    requires Inv(s) && c in s.calls && s.calls[c].phase in {Cancelled, WokenCancelled}
    ensures var r, key := Next(s, Resume(c)), s.calls[c].key;
      && c !in r.calls
      && (if Held(s, key) then HeadWoken(s, r, [], c) else HeadWoken(s, r, Without(Queue(s, key), c), c))
  {
    var key := s.calls[c].key;
    LaneOf(s, c);
    HeldIff(s, key);
    CancelledCalls(s, c, s.store[s.lanes[key]]);
    if Held(s, key) {
      WokenWithout(s, Next(s, Resume(c)), [], c);
    } else {
      WokenWithout(s, Next(s, Resume(c)), Without(Queue(s, key), c), c);
    }
  }

  lemma CancelledCalls(s: Coordinator, c: CallId, lane: Lane)
    requires c in s.calls && s.calls[c].phase in {Cancelled, WokenCancelled}
    requires s.calls[c].lane in s.store && lane == s.store[s.calls[c].lane]
    ensures Next(s, Resume(c)).calls == (if lane.locked then s.calls else WakeFirst(Without(lane.waiters, c), s.calls)) - {c}
  {
    GoneLeaves(s, c, lane);
  }

  lemma ExitCalls(s: Coordinator, c: CallId, lane: Lane)
    requires c in s.calls && s.calls[c].phase == Inside && s.calls[c].lane in s.store && lane == s.store[s.calls[c].lane]
    ensures Next(s, Exit(c)).calls == WakeFirst(lane.waiters, s.calls) - {c}
  {
  }

  /** Waking the first of a queue wakes its head if it still waits. */
  lemma WokenWithout(s: Coordinator, r: Coordinator, queue: seq<CallId>, gone: CallId)
    requires r.calls == WakeFirst(queue, s.calls) - {gone}
    ensures HeadWoken(s, r, queue, gone) && gone !in r.calls
  {
  }

  lemma LaneOf(s: Coordinator, c: CallId)
    requires Inv(s) && c in s.calls
    ensures s.calls[c].key in s.lanes && s.calls[c].lane == s.lanes[s.calls[c].key] && s.calls[c].lane in s.store
  {
    assert c in On(s.calls, s.calls[c].key);
    LookedUp(s, s.calls[c].key);
  }

  /** A call that is done is gone, and the head of the queue is woken. */
  lemma ExitMeans(s: Coordinator, c: CallId)
    requires Inv(s) && c in s.calls && s.calls[c].phase == Inside
    ensures var r, key := Next(s, Exit(c)), s.calls[c].key;
      c !in r.calls && HeadWoken(s, r, Queue(s, key), c) && !Held(r, key)
  {
    var key := s.calls[c].key;
    LaneOf(s, c);
    ExitCalls(s, c, s.store[s.lanes[key]]);
    WokenWithout(s, Next(s, Exit(c)), Queue(s, key), c);
    NobodyInside(s, Next(s, Exit(c)), c);
  }

  lemma NobodyInside(s: Coordinator, r: Coordinator, c: CallId)
    requires Inv(s) && c in s.calls && s.calls[c].phase == Inside && c !in r.calls
    requires r.calls.Keys <= s.calls.Keys
    requires forall d | d in r.calls && r.calls[d].phase == Inside :: s.calls[d].phase == Inside && s.calls[d].key == r.calls[d].key
    ensures !Held(r, s.calls[c].key)
  {
    forall d ensures !InsideOn(r, d, s.calls[c].key) {
      if d != c {
        OneInside(s, c, d, s.calls[c].key);
        assert d in r.calls ==> d in s.calls.Keys;
      }
    }
  }

  lemma OneInside(s: Coordinator, c: CallId, d: CallId, key: string)
    requires Inv(s) && InsideOn(s, c, key) && d != c
    ensures !InsideOn(s, d, key)
  {
    LookedUp(s, key);
    var m := On(s.calls, key);
    LaneOf(s, c);
    assert LaneInv(s.store[s.lanes[key]], m);
    assert c in m;
    assert InsideOn(s, d, key) ==> d in m;
  }
}
