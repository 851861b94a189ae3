/** Per-symbol mutation lanes: a reference-counted lock table shared by
    concurrent tasks. A call of `mutation` is cut at the one place it can wait,
    so a run is any interleaving of the steps below. The lock is the event
    loop's FIFO lock: releasing it wakes the first waiter, which takes it when
    it next runs. */
module SymbolMutation {
  import opened Text
  import opened MarketData

  type TaskId = nat
  type CallId = nat
  type LaneId = nat

  /** Where a call is. A waiter's future is pending, resolved (woken) or cancelled;
      a woken waiter whose task is cancelled before it runs is `WokenCancelled`. */
  datatype Phase = Pending | Woken | Cancelled | WokenCancelled | Inside

  datatype Call = Call(task: TaskId, key: string, lane: LaneId, phase: Phase)

  /** A lane record, with its lock's two fields. */
  datatype Lane = Lane(locked: bool, waiters: seq<CallId>, users: int, owner: Option<TaskId>, contention: nat)

  const NEW_LANE := Lane(false, [], 0, None, 0)

  type Calls = map<CallId, Call>

  /** The dictionary of lanes, the lane objects by identity, how many were ever
      created, and the calls under way. */
  datatype Coordinator = Coordinator(
    lanes: map<string, LaneId>,
    store: map<LaneId, Lane>,
    created: nat,
    calls: Calls)

  const IDLE := Coordinator(map[], map[], 0, map[])

  // ---------------------------------------------------------------- the lock

  function Without(q: seq<CallId>, c: CallId): seq<CallId> {
    if q == [] then [] else if q[0] == c then q[1..] else [q[0]] + Without(q[1..], c)
  }

  /** `_wake_up_first`: resolve the first waiter's future unless it is done. */
  function WakeFirst(waiters: seq<CallId>, calls: Calls): Calls {
    if waiters != [] && waiters[0] in calls && calls[waiters[0]].phase == Pending
    then calls[waiters[0] := calls[waiters[0]].(phase := Woken)]
    else calls
  }

  /** `acquire` returns at once: the lock is free and every waiter is cancelled. */
  predicate TakesAtOnce(lane: Lane, calls: Calls) {
    !lane.locked && forall c | c in lane.waiters :: c in calls && calls[c].phase == Cancelled
  }

  // ---------------------------------------------------------------- steps

  datatype Step =
    | Enter(call: CallId, task: TaskId, symbol: string)
    | Cancel(call: CallId)
    | Resume(call: CallId)
    | Exit(call: CallId)

  /** Look the lane up, creating it if there is none. */
  function WithLane(s: Coordinator, key: string): Coordinator {
    if key in s.lanes then s else
      s.(lanes := s.lanes[key := s.created], store := s.store[s.created := NEW_LANE], created := s.created + 1)
  }

  /** `mutation` up to where it waits or enters; a re-entry attempt changes nothing. */
  function Entered(s: Coordinator, c: CallId, task: TaskId, symbol: string): Coordinator
    requires forall key | key in s.lanes :: s.lanes[key] in s.store
  {
    var key := Upper(symbol);
    var w := WithLane(s, key);
    var id := w.lanes[key];
    var lane := w.store[id];
    if c in s.calls || lane.owner == Some(task) then s
    else
      var counted := lane.(users := lane.users + 1, contention := lane.contention + if lane.locked then 1 else 0);
      if TakesAtOnce(lane, s.calls) then
        w.(store := w.store[id := counted.(locked := true, owner := Some(task))],
           calls := s.calls[c := Call(task, key, id, Inside)])
      else
        w.(store := w.store[id := counted.(waiters := lane.waiters + [c])],
           calls := s.calls[c := Call(task, key, id, Pending)])
  }

  function CancelPhase(phase: Phase): Phase {
    match phase
    case Pending => Cancelled
    case Woken => WokenCancelled
    case _ => phase
  }

  /** A waiting call's task is cancelled; it still has to run once to notice. */
  function CancelRequested(s: Coordinator, c: CallId): Coordinator {
    if c in s.calls then s.(calls := s.calls[c := s.calls[c].(phase := CancelPhase(s.calls[c].phase))]) else s
  }

  /** The `finally` block after the lock was let go: `lane` and `calls` are as the
      lock left them. */
  function Left(s: Coordinator, c: CallId, lane: Lane, calls: Calls): Coordinator
    requires c in s.calls
  {
    var key, id := s.calls[c].key, s.calls[c].lane;
    var counted := lane.(users := lane.users - 1);
    s.(store := s.store[id := counted],
       calls := calls - {c},
       lanes := if counted.users == 0 && !counted.locked then s.lanes - {key} else s.lanes)
  }

  /** A waiter runs again: a woken one takes the lock, a cancelled one leaves and, if
      the lock is free, passes the wake-up on. */
  function Resumed(s: Coordinator, c: CallId): Coordinator {
    if c !in s.calls || s.calls[c].lane !in s.store then s else
      var call := s.calls[c];
      var lane := s.store[call.lane];
      var queue := Without(lane.waiters, c);
      match call.phase
      case Pending => s
      case Inside => s
      case Woken =>
        s.(store := s.store[call.lane := lane.(waiters := queue, locked := true, owner := Some(call.task))],
           calls := s.calls[c := call.(phase := Inside)])
      case _ =>
        Left(s, c, lane.(waiters := queue), if lane.locked then s.calls else WakeFirst(queue, s.calls))
  }

  /** The body ends, in whatever way. */
  function Exited(s: Coordinator, c: CallId): Coordinator {
    if c !in s.calls || s.calls[c].lane !in s.store || s.calls[c].phase != Inside then s else
      var lane := s.store[s.calls[c].lane];
      Left(s, c, lane.(owner := None, locked := false), WakeFirst(lane.waiters, s.calls))
  }

  // ---------------------------------------------------------------- one lane

  /** The calls under way on one key. */
  function On(calls: Calls, key: string): Calls {
    map c | c in calls && calls[c].key == key :: calls[c]
  }

  ghost predicate NoDuplicates(q: seq<CallId>) {
    forall i, j | 0 <= i < j < |q| :: q[i] != q[j]
  }

  /** The queue holds exactly the calls that are not inside. */
  ghost predicate QueueInv(waiters: seq<CallId>, m: Calls) {
    && NoDuplicates(waiters)
    && (forall c | c in waiters :: c in m && m[c].phase != Inside)
    && (forall c | c in m && m[c].phase != Inside :: c in waiters)
  }

  /** At most one call is inside; it holds the lock and its task is the owner. */
  ghost predicate HolderInv(lane: Lane, m: Calls) {
    && (forall c | c in m && m[c].phase == Inside :: lane.locked && lane.owner == Some(m[c].task))
    && (forall c, d | c in m && d in m && m[c].phase == Inside && m[d].phase == Inside :: c == d)
    && (lane.locked ==> exists c :: c in m && m[c].phase == Inside)
    && (!lane.locked ==> lane.owner == None)
  }

  predicate IsWoken(phase: Phase) {
    phase == Woken || phase == WokenCancelled
  }

  /** Only the first waiter can have been woken, only while the lock is free; and a
      free lock never leaves its first waiter asleep. */
  ghost predicate WakeInv(lane: Lane, m: Calls)
    requires QueueInv(lane.waiters, m)
  {
    && (forall i | 0 <= i < |lane.waiters| && IsWoken(m[lane.waiters[i]].phase) :: i == 0 && !lane.locked)
    && (!lane.locked && lane.waiters != [] ==> m[lane.waiters[0]].phase != Pending)
  }

  ghost predicate LaneInv(lane: Lane, m: Calls) {
    && lane.users == |m|
    && QueueInv(lane.waiters, m)
    && HolderInv(lane, m)
    && WakeInv(lane, m)
  }

  // ---------------------------------------------------------------- queue facts

  lemma {:induction false} WithoutMembers(q: seq<CallId>, c: CallId)
    requires NoDuplicates(q)
    ensures NoDuplicates(Without(q, c))
    ensures forall d :: d in Without(q, c) <==> d in q && d != c
  {
    if q != [] {
      assert forall d :: d in q <==> d == q[0] || d in q[1..];
      assert q[0] !in q[1..];
      if q[0] != c {
        WithoutMembers(q[1..], c);
        assert q[0] !in Without(q[1..], c);
      }
    }
  }

  /** Every waiter after the first, or any waiter when the first leaves, stood behind the first. */
  lemma WithoutTail(q: seq<CallId>, c: CallId, i: nat)
    requires NoDuplicates(q) && i < |Without(q, c)|
    requires i > 0 || q[0] == c
    ensures Without(q, c)[i] in q[1..]
  {
    if q[0] != c {
      WithoutMembers(q[1..], c);
      assert Without(q, c)[i] == Without(q[1..], c)[i - 1];
    }
  }

  // ---------------------------------------------------------------- steps on one lane

  lemma QueueGrows(waiters: seq<CallId>, m: Calls, c: CallId, call: Call)
    requires QueueInv(waiters, m) && c !in m && call.phase == Pending
    ensures QueueInv(waiters + [c], m[c := call])
  {
    assert c !in waiters;
    assert forall d :: d in waiters + [c] <==> d in waiters || d == c;
  }

  /** A call that has to wait joins the end of the queue. */
  lemma LaneQueues(lane: Lane, m: Calls, c: CallId, call: Call, r: Lane)
    requires LaneInv(lane, m) && c !in m && call.phase == Pending && !TakesAtOnce(lane, m)
    requires r == lane.(users := lane.users + 1, waiters := lane.waiters + [c], contention := r.contention)
    ensures LaneInv(r, m[c := call])
  {
    QueueGrows(lane.waiters, m, c, call);
    assert m[c := call].Keys == m.Keys + {c};
    QueuedHolder(lane, m, c, call, r);
    QueuedWake(lane, m, c, call, r);
  }

  lemma QueuedHolder(lane: Lane, m: Calls, c: CallId, call: Call, r: Lane)
    requires HolderInv(lane, m) && c !in m && call.phase == Pending && r.locked == lane.locked && r.owner == lane.owner
    ensures HolderInv(r, m[c := call])
  {
    if lane.locked {
      var inside :| inside in m && m[inside].phase == Inside;
      assert m[c := call][inside].phase == Inside;
    }
  }

  lemma QueuedWake(lane: Lane, m: Calls, c: CallId, call: Call, r: Lane)
    requires LaneInv(lane, m) && c !in m && call.phase == Pending && !TakesAtOnce(lane, m)
    requires r.locked == lane.locked && r.waiters == lane.waiters + [c] && QueueInv(r.waiters, m[c := call])
    ensures WakeInv(r, m[c := call])
  {
    forall i | 0 <= i < |r.waiters| && IsWoken(m[c := call][r.waiters[i]].phase) ensures i == 0 && !r.locked {
      assert i < |lane.waiters|;
    }
  }

  /** A call that finds the lock free and only cancelled waiters is inside at once. */
  lemma LaneTaken(lane: Lane, m: Calls, c: CallId, call: Call, r: Lane)
    requires LaneInv(lane, m) && c !in m && call.phase == Inside && TakesAtOnce(lane, m)
    requires r == lane.(users := lane.users + 1, locked := true, owner := Some(call.task), contention := r.contention)
    ensures LaneInv(r, m[c := call])
  {
    var after := m[c := call];
    assert after.Keys == m.Keys + {c};
    assert forall d | d in m :: m[d].phase != Inside;
    assert after[c].phase == Inside;
    assert QueueInv(r.waiters, after);
    forall i | 0 <= i < |r.waiters| ensures !IsWoken(after[r.waiters[i]].phase) {
      assert r.waiters[i] in lane.waiters;
    }
  }

  /** The same calls, as far as the lane can tell. */
  ghost predicate SamePlaces(m: Calls, r: Calls) {
    && r.Keys == m.Keys
    && (forall d | d in m :: (r[d].phase == Inside <==> m[d].phase == Inside) && r[d].task == m[d].task)
    && (forall d | d in m :: IsWoken(r[d].phase) <==> IsWoken(m[d].phase))
  }

  lemma SamePlacesHolder(lane: Lane, m: Calls, r: Calls)
    requires HolderInv(lane, m) && SamePlaces(m, r)
    ensures HolderInv(lane, r)
  {
    if lane.locked {
      var inside :| inside in m && m[inside].phase == Inside;
      assert inside in r.Keys && r[inside].phase == Inside;
    }
  }

  lemma SamePlacesQueue(lane: Lane, m: Calls, r: Calls)
    requires QueueInv(lane.waiters, m) && SamePlaces(m, r)
    ensures QueueInv(lane.waiters, r)
  {
    assert forall d :: d in m <==> d in r.Keys;
  }

  lemma CancelSamePlaces(m: Calls, c: CallId, r: Calls)
    requires c in m && r == m[c := m[c].(phase := CancelPhase(m[c].phase))]
    ensures SamePlaces(m, r) && |r| == |m|
    ensures forall d | d in m && r[d].phase == Pending :: m[d].phase == Pending
  {
    assert r.Keys == m.Keys;
    assert |r.Keys| == |r| && |m.Keys| == |m|;
  }

  lemma SamePlacesWake(lane: Lane, m: Calls, r: Calls)
    requires QueueInv(lane.waiters, m) && WakeInv(lane, m) && SamePlaces(m, r)
    requires forall d | d in m && r[d].phase == Pending :: m[d].phase == Pending
    ensures WakeInv(lane, r)
  {
    assert forall d | d in lane.waiters :: d in r.Keys;
  }

  /** A cancellation request moves no one in the queue. */
  lemma LaneCancels(lane: Lane, m: Calls, c: CallId, r: Calls)
    requires LaneInv(lane, m) && c in m
    requires r == m[c := m[c].(phase := CancelPhase(m[c].phase))]
    ensures LaneInv(lane, r)
  {
    CancelSamePlaces(m, c, r);
    SamePlacesHolder(lane, m, r);
    SamePlacesQueue(lane, m, r);
    SamePlacesWake(lane, m, r);
  }

  lemma WokenIsFirst(lane: Lane, m: Calls, c: CallId)
    requires LaneInv(lane, m) && c in m && IsWoken(m[c].phase)
    ensures lane.waiters != [] && lane.waiters[0] == c && !lane.locked
    ensures forall d | d in m :: m[d].phase != Inside
  {
    assert c in lane.waiters;
    var at :| 0 <= at < |lane.waiters| && lane.waiters[at] == c;
  }

  lemma ResumedQueue(waiters: seq<CallId>, m: Calls, c: CallId, after: Calls)
    requires QueueInv(waiters, m) && c in m && after == m[c := m[c].(phase := Inside)]
    ensures QueueInv(Without(waiters, c), after)
  {
    WithoutMembers(waiters, c);
  }

  lemma ResumedHolder(r: Lane, m: Calls, c: CallId, after: Calls)
    requires c in m && after == m[c := m[c].(phase := Inside)] && r.locked && r.owner == Some(m[c].task)
    requires forall d | d in m :: m[d].phase != Inside
    ensures HolderInv(r, after)
  {
    assert c in after && after[c].phase == Inside;
  }

  lemma SameSize(m: Calls, c: CallId, call: Call)
    requires c in m
    ensures |m[c := call]| == |m|
  {
    assert m[c := call].Keys == m.Keys;
    assert |m[c := call].Keys| == |m[c := call]| && |m.Keys| == |m|;
  }

  /** The woken waiter takes the lock. */
  lemma LaneResumes(lane: Lane, m: Calls, c: CallId, r: Lane)
    requires LaneInv(lane, m) && c in m && m[c].phase == Woken
    requires r == lane.(waiters := Without(lane.waiters, c), locked := true, owner := Some(m[c].task))
    ensures lane.waiters != [] && lane.waiters[0] == c && !lane.locked
    ensures LaneInv(r, m[c := m[c].(phase := Inside)])
  {
    var after := m[c := m[c].(phase := Inside)];
    WokenIsFirst(lane, m, c);
    ResumedQueue(lane.waiters, m, c, after);
    ResumedHolder(r, m, c, after);
    SameSize(m, c, m[c].(phase := Inside));
    OthersNotWoken(lane, m, c, r.waiters);
  }

  /** Behind a woken waiter nobody is woken. */
  lemma OthersNotWoken(lane: Lane, m: Calls, c: CallId, rest: seq<CallId>)
    requires LaneInv(lane, m) && c in m && lane.waiters != [] && lane.waiters[0] == c && rest == Without(lane.waiters, c)
    ensures forall i | 0 <= i < |rest| :: rest[i] in m && rest[i] != c && !IsWoken(m[rest[i]].phase)
  {
    WithoutMembers(lane.waiters, c);
    forall i | 0 <= i < |rest| ensures rest[i] in m && rest[i] != c && !IsWoken(m[rest[i]].phase) {
      WithoutTail(lane.waiters, c, i);
      var k :| 1 <= k < |lane.waiters| && lane.waiters[k] == rest[i];
    }
  }

  lemma WakeFirstFacts(waiters: seq<CallId>, m: Calls)
    requires QueueInv(waiters, m)
    ensures WakeFirst(waiters, m).Keys == m.Keys
    ensures QueueInv(waiters, WakeFirst(waiters, m))
    ensures forall c | c in m :: WakeFirst(waiters, m)[c].(phase := Inside) == m[c].(phase := Inside)
    ensures forall c | c in m && !(waiters != [] && c == waiters[0]) :: WakeFirst(waiters, m)[c] == m[c]
    ensures waiters != [] ==> WakeFirst(waiters, m)[waiters[0]].phase != Pending
    ensures forall c | c in m :: WakeFirst(waiters, m)[c].phase == Inside <==> m[c].phase == Inside
  {
  }

  lemma WakeFirstHolder(lane: Lane, waiters: seq<CallId>, m: Calls)
    requires HolderInv(lane, m) && QueueInv(waiters, m)
    ensures HolderInv(lane, WakeFirst(waiters, m))
  {
    WakeFirstFacts(waiters, m);
    if lane.locked {
      var inside :| inside in m && m[inside].phase == Inside;
      assert WakeFirst(waiters, m)[inside].phase == Inside;
    }
  }

  /** Waking the first waiter of a free lock. */
  lemma WakeFirstWakes(lane: Lane, m: Calls)
    requires QueueInv(lane.waiters, m) && !lane.locked
    requires forall i | 1 <= i < |lane.waiters| :: !IsWoken(m[lane.waiters[i]].phase)
    ensures QueueInv(lane.waiters, WakeFirst(lane.waiters, m))
    ensures WakeInv(lane, WakeFirst(lane.waiters, m))
  {
    var after := WakeFirst(lane.waiters, m);
    WakeFirstFacts(lane.waiters, m);
    forall i | 1 <= i < |lane.waiters| ensures !IsWoken(after[lane.waiters[i]].phase) {
      assert after[lane.waiters[i]] == m[lane.waiters[i]];
    }
  }

  lemma OneFewer(m: Calls, c: CallId)
    requires c in m
    ensures |m - {c}| == |m| - 1
  {
    assert m.Keys == (m - {c}).Keys + {c};
  }

  /** Without a waiter, no one behind the first is woken, and no one is while the lock is held. */
  lemma AbandonedQueue(lane: Lane, m: Calls, c: CallId)
    requires LaneInv(lane, m) && c in m && m[c].phase != Inside
    ensures QueueInv(Without(lane.waiters, c), m - {c})
    ensures forall i | 0 <= i < |Without(lane.waiters, c)| && IsWoken((m - {c})[Without(lane.waiters, c)[i]].phase) ::
      i == 0 && !lane.locked
  {
    var queue := Without(lane.waiters, c);
    WithoutMembers(lane.waiters, c);
    forall i | 0 <= i < |queue| && IsWoken((m - {c})[queue[i]].phase) ensures i == 0 && !lane.locked {
      StillFirst(lane, m, c, i);
    }
  }

  /** A woken waiter that stays was the first one, or behind only the one that goes. */
  lemma StillFirst(lane: Lane, m: Calls, c: CallId, i: nat)
    requires LaneInv(lane, m) && i < |Without(lane.waiters, c)| && Without(lane.waiters, c)[i] in m
    requires IsWoken(m[Without(lane.waiters, c)[i]].phase)
    ensures i == 0 && !lane.locked
  {
    var queue := Without(lane.waiters, c);
    WithoutMembers(lane.waiters, c);
    assert queue[i] in lane.waiters;
    var k :| 0 <= k < |lane.waiters| && lane.waiters[k] == queue[i];
    if i >= 1 {
      WithoutTail(lane.waiters, c, i);
    }
  }

  lemma AbandonedHolder(lane: Lane, m: Calls, c: CallId)
    requires HolderInv(lane, m) && c in m && m[c].phase != Inside
    ensures HolderInv(lane, m - {c})
  {
    if lane.locked {
      var inside :| inside in m && m[inside].phase == Inside;
      assert (m - {c})[inside].phase == Inside;
    }
  }

  /** A cancelled waiter leaves; if the lock is free it passes the wake-up on. */
  lemma LaneAbandons(lane: Lane, m: Calls, c: CallId, r: Lane, after: Calls)
    requires LaneInv(lane, m) && c in m && m[c].phase in {Cancelled, WokenCancelled}
    requires r == lane.(waiters := Without(lane.waiters, c), users := lane.users - 1)
    requires after == if lane.locked then m - {c} else WakeFirst(r.waiters, m - {c})
    ensures LaneInv(r, after)
  {
    var rest := m - {c};
    OneFewer(m, c);
    AbandonedQueue(lane, m, c);
    AbandonedHolder(lane, m, c);
    assert HolderInv(r, rest);
    if !lane.locked {
      WakeFirstFacts(r.waiters, rest);
      WakeFirstHolder(r, r.waiters, rest);
      WakeFirstWakes(r, rest);
      assert |after.Keys| == |rest.Keys|;
    }
  }

  /** The holder leaves and the first waiter is woken. */
  lemma LaneExits(lane: Lane, m: Calls, c: CallId, r: Lane, after: Calls)
    requires LaneInv(lane, m) && c in m && m[c].phase == Inside
    requires r == lane.(owner := None, locked := false, users := lane.users - 1)
    requires after == WakeFirst(lane.waiters, m - {c})
    ensures LaneInv(r, after)
  {
    var rest := m - {c};
    OneFewer(m, c);
    assert QueueInv(r.waiters, rest);
    assert HolderInv(r, rest);
    WakeFirstFacts(r.waiters, rest);
    WakeFirstHolder(r, r.waiters, rest);
    WakeFirstWakes(r, rest);
    assert |after.Keys| == |rest.Keys|;
  }

  // ---------------------------------------------------------------- the whole table

  /** Lanes are distinct objects that exist. */
  ghost predicate TableInv(s: Coordinator) {
    && (forall id | id in s.store :: id < s.created)
    && (forall key | key in s.lanes :: s.lanes[key] in s.store)
    && (forall a, b | a in s.lanes && b in s.lanes && s.lanes[a] == s.lanes[b] :: a == b)
  }

  /** Every call under way is on the lane the table has for its symbol. */
  ghost predicate SharedInv(s: Coordinator) {
    forall c | c in s.calls :: s.calls[c].key in s.lanes && s.lanes[s.calls[c].key] == s.calls[c].lane
  }

  ghost predicate LanesInv(s: Coordinator)
    requires TableInv(s)
  {
    forall key | key in s.lanes :: LaneInv(s.store[s.lanes[key]], On(s.calls, key)) && On(s.calls, key) != map[]
  }

  ghost predicate Inv(s: Coordinator) {
    TableInv(s) && SharedInv(s) && LanesInv(s)
  }

  predicate Wellformed(s: Coordinator) {
    forall key | key in s.lanes :: s.lanes[key] in s.store
  }

  function Next(s: Coordinator, step: Step): Coordinator {
    match step
    case Enter(c, task, symbol) => if Wellformed(s) then Entered(s, c, task, symbol) else s
    case Cancel(c) => CancelRequested(s, c)
    case Resume(c) => Resumed(s, c)
    case Exit(c) => Exited(s, c)
  }

  function Run(steps: seq<Step>): Coordinator {
    if steps == [] then IDLE else Next(Run(steps[..|steps| - 1]), steps[|steps| - 1])
  }

  /** `r` has, for one key, the lane object `id` holding `lane`, and these calls;
      everything of the other keys is as in `s`. */
  ghost predicate KeyStep(s: Coordinator, r: Coordinator, key: string, id: LaneId, lane: Lane) {
    && (if key in s.lanes then id == s.lanes[key] && r.created == s.created
        else id == s.created && r.created == s.created + 1)
    && r.store == s.store[id := lane]
    && (r.lanes == s.lanes[key := id] || (r.lanes == s.lanes - {key} && On(r.calls, key) == map[]))
    && forall other | other != key :: On(r.calls, other) == On(s.calls, other)
  }

  lemma KeyStepTable(s: Coordinator, r: Coordinator, key: string, id: LaneId, lane: Lane)
    requires TableInv(s) && KeyStep(s, r, key, id, lane)
    ensures TableInv(r)
  {
  }

  lemma KeyStepShared(s: Coordinator, r: Coordinator, key: string, id: LaneId, lane: Lane)
    requires SharedInv(s) && KeyStep(s, r, key, id, lane)
    requires forall c | c in On(r.calls, key) :: On(r.calls, key)[c].lane == id
    ensures SharedInv(r)
  {
    forall c | c in r.calls ensures r.calls[c].key in r.lanes && r.lanes[r.calls[c].key] == r.calls[c].lane {
      var own := r.calls[c].key;
      assert c in On(r.calls, own);
      if own != key {
        assert c in On(s.calls, own) && On(s.calls, own)[c] == r.calls[c];
      }
    }
  }

  lemma KeyStepLanes(s: Coordinator, r: Coordinator, key: string, id: LaneId, lane: Lane)
    requires TableInv(s) && LanesInv(s) && TableInv(r) && KeyStep(s, r, key, id, lane)
    requires LaneInv(lane, On(r.calls, key))
    requires key in r.lanes ==> On(r.calls, key) != map[]
    ensures LanesInv(r)
  {
    forall other | other in r.lanes
      ensures LaneInv(r.store[r.lanes[other]], On(r.calls, other)) && On(r.calls, other) != map[]
    {
      if other != key {
        assert other in s.lanes && r.lanes[other] == s.lanes[other];
        assert r.store[r.lanes[other]] == s.store[s.lanes[other]];
      }
    }
  }

  /** A step that touches one key keeps the invariant if it keeps that lane's. */
  lemma KeyStepKeepsInv(s: Coordinator, r: Coordinator, key: string, id: LaneId, lane: Lane)
    requires Inv(s) && KeyStep(s, r, key, id, lane)
    requires forall c | c in On(r.calls, key) :: On(r.calls, key)[c].lane == id
    requires LaneInv(lane, On(r.calls, key))
    requires key in r.lanes ==> On(r.calls, key) != map[]
    ensures Inv(r)
  {
    KeyStepTable(s, r, key, id, lane);
    KeyStepShared(s, r, key, id, lane);
    KeyStepLanes(s, r, key, id, lane);
  }

  lemma OnUpdate(calls: Calls, c: CallId, call: Call)
    requires c in calls ==> calls[c].key == call.key
    ensures On(calls[c := call], call.key) == On(calls, call.key)[c := call]
    ensures forall other | other != call.key :: On(calls[c := call], other) == On(calls, other)
  {
  }

  /** The lane `mutation` works on, and its invariant. */
  lemma LookedUp(s: Coordinator, key: string)
    requires Inv(s)
    ensures key in WithLane(s, key).lanes && WithLane(s, key).lanes[key] in WithLane(s, key).store
    ensures LaneInv(WithLane(s, key).store[WithLane(s, key).lanes[key]], On(s.calls, key))
    ensures forall c | c in On(s.calls, key) :: On(s.calls, key)[c].lane == WithLane(s, key).lanes[key]
  {
    if key in s.lanes {
      assert LaneInv(s.store[s.lanes[key]], On(s.calls, key));
    } else {
      NoCallsOff(s, key);
    }
  }

  /** A symbol without a lane has no calls, and its new lane fits. */
  lemma NoCallsOff(s: Coordinator, key: string)
    requires SharedInv(s) && key !in s.lanes
    ensures On(s.calls, key) == map[]
    ensures LaneInv(NEW_LANE, On(s.calls, key))
  {
    assert On(s.calls, key) == map[];
  }

  lemma TakesAtOnceLocal(calls: Calls, lane: Lane, key: string)
    requires QueueInv(lane.waiters, On(calls, key))
    ensures TakesAtOnce(lane, calls) <==> TakesAtOnce(lane, On(calls, key))
  {
  }

  /** The call starts: it is new and not a re-entry. */
  predicate Starts(s: Coordinator, c: CallId, task: TaskId, symbol: string) {
    c !in s.calls && !(Upper(symbol) in s.lanes && s.lanes[Upper(symbol)] in s.store
                       && s.store[s.lanes[Upper(symbol)]].owner == Some(task))
  }

  lemma EnterStep(s: Coordinator, c: CallId, task: TaskId, symbol: string)
    requires TableInv(s) && Starts(s, c, task, symbol)
    ensures var r := Entered(s, c, task, symbol);
      var key := Upper(symbol);
      var id := WithLane(s, key).lanes[key];
      && r.lanes == s.lanes[key := id] && id in r.store
      && KeyStep(s, r, key, id, r.store[id])
      && c in r.calls && r.calls == s.calls[c := r.calls[c]]
      && r.calls[c].key == key && r.calls[c].lane == id
  {
    var r := Entered(s, c, task, symbol);
    OnUpdate(s.calls, c, r.calls[c]);
  }

  /** The lane `mutation` finds for the symbol, or creates. */
  function FoundLane(s: Coordinator, key: string): Lane
    requires forall k | k in s.lanes :: s.lanes[k] in s.store
  {
    WithLane(s, key).store[WithLane(s, key).lanes[key]]
  }

  lemma LaneAfterEnter(lane: Lane, m: Calls, c: CallId, call: Call, r: Lane)
    requires LaneInv(lane, m) && c !in m
    requires if TakesAtOnce(lane, m)
      then call.phase == Inside && r == lane.(users := lane.users + 1, locked := true, owner := Some(call.task), contention := r.contention)
      else call.phase == Pending && r == lane.(users := lane.users + 1, waiters := lane.waiters + [c], contention := r.contention)
    ensures LaneInv(r, m[c := call])
  {
    if TakesAtOnce(lane, m) {
      LaneTaken(lane, m, c, call, r);
    } else {
      LaneQueues(lane, m, c, call, r);
    }
  }

  lemma EnteredLane(s: Coordinator, c: CallId, task: TaskId, symbol: string)
    requires TableInv(s) && Starts(s, c, task, symbol)
    ensures var r := Entered(s, c, task, symbol);
      var key := Upper(symbol);
      var lane := FoundLane(s, key);
      && key in r.lanes && r.lanes[key] in r.store && c in r.calls
      && var after := r.store[r.lanes[key]];
         if TakesAtOnce(lane, s.calls)
         then r.calls[c].phase == Inside
              && after == lane.(users := lane.users + 1, locked := true, owner := Some(task), contention := after.contention)
              && r.calls[c].task == task
         else r.calls[c].phase == Pending
              && after == lane.(users := lane.users + 1, waiters := lane.waiters + [c], contention := after.contention)
  {
  }

  lemma EnterLane(s: Coordinator, c: CallId, task: TaskId, symbol: string, r: Coordinator, lane: Lane, m: Calls)
    requires Inv(s) && Starts(s, c, task, symbol) && r == Entered(s, c, task, symbol)
    requires lane == FoundLane(s, Upper(symbol)) && m == On(s.calls, Upper(symbol))
    ensures Upper(symbol) in r.lanes && r.lanes[Upper(symbol)] in r.store && c in r.calls
    ensures LaneInv(r.store[r.lanes[Upper(symbol)]], m[c := r.calls[c]])
  {
    LookedUp(s, Upper(symbol));
    EnteredLane(s, c, task, symbol);
    TakesAtOnceLocal(s.calls, lane, Upper(symbol));
    LaneAfterEnter(lane, m, c, r.calls[c], r.store[r.lanes[Upper(symbol)]]);
  }

  lemma EnterKeepsInv(s: Coordinator, c: CallId, task: TaskId, symbol: string)
    requires Inv(s)
    ensures Inv(Entered(s, c, task, symbol))
  {
    if Starts(s, c, task, symbol) {
      var key := Upper(symbol);
      var r := Entered(s, c, task, symbol);
      EnterStep(s, c, task, symbol);
      EnterLane(s, c, task, symbol, r, FoundLane(s, key), On(s.calls, key));
      CallAdded(s, c, r.calls[c], key, r.lanes[key], On(s.calls, key)[c := r.calls[c]]);
      KeyStepKeepsInv(s, r, key, r.lanes[key], r.store[r.lanes[key]]);
    }
  }

  /** The calls of the key once a call on its lane is added. */
  lemma CallAdded(s: Coordinator, c: CallId, call: Call, key: string, id: LaneId, local: Calls)
    requires Inv(s) && id == WithLane(s, key).lanes[key] && c !in s.calls
    requires call.key == key && call.lane == id && local == On(s.calls, key)[c := call]
    ensures On(s.calls[c := call], key) == local
    ensures local != map[] && forall d | d in local :: local[d].lane == id
  {
    LookedUp(s, key);
    OnUpdate(s.calls, c, call);
    assert c in local;
  }

  /** Only a call's phase changes. */
  lemma PhaseStep(s: Coordinator, r: Coordinator, c: CallId, lane: Lane)
    requires TableInv(s) && SharedInv(s) && c in s.calls
    requires r == s.(store := s.store[s.lanes[s.calls[c].key] := lane], calls := r.calls)
    requires c in r.calls && r.calls == s.calls[c := r.calls[c]] && r.calls[c] == s.calls[c].(phase := r.calls[c].phase)
    ensures KeyStep(s, r, s.calls[c].key, s.lanes[s.calls[c].key], lane)
    ensures On(r.calls, s.calls[c].key) == On(s.calls, s.calls[c].key)[c := r.calls[c]]
  {
    OnUpdate(s.calls, c, r.calls[c]);
    assert s.lanes[s.calls[c].key := s.lanes[s.calls[c].key]] == s.lanes;
  }

  lemma PhaseStepKeepsInv(s: Coordinator, r: Coordinator, c: CallId, lane: Lane)
    requires Inv(s) && c in s.calls
    requires r == s.(store := s.store[s.lanes[s.calls[c].key] := lane], calls := r.calls)
    requires c in r.calls && r.calls == s.calls[c := r.calls[c]] && r.calls[c] == s.calls[c].(phase := r.calls[c].phase)
    requires LaneInv(lane, On(s.calls, s.calls[c].key)[c := r.calls[c]])
    ensures Inv(r)
  {
    var key := s.calls[c].key;
    PhaseStep(s, r, c, lane);
    LookedUp(s, key);
    assert c in On(r.calls, key);
    KeyStepKeepsInv(s, r, key, s.lanes[key], lane);
  }

  lemma CancelKeepsInv(s: Coordinator, c: CallId)
    requires Inv(s)
    ensures Inv(CancelRequested(s, c))
  {
    if c in s.calls {
      var key := s.calls[c].key;
      var r := CancelRequested(s, c);
      var lane := s.store[s.lanes[key]];
      LookedUp(s, key);
      LaneCancels(lane, On(s.calls, key), c, On(s.calls, key)[c := r.calls[c]]);
      assert s.store[s.lanes[key] := lane] == s.store;
      PhaseStepKeepsInv(s, r, c, lane);
    }
  }

  /** A call leaves its lane, which goes with its last call. */
  lemma LeaveKeepsInv(s: Coordinator, c: CallId, lane: Lane, calls: Calls, local: Calls)
    requires Inv(s) && c in s.calls
    requires forall other | other != s.calls[c].key :: On(calls - {c}, other) == On(s.calls, other)
    requires local == On(calls - {c}, s.calls[c].key)
    requires forall d | d in local :: local[d].lane == s.calls[c].lane
    requires LaneInv(lane.(users := lane.users - 1), local)
    ensures Inv(Left(s, c, lane, calls))
  {
    var key := s.calls[c].key;
    var id := s.lanes[key];
    var counted := lane.(users := lane.users - 1);
    LookedUp(s, key);
    UsedLane(counted, local);
    SameLanes(s.lanes, key);
    KeyStepKeepsInv(s, Left(s, c, lane, calls), key, id, counted);
  }

  lemma SameLanes(lanes: map<string, LaneId>, key: string)
    requires key in lanes
    ensures lanes[key := lanes[key]] == lanes
  {
  }

  /** A lane in use has calls. */
  lemma UsedLane(lane: Lane, m: Calls)
    requires LaneInv(lane, m)
    ensures m == map[] <==> lane.users == 0 && !lane.locked
  {
    assert |m| == 0 <==> m == map[];
    if lane.locked {
      var inside :| inside in m && m[inside].phase == Inside;
    }
  }

  lemma OnWakeFirst(waiters: seq<CallId>, calls: Calls, c: CallId, key: string)
    requires QueueInv(waiters, On(calls, key) - {c})
    ensures On(WakeFirst(waiters, calls) - {c}, key) == WakeFirst(waiters, On(calls, key) - {c})
    ensures forall other | other != key :: On(WakeFirst(waiters, calls), other) == On(calls, other)
  {
  }

  lemma OnWithout(calls: Calls, c: CallId)
    requires c in calls
    ensures On(calls - {c}, calls[c].key) == On(calls, calls[c].key) - {c}
    ensures forall other | other != calls[c].key :: On(calls - {c}, other) == On(calls, other)
  {
  }

  lemma ExitKeepsInv(s: Coordinator, c: CallId)
    requires Inv(s)
    ensures Inv(Exited(s, c))
  {
    if c in s.calls && s.calls[c].phase == Inside {
      var key := s.calls[c].key;
      var lane := s.store[s.lanes[key]];
      var m := On(s.calls, key);
      LookedUp(s, key);
      assert c !in lane.waiters;
      assert QueueInv(lane.waiters, m - {c});
      OnWakeFirst(lane.waiters, s.calls, c, key);
      OnWithout(WakeFirst(lane.waiters, s.calls), c);
      WakeFirstFacts(lane.waiters, m - {c});
      var let := lane.(owner := None, locked := false);
      LaneExits(lane, m, c, let.(users := let.users - 1), WakeFirst(lane.waiters, m - {c}));
      LeaveKeepsInv(s, c, let, WakeFirst(lane.waiters, s.calls), WakeFirst(lane.waiters, m - {c}));
    }
  }

  predicate Gone(s: Coordinator, c: CallId) {
    c in s.calls && s.calls[c].phase in {Cancelled, WokenCancelled}
  }

  lemma OwnLane(s: Coordinator, c: CallId, lane: Lane, m: Calls)
    requires Inv(s) && c in s.calls
    requires lane == s.store[s.lanes[s.calls[c].key]] && m == On(s.calls, s.calls[c].key)
    ensures s.calls[c].lane in s.store && lane == s.store[s.calls[c].lane]
    ensures LaneInv(lane, m) && c in m && m[c] == s.calls[c]
    ensures forall d | d in m :: m[d].lane == s.calls[c].lane
  {
    LookedUp(s, s.calls[c].key);
  }

  lemma GoneLeaves(s: Coordinator, c: CallId, lane: Lane)
    requires Gone(s, c) && s.calls[c].lane in s.store && lane == s.store[s.calls[c].lane]
    ensures var queue := Without(lane.waiters, c);
      Resumed(s, c) == Left(s, c, lane.(waiters := queue), if lane.locked then s.calls else WakeFirst(queue, s.calls))
  {
  }

  lemma AbandonLockedKeepsInv(s: Coordinator, c: CallId, lane: Lane, m: Calls)
    requires Inv(s) && Gone(s, c)
    requires lane == s.store[s.lanes[s.calls[c].key]] && m == On(s.calls, s.calls[c].key)
    requires lane.locked
    ensures Inv(Resumed(s, c))
  {
    var let := lane.(waiters := Without(lane.waiters, c));
    OwnLane(s, c, lane, m);
    GoneLeaves(s, c, lane);
    OnWithout(s.calls, c);
    LaneAbandons(lane, m, c, let.(users := let.users - 1), m - {c});
    LeaveKeepsInv(s, c, let, s.calls, m - {c});
  }

  lemma AbandonFreeKeepsInv(s: Coordinator, c: CallId, lane: Lane, m: Calls)
    requires Inv(s) && Gone(s, c)
    requires lane == s.store[s.lanes[s.calls[c].key]] && m == On(s.calls, s.calls[c].key)
    requires !lane.locked
    ensures Inv(Resumed(s, c))
  {
    var let := lane.(waiters := Without(lane.waiters, c));
    var local := WakeFirst(let.waiters, m - {c});
    OwnLane(s, c, lane, m);
    GoneLeaves(s, c, lane);
    FreeLaneLeft(s, c, lane, m, local);
    LeaveKeepsInv(s, c, let, WakeFirst(let.waiters, s.calls), local);
  }

  /** The calls left on a free lane, with the first waiter woken. */
  lemma FreeLaneLeft(s: Coordinator, c: CallId, lane: Lane, m: Calls, local: Calls)
    requires Gone(s, c) && m == On(s.calls, s.calls[c].key) && LaneInv(lane, m) && c in m && !lane.locked
    requires forall d | d in m :: m[d].lane == s.calls[c].lane
    requires local == WakeFirst(Without(lane.waiters, c), m - {c})
    ensures var calls := WakeFirst(Without(lane.waiters, c), s.calls);
      && (forall other | other != s.calls[c].key :: On(calls - {c}, other) == On(s.calls, other))
      && local == On(calls - {c}, s.calls[c].key)
    ensures forall d | d in local :: local[d].lane == s.calls[c].lane
    ensures LaneInv(lane.(waiters := Without(lane.waiters, c), users := lane.users - 1), local)
  {
    var queue := Without(lane.waiters, c);
    AbandonedQueue(lane, m, c);
    OnWakeFirst(queue, s.calls, c, s.calls[c].key);
    OnWithout(WakeFirst(queue, s.calls), c);
    WakeFirstFacts(queue, m - {c});
    LaneAbandons(lane, m, c, lane.(waiters := queue, users := lane.users - 1), local);
  }

  lemma WokenKeepsInv(s: Coordinator, c: CallId)
    requires Inv(s) && c in s.calls && s.calls[c].phase == Woken
    ensures Inv(Resumed(s, c))
  {
    var id := s.lanes[s.calls[c].key];
    var r := Resumed(s, c);
    LookedUp(s, s.calls[c].key);
    LaneResumes(s.store[id], On(s.calls, s.calls[c].key), c, r.store[id]);
    PhaseStepKeepsInv(s, r, c, r.store[id]);
  }

  lemma ResumeKeepsInv(s: Coordinator, c: CallId)
    requires Inv(s)
    ensures Inv(Resumed(s, c))
  {
    if c in s.calls && s.calls[c].phase == Woken {
      WokenKeepsInv(s, c);
    } else if Gone(s, c) {
      var lane := s.store[s.lanes[s.calls[c].key]];
      if lane.locked {
        AbandonLockedKeepsInv(s, c, lane, On(s.calls, s.calls[c].key));
      } else {
        AbandonFreeKeepsInv(s, c, lane, On(s.calls, s.calls[c].key));
      }
    }
  }

  /** The invariant holds after any interleaving of the steps. */
  lemma {:induction false} RunKeepsInv(steps: seq<Step>)
    ensures Inv(Run(steps))
  {
    if steps != [] {
      var before := Run(steps[..|steps| - 1]);
      RunKeepsInv(steps[..|steps| - 1]);
      match steps[|steps| - 1]
      case Enter(c, task, symbol) => EnterKeepsInv(before, c, task, symbol);
      case Cancel(c) => CancelKeepsInv(before, c);
      case Resume(c) => ResumeKeepsInv(before, c);
      case Exit(c) => ExitKeepsInv(before, c);
    }
  }
}
