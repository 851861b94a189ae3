# Market-data continuity, scheduling and replay: a verified model

This project models the deterministic kernel of a derivatives scanner and proves what
that kernel is relied on for. Objects whose methods update fields are classes whose
methods are proved, call by call, equal to functions on values; the theorems about whole
runs are lemmas about those functions.

| component | files |
|---|---|
| closed-candle gap tracking | `Continuity`, `ContinuityProofs`, `ContinuityRuns`, `ContinuityWindows`, `ContinuityRepeats`, `ContinuityCounts`, `ContinuityCases`, `GapTracker` |
| gap repair over REST | `RepairProofs`, `Backfill`, `RepairGaps`, `BackfillCases`, `ReopeningCases` |
| topic planning | `Planning`, `SortedStrings`, `Text` |
| per-symbol mutation lanes | `SymbolMutation`, `SymbolLanes`, `LaneSteps` |
| the WebSocket hub | `Hub`, `HubSubscriptions`, `HubAnswers`, `HubCycles`, `HubTickers`, `HubObject`, `HubCases` |
| the ticker gate | `Provider`, `ProviderReasons` |
| fair scheduling | `StableSort`, `RoundRobin`, `FastMonitor`, `Rotation` |
| event lifecycle and replay | `PullbackTracker`, `Lifecycle`, `LifecycleSteps`, `BaselineReplay`, `ReplaySteps`, `ReplaySafety`, `ReplayLedger`, `ReplayCausality`, `ReplayIsolation`, `ReplayTerminality` |
| outcome maturation | `Outcomes`, `OutcomeMaturation`, `OutcomeMeaning` |
| order-book slippage | `Slippage`, `SlippageProofs`, `Liquidity` |

`MarketData` and `SortedInts` hold the shared records and `sorted` over integer sets.

How the system is represented:

- A candle's open time is a whole minute; every other time is in milliseconds. Prices,
  sizes and percentages are real numbers.
- The hub is a state machine over the points where its coroutines wait: a universe change
  or a disconnect may fall between any two connections, batches or messages of a cycle.
- A mutation lane is modelled with the queue of `asyncio.Lock`: waiters are woken first in,
  first out, a woken waiter may be cancelled before it runs, and a caller may pass a queue
  of cancelled waiters.
- In a repair, the client's replies, the clock and whatever other tasks do to the tracker
  while the repair waits are inputs.
- In a replay, feature building, pump detection, zone building, observation validation and
  the evaluator are function values. They are given the event state without the number of
  its signal, which none of them reads. The evaluator's contract is that it decides nothing
  unless the state is PULLBACK_OBSERVED or SHORT_ZONE_ACTIVE (app/signals/engine.py:38).
  An operation that raises yields no result.
- The record of a marked signal starts from SIGNAL_SENT, because the state is marked in
  place before the record reads it (app/research/baseline_replay.py:162-166).

Where the code is weaker than one might expect, the model keeps the code and says exactly
when it holds:

- The active gaps are not the holes of the window. What holds in every run is a cover: each
  hole lies in an active gap, each active gap misses a minute, and each ends at or before a
  retained minute. The window has no hole if and only if every missing minute of the
  symbol's active gaps is earlier than every retained one
  (`ContinuityWindows.ConsecutiveIff`), which `active_gaps` and `get_candles` show. So a gap
  outlives its hole whenever enough consecutive minutes follow it
  (`ContinuityCases.GapOutlivesHole`), and a candle older than a full window leaves a gap
  that never was a hole of it (`ContinuityRuns.StaleCandleLeavesGap`).
- The ticker gate therefore refuses HUB_GAP_DETECTED over candles without a hole if and only
  if the ticker passes the earlier checks, the state is GAP_DETECTED, and all missing
  minutes of the symbol's active gaps are earlier than the retained ones
  (`Provider.FalseRefusalIff`). Without repair marks the state says so exactly when the
  symbol has an active gap (`Provider.DetectedIff`).
- A successful backfill closes its gap if and only if the gap's minutes and the retained
  minutes after it exceed the window by at most one (`RepairProofs.FillingClosesIff`). With
  the default bounds it does not after closed candles at minutes 0, 16, 17, 18 and 19: the
  gap misses 15 minutes, four follow, and 19 exceeds 17 by two
  (`BackfillCases.SuccessLeavesGap`).
- A successful backfill can leave another gap, one that was not active when its candles
  went in, whether or not its own gap still was: if and only if its first minute is more
  than a minute past the newest retained one; or that minute is more than a minute before
  the earliest retained one with no active gap between, and the gap either ends before the
  window too or, with the minutes from its start to the window, exceeds it by more than two
  (`RepairGaps.SuccessOpensIff`). For a gap that is still active that means: its end has
  left the window and no active gap reaches from its first minutes to the window
  (`RepairGaps.ActiveOpensIff`). A repair that other tasks overtake shows it with no gap
  active and the end retained: with 3 candles, minutes 0 and 4, then 1, 2, 3, 5 and 6 while
  it waits (`ReopeningCases.SuccessOpensGap`).
- The ticker gate refuses a symbol whose gap is only detected, but passes one whose gap is
  being repaired or whose repair failed. Exactly then can a ticker be served over a hole
  (`Provider.HoleServedOnlyInRepair`). One run of the hub and two of the tracker show both
  errors of the gate (`Provider.GateErrsBothWays`).
- The slippage figure is missing for a notional that is not positive, besides when the book
  is worth less than the notional (`SlippageProofs.NoneIff`).

## Model

| member | source | states |
|---|---|---|
| ContinuityProofs.RunKeepsInv | app/market_data/continuity.py:122-263 | in every reachable tracker state each hole between neighbouring retained candles lies in an active gap, each active gap misses a minute, windows are bounded and keyed by their candles, and states fit gaps and window |
| ContinuityProofs.ObservedKeepsInv | app/market_data/continuity.py:122-144 | one closed candle, in any order, keeps that invariant, eviction included |
| ContinuityProofs.EvictedKeepsLatest | app/market_data/continuity.py:143-144 | eviction keeps exactly the latest minutes, as many as fit, with their candles |
| ContinuityProofs.RecomputedCovers | app/market_data/continuity.py:201-255 | after a recomputation every hole of the symbol lies in an active gap |
| ContinuityProofs.InsertedKeeps | app/market_data/continuity.py:209-217 | an active gap survives an insertion, unchanged, exactly unless it is its symbol's and now filled |
| ContinuityProofs.InsertedOrigin | app/market_data/continuity.py:201-255 | every gap active after an insertion is an earlier one, or a hole between two neighbouring minutes of the extended window that no earlier gap covered |
| ContinuityRuns.ContiguousIsConsecutive | app/market_data/continuity.py:218-255 | CONTIGUOUS and TRACKING mean the retained candles are consecutive minutes, after any run |
| ContinuityRuns.NoGapMeansConsecutive | app/market_data/continuity.py:221-255 | without an active gap of the symbol its retained candles are consecutive minutes |
| ContinuityRuns.GappedHasMissingMinute | app/market_data/continuity.py:146-154 | GAP_DETECTED and BACKFILLING mean an active gap of the symbol with a minute that is not retained |
| ContinuityRuns.GapsBalance | app/market_data/continuity.py:131-144 | over every run, gaps detected equal gaps active plus gaps closed, and active plus backfilled never exceed detected |
| ContinuityRuns.NewGapsAreNew | app/market_data/continuity.py:221-242 | gaps reported by a call have distinct identities, none of them active before |
| ContinuityRuns.StoreRefinesHistory | app/market_data/continuity.py:122-144 | after any run the store holds exactly the latest distinct minutes ever accepted, each with the first candle accepted for it, even when evicted minutes come again |
| ContinuityRuns.UnrepairedGapStaysActive | app/market_data/continuity.py:204-217 | a gap once active is still active, unchanged, unless a candle was accepted for each of its minutes |
| ContinuityRuns.StaleCandleLeavesGap | app/market_data/continuity.py:136-144 | a candle older than a full window leaves the window as it was and an active gap from it to the window |
| ContinuityWindows.RunKeepsEnds | app/market_data/continuity.py:122-263 | after any run the end of each active gap is retained, or the symbol's window is full of later minutes |
| ContinuityWindows.ConsecutiveIff | app/market_data/continuity.py:122-263 | after any run a symbol's retained candles are consecutive minutes exactly when every missing minute of its active gaps is earlier than every retained one |
| ContinuityWindows.OpensGapIff | app/market_data/continuity.py:221-242 | a stored candle opens a new gap exactly when it is more than a minute past the newest retained one, or more than a minute before the earliest with no active gap over the minutes between |
| ContinuityWindows.JumpOpens | app/market_data/continuity.py:221-242 | a candle more than a minute past the newest retained one opens exactly the gap between the two |
| ContinuityCases.GapOutlivesHole | app/market_data/continuity.py:122-144 | after minute 0 and at least as many consecutive later minutes as the window holds, the gap between is active and the window has no hole, for every bound |
| ContinuityRepeats.RepeatIsCountedOnce | app/market_data/continuity.py:156-199 | a repeated minute changes no candle, gap, event or state and adds one to exactly one counter: conflicts for a WebSocket and a REST candle that differ, confirmations for two that agree, duplicates otherwise |
| ContinuityRepeats.ConflictIsRecorded | app/market_data/continuity.py:166-179 | two sources that differ leave, as the newest conflict, a record of both candles by source and of exactly the fields in which they differ |
| ContinuityRepeats.RepeatsBalance | app/market_data/continuity.py:122-199 | over any run conflicts, confirmations and duplicates together are the accepted candles whose minute was retained |
| ContinuityCounts.LateCounted | app/market_data/continuity.py:131-134 | a candle is counted late exactly when its minute is new and a later minute is retained |
| ContinuityCounts.BackfillCounted | app/market_data/continuity.py:135-142 | gaps backfilled grow, by one, exactly when a new minute from REST closes at least one active gap |
| ContinuityCounts.NewGapsAreReported | app/market_data/continuity.py:221-242 | a new minute reports exactly the gaps that are active now and were not, each once and in time order, found at the candle's receipt and with the connection of the candle that ends them; they are counted and recorded as the latest events |
| ContinuityCounts.EventsAreBounded | app/market_data/continuity.py:78-89 | after any run no more events are kept than the bound |
| GapTracking.GapTracker.constructor | app/market_data/continuity.py:78-89 | a new tracker is empty and satisfies the invariant |
| GapTracking.GapTracker.Create | app/market_data/continuity.py:78-89 | bounds below two candles or one event are refused, and no others |
| GapTracking.GapTracker.ObserveConnection | app/market_data/continuity.py:113-117 | only the connection counter changes |
| GapTracking.GapTracker.ObserveClosedCandle | app/market_data/continuity.py:122-144 | the in-place code is the value step: filter, duplicate, late count, recomputation, backfill count and eviction |
| GapTracking.GapTracker.Store | app/market_data/continuity.py:131-136 | the candle is stored, and counted late exactly when a later minute is retained |
| GapTracking.GapTracker.Insert | app/market_data/continuity.py:131-142 | storing, recomputing, and at most one backfill counted when a gap left |
| GapTracking.GapTracker.Trim | app/market_data/continuity.py:143-144 | the loop evicts the earliest minutes until the window fits |
| GapTracking.GapTracker.HandleDuplicate | app/market_data/continuity.py:156-199 | the in-place code is the value step whose effect ContinuityRepeats.RepeatIsCountedOnce and ContinuityRepeats.ConflictIsRecorded state |
| GapTracking.GapTracker.RecomputeSymbol | app/market_data/continuity.py:201-255 | the in-place recomputation is the value one |
| GapTracking.GapTracker.KeepUnfilled | app/market_data/continuity.py:204-217 | the pop and re-add loops keep other symbols' gaps and this symbol's unfilled ones |
| GapTracking.GapTracker.ReportNewHoles | app/market_data/continuity.py:221-250 | the pass over successive times adds, records and counts exactly the holes no prior gap contains |
| GapTracking.GapTracker.MarkBackfilling | app/market_data/continuity.py:146-148 | the state changes only for an active gap |
| GapTracking.GapTracker.MarkBackfillFailure | app/market_data/continuity.py:150-154 | DEGRADED and one more failure, nothing else |
| GapTracking.GapTracker.GetCandles | app/market_data/continuity.py:109-111 | the retained candles of the symbol, all of them, in time order |
| GapTracking.LateIff | app/market_data/continuity.py:131-134 | a later minute is retained exactly when the candle is older than the newest one |
| RepairProofs.FillingClosesIff | app/market_data/continuity.py:122-144 | inserting an active gap's minutes in order closes it exactly when they and the retained minutes after it exceed the window by at most one |
| RepairProofs.RunSame | app/market_data/continuity.py:146-154 | repair marks change neither candles nor gaps of anything that follows |
| RepairProofs.InactiveStaysInactive | app/market_data/continuity.py:221-240 | filling an inactive gap's minutes never makes it active |
| RepairGaps.FillingOpensIff | app/market_data/continuity.py:122-144 | inserting the minutes of any gap in order, active or not, leaves a gap that was not active before exactly when the first minute jumps past the window, or falls short of it uncovered and the gap ends before the window or does not fit it |
| RepairGaps.ActiveOpensIff | app/market_data/continuity.py:122-144 | for an active gap that condition holds exactly when its end is no longer retained and no active gap reaches from its first minutes to the window |
| RepairGaps.CalmIsQuiet | app/market_data/continuity.py:122-144 | successive minutes open no gap when the first of them would not, whatever is evicted or dropped on the way |
| RepairGaps.EndRetainedIsQuiet | app/market_data/continuity.py:122-144 | while a gap's end is retained, no number of its minutes opens another gap |
| Backfill.CollectRows | app/market_data/backfill.py:162-193 | the parse loop succeeds exactly when every row is good and no start repeats, and then holds for each start a candle whose prices are its row's cells, one by one |
| Backfill.ParseRows | app/market_data/backfill.py:153-194 | a reply parses exactly when every row is good and no start repeats; each candle has the minute, open, high, low, close, volume and turnover of cells 0 to 6 of a row, the server and receipt times, the gap's epoch and the REST source; candles are in time order |
| Backfill.GoodRowIff | app/market_data/backfill.py:162-181 | a row is good exactly when it has seven cells, the first is the start of one of the gap's minutes in milliseconds, and the six after it are finite numbers |
| Backfill.CompleteParseFills | app/market_data/backfill.py:122-123 | as many good rows as missing minutes are exactly the gap's minutes, in order |
| Backfill.ClosedCandleBackfiller.Try | app/market_data/backfill.py:79-142 | one attempt decides unless its reply is clean but incomplete; the result and the tracker steps it leaves |
| Backfill.ClosedCandleBackfiller.Retry | app/market_data/backfill.py:79-142 | the first attempt that is not a clean incomplete reply decides, after exactly the steps of other tasks up to it |
| Backfill.ClosedCandleBackfiller.Repair | app/market_data/backfill.py:63-150 | the outcome is the one the attempts settle, and the tracker has run exactly the repair's and the other tasks' steps |
| Backfill.SuccessIsExact | app/market_data/backfill.py:122-142 | SUCCESS carries exactly the gap's minutes in order, all closed by the decision time; no two rows start together and each candle says, cell by cell, what the row of its minute says |
| Backfill.FailureChangesNothing | app/market_data/backfill.py:67-150 | any other status leaves candles and gaps as the other tasks alone would, and adds exactly one failure |
| Backfill.QuietFailure | app/market_data/backfill.py:67-150 | without interference a failed repair leaves candles and gaps alone and adds one failure |
| Backfill.SuccessCloses | app/market_data/backfill.py:133-142 | a successful repair leaves the gap inactive exactly when no gap of its identity was active before its candles went in, or it fits the window with the minutes after it, up to one |
| RepairGaps.SuccessOpensIff | app/market_data/backfill.py:133-142 | a successful repair of any gap, whatever other tasks did to it meanwhile, leaves a gap that was not active when its candles went in exactly when the condition of FillingOpensIff held then |
| BackfillCases.FullReplySucceeds | app/market_data/backfill.py:63-150 | for every gap within the limit there is a reply that settles its repair as SUCCESS |
| BackfillCases.SuccessLeavesGap | app/market_data/backfill.py:133-142 | concrete runs, with the default bounds among them, after which SUCCESS with every missing minute leaves its gap active |
| ReopeningCases.SuccessOpensGap | app/market_data/backfill.py:63-150 | concrete runs in which other tasks close the gap under repair, no gap of the symbol is active and the gap's end is retained, and yet the SUCCESS that follows leaves another gap active |
| Planning.TopicsAreExact | app/market_data/planning.py:30-73 | the topics are, in order and each once, the two topics of every stripped, upper-cased, non-empty symbol, whatever the input's order, case and duplicates |
| Planning.StripMeans | app/market_data/planning.py:30-35 | stripping removes the white space at both ends, all of it and nothing else |
| Planning.Partition | app/market_data/planning.py:38-56 | succeeds exactly when the budget is positive and every topic fits, with an order-preserving split within the budget in which no group could take the next topic; else names a topic that is too long |
| Planning.GreedyStaysAhead | app/market_data/planning.py:44-55 | after any number of groups the greedy split has placed at least as many topics as any other split within the budget |
| Planning.GreedyIsOptimal | app/market_data/planning.py:38-56 | no order-preserving split within the budget has fewer groups |
| Planning.GreedyIsUnique | app/market_data/planning.py:38-56 | the greedy split is the only split within the budget in which no group could take the next topic |
| Planning.FitsIff | app/market_data/planning.py:74-76 | the greedy split fits the connections exactly when some consecutive split does |
| Planning.BatchesFlatten | app/market_data/planning.py:77-84 | flattening connections then batches gives the topics of the connections |
| Planning.PlanTopics | app/market_data/planning.py:59-84 | capacity is exceeded exactly when no consecutive split into the allowed connections fits; a plan flattens to the sorted topics through connections and through batches; and exactly when planning succeeds |
| SymbolMutation.RunKeepsInv | app/runtime/symbol_mutation.py:33-66 | every interleaving keeps the lane table, the sharing of lanes, the counts, the queue, the holder and the wake-ups consistent |
| SymbolLanes.MutualExclusion | app/runtime/symbol_mutation.py:48-59 | two calls whose symbols agree up to case are never inside together |
| SymbolLanes.LaneCountsCalls | app/runtime/symbol_mutation.py:33-66 | a lane exists exactly while its symbol has calls waiting or inside, all share it, and `users` is their number |
| SymbolLanes.ReentryIff | app/runtime/symbol_mutation.py:39-41 | re-entry is refused exactly when the calling asyncio task is inside that symbol's lane, and then nothing changes |
| SymbolLanes.NoOvertaking | app/runtime/symbol_mutation.py:48-50 | a waiter gets in only as the first of its queue, and a caller that does not wait passes only cancelled waiters |
| SymbolLanes.SomeoneCanMove | app/runtime/symbol_mutation.py:60-66 | no lost wake-up: a symbol with calls under way has one that can move |
| SymbolLanes.MovesAreBounded | app/runtime/symbol_mutation.py:48-66 | every move of a call uses up part of a bounded effort |
| SymbolLanes.Drains | app/runtime/symbol_mutation.py:33-66 | from every reachable state all calls can finish without outside help, and then no lane is left |
| LaneSteps.EnterMeans | app/runtime/symbol_mutation.py:33-50 | a call gets inside at once exactly when no call is inside on its symbol and every waiter was cancelled; else it is queued behind all the others |
| LaneSteps.ContentionMeans | app/runtime/symbol_mutation.py:44-45 | an entry counts as contended exactly when some call is inside on its symbol |
| LaneSteps.ResumeWoken | app/runtime/symbol_mutation.py:48-50 | a woken call gets inside and leaves the queue; no other call changes |
| LaneSteps.ResumeCancelled | app/runtime/symbol_mutation.py:48-66 | a cancelled call is gone; unless some call is inside, the new head of the queue is woken if it still waits, and no other call changes |
| LaneSteps.ExitMeans | app/runtime/symbol_mutation.py:60-66 | a call that is done is gone and none is inside; the head of the queue is woken if it still waits, and no other call changes |
| SymbolLanes.SymbolMutationCoordinator.Enter | app/runtime/symbol_mutation.py:33-59 | the in-place entry is the value step; it reports re-entry, entry and waiting exactly |
| SymbolLanes.SymbolMutationCoordinator.Cancel | app/runtime/symbol_mutation.py:46-48 | a cancellation request changes only the call's phase |
| SymbolLanes.SymbolMutationCoordinator.Resume | app/runtime/symbol_mutation.py:48-66 | a woken waiter takes the lock, a cancelled one leaves and passes the wake-up on |
| SymbolLanes.SymbolMutationCoordinator.Exit | app/runtime/symbol_mutation.py:60-66 | leaving releases the lock, wakes the first waiter and drops the lane with its last user |
| HubSubscriptions.SetsAreDisjoint | app/market_data/hub.py:216-225 | at every point of every run acknowledged, failed and pending topics are pairwise disjoint, no topic is pending twice, and all are expected |
| HubSubscriptions.SetsAreComplete | app/market_data/hub.py:276-304 | once all batches of an unchanged universe are sent the three sets together are exactly the expected topics, which are the current symbols' |
| HubSubscriptions.LateAcksAreIgnored | app/market_data/hub.py:436-453 | an answer to a request of an earlier cycle or universe changes none of the four sets |
| HubSubscriptions.StepKeeps | app/market_data/hub.py:227-274 | every step keeps the account of the sets, and all but a universe change keep it exact |
| HubSubscriptions.AckKeeps | app/market_data/hub.py:436-453 | an answer moves its topics between the sets and loses none: a positive one acknowledges its whole batch, a negative one fails it and acknowledges nothing |
| HubSubscriptions.SettledOnce | app/market_data/hub.py:436-453 | once a request that was issued has been answered, no later answer to it, at any point of the run, changes anything |
| HubSubscriptions.IdsAscend | app/market_data/hub.py:615-617 | the ids issued by the steps of a run, subscriptions and pings alike, have ascending numbers, so none is issued twice |
| HubAnswers.AnswersDecide | app/market_data/hub.py:216-453 | at every point of every run a topic is acknowledged exactly when a positive answer to a request carrying it came since the sets were last emptied, and failed exactly when a negative one came, or the cycle was lost while its request was under way, since then |
| HubAnswers.AnswerMeans | app/market_data/hub.py:436-453 | a positive answer to a request under way acknowledges all its topics, a negative one fails them all and acknowledges none; either way no other topic moves and the request is settled |
| HubCycles.GenerationsCountOpens | app/market_data/hub.py:669-672 | over every run a shard's generation is the number of times its connection was opened |
| HubCycles.CounterCountsRequests | app/market_data/hub.py:615-617 | over every run the request counter is the number of subscription batches and pings sent |
| HubCycles.EventIff | app/market_data/hub.py:131-148 | at every point of every run the universe event is set exactly when a universe was adopted, or the hub stopped, and no later step noticed or cleared it |
| HubCycles.OpeningMeans | app/market_data/hub.py:278-290 | opening gives the next shard the next generation and drops exactly the tickers of the topics its connection carries |
| HubCycles.UniverseMeans | app/market_data/hub.py:131-148 | a new universe drops exactly the tickers of symbols it does not list; planned, it expects exactly the plan's topics and empties the other sets; unplanned, it leaves them |
| HubTickers.TickersAreCurrentFolds | app/market_data/hub.py:455-520 | while messages are received every stored ticker is of the current generation and holds, field by field, the last valid value sent since its last full snapshot in this cycle |
| HubTickers.AcknowledgedTickersAreFolds | app/market_data/hub.py:276-520 | at every point of every run, between cycles too, a stored ticker whose topic is acknowledged holds, field by field, the last valid value sent since the symbol's last full snapshot of the last planned cycle |
| HubTickers.StoredIff | app/market_data/hub.py:276-290 | in an unchanged universe a symbol has a ticker exactly when a full snapshot for it arrived in this cycle, so a delta never builds on an earlier cycle |
| HubTickers.NormalizedIsNormal | app/market_data/planning.py:30-35 | normalized symbols are not empty, stripped and upper-cased |
| HubObject.MarketDataHub.constructor | app/market_data/hub.py:62-112 | a new hub has the normalized universe, empty stores and the invariants |
| HubObject.MarketDataHub.Plan | app/market_data/planning.py:59-84 | the plan of the current symbols under the default budgets, exactly when their topics fit the budgets and the connections; otherwise a failure |
| HubObject.MarketDataHub.NextRequestId | app/market_data/hub.py:615-617 | the id carries the counter, which grew by one; HubSubscriptions.IdsAscend says that ids never repeat |
| HubObject.MarketDataHub.RegisterSubscribe | app/market_data/hub.py:606-608 | the batch becomes pending and its topics expected |
| HubObject.MarketDataHub.FailPending | app/market_data/hub.py:610-613 | every pending topic fails and nothing is pending |
| HubObject.MarketDataHub.HandleAck | app/market_data/hub.py:436-453 | an answer settles a pending batch: a positive one acknowledges all its topics and clears their failures, a negative one fails them and leaves what is acknowledged; an answer to anything else changes nothing |
| HubObject.MarketDataHub.NextConnectionEpoch | app/market_data/hub.py:669-672 | the new epoch is current and every other epoch of the shard no longer is |
| HubObject.MarketDataHub.InvalidateTickers | app/market_data/hub.py:674-677 | exactly the tickers of the given topics are dropped |
| HubObject.MarketDataHub.HandleTicker | app/market_data/hub.py:455-520 | a snapshot replaces, a delta updates the sent fields, anything else changes nothing |
| HubObject.MarketDataHub.Update | app/market_data/hub.py:131-148 | the stores are cut to the new universe; the sets start over unless planning raises; the invariants are kept |
| HubObject.MarketDataHub.Begin | app/market_data/hub.py:241-255 | a round plans and empties the sets, or fails what is pending; the invariants are kept |
| HubObject.MarketDataHub.Open | app/market_data/hub.py:278-290 | a connection gets a new generation and drops its topics' tickers; the invariants are kept |
| HubObject.MarketDataHub.Send | app/market_data/hub.py:291-304 | the next batch is registered under a new id; the invariants are kept |
| HubObject.MarketDataHub.ReceiveAck | app/market_data/hub.py:420-421 | an answer during the receive loop acknowledges its batch if it is positive and fails it if not; the invariants are kept |
| HubObject.MarketDataHub.ReceiveTicker | app/market_data/hub.py:426-427 | a ticker during the receive loop keeps the invariants and joins the log |
| HubObject.MarketDataHub.Disconnect | app/market_data/hub.py:254-272 | the cycle ends and unanswered batches fail; the invariants are kept |
| HubObject.MarketDataHub.LeaveForUniverse | app/market_data/hub.py:248-251 | the cycle ends and the event is cleared; the invariants are kept |
| HubObject.MarketDataHub.GetSnapshot | app/market_data/hub.py:150-151 | the symbol's ticker if there is one, of the current generation while messages are received |
| Provider.HubOnlyBehindGate | app/market_data/provider.py:485-522 | a ticker is marked as from the hub exactly in HUB_PREFERRED mode with a healthy hub, a sound ticker and a state other than UNINITIALIZED and GAP_DETECTED; else the REST snapshot is returned as it was; no input is dated after the capture |
| Provider.ServedMeansNoHole | app/market_data/provider.py:565-600 | with no repair marks, a served ticker has an acknowledged topic, the current generation, all six fields, an age of at most 45 seconds and no future timestamp, and its symbol's retained candles are there and have no hole |
| Provider.HoleServedOnlyInRepair | app/market_data/provider.py:585-589 | over a hole a ticker is served exactly when it is sound and the symbol's state is BACKFILLING or DEGRADED |
| Provider.HoleCanBeServed | app/market_data/provider.py:585-589 | a concrete run after which every sound ticker of the symbol is served over a hole |
| Provider.SoundTickerIsReached | app/market_data/hub.py:276-325 | a run of the hub over one symbol, from its start, that ends with a sound ticker of it |
| Provider.DetectedIff | app/market_data/continuity.py:218-255 | without repair marks the state is GAP_DETECTED exactly when the symbol has an active gap |
| Provider.FalseRefusalIff | app/market_data/provider.py:585-589 | after any run HUB_GAP_DETECTED is returned over candles without a hole exactly when the ticker passes the earlier checks, the state is GAP_DETECTED, and every missing minute of the symbol's active gaps is earlier than every retained one |
| Provider.UnprobedFalseRefusalIff | app/market_data/provider.py:585-589 | without repair marks the same with "an active gap of the symbol" in place of the state |
| Provider.FalseRefusalHappens | app/market_data/provider.py:585-589 | runs, for every bound, after which every sound ticker is refused over candles without a hole |
| Provider.GateErrsBothWays | app/market_data/provider.py:565-600 | one reachable hub state whose ticker is served over a hole after a failed repair and refused without one after a bridged gap |
| Provider.ResolvedPricesAreLatest | app/market_data/provider.py:506-512 | at every point of every run each price resolved from the hub is the last valid value sent since the symbol's last full snapshot of the last planned cycle |
| Provider.UnprobedIsPlain | app/market_data/continuity.py:218-255 | without repair marks every state is TRACKING, GAP_DETECTED or CONTIGUOUS |
| ProviderReasons.RefusedIff | app/market_data/provider.py:565-600 | each of the ten reasons is given exactly where its own check is the first to fail, in the order of the code and in plain terms of the hub and the tracker; a ticker that passes all is served as stored |
| ProviderReasons.ProvenanceMeans | app/market_data/provider.py:485-540 | in HUB_PREFERRED mode a served ticker's six figures and receipt replace the REST ones, figure by figure; every other case returns the REST snapshot, as a fallback with the mapped reason only after a refusal |
| ProviderReasons.DiffersIff | app/market_data/provider.py:703-720 | a shadow difference is found exactly when one of the six figures differs |
| ProviderReasons.TickerEvidenceMeans | app/market_data/provider.py:495-562 | a served ticker is recorded as selected, or in shadow mode as a match exactly when all six figures agree and else as a mismatch; a refusal is recorded with its reason |
| ProviderReasons.CandleRefusedIff | app/market_data/provider.py:609-660 | each of the six reasons against the last closed candle is given exactly where its own check is the first to fail |
| Provider.MarketDataProvider.Judge | app/market_data/provider.py:565-600 | a served ticker is sound: acknowledged, current, complete, fresh and not from the future |
| Provider.MarketDataProvider.ResolveTicker | app/market_data/provider.py:485-522 | the resolved group, the candidate source and difference of the symbol, and the evidence records, with event, symbol and reason: none in REST_ONLY, the choice in HUB_PREFERRED, the ticker's and the closed candle's in HUB_SHADOW |
| Provider.MarketDataProvider.ShadowCompare | app/market_data/provider.py:542-562 | the candidate source and difference of the symbol, and two evidence records in order: the ticker's (unavailable with the reason, match or mismatch) and, with a hub, the closed candle's |
| Provider.MarketDataProvider.RecordClosedShadow | app/market_data/provider.py:602-670 | nothing without a hub, else one record: usable, or the first reason why not |
| Provider.ClosedShadowIff | app/market_data/provider.py:609-670 | without repair marks the closed candle is recorded as usable exactly when it is a confirmed one-minute candle of the current generation, not from the future, and its symbol has retained candles and no active gap; without an active gap they have no hole |
| StableSort.SortIgnoresOrder | app/research/baseline_replay.py:108 | sorting forgets the input order when keys identify the elements |
| StableSort.SortIsStable | app/research/baseline_replay.py:108 | elements that sort equal keep their input order |
| StableSort.SortFilters | app/research/baseline_replay.py:108-113 | a stable sort commutes with filtering |
| RoundRobin.PollsAreBalanced | app/main.py:1193-1201 | after any number of consecutive polls of unchanged keys, from any cursor, each key was taken floor or ceiling of its share |
| RoundRobin.EveryKeyIsReached | app/main.py:1193-1201 | every key is taken within ceiling(n / cap) polls |
| RoundRobin.SelectedIff | app/main.py:1197-1199 | a poll takes exactly the keys fewer than its width ahead of the cursor, none twice |
| RoundRobin.SlicesArePolls | app/market/shortlist.py:59-71 | the slice fed its own cursor polls the sorted symbols, whatever the order and prices of each round's snapshots |
| RoundRobin.ShortlistIsBalanced | app/market/shortlist.py:59-71 | each symbol was sliced floor or ceiling of its share |
| RoundRobin.ShortlistReachesAll | app/market/shortlist.py:59-71 | each symbol is sliced within ceiling(n / batch size) rounds |
| FastMonitor.PoolIsFirstSightings | app/main.py:1246-1299 | after any run of sightings a symbol is tracked for its latest event only, as the first sighting of it that was still live left it: later sightings do not refresh it |
| FastMonitor.PoolHasOnePerSymbol | app/main.py:1252-1275 | at most one event of a symbol is tracked |
| FastMonitor.PoolMeans | app/main.py:1246-1299 | each tracked candidate is a sighting of its symbol's latest event, with that sighting's event, high time and time, and was within the time to live from the high |
| FastMonitor.MonitorIsFair | app/main.py:1010-1042 | between two changes of the pool every tracked event is polled its fair share and within ceiling(n / cap) polls |
| FastMonitor.FastMonitor.Track | app/main.py:1246-1299 | the in-place pool update is the value step |
| FastMonitor.FastMonitor.RemoveReplaced | app/main.py:1252-1274 | the loop removes exactly the symbol's other events |
| FastMonitor.FastMonitor.SelectKeys | app/main.py:1193-1201 | the next keys in cyclic order, and the cursor moved past them |
| FastMonitor.FastMonitor.PollTimes | app/main.py:1005-1042 | consecutive polls over an unchanged pool reach every tracked event |
| Rotation.BatchIsExact | app/market/coverage.py:64-89 | a batch holds distinct uncovered eligible symbols, as many as fit |
| Rotation.PreferenceIsRespected | app/market/coverage.py:77-89 | no symbol is selected while a better-ranked uncovered preferred one is left out or behind |
| Rotation.OthersAscend | app/market/coverage.py:84-89 | uncovered symbols that nobody prefers come in ascending order: none is selected while a smaller one is left out or behind |
| Rotation.RotationIsDisjoint | app/market/coverage.py:64-89 | batches fed back as scheduled are pairwise disjoint, even when preferences change |
| Rotation.RotationCovers | app/market/coverage.py:64-89 | the whole eligible set is covered exactly from round ceiling(n / batch size) on |
| PullbackTracker.AdvanceProgresses | app/events/pullback_tracker.py:18-65 | advancing keeps the base, never lowers the high, touches a sent signal only to expire it, and expires it once 15 minutes old |
| PullbackTracker.ResetProgresses | app/events/pullback_tracker.py:67-89 | a reset raises the high, keeps the base, and cannot repeat on the same features |
| PullbackTracker.ObservedMeans | app/events/pullback_tracker.py:51-63 | a pullback is newly observed only if none was, at a price not below the floor or the kill price, with a drop from the high within the bounds |
| PullbackTracker.ObservedIff | app/events/pullback_tracker.py:43-65 | an event that is neither over nor reset becomes PULLBACK_OBSERVED exactly when none was observed, the drop from the high is within the bounds, the VWAP distance at least its minimum and the price at least the floor, and then that drop and the last low are recorded; otherwise the deepest drop and lowest low so far, and the status stays |
| PullbackTracker.ExpiresIff | app/events/pullback_tracker.py:27-35 | an advance expires a live event exactly when its time has come, the price is below 35 percent of the way from base to high, or 15 minutes passed since the signal |
| PullbackTracker.ResetMeans | app/events/pullback_tracker.py:67-89 | a reset happens exactly on a confirmed higher high before any signal; the range is measured from the base, and pullback and zone are forgotten |
| PullbackTracker.PullbackDeepens | app/events/pullback_tracker.py:43-63 | once observed, the recorded pullback only deepens until a reset or the expiry |
| PullbackTracker.Tracker.ResetAfterConfirmedHigh | app/events/pullback_tracker.py:67-89 | exactly when the event is reset, and its new state |
| PullbackTracker.Tracker.Advance | app/events/pullback_tracker.py:18-65 | the in-place update is the value one, wherever the code does not divide by a zero base price, and an event that expires first never does; PullbackTracker.ExpiresIff, ResetMeans and ObservedIff say what it is in each case |
| PullbackTracker.Tracker.MarkSignalSent | app/events/pullback_tracker.py:91-98 | the in-place mark is the value one |
| Lifecycle.CoreProgresses | app/baseline/lifecycle.py:131-179 | a core step only progresses its event, never changes its signal id, and its records are of that event and time |
| Lifecycle.CoreIsBlind | app/baseline/lifecycle.py:131-179 | a core step does not depend on the number of the signal |
| LifecycleSteps.ZoneEnteredIff | app/baseline/lifecycle.py:162-179 | where the advanced event is set up and a zone is built, the event gets its bounds and is evaluated with the final features; it enters SHORT_ZONE_ACTIVE, with one ZONE_ENTERED record as the last, exactly when it is PULLBACK_OBSERVED and the final price is within the zone |
| LifecycleSteps.NotEvaluated | app/baseline/lifecycle.py:153-164 | an expired event, one at PUMP_DETECTED and one without a zone are not evaluated; there is one STATE_ADVANCE record exactly when the status changed |
| LifecycleSteps.HigherHighResets | app/baseline/lifecycle.py:146-151 | a confirmed higher high before any signal ends the step with the reset, one NEW_HIGH_RESET record and no evaluation |
| LifecycleSteps.CreatedIff | app/baseline/lifecycle.py:61-77 | an event is created exactly when the detector finds a pump, with the pump's high, times, base, range and window, due to expire after the configured time, and one EVENT_CREATED record |
| Lifecycle.BaselineLifecycle.AdvanceCore | app/baseline/lifecycle.py:131-179 | the in-place core on a fresh copy is the value step, which LifecycleSteps.HigherHighResets, NotEvaluated and ZoneEnteredIff describe case by case |
| Lifecycle.BaselineLifecycle.EnterZone | app/baseline/lifecycle.py:165-177 | the zone's bounds are set; the status becomes SHORT_ZONE_ACTIVE exactly from PULLBACK_OBSERVED with the final price between them, with exactly one more record, and otherwise stays |
| BaselineReplay.KeyLeIsTotal | app/research/baseline_replay.py:260-261 | opportunity keys are totally ordered |
| BaselineReplay.MinuteGapIff | app/research/baseline_replay.py:271-279 | a frame has a gap exactly when some stamp has later ones but none within a minute |
| ReplaySteps.OrderMeans | app/research/baseline_replay.py:108 | no opportunity is replayed after one that is earlier, or at the same time of smaller sequence, symbol or trigger in that order |
| ReplaySteps.UnevaluatedStep | app/research/baseline_replay.py:135-144 | a call that yields nothing to evaluate leaves its state and records, reports the event if it expired, and nothing else |
| ReplaySteps.EvaluatedStep | app/research/baseline_replay.py:145-171 | an input that was not available by the decision raises; else exactly one evaluation is added, and an actionable one sets the signal to the number of evaluations, with one SIGNAL_MARKED record and the terminality SIGNAL_SENT |
| ReplaySteps.EvaluationsAreCausal | app/research/baseline_replay.py:147-159 | no evaluation of any replay used data that became available after its decision |
| ReplaySteps.FinalPassMeans | app/research/baseline_replay.py:172-174 | the final pass reports exactly the events still open that have no end yet, as ACTIVE_AT_DATASET_CUTOFF where there is a cutoff and as ACTIVE where there is none, and changes nothing else |
| BaselineReplay.BaselineReplayDriver.Run | app/research/baseline_replay.py:99-175 | the loop over sorted opportunities is the fold of the step over those within the cutoff, closed by the final pass; it raises exactly when the fold does |
| BaselineReplay.BaselineReplayDriver.Step | app/research/baseline_replay.py:114-171 | the loop body is the value step |
| BaselineReplay.BaselineReplayDriver.Evaluate | app/research/baseline_replay.py:142-171 | the evaluation, the availability check and the in-place mark are the value step |
| ReplaySafety.AtMostOneSignal | app/research/baseline_replay.py:110-171 | at every point of every replay at most one signal was marked since the symbol's last event was created |
| ReplaySafety.EventsOnlyProgress | app/research/baseline_replay.py:110-171 | between two creations of a symbol's events the base is fixed, the high never falls, and after the mark the signal and the high are frozen and the status can only become EXPIRED, for good |
| ReplaySafety.OldSignalsExpire | app/events/pullback_tracker.py:32-35 | the first opportunity of the symbol without a minute gap that is 15 minutes on expires a sent signal, and it stays expired |
| ReplaySafety.MarksMatchActionable | app/research/baseline_replay.py:159-171 | the signals marked are, in order, those of the actionable evaluations: the k-th of each has the same symbol, event and time |
| ReplaySafety.EveryEventIsReported | app/research/baseline_replay.py:110-174 | in a completed replay each symbol's event has a terminality, unless it is idle, or was expired or signalled when the replay began and still has that event and status |
| ReplaySafety.FoldedKeepsStates | app/research/baseline_replay.py:110-171 | states stay well formed and under their own symbol |
| ReplayLedger.RecordsAreALedger | app/research/baseline_replay.py:135-171 | at every point of every replay a symbol's records link up from its initial status to the one it has: events are created where none is tracked, signals are marked out of a set-up state, every other record starts from the status before it |
| ReplayLedger.CoreLeads | app/baseline/lifecycle.py:131-179 | the records of a core step lead from the event's status to its new one |
| ReplayCausality.NoLookAhead | app/research/baseline_replay.py:109-113 | if the full replay completes, the one with a cutoff does, with exactly the transitions and evaluations dated at or before it |
| ReplayCausality.OrderDoesNotMatter | app/research/baseline_replay.py:108 | with distinct sort keys the whole result, raising included, does not depend on the input order |
| ReplayCausality.SameKeyIff | app/research/baseline_replay.py:260-261 | two opportunities sort equal exactly when time, sequence, symbol and trigger are equal |
| ReplayIsolation.ReplayIsIsolated | app/research/baseline_replay.py:99-175 | replaying only a symbol's opportunities completes when the mixed replay does and gives it the same state, records and evaluations, up to the signal number and the sequence of SIGNAL_MARKED |
| ReplayIsolation.SoloReplayIsOwn | app/research/baseline_replay.py:99-175 | such a replay records and evaluates nothing else |
| ReplayTerminality.TerminalityIsIsolated | app/research/baseline_replay.py:118-174 | where event ids tell their symbol, as the detector's do, the mixed replay and the one of the symbol's opportunities alone say the same of how the symbol's events ended |
| Outcomes.EvaluateShadowOutcome | app/observability/root_detector_shadow.py:68-100 | the loops compute the evaluation, whose figures OutcomeMeaning.ExcursionsMean, HorizonMeans and HorizonExcursionsMean state over the rows of the frame; a price that is not positive raises |
| Outcomes.PriceHorizons | app/observability/root_detector_shadow.py:74-78 | the loop prices each horizon at the first row closing at or after its target |
| Outcomes.Excurse | app/observability/root_detector_shadow.py:93-99 | the loop gives excursions to exactly the priced horizons from one hour on that have rows, over the rows closed by then; OutcomeMeaning.HorizonExcursionsMean says what each of them is |
| OutcomeMaturation.ClosedRowsAre | app/observability/root_detector_shadow.py:52-65 | exactly the rows opened after the observation and closed by the as-of time, by closing time |
| OutcomeMaturation.HorizonPriceIs | app/observability/root_detector_shadow.py:74-78 | a horizon is priced at the close of the earliest closed row at or after its target, and unpriced exactly when there is none |
| OutcomeMaturation.PricedFormPrefix | app/observability/root_detector_shadow.py:74-79 | priced horizons form a prefix of the list, and none is priced before its time |
| OutcomeMaturation.StatusMeans | app/observability/root_detector_shadow.py:79-88 | each status exactly: nothing due, all priced, something due missing, or all due priced and more to come |
| OutcomeMaturation.TerminalizingAddsMarks | app/observability/outcome_scheduler.py:31-46 | after an evaluation, terminalizing keeps status and prices and marks exactly the due unpriced horizons |
| OutcomeMaturation.NextDueIsLater | app/observability/outcome_scheduler.py:126-149 | there is a next due time exactly while the outcome is not terminal: the first unpriced horizon, strictly after the as-of time |
| OutcomeMaturation.MaturationEnds | app/observability/outcome_scheduler.py:276-293 | if each evaluation follows an open one at its due time or later, there are at most seven, and the seventh is terminal |
| OutcomeMaturation.FutureRowsDoNotMatter | app/observability/root_detector_shadow.py:52-65 | frames that agree on the rows closed by the as-of time give the same outcome |
| OutcomeMaturation.ExcursionsGrow | app/observability/root_detector_shadow.py:91-99 | longer horizons have no smaller excursions, and none exceeds the whole outcome's; OutcomeMeaning says what an excursion is |
| OutcomeMeaning.ExcursionsMean | app/observability/root_detector_shadow.py:89-100 | over the rows opened after the observation and closed by the as-of time: the favourable excursion is the deepest low below the entry in percent, the adverse one the highest high above it, both attained by a row; a new high exactly when some high exceeds the event's; the coverage ends at the last close; none of them exactly when there is no row |
| OutcomeMeaning.HorizonMeans | app/observability/root_detector_shadow.py:74-78 | at 15, 30, 60, 240, 720 and 1440 minutes the price is the close of the earliest row closed at or after the target, and the return the fall from the entry in percent |
| OutcomeMeaning.HorizonExcursionsMean | app/observability/root_detector_shadow.py:93-99 | from one hour on, each priced horizon by whose target a row closed has its own two excursions, over exactly the rows closed by the target, and no other horizon from the list has |
| Slippage.SellSlippagePct | app/market/scanner.py:281-300 | the loop computes the slippage from the base sold and the quote received |
| Slippage.Walk | app/market/scanner.py:285-297 | quote received and remaining add up to the notional; a sellable notional is received in full; a larger one leaves something |
| Slippage.MarginalCost | app/market/scanner.py:288-297 | each further unit of quote costs at least its share of base at the best price |
| Slippage.BaseIsConvex | app/market/scanner.py:288-297 | with descending bids the base sold per quote never falls as the quote grows |
| SlippageProofs.FillIsExact | app/market/scanner.py:288-297 | the walk sells within the sizes and receives exactly the quote asked for |
| SlippageProofs.FillIsCheapest | app/market/scanner.py:288-297 | any sale that receives as much sells at least as much base |
| SlippageProofs.NoneIff | app/market/scanner.py:281-298 | no figure exactly when the notional is not positive or no sale within the book receives it, which is when the book is worth less |
| SlippageProofs.SlippageInRange | app/market/scanner.py:299-300 | the slippage is at least 0 and below 100 |
| SlippageProofs.SlippageGrows | app/market/scanner.py:281-300 | the slippage never decreases as the notional grows |
| SlippageProofs.SlippageIsLeast | app/market/scanner.py:281-300 | no sale of the same worth has less slippage |
| SlippageProofs.SlippageIsAttained | app/market/scanner.py:281-300 | some sale within the book receives exactly the notional, no other such sale sells less base, and the figure is its loss in percent against selling that base at the best price |
| Liquidity.Levels | app/market/scanner.py:263-274 | exactly the levels with positive price and size, in order |
| Liquidity.OrderbookLiquidityOf | app/market/scanner.py:238-260 | the in-place code, level parsing and sorting included, is the value computation |
| Liquidity.BidsAreOrdered | app/market/scanner.py:239 | the sorted bids are positive and descending, as the slippage needs |
| Liquidity.LiquidityExists | app/market/scanner.py:241-247 | the record exists exactly for a positive price and usable levels on both sides |
| Liquidity.LiquidityIsSound | app/market/scanner.py:249-260 | its slippage is missing exactly when the usable bids, in any order, are worth less than the notional, and else in range; the depths grow with the distance and stay within the book |
| Liquidity.LiquidityMeans | app/market/scanner.py:238-260 | the spread is the distance from the highest usable bid to the lowest usable ask in percent of their midpoint, each depth is the value of exactly the usable bids at 99 or 98 percent of the price or above, and the slippage is that of a notional of 10,000 |
| Liquidity.DepthGrows | app/market/scanner.py:277-278 | a lower floor price gives no less depth, and never more than the book |

## Left out

- GapTracking.GapTracker.GetCandles: `active_gaps`, `events`, `conflicts` and `get_health` only expose fields.
- Backfill.ClosedCandleBackfiller.Repair: the repair is for gaps as the tracker makes them, with at least one missing minute; the delays between attempts and the range each request asks for are not modelled.
- Planning.TopicsAreExact: upper-casing and stripping are for ASCII text.
- SymbolMutation.RunKeepsInv: lane records are values in a store, found by identity; the owner is cleared just before the lock is released, in one step; wait times and log lines are left out.
- HubObject.MarketDataHub.NextRequestId: an id is an operation and a number, not the formatted text.
- HubTickers.TickersAreCurrentFolds: parsing of message text, decimals and timestamps is input, as are messages that are not tickers or answers; kline stores, anomaly counters and health labels are left out.
- Hub timing: backoff, ping and pong deadlines and socket closing; the model has only that a connection opened, answered or dropped.
- Provider.MarketDataProvider.ResolveTicker: whether the hub is healthy and its last closed candle are inputs; the contents of evidence records beyond event, symbol and reason are left out.
- Provider.MarketDataProvider.RecordClosedShadow: the comparison with a REST frame, which `_shadow_compare` does not pass, is left out.
- ReplayTerminality.TerminalityIsIsolated: that an id tells its symbol is a hypothesis; the detector starts an id with the symbol and a colon (app/events/pump_detector.py:70).
- FastMonitor.FastMonitor.Track: the records written to the repository are left out; the expiry loop of the pool is not part of this model.
- Rotation.RotationCovers: symbols are given as text, so the conversion of other values to text is left out.
- RoundRobin.SlicesArePolls: the balance over rounds is for an unchanged set of distinct symbols.
- BaselineReplay.MinuteGapIff: unparseable time stamps are left out; a stamp is a number of milliseconds.
- BaselineReplay.BaselineReplayDriver.Run: an input fingerprint is represented by what it is taken of; a feature builder, detector or evaluator that raises is left out.
- ReplaySafety.OldSignalsExpire: a zero base price makes a reset raise, and then the replay raises.
- Outcomes.EvaluateShadowOutcome: every row has both an open and a close time; rows that close together keep their input order.
- Liquidity.Levels: prices and sizes are already numbers, with 0 for a missing one.
- Floating-point rounding throughout: prices are reals.
- Database, network, delivery, logging, configuration, strategy scoring, feature engineering, archive and reporting code.
- `filter_universe`, `build_shortlist`, `build_coverage_rows`, `quota_for_rate` and `replay_controls`: easy members that no result above needs.
