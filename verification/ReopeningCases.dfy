/** A repair whose gap others close while it waits: its success opens another gap. */
module ReopeningCases {
  import opened Text
  import opened MarketData
  import opened SortedInts
  import opened Continuity
  import opened ContinuityProofs
  import ContinuityRuns
  import opened ContinuityWindows
  import opened ContinuityCases
  import opened RepairProofs
  import opened Backfill
  import opened RepairGaps
  import opened BackfillCases

  ghost predicate NoGapOf(t: Tracker, symbol: string) {
    forall id | id in t.active :: id.symbol != symbol
  }

  ghost predicate OnlyGapOf(t: Tracker, id: GapIdentity) {
    forall other | other in t.active && other.symbol == id.symbol :: other == id
  }

  /** Successive minutes of the symbol. */
  function Successive(symbol: string, first: int, n: nat): (candles: seq<MarketCandle>)
    ensures |candles| == n
    ensures forall i | 0 <= i < n :: candles[i] == ClosedAt(symbol, first + i)
  {
    seq(n, i requires 0 <= i < n => ClosedAt(symbol, first + i))
  }

  lemma OneMinuteNoGap(t: Tracker, symbol: string)
    requires Inv(t) && t.Window(symbol).Keys == {0}
    ensures NoGapOf(t, symbol)
  {
    assert |t.Window(symbol).Keys| == |t.Window(symbol)| == 1;
    assert StateInv(t, symbol);
    forall id | id in t.active ensures id.symbol != symbol {
      assert GapInv(t, id);
    }
  }

  lemma OnlyTheGap(t: Tracker, c: MarketCandle, symbol: string, a: nat, id: GapIdentity)
    requires Inv(t) && NoGapOf(t, symbol) && t.Window(symbol).Keys == {0}
    requires Accepted(c) && Upper(c.symbol) == symbol && c.openTime == a && a >= 2
    requires id in Observed(t, c).active && id.symbol == symbol
    ensures id == TheGap(symbol, a)
  {
    SecondIsNew(t, c, symbol, a);
    ObservedStores(t, c);
    InsertedOrigin(t, c, id);
    ExtendedKeys(t, c);
    assert Neighbours(Extended(t, c).Keys, id.expectedStart - 1, id.observedNextStart);
  }

  /** After minutes 0 and a the gap between is the symbol's only one. */
  lemma TheGapIsOnly(symbol: string, maxCandles: nat, maxEvents: nat, a: nat, id: GapIdentity)
    requires Upper(symbol) == symbol && a >= 2 && 2 <= maxCandles && 1 <= maxEvents && id.symbol == symbol
    requires id in Run(Fresh(maxCandles, maxEvents), Minutely(symbol, GapMinutes(a, 1))).active
    ensures id == TheGap(symbol, a)
  {
    var start, first := Fresh(maxCandles, maxEvents), Minutely(symbol, [0]);
    FirstWindow(symbol, maxCandles, maxEvents);
    RunKeepsInv(maxCandles, maxEvents, first);
    OneMinuteNoGap(Run(start, first), symbol);
    SecondStep(start, symbol, a);
    OnlyTheGap(Run(start, first), ClosedAt(symbol, a), symbol, a, id);
  }

  lemma SecondStep(start: Tracker, symbol: string, a: nat)
    ensures Run(start, Minutely(symbol, GapMinutes(a, 1))) == Observed(Run(start, Minutely(symbol, [0])), ClosedAt(symbol, a))
  {
    assert Minutely(symbol, GapMinutes(a, 1)) == Minutely(symbol, [0]) + [ClosedStep(symbol, a)];
    ContinuityRuns.RunSnoc(start, Minutely(symbol, [0]), ClosedStep(symbol, a));
  }

  /** The gap is filled and the minutes after its end follow: the symbol has no gap. */
  lemma FilledThenNext(t: Tracker, gap: GapEvent, fill: seq<MarketCandle>, after: seq<MarketCandle>)
    requires Inv(t) && EndsInv(t) && IsActive(t, gap) && gap.observedNextStart in t.Window(gap.symbol)
    requires OnlyGapOf(t, gap.Identity())
    requires FillsInOrder(gap, fill) && InOrder(gap.symbol, after, gap.observedNextStart + 1)
    requires gap.missingCount + |RightOf(t.Window(gap.symbol), gap.observedNextStart)| <= t.maxCandles + 1
    ensures NoGapOf(Run(Run(t, Closed(fill)), Closed(after)), gap.symbol)
  {
    var u := Run(t, Closed(fill));
    FillingClosesIff(t, gap, fill);
    EndRetainedIsQuiet(t, gap, fill, |fill|);
    FilledAll(t, fill);
    EndStays(t, u, gap, |fill|);
    RetainedIsCalm(u, gap.symbol, gap.observedNextStart, gap.observedNextStart + 1);
    CalmIsQuiet(u, gap.symbol, after, gap.observedNextStart + 1, |after|);
    FilledAll(u, after);
  }

  lemma LatestOfAll(history: Minutes, e: Minutes, bound: nat, n: nat)
    requires LatestOf(history, e, bound) && bound <= n && forall m :: m in history <==> 0 <= m < n
    ensures e.Keys == Range(n - bound, n)
  {
    assert history.Keys == Range(0, n);
    assert |history.Keys| == |history| && |e.Keys| == |e|;
    forall k | k in e.Keys ensures n - bound <= k {
      forall m | m in Range(k, n) ensures m in e.Keys {
        assert m in history;
      }
      SmallerSubset(Range(k, n), e.Keys);
    }
    ContinuityRuns.SameSizeSubset(e.Keys, Range(n - bound, n));
  }

  lemma SmallerSubset(a: set<int>, b: set<int>)
    requires a <= b
    ensures |a| <= |b|
  {
    assert b == a + (b - a);
  }

  function Counting(first: int, n: nat): (minutes: seq<int>)
    ensures |minutes| == n
    ensures forall i | 0 <= i < n :: minutes[i] == first + i
  {
    seq(n, i requires 0 <= i < n => first + i)
  }

  lemma InCounting(first: int, n: nat, m: int)
    ensures m in Counting(first, n) <==> first <= m < first + n
  {
    if first <= m < first + n {
      assert Counting(first, n)[m - first] == m;
    }
  }

  lemma SuccessiveIs(symbol: string, first: int, n: nat)
    ensures Closed(Successive(symbol, first, n)) == Minutely(symbol, Counting(first, n))
    ensures Upper(symbol) == symbol ==> InOrder(symbol, Successive(symbol, first, n), first)
  {
  }

  /** While the repair of the gap before a waits, its minutes arrive by other means, and
      then the n minutes after a. */
  function Meanwhile(symbol: string, a: nat, n: nat): seq<Step>
    requires a >= 1
  {
    Closed(Successive(symbol, 1, a - 1)) + Closed(Successive(symbol, a + 1, n))
  }

  function AllMinutes(a: nat, n: nat): seq<int>
    requires a >= 1
  {
    GapMinutes(a, 1) + Counting(1, a - 1) + Counting(a + 1, n)
  }

  lemma WholeRun(symbol: string, a: nat, n: nat)
    requires a >= 1
    ensures Minutely(symbol, GapMinutes(a, 1)) + Meanwhile(symbol, a, n) == Minutely(symbol, AllMinutes(a, n))
  {
    SuccessiveIs(symbol, 1, a - 1);
    SuccessiveIs(symbol, a + 1, n);
    MinutelyConcat(symbol, Counting(1, a - 1), Counting(a + 1, n));
    MinutelyConcat(symbol, GapMinutes(a, 1), Counting(1, a - 1) + Counting(a + 1, n));
    assert AllMinutes(a, n) == GapMinutes(a, 1) + (Counting(1, a - 1) + Counting(a + 1, n));
  }

  lemma MinutelyConcat(symbol: string, p: seq<int>, q: seq<int>)
    ensures Minutely(symbol, p + q) == Minutely(symbol, p) + Minutely(symbol, q)
  {
  }

  lemma WholeWindow(symbol: string, maxCandles: nat, maxEvents: nat, a: nat, n: nat)
    requires Upper(symbol) == symbol && a >= 2 && 2 <= maxCandles <= a + 1 + n && 1 <= maxEvents
    ensures Run(Fresh(maxCandles, maxEvents), Minutely(symbol, AllMinutes(a, n))).Window(symbol).Keys
      == Range(a + 1 + n - maxCandles, a + 1 + n)
  {
    var steps := Minutely(symbol, AllMinutes(a, n));
    forall m ensures m in ContinuityRuns.FirstAccepted(steps, symbol) <==> 0 <= m < a + 1 + n {
      HistoryOf(symbol, AllMinutes(a, n), m);
      InGapMinutes(a, 1, m);
      InCounting(1, a - 1, m);
      InCounting(a + 1, n, m);
    }
    ContinuityRuns.StoreRefinesHistory(maxCandles, maxEvents, steps, symbol);
    LatestOfAll(ContinuityRuns.FirstAccepted(steps, symbol), Run(Fresh(maxCandles, maxEvents), steps).Window(symbol), maxCandles, a + 1 + n);
  }

  /** Before the full reply is stored: no gap, and exactly the window's worth of minutes
      from a on. */
  ghost predicate AllQuiet(t: Tracker, symbol: string, a: nat) {
    NoGapOf(t, symbol) && t.Window(symbol).Keys == Range(a, a + t.maxCandles)
  }

  lemma QuietOpensAnother(t: Tracker, gap: GapEvent, a: nat)
    requires AllQuiet(t, gap.symbol, a) && gap.WellFormed() && gap.Identity() == TheGap(gap.symbol, a)
    requires a >= 4 && 2 <= t.maxCandles
    requires Inv(t)
    ensures OpensAnother(t, gap) && a in t.Window(gap.symbol)
  {
    forall id | id in t.active ensures t.active[id].symbol == id.symbol {
      assert GapInv(t, id);
    }
    var w := t.Window(gap.symbol);
    assert a in w.Keys && |w.Keys| == |w| == t.maxCandles;
    assert Least(w.Keys) == a && LeastOf(w) == a;
  }

  /** The window is full, with the minutes from a on. */
  ghost predicate FullFrom(t: Tracker, symbol: string, a: nat, maxCandles: nat) {
    t.maxCandles == maxCandles && t.Window(symbol).Keys == Range(a, a + maxCandles)
  }

  lemma MeanwhileWindow(symbol: string, maxCandles: nat, maxEvents: nat, a: nat, n: nat, t: Tracker, others: seq<Step>)
    requires Upper(symbol) == symbol && 2 <= a && 2 <= maxCandles == n + 1 && 1 <= maxEvents
    requires t == Run(Fresh(maxCandles, maxEvents), Minutely(symbol, GapMinutes(a, 1))) && others == Meanwhile(symbol, a, n)
    ensures FullFrom(Run(t, others), symbol, a, maxCandles)
  {
    var start, steps := Fresh(maxCandles, maxEvents), Minutely(symbol, GapMinutes(a, 1));
    RunConcat(start, steps, others);
    WholeRun(symbol, a, n);
    WholeWindow(symbol, maxCandles, maxEvents, a, n);
    ContinuityRuns.RunFrame(start, steps + others);
  }

  /** Minutes 0 and a, with the gap between as the symbol's only one. */
  ghost predicate OneGap(t: Tracker, symbol: string, a: nat) {
    && Inv(t) && EndsInv(t) && TheGap(symbol, a) in t.active && OnlyGapOf(t, TheGap(symbol, a))
    && t.Window(symbol).Keys == {0} + Range(a, a + 1)
  }

  lemma AfterTwo(symbol: string, maxCandles: nat, maxEvents: nat, a: nat, t: Tracker)
    requires Upper(symbol) == symbol && 2 <= a && 2 <= maxCandles && 1 <= maxEvents
    requires t == Run(Fresh(maxCandles, maxEvents), Minutely(symbol, GapMinutes(a, 1)))
    ensures OneGap(t, symbol, a) && t.maxCandles == maxCandles
  {
    RunKeepsInv(maxCandles, maxEvents, Minutely(symbol, GapMinutes(a, 1)));
    RunKeepsEnds(maxCandles, maxEvents, Minutely(symbol, GapMinutes(a, 1)));
    TheGapIsActive(symbol, maxCandles, maxEvents, a, 1);
    forall id | id in t.active && id.symbol == symbol ensures id == TheGap(symbol, a) {
      TheGapIsOnly(symbol, maxCandles, maxEvents, a, id);
    }
    AllRetained(symbol, maxCandles, maxEvents, a, 1);
    ContinuityRuns.RunFrame(Fresh(maxCandles, maxEvents), Minutely(symbol, GapMinutes(a, 1)));
  }

  lemma FilledMeanwhile(t: Tracker, symbol: string, a: nat, n: nat, others: seq<Step>)
    requires OneGap(t, symbol, a) && Upper(symbol) == symbol && 2 <= a <= t.maxCandles + 1
    requires others == Meanwhile(symbol, a, n)
    ensures NoGapOf(Run(t, others), symbol)
  {
    var gap := t.active[TheGap(symbol, a)];
    var fill, after := Successive(symbol, 1, a - 1), Successive(symbol, a + 1, n);
    assert GapInv(t, TheGap(symbol, a));
    RightOfGap(t.Window(symbol), a, 1);
    assert a in t.Window(symbol).Keys;
    SuccessiveIs(symbol, 1, a - 1);
    SuccessiveIs(symbol, a + 1, n);
    FilledThenNext(t, gap, fill, after);
    RunConcat(t, Closed(fill), Closed(after));
  }

  /** The full reply, after what other tasks did, settles the repair as SUCCESS, which
      leaves a gap that was not active when the reply came. */
  ghost predicate Reopens(t: Tracker, gap: GapEvent, others: seq<Step>, limit: nat)
    requires gap.WellFormed()
  {
    && AllGood(gap, RowsOf(gap))
    && Settled(gap, gap.observedNextStart * MS_PER_MINUTE, limit, Attempts(gap, others), Success(gap))
    && Opened(Run(t, others), Run(t, Trace(gap, Attempts(gap, others), Success(gap))))
  }

  /** Other tasks closed the gap between minute 0 and a, and the window holds the minutes
      from a on. */
  ghost predicate Overtaken(t: Tracker, v: Tracker, symbol: string, a: nat) {
    && Inv(t) && EndsInv(t) && TheGap(symbol, a) in t.active
    && Inv(v) && AllQuiet(v, symbol, a)
  }

  lemma MeanwhileOvertakes(t: Tracker, symbol: string, a: nat, n: nat, others: seq<Step>)
    requires OneGap(t, symbol, a) && Upper(symbol) == symbol && 4 <= a <= t.maxCandles + 1
    requires others == Meanwhile(symbol, a, n)
    requires FullFrom(Run(t, others), symbol, a, t.maxCandles)
    ensures Overtaken(t, Run(t, others), symbol, a)
  {
    FilledMeanwhile(t, symbol, a, n, others);
    RunKeepsInvFrom(t, others);
  }

  lemma OvertakenState(symbol: string, maxCandles: nat, maxEvents: nat, a: nat, n: nat, t: Tracker, others: seq<Step>)
    requires Upper(symbol) == symbol && 1 <= maxEvents && 4 <= a <= maxCandles + 1 && maxCandles == n + 1
    requires t == Run(Fresh(maxCandles, maxEvents), Minutely(symbol, GapMinutes(a, 1))) && others == Meanwhile(symbol, a, n)
    ensures Overtaken(t, Run(t, others), symbol, a)
  {
    AfterTwo(symbol, maxCandles, maxEvents, a, t);
    MeanwhileWindow(symbol, maxCandles, maxEvents, a, n, t, others);
    MeanwhileOvertakes(t, symbol, a, n, others);
  }

  lemma LateSuccess(t: Tracker, gap: GapEvent, others: seq<Step>, limit: nat, a: nat)
    requires Overtaken(t, Run(t, others), gap.symbol, a)
    requires gap.WellFormed() && gap.Identity() == TheGap(gap.symbol, a)
    requires gap.symbol == Upper(gap.symbol) && a >= 4 && a - 1 <= limit
    ensures Reopens(t, gap, others, limit)
  {
    FullReplySucceeds(gap, others, limit);
    OthersOfFirst(gap, others);
    QuietOpensAnother(Run(t, others), gap, a);
    SuccessOpensIff(t, gap, a * MS_PER_MINUTE, limit, Attempts(gap, others), Success(gap));
  }

  lemma TheGapEvent(t: Tracker, v: Tracker, symbol: string, a: nat) returns (gap: GapEvent)
    requires Overtaken(t, v, symbol, a)
    ensures IsActive(t, gap) && gap.WellFormed() && gap.Identity() == TheGap(symbol, a)
    ensures NoGapOf(v, symbol) && a in v.Window(symbol)
  {
    assert GapInv(t, TheGap(symbol, a));
    gap := t.active[TheGap(symbol, a)];
    assert a in v.Window(symbol).Keys;
  }

  /** A repair starts on an active gap; while it waits, other tasks bring the gap's minutes,
      which close it, and the next ones. Then no gap is active and the gap's end is
      retained, and yet the SUCCESS of the full reply leaves another gap active. With 3
      candles and a = 4 these are minutes 0 and 4, then 1, 2, 3, 5 and 6. */
  lemma SuccessOpensGap(symbol: string, maxCandles: nat, maxEvents: nat, limit: nat, a: nat)
    returns (t: Tracker, others: seq<Step>, gap: GapEvent)
    requires Upper(symbol) == symbol && 1 <= maxEvents && 4 <= a <= maxCandles + 1 && a - 1 <= limit
    ensures t == Run(Fresh(maxCandles, maxEvents), Minutely(symbol, GapMinutes(a, 1)))
    ensures others == Meanwhile(symbol, a, maxCandles - 1)
    ensures IsActive(t, gap) && gap.WellFormed() && gap.Identity() == TheGap(symbol, a)
    ensures NoGapOf(Run(t, others), symbol) && a in Run(t, others).Window(symbol)
    ensures Reopens(t, gap, others, limit)
  {
    t := Run(Fresh(maxCandles, maxEvents), Minutely(symbol, GapMinutes(a, 1)));
    others := Meanwhile(symbol, a, maxCandles - 1);
    OvertakenState(symbol, maxCandles, maxEvents, a, maxCandles - 1, t, others);
    gap := TheGapEvent(t, Run(t, others), symbol, a);
    LateSuccess(t, gap, others, limit, a);
  }
}
