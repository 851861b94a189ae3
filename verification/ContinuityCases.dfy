/** Runs with one gap: minute 0, then consecutive minutes from a later one on. */
module ContinuityCases {
  import opened Text
  import opened MarketData
  import opened SortedInts
  import opened Continuity
  import opened ContinuityProofs
  import opened ContinuityRuns
  import opened ContinuityWindows

  function ClosedAt(symbol: string, minute: int): MarketCandle {
    MarketCandle(symbol, minute, (minute + 1) * MS_PER_MINUTE, "1", Prices(1.0, 1.0, 1.0, 1.0, 1.0, 1.0), true,
      None, (minute + 1) * MS_PER_MINUTE, None, BYBIT_PUBLIC_WS_SOURCE)
  }

  function ClosedStep(symbol: string, minute: int): Step {
    ClosedCandle(ClosedAt(symbol, minute))
  }

  /** Candles of the given minutes, one after the other. */
  function Minutely(symbol: string, minutes: seq<int>): (steps: seq<Step>)
    ensures |steps| == |minutes|
    ensures forall i | 0 <= i < |steps| :: steps[i] == ClosedStep(symbol, minutes[i])
  {
    seq(|minutes|, i requires 0 <= i < |minutes| => ClosedStep(symbol, minutes[i]))
  }

  /** Minute 0, then the n minutes from a on. */
  function GapMinutes(a: nat, n: nat): (minutes: seq<int>)
    ensures |minutes| == n + 1
    ensures n > 0 ==> minutes[0] == 0 && minutes[1] == a
  {
    [0] + seq(n, i requires 0 <= i < n => a + i)
  }

  lemma InGapMinutes(a: nat, n: nat, m: int)
    ensures m in GapMinutes(a, n) <==> m == 0 || a <= m < a + n
  {
    var minutes := GapMinutes(a, n);
    assert minutes[0] == 0;
    if a <= m < a + n {
      assert minutes[m - a + 1] == m;
    }
  }

  lemma HistoryNext(steps: seq<Step>, step: Step, symbol: string)
    ensures FirstAccepted(steps + [step], symbol) ==
      var before := FirstAccepted(steps, symbol);
      if step.ClosedCandle? && Accepted(step.candle) && Upper(step.candle.symbol) == symbol
         && step.candle.openTime !in before
      then before[step.candle.openTime := step.candle] else before
  {
    assert (steps + [step])[..|steps|] == steps;
  }

  lemma {:induction false} HistoryOf(symbol: string, minutes: seq<int>, m: int)
    requires Upper(symbol) == symbol
    ensures m in FirstAccepted(Minutely(symbol, minutes), symbol) <==> m in minutes
  {
    if minutes != [] {
      var init, last := minutes[..|minutes| - 1], minutes[|minutes| - 1];
      HistoryOf(symbol, init, m);
      HistoryNext(Minutely(symbol, init), ClosedStep(symbol, last), symbol);
      assert Minutely(symbol, minutes) == Minutely(symbol, init) + [ClosedStep(symbol, last)];
      assert minutes == init + [last];
    }
  }

  /** After the gap's run the history is minute 0 and the minutes from a on. */
  lemma GapHistory(symbol: string, a: nat, n: nat)
    requires Upper(symbol) == symbol && a >= 1
    ensures FirstAccepted(Minutely(symbol, GapMinutes(a, n)), symbol).Keys == {0} + Range(a, a + n)
    ensures forall m :: m in FirstAccepted(Minutely(symbol, GapMinutes(a, n)), symbol) <==> m == 0 || a <= m < a + n
    ensures |FirstAccepted(Minutely(symbol, GapMinutes(a, n)), symbol)| == n + 1
  {
    var history := FirstAccepted(Minutely(symbol, GapMinutes(a, n)), symbol);
    forall m ensures m in history.Keys <==> m in {0} + Range(a, a + n) {
      HistoryOf(symbol, GapMinutes(a, n), m);
      InGapMinutes(a, n, m);
    }
    assert |history.Keys| == |history|;
    assert 0 !in Range(a, a + n);
  }

  function TheGap(symbol: string, a: nat): GapIdentity {
    GapIdentity(symbol, 1, a)
  }

  lemma SecondIsNew(t: Tracker, c: MarketCandle, symbol: string, a: nat)
    requires t.Window(symbol).Keys == {0}
    requires Accepted(c) && Upper(c.symbol) == symbol && c.openTime == a && a >= 2
    ensures StoresNew(t, c) && IsNewest(t.Window(Upper(c.symbol)), 0)
  {
    assert 0 in t.Window(symbol).Keys && a !in t.Window(symbol).Keys;
  }

  lemma FirstWindow(symbol: string, maxCandles: nat, maxEvents: nat)
    requires Upper(symbol) == symbol && 2 <= maxCandles && 1 <= maxEvents
    ensures Run(Fresh(maxCandles, maxEvents), Minutely(symbol, [0])).Window(symbol).Keys == {0}
  {
    var steps := Minutely(symbol, [0]);
    forall m ensures m in FirstAccepted(steps, symbol) <==> m == 0 {
      HistoryOf(symbol, [0], m);
    }
    StoreRefinesHistory(maxCandles, maxEvents, steps, symbol);
    OneMinute(FirstAccepted(steps, symbol), Run(Fresh(maxCandles, maxEvents), steps).Window(symbol), maxCandles, 0);
  }

  lemma OneMinute(history: Minutes, w: Minutes, bound: nat, minute: int)
    requires LatestOf(history, w, bound) && bound >= 1
    requires forall m :: m in history <==> m == minute
    ensures w.Keys == {minute}
  {
    forall m ensures m in history.Keys <==> m in {minute} {
    }
    assert history.Keys == {minute};
    assert |history.Keys| == |history| && |w.Keys| == |w|;
    SameSizeSubset(w.Keys, history.Keys);
  }

  lemma FirstTwo(symbol: string, minutes: seq<int>, a: int)
    requires |minutes| >= 2 && minutes[0] == 0 && minutes[1] == a
    ensures Minutely(symbol, minutes)[..2] == Minutely(symbol, [0]) + [ClosedStep(symbol, a)]
  {
    assert Minutely(symbol, minutes)[..2] == [ClosedStep(symbol, 0), ClosedStep(symbol, a)];
    assert Minutely(symbol, [0]) == [ClosedStep(symbol, 0)];
  }

  /** The gap between minute 0 and a is active from the second candle on. */
  lemma TheGapIsActive(symbol: string, maxCandles: nat, maxEvents: nat, a: nat, n: nat)
    requires Upper(symbol) == symbol && a >= 2 && n >= 1 && 2 <= maxCandles && 1 <= maxEvents
    ensures TheGap(symbol, a) in Run(Fresh(maxCandles, maxEvents), Minutely(symbol, GapMinutes(a, n))).active
  {
    var minutes := GapMinutes(a, n);
    var steps, start := Minutely(symbol, minutes), Fresh(maxCandles, maxEvents);
    var first := Minutely(symbol, [0]);
    FirstWindow(symbol, maxCandles, maxEvents);
    RunKeepsInv(maxCandles, maxEvents, first);
    RunKeepsEnds(maxCandles, maxEvents, first);
    SecondIsNew(Run(start, first), ClosedAt(symbol, a), symbol, a);
    JumpOpens(Run(start, first), ClosedAt(symbol, a), 0, TheGap(symbol, a));
    RunSnoc(start, first, ClosedStep(symbol, a));
    FirstTwo(symbol, minutes, a);
    UnrepairedGapStaysActive(maxCandles, maxEvents, steps, 2, TheGap(symbol, a));
    HistoryOf(symbol, minutes, 1);
    InGapMinutes(a, n, 1);
  }

  /** While everything fits, all minutes are retained. */
  lemma AllRetained(symbol: string, maxCandles: nat, maxEvents: nat, a: nat, n: nat)
    requires Upper(symbol) == symbol && a >= 2 && n + 1 <= maxCandles && 2 <= maxCandles && 1 <= maxEvents
    ensures Run(Fresh(maxCandles, maxEvents), Minutely(symbol, GapMinutes(a, n))).Window(symbol).Keys == {0} + Range(a, a + n)
  {
    var steps := Minutely(symbol, GapMinutes(a, n));
    GapHistory(symbol, a, n);
    StoreRefinesHistory(maxCandles, maxEvents, steps, symbol);
    var w := Run(Fresh(maxCandles, maxEvents), steps).Window(symbol);
    assert |w.Keys| == |w|;
    var history := FirstAccepted(steps, symbol);
    assert |history.Keys| == |history|;
    SameSizeSubset(w.Keys, history.Keys);
  }

  /** And so the hole is there. */
  lemma HoleIsRetained(symbol: string, maxCandles: nat, maxEvents: nat, a: nat, n: nat)
    requires Upper(symbol) == symbol && a >= 2 && 1 <= n && n + 1 <= maxCandles && 1 <= maxEvents
    ensures !Consecutive(Run(Fresh(maxCandles, maxEvents), Minutely(symbol, GapMinutes(a, n))).Window(symbol).Keys)
  {
    AllRetained(symbol, maxCandles, maxEvents, a, n);
    NotConsecutive({0} + Range(a, a + n), 0, 1, a);
  }

  lemma NotConsecutive(minutes: set<int>, first: int, m: int, last: int)
    requires first in minutes && last in minutes && first <= m <= last && m !in minutes
    ensures !Consecutive(minutes)
  {
  }

  lemma FirstIsGone(history: Minutes, w: Minutes, bound: nat)
    requires LatestOf(history, w, bound) && |history| > bound && forall m | m in history :: 0 <= m
    ensures 0 !in w
  {
    assert |w.Keys| == |w| && |history.Keys| == |history|;
    var dropped := DroppedMinute(history, w, bound);
    assert 0 <= dropped;
  }

  /** The latest minutes of the run are consecutive once minute 0 is gone. */
  lemma LatestAreConsecutive(history: Minutes, w: Minutes, bound: nat, a: nat, n: nat)
    requires LatestOf(history, w, bound) && |history| > bound && a >= 1
    requires forall m :: m in history <==> m == 0 || a <= m < a + n
    ensures Consecutive(w.Keys)
  {
    FirstIsGone(history, w, bound);
    forall x, m, y | x in w.Keys && y in w.Keys && x <= m <= y ensures m in w.Keys {
      assert x in history.Keys && y in history.Keys;
      assert m in history;
    }
  }

  /** No stale candle is needed for a gap to outlive its hole: once enough consecutive
      minutes followed the gap, the window has no hole and the gap is still active. */
  lemma GapOutlivesHole(symbol: string, maxCandles: nat, maxEvents: nat, a: nat, n: nat)
    requires Upper(symbol) == symbol && a >= 2 && 2 <= maxCandles <= n && 1 <= maxEvents
    ensures var t := Run(Fresh(maxCandles, maxEvents), Minutely(symbol, GapMinutes(a, n)));
      TheGap(symbol, a) in t.active && Consecutive(t.Window(symbol).Keys)
  {
    var steps := Minutely(symbol, GapMinutes(a, n));
    TheGapIsActive(symbol, maxCandles, maxEvents, a, n);
    GapHistory(symbol, a, n);
    StoreRefinesHistory(maxCandles, maxEvents, steps, symbol);
    LatestAreConsecutive(FirstAccepted(steps, symbol),
      Run(Fresh(maxCandles, maxEvents), steps).Window(symbol), maxCandles, a, n);
  }
}
