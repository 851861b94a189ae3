/** A repair that succeeds and yet leaves its gap active. */
module BackfillCases {
  import opened Text
  import opened MarketData
  import opened SortedInts
  import opened Continuity
  import opened ContinuityProofs
  import ContinuityRuns
  import opened ContinuityCases
  import opened RepairProofs
  import opened Backfill

  const PRICE_CELL := Cell(None, Some(Finite(1.0)))

  /** A good row for a minute. */
  function RowAt(minute: int): Row {
    [Cell(Some(minute * MS_PER_MINUTE), None), PRICE_CELL, PRICE_CELL, PRICE_CELL, PRICE_CELL, PRICE_CELL, PRICE_CELL]
  }

  function RowsOf(gap: GapEvent): (rows: seq<Row>)
    requires gap.WellFormed()
    ensures |rows| == gap.missingCount
    ensures forall i | 0 <= i < |rows| :: rows[i] == RowAt(gap.expectedStart + i)
  {
    seq(gap.missingCount, i requires 0 <= i < gap.missingCount => RowAt(gap.expectedStart + i))
  }

  lemma RowIsGood(gap: GapEvent, minute: int)
    requires gap.WellFormed() && gap.expectedStart <= minute < gap.observedNextStart
    ensures GoodRow(gap, RowAt(minute)) && StartMs(RowAt(minute)) == minute * MS_PER_MINUTE
    ensures CandleOf(gap, RowAt(minute), None, 0).openTime == minute
    ensures CandleOf(gap, RowAt(minute), None, 0).closeTime == minute * MS_PER_MINUTE + 59_999
  {
    assert minute * MS_PER_MINUTE % MS_PER_MINUTE == 0;
    assert minute * MS_PER_MINUTE / MS_PER_MINUTE == minute;
  }

  lemma RowsAreGood(gap: GapEvent)
    requires gap.WellFormed()
    ensures AllGood(gap, RowsOf(gap)) && DistinctStarts(gap, RowsOf(gap))
  {
    var rows := RowsOf(gap);
    forall i | 0 <= i < |rows| ensures GoodRow(gap, rows[i]) && StartMs(rows[i]) == (gap.expectedStart + i) * MS_PER_MINUTE {
      RowIsGood(gap, gap.expectedStart + i);
    }
  }

  function RowCandles(gap: GapEvent): (candles: seq<MarketCandle>)
    requires gap.WellFormed() && AllGood(gap, RowsOf(gap))
    ensures |candles| == gap.missingCount
    ensures forall i | 0 <= i < |candles| :: candles[i] == CandleOf(gap, RowsOf(gap)[i], None, 0)
  {
    seq(gap.missingCount, i requires 0 <= i < gap.missingCount => CandleOf(gap, RowsOf(gap)[i], None, 0))
  }

  /** The exchange's full answer to the first request, after what other tasks did. */
  function FullReply(gap: GapEvent, others: seq<Step>): Attempt
    requires gap.WellFormed()
  {
    Attempt(others, 0, Rows(RowsOf(gap), None), 0)
  }

  function Attempts(gap: GapEvent, others: seq<Step>): seq<Attempt>
    requires gap.WellFormed()
  {
    [FullReply(gap, others), FullReply(gap, others), FullReply(gap, others)]
  }

  function Success(gap: GapEvent): Outcome
    requires gap.WellFormed() && AllGood(gap, RowsOf(gap))
  {
    Returned(BackfillResult(gap, SUCCESS, 1, Some(0), Some(0), RowCandles(gap), None))
  }

  lemma RowParses(gap: GapEvent, i: nat)
    requires gap.WellFormed() && AllGood(gap, RowsOf(gap)) && i < gap.missingCount
    ensures RowCandles(gap)[i].openTime == gap.expectedStart + i
    ensures RowCandles(gap)[i].closeTime <= gap.observedNextStart * MS_PER_MINUTE
    ensures OfRow(gap, RowsOf(gap), None, 0, RowCandles(gap)[i])
  {
    RowIsGood(gap, gap.expectedStart + i);
    CandleOfSays(gap, RowsOf(gap)[i], None, 0);
    assert RowSays(gap, RowsOf(gap)[i], None, 0, RowCandles(gap)[i]);
  }

  lemma RowsParse(gap: GapEvent, others: seq<Step>)
    requires gap.WellFormed() && AllGood(gap, RowsOf(gap)) && DistinctStarts(gap, RowsOf(gap))
    ensures CompleteParse(gap, FullReply(gap, others), RowCandles(gap))
    ensures ClosedBy(RowCandles(gap), gap.observedNextStart * MS_PER_MINUTE)
  {
    var rows, candles := RowsOf(gap), RowCandles(gap);
    forall i | 0 <= i < |candles| ensures OfRow(gap, rows, None, 0, candles[i]) {
      RowParses(gap, i);
    }
    forall i, j | 0 <= i < j < |candles| ensures candles[i].openTime < candles[j].openTime {
      RowParses(gap, i);
      RowParses(gap, j);
    }
    assert ParsesTo(gap, rows, None, 0, candles);
    forall i | 0 <= i < |candles| ensures candles[i].closeTime <= gap.observedNextStart * MS_PER_MINUTE {
      RowParses(gap, i);
    }
  }

  /** Some repair of the gap succeeds: asked once the gap is over, and answered in full. */
  lemma FullReplySucceeds(gap: GapEvent, others: seq<Step>, limit: nat)
    requires gap.WellFormed() && gap.missingCount <= limit
    ensures AllGood(gap, RowsOf(gap))
    ensures Settled(gap, gap.observedNextStart * MS_PER_MINUTE, limit, Attempts(gap, others), Success(gap))
  {
    RowsAreGood(gap);
    RowsParse(gap, others);
  }

  lemma OthersOfFirst(gap: GapEvent, others: seq<Step>)
    requires gap.WellFormed()
    ensures Others(Attempts(gap, others)[..1]) == others
  {
    assert Attempts(gap, others)[..1] == [FullReply(gap, others)];
    assert [FullReply(gap, others)][..0] == [];
  }

  lemma RightOfGap(w: Minutes, a: nat, n: nat)
    requires w.Keys == {0} + Range(a, a + n) && a >= 1
    ensures |RightOf(w, a)| == n
  {
    forall m ensures m in RightOf(w, a) <==> m in Range(a, a + n) {
      assert m in w.Keys <==> m in {0} + Range(a, a + n);
    }
    assert RightOf(w, a) == Range(a, a + n);
  }

  /** After minute 0 and the n minutes from a on, all retained, a repair of the gap
      between can return SUCCESS, with every missing minute, and leave the gap active:
      when the gap and the minutes after it exceed the window by more than one. With the
      default bounds of 17 candles and 15 minutes a gap, a = 16 and n = 4 do. */
  lemma SuccessLeavesGap(symbol: string, maxCandles: nat, maxEvents: nat, limit: nat, a: nat, n: nat) returns (gap: GapEvent)
    requires Upper(symbol) == symbol && 1 <= maxEvents && a >= 2 && n >= 1
    requires n + 1 <= maxCandles && maxCandles + 1 < a - 1 + n && a - 1 <= limit
    ensures gap.WellFormed() && gap.Identity() == TheGap(symbol, a) && gap.missingCount == a - 1
    ensures AllGood(gap, RowsOf(gap))
    ensures Settled(gap, a * MS_PER_MINUTE, limit, Attempts(gap, []), Success(gap))
    ensures var t := Run(Fresh(maxCandles, maxEvents), Minutely(symbol, GapMinutes(a, n)));
      && TheGap(symbol, a) in t.active && t.active[TheGap(symbol, a)] == gap
      && TheGap(symbol, a) in Run(t, Trace(gap, Attempts(gap, []), Success(gap))).active
  {
    var steps := Minutely(symbol, GapMinutes(a, n));
    var t := Run(Fresh(maxCandles, maxEvents), steps);
    TheGapIsActive(symbol, maxCandles, maxEvents, a, n);
    RunKeepsInv(maxCandles, maxEvents, steps);
    ContinuityRuns.RunFrame(Fresh(maxCandles, maxEvents), steps);
    AllRetained(symbol, maxCandles, maxEvents, a, n);
    gap := GapLeft(t, symbol, a, n, limit);
  }

  lemma GapLeft(t: Tracker, symbol: string, a: nat, n: nat, limit: nat) returns (gap: GapEvent)
    requires Inv(t) && Upper(symbol) == symbol && a >= 2 && TheGap(symbol, a) in t.active
    requires t.Window(symbol).Keys == {0} + Range(a, a + n)
    requires t.maxCandles + 1 < a - 1 + n && a - 1 <= limit
    ensures gap == t.active[TheGap(symbol, a)]
    ensures gap.WellFormed() && gap.Identity() == TheGap(symbol, a) && gap.missingCount == a - 1
    ensures AllGood(gap, RowsOf(gap))
    ensures Settled(gap, a * MS_PER_MINUTE, limit, Attempts(gap, []), Success(gap))
    ensures TheGap(symbol, a) in Run(t, Trace(gap, Attempts(gap, []), Success(gap))).active
  {
    assert GapInv(t, TheGap(symbol, a));
    gap := t.active[TheGap(symbol, a)];
    RightOfGap(t.Window(symbol), a, n);
    FullReplySucceeds(gap, [], limit);
    StillActive(t, gap, a * MS_PER_MINUTE, limit);
  }

  lemma StillActive(t: Tracker, gap: GapEvent, decisionAt: int, limit: nat)
    requires Inv(t) && gap.WellFormed() && gap.symbol == Upper(gap.symbol) && gap.Identity() in t.active
    requires AllGood(gap, RowsOf(gap)) && Settled(gap, decisionAt, limit, Attempts(gap, []), Success(gap))
    requires gap.missingCount + |RightOf(t.Window(gap.symbol), gap.observedNextStart)| > t.maxCandles + 1
    ensures gap.Identity() in Run(t, Trace(gap, Attempts(gap, []), Success(gap))).active
  {
    OthersOfFirst(gap, []);
    SuccessCloses(t, gap, decisionAt, limit, Attempts(gap, []), Success(gap));
  }
}
