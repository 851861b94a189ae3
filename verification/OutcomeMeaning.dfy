/** What the figures of an outcome mean, over the rows of the frame. */
module OutcomeMeaning {
  import opened MarketData
  import opened Outcomes
  import opened OutcomeMaturation

  /** The row opened after the observation and closed by the given time. */
  predicate Seen(frame: seq<Row>, observed: int, end: int, r: Row) {
    r in frame && r.openTime > observed && r.closeTime <= end
  }

  /** The figure is the part in percent of the entry price. */
  predicate IsPercent(figure: real, part: real, entry: real) {
    figure * entry == part * 100.0
  }

  /** The favourable excursion of a short: the deepest low among the rows seen, below the
      entry, in percent. */
  ghost predicate IsMfe(figure: real, frame: seq<Row>, observed: int, end: int, entry: real) {
    && (forall r | Seen(frame, observed, end, r) :: figure * entry >= (entry - r.low) * 100.0)
    && exists r :: Seen(frame, observed, end, r) && IsPercent(figure, entry - r.low, entry)
  }

  /** The adverse excursion: the highest high, above the entry. */
  ghost predicate IsMae(figure: real, frame: seq<Row>, observed: int, end: int, entry: real) {
    && (forall r | Seen(frame, observed, end, r) :: figure * entry >= (r.high - entry) * 100.0)
    && exists r :: Seen(frame, observed, end, r) && IsPercent(figure, r.high - entry, entry)
  }

  ghost predicate SomeSeen(frame: seq<Row>, observed: int, end: int) {
    exists r :: Seen(frame, observed, end, r)
  }

  // ---------------------------------------------------------------- percentages

  lemma PercentIs(part: real, entry: real)
    requires entry > 0.0
    ensures IsPercent(Percent(part, entry), part, entry)
  {
    var q := part / entry;
    assert q * entry == part;
  }

  lemma Scaled(figure: real, part: real, entry: real, less: real)
    requires IsPercent(figure, part, entry) && less <= part
    ensures figure * entry >= less * 100.0
  {
  }

  // ---------------------------------------------------------------- excursions

  /** The rows are those seen by the time. */
  ghost predicate AreSeen(rows: seq<Row>, frame: seq<Row>, observed: int, end: int) {
    forall r :: r in rows <==> Seen(frame, observed, end, r)
  }

  lemma MfeMeans(rows: seq<Row>, frame: seq<Row>, observed: int, end: int, entry: real)
    requires entry > 0.0 && rows != [] && AreSeen(rows, frame, observed, end)
    ensures IsMfe(Mfe(rows, entry), frame, observed, end, entry)
  {
    var m := MinLow(rows);
    PercentIs(entry - m, entry);
    forall r | Seen(frame, observed, end, r) ensures Mfe(rows, entry) * entry >= (entry - r.low) * 100.0 {
      assert r in rows;
      Scaled(Mfe(rows, entry), entry - m, entry, entry - r.low);
    }
    var r :| r in rows && r.low == m;
    assert Seen(frame, observed, end, r) && IsPercent(Mfe(rows, entry), entry - r.low, entry);
  }

  lemma MaeMeans(rows: seq<Row>, frame: seq<Row>, observed: int, end: int, entry: real)
    requires entry > 0.0 && rows != [] && AreSeen(rows, frame, observed, end)
    ensures IsMae(Mae(rows, entry), frame, observed, end, entry)
  {
    var m := MaxHigh(rows);
    PercentIs(m - entry, entry);
    forall r | Seen(frame, observed, end, r) ensures Mae(rows, entry) * entry >= (r.high - entry) * 100.0 {
      assert r in rows;
      Scaled(Mae(rows, entry), m - entry, entry, r.high - entry);
    }
    var r :| r in rows && r.high == m;
    assert Seen(frame, observed, end, r) && IsPercent(Mae(rows, entry), r.high - entry, entry);
  }

  lemma ClosedAreSeen(frame: seq<Row>, observed: int, asof: int)
    ensures AreSeen(ClosedRows(frame, observed, asof), frame, observed, asof)
    ensures ClosedRows(frame, observed, asof) != [] <==> SomeSeen(frame, observed, asof)
  {
    var rows := ClosedRows(frame, observed, asof);
    ClosedRowsAre(frame, observed, asof);
    if rows != [] {
      assert rows[0] in rows;
    }
  }

  lemma UpToAreSeen(frame: seq<Row>, observed: int, asof: int, end: int)
    requires end <= asof
    ensures AreSeen(UpTo(ClosedRows(frame, observed, asof), end), frame, observed, end)
    ensures UpTo(ClosedRows(frame, observed, asof), end) != [] <==> SomeSeen(frame, observed, end)
  {
    var rows, within := ClosedRows(frame, observed, asof), UpTo(ClosedRows(frame, observed, asof), end);
    ClosedRowsAre(frame, observed, asof);
    forall r ensures r in within <==> Seen(frame, observed, end, r) {
      assert r in within <==> r in rows && r.closeTime <= end;
    }
    if within != [] {
      assert within[0] in within;
    }
  }

  /** Over all rows seen by the as-of time: the two excursions, whether a high exceeded the
      event's, and the last close. None of them without a row. */
  lemma ExcursionsMean(observed: int, entry: real, eventHigh: Option<real>, frame: seq<Row>, asof: int)
    requires entry > 0.0
    ensures Evaluated(observed, entry, eventHigh, frame, asof).Some?
    ensures var o := Evaluated(observed, entry, eventHigh, frame, asof).value;
      if !SomeSeen(frame, observed, asof) then o.mfePct.None? && o.maePct.None? && o.newHigh.None? && o.coverageEnd.None?
      else
        && o.mfePct.Some? && IsMfe(o.mfePct.value, frame, observed, asof, entry)
        && o.maePct.Some? && IsMae(o.maePct.value, frame, observed, asof, entry)
        && o.newHigh == (if eventHigh.None? then None else Some(HigherSeen(frame, observed, asof, eventHigh.value)))
        && o.coverageEnd.Some? && IsLastClose(o.coverageEnd.value, frame, observed, asof)
  {
    var rows := ClosedRows(frame, observed, asof);
    ClosedAreSeen(frame, observed, asof);
    if rows != [] {
      MfeMeans(rows, frame, observed, asof, entry);
      MaeMeans(rows, frame, observed, asof, entry);
      LastCloseIs(frame, observed, asof);
      if eventHigh.Some? {
        HigherIff(frame, observed, asof, eventHigh.value);
      }
    }
  }

  ghost predicate HigherSeen(frame: seq<Row>, observed: int, end: int, high: real) {
    exists r :: Seen(frame, observed, end, r) && r.high > high
  }

  lemma HigherIff(frame: seq<Row>, observed: int, asof: int, high: real)
    requires ClosedRows(frame, observed, asof) != []
    ensures MaxHigh(ClosedRows(frame, observed, asof)) > high <==> HigherSeen(frame, observed, asof, high)
  {
    var rows := ClosedRows(frame, observed, asof);
    ClosedAreSeen(frame, observed, asof);
    var top :| top in rows && top.high == MaxHigh(rows);
    assert Seen(frame, observed, asof, top);
  }

  ghost predicate IsLastClose(t: int, frame: seq<Row>, observed: int, end: int) {
    && (forall r | Seen(frame, observed, end, r) :: r.closeTime <= t)
    && exists r :: Seen(frame, observed, end, r) && r.closeTime == t
  }

  lemma LastCloseIs(frame: seq<Row>, observed: int, asof: int)
    requires ClosedRows(frame, observed, asof) != []
    ensures var rows := ClosedRows(frame, observed, asof);
      IsLastClose(rows[|rows| - 1].closeTime, frame, observed, asof)
  {
    var rows := ClosedRows(frame, observed, asof);
    ClosedRowsAre(frame, observed, asof);
    ClosedAreSeen(frame, observed, asof);
    var last := rows[|rows| - 1];
    assert last in rows;
    forall r | Seen(frame, observed, asof, r) ensures r.closeTime <= last.closeTime {
      var i :| 0 <= i < |rows| && rows[i] == r;
      assert i < |rows| - 1 ==> ByClose(rows[i], last);
    }
  }

  // ---------------------------------------------------------------- horizons

  const MINUTES: seq<int> := [15, 30, 60, 240, 720, 1440]

  /** When a horizon falls due: 15 and 30 minutes, 1, 4, 12 and 24 hours after the
      observation. */
  function DueAt(observed: int, i: nat): int
    requires i < 6
  {
    observed + MINUTES[i] * 60_000
  }

  lemma TargetIs(observed: int, i: nat)
    requires i < 6
    ensures |HORIZONS| == 6 && Target(observed, i) == DueAt(observed, i)
  {
  }

  /** The horizon's price is the close of an earliest row that closed at or after it fell
      due, and its return the fall from the entry, in percent. */
  lemma HorizonMeans(observed: int, entry: real, eventHigh: Option<real>, frame: seq<Row>, asof: int, i: nat)
    requires entry > 0.0 && i < 6
    ensures var h := Hs(observed, entry, eventHigh, frame, asof)[i];
      && (h.price.Some? <==> exists r :: EarliestFrom(frame, observed, asof, DueAt(observed, i), r))
      && (h.price.Some? ==> exists r :: EarliestFrom(frame, observed, asof, DueAt(observed, i), r) && r.close == h.price.value)
      && (h.price.Some? <==> h.shortReturnPct.Some?)
      && (h.price.Some? ==> IsPercent(h.shortReturnPct.value, entry - h.price.value, entry))
      && !h.gap
  {
    TargetIs(observed, i);
    HorizonPriceIs(observed, entry, eventHigh, frame, asof, i);
    var h := Hs(observed, entry, eventHigh, frame, asof)[i];
    if h.price.Some? {
      PercentIs(entry - h.price.value, entry);
    }
  }

  /** The excursions by horizon: for exactly the priced horizons from one hour on by whose
      time some row was seen, over the rows seen by then. */
  lemma HorizonExcursionsMean(observed: int, entry: real, eventHigh: Option<real>, frame: seq<Row>, asof: int, i: nat)
    requires entry > 0.0 && i < 6
    ensures var o := Evaluated(observed, entry, eventHigh, frame, asof).value;
      && (i in o.mfeByHorizon <==> i >= 2 && o.horizons[i].price.Some? && SomeSeen(frame, observed, DueAt(observed, i)))
      && (i in o.maeByHorizon <==> i in o.mfeByHorizon)
      && (i in o.mfeByHorizon ==>
            && IsMfe(o.mfeByHorizon[i], frame, observed, DueAt(observed, i), entry)
            && IsMae(o.maeByHorizon[i], frame, observed, DueAt(observed, i), entry))
  {
    var o := Evaluated(observed, entry, eventHigh, frame, asof).value;
    var end := DueAt(observed, i);
    TargetIs(observed, i);
    if o.horizons[i].price.Some? {
      PricedByDue(observed, entry, eventHigh, frame, asof, i);
      var within := UpTo(ClosedRows(frame, observed, asof), end);
      UpToAreSeen(frame, observed, asof, end);
      ClosedAreSeen(frame, observed, asof);
      if within != [] {
        MfeMeans(within, frame, observed, end, entry);
        MaeMeans(within, frame, observed, end, entry);
        assert Seen(frame, observed, asof, within[0]);
      }
    }
  }

  /** A horizon is not priced before its time. */
  lemma PricedByDue(observed: int, entry: real, eventHigh: Option<real>, frame: seq<Row>, asof: int, i: nat)
    requires entry > 0.0 && i < 6 && Evaluated(observed, entry, eventHigh, frame, asof).value.horizons[i].price.Some?
    ensures DueAt(observed, i) <= asof
  {
    HorizonMeans(observed, entry, eventHigh, frame, asof, i);
  }

  /** No other horizon has excursions. */
  lemma OnlyHorizons(observed: int, entry: real, eventHigh: Option<real>, frame: seq<Row>, asof: int, i: int)
    requires entry > 0.0 && !(2 <= i < 6)
    ensures var o := Evaluated(observed, entry, eventHigh, frame, asof).value;
      i !in o.mfeByHorizon && i !in o.maeByHorizon
  {
  }
}
