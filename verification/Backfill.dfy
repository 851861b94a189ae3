/** REST repair of one closed-candle gap. The client's replies, the clock and what
    other tasks do to the tracker while a repair waits are inputs. */
module Backfill {
  import opened Text
  import opened MarketData
  import opened SortedInts
  import opened Continuity
  import opened ContinuityRuns
  import opened RepairProofs
  import opened GapTracking

  datatype BackfillStatus = SUCCESS | RANGE_EXCEEDED | REST_MISSING | REST_ERROR | FUTURE_LEAKAGE | DATA_GAP

  datatype Decimal = Finite(value: real) | NonFinite

  /** A row cell with both of its readings, where they parse. */
  datatype Cell = Cell(integer: Option<int>, decimal: Option<Decimal>)

  type Row = seq<Cell>

  datatype Reply =
    | Rows(rows: seq<Row>, serverTime: Option<int>)
    | RestError(errorType: string)
    | Cancelled

  /** One try: what other tasks did while it waited, its reply, and the clock. */
  datatype Attempt = Attempt(others: seq<Step>, startedAt: int, reply: Reply, receivedAt: int)

  datatype BackfillResult = BackfillResult(
    gap: GapEvent,
    status: BackfillStatus,
    attempts: nat,
    requestStartedAt: Option<int>,
    responseReceivedAt: Option<int>,
    candles: seq<MarketCandle>,
    errorType: Option<string>)

  datatype Outcome = Returned(result: BackfillResult) | Raised(attempts: nat)

  const ATTEMPTS := 3

  // ---------------------------------------------------------------- rows

  predicate IsExpected(gap: GapEvent, ms: int) {
    ms % MS_PER_MINUTE == 0
    && gap.expectedStart <= ms / MS_PER_MINUTE < gap.expectedStart + gap.missingCount
  }

  predicate IsFinite(cell: Cell) {
    cell.decimal.Some? && cell.decimal.value.Finite?
  }

  /** A row with a start among the gap's minutes and six finite values. */
  predicate GoodRow(gap: GapEvent, row: Row) {
    && |row| >= 7
    && row[0].integer.Some?
    && IsExpected(gap, row[0].integer.value)
    && forall k | 1 <= k < 7 :: IsFinite(row[k])
  }

  function StartMs(row: Row): int
    requires |row| >= 7 && row[0].integer.Some?
  {
    row[0].integer.value
  }

  function CandleOf(gap: GapEvent, row: Row, serverTime: Option<int>, receivedAt: int): MarketCandle
    requires GoodRow(gap, row)
  {
    var minute := StartMs(row) / MS_PER_MINUTE;
    MarketCandle(
      Upper(gap.symbol), minute, minute * MS_PER_MINUTE + 59_999, "1",
      Prices(row[1].decimal.value.value, row[2].decimal.value.value, row[3].decimal.value.value,
             row[4].decimal.value.value, row[5].decimal.value.value, row[6].decimal.value.value),
      true, serverTime, receivedAt, gap.connectionEpoch, REST_BACKFILL_SOURCE)
  }

  predicate Holds(cell: Cell, value: real) {
    cell.decimal == Some(Finite(value))
  }

  /** The candle is what the row says, cell by cell: its start in milliseconds, then open,
      high, low, close, volume and turnover. The rest comes from the gap and the reply. */
  ghost predicate RowSays(gap: GapEvent, row: Row, serverTime: Option<int>, receivedAt: int, c: MarketCandle) {
    && |row| >= 7
    && row[0].integer == Some(c.openTime * 60_000)
    && Holds(row[1], c.prices.open) && Holds(row[2], c.prices.high) && Holds(row[3], c.prices.low)
    && Holds(row[4], c.prices.close) && Holds(row[5], c.prices.volume) && Holds(row[6], c.prices.turnover)
    && c.symbol == Upper(gap.symbol) && c.interval == "1" && c.confirmed
    && c.closeTime == c.openTime * 60_000 + 59_999
    && c.exchangeTimestamp == serverTime && c.receivedAt == receivedAt
    && c.connectionEpoch == gap.connectionEpoch && c.source == REST_BACKFILL_SOURCE
  }

  lemma CandleOfSays(gap: GapEvent, row: Row, serverTime: Option<int>, receivedAt: int)
    requires GoodRow(gap, row)
    ensures RowSays(gap, row, serverTime, receivedAt, CandleOf(gap, row, serverTime, receivedAt))
  {
    assert IsFinite(row[1]) && IsFinite(row[2]) && IsFinite(row[3]) && IsFinite(row[4]) && IsFinite(row[5]) && IsFinite(row[6]);
  }

  ghost predicate IsNumber(cell: Cell) {
    exists value :: Holds(cell, value)
  }

  predicate StartsAt(row: Row, minute: int) {
    |row| >= 7 && row[0].integer == Some(minute * 60_000)
  }

  /** A row is good exactly when its first cell is the start of one of the gap's minutes, in
      milliseconds, and the six cells after it are finite numbers. */
  lemma GoodRowIff(gap: GapEvent, row: Row)
    ensures GoodRow(gap, row) <==>
      && |row| >= 7
      && (exists minute :: gap.expectedStart <= minute < gap.expectedStart + gap.missingCount && StartsAt(row, minute))
      && (forall k | 1 <= k < 7 :: IsNumber(row[k]))
  {
    if |row| >= 7 {
      forall k | 1 <= k < 7 ensures IsFinite(row[k]) <==> IsNumber(row[k]) {
        FiniteIff(row[k]);
      }
      StartIff(gap, row);
    }
  }

  lemma FiniteIff(cell: Cell)
    ensures IsFinite(cell) <==> IsNumber(cell)
  {
    if IsFinite(cell) {
      assert Holds(cell, cell.decimal.value.value);
    }
  }

  lemma StartIff(gap: GapEvent, row: Row)
    requires |row| >= 7
    ensures row[0].integer.Some? && IsExpected(gap, row[0].integer.value) <==>
      exists minute :: gap.expectedStart <= minute < gap.expectedStart + gap.missingCount && StartsAt(row, minute)
  {
    if row[0].integer.Some? && IsExpected(gap, row[0].integer.value) {
      assert StartsAt(row, row[0].integer.value / MS_PER_MINUTE);
    }
    if minute :| gap.expectedStart <= minute < gap.expectedStart + gap.missingCount && StartsAt(row, minute) {
      assert minute * 60_000 % MS_PER_MINUTE == 0 && minute * 60_000 / MS_PER_MINUTE == minute;
    }
  }

  ghost predicate AllGood(gap: GapEvent, rows: seq<Row>) {
    forall i | 0 <= i < |rows| :: GoodRow(gap, rows[i])
  }

  ghost predicate DistinctStarts(gap: GapEvent, rows: seq<Row>)
    requires AllGood(gap, rows)
  {
    forall i, j | 0 <= i < j < |rows| :: StartMs(rows[i]) != StartMs(rows[j])
  }

  /** What a good reply parses to: its candles, each once, in time order. */
  ghost predicate ParsesTo(gap: GapEvent, rows: seq<Row>, serverTime: Option<int>, receivedAt: int, candles: seq<MarketCandle>)
    requires AllGood(gap, rows)
  {
    && |candles| == |rows|
    && (forall i, j | 0 <= i < j < |candles| :: candles[i].openTime < candles[j].openTime)
    && (forall i | 0 <= i < |candles| :: OfRow(gap, rows, serverTime, receivedAt, candles[i]))
  }

  ghost predicate OfRow(gap: GapEvent, rows: seq<Row>, serverTime: Option<int>, receivedAt: int, candle: MarketCandle)
    requires AllGood(gap, rows)
  {
    exists k :: 0 <= k < |rows| && RowSays(gap, rows[k], serverTime, receivedAt, candle)
  }

  ghost predicate FromRow(gap: GapEvent, rows: seq<Row>, serverTime: Option<int>, receivedAt: int, ms: int, candle: MarketCandle) {
    exists k :: 0 <= k < |rows| && GoodRow(gap, rows[k]) && StartMs(rows[k]) == ms
      && RowSays(gap, rows[k], serverTime, receivedAt, candle)
  }

  ghost predicate AllFromRows(gap: GapEvent, rows: seq<Row>, serverTime: Option<int>, receivedAt: int, found: map<int, MarketCandle>) {
    forall ms | ms in found :: FromRow(gap, rows, serverTime, receivedAt, ms, found[ms])
  }

  lemma MoreRows(gap: GapEvent, rows: seq<Row>, row: Row, serverTime: Option<int>, receivedAt: int, found: map<int, MarketCandle>)
    requires AllFromRows(gap, rows, serverTime, receivedAt, found)
    ensures AllFromRows(gap, rows + [row], serverTime, receivedAt, found)
  {
    forall ms | ms in found ensures FromRow(gap, rows + [row], serverTime, receivedAt, ms, found[ms]) {
      assert FromRow(gap, rows, serverTime, receivedAt, ms, found[ms]);
      var k :| 0 <= k < |rows| && GoodRow(gap, rows[k]) && StartMs(rows[k]) == ms
        && RowSays(gap, rows[k], serverTime, receivedAt, found[ms]);
      assert (rows + [row])[k] == rows[k];
    }
  }

  lemma OneMoreRow(gap: GapEvent, rows: seq<Row>, row: Row, serverTime: Option<int>, receivedAt: int, found: map<int, MarketCandle>)
    requires AllFromRows(gap, rows, serverTime, receivedAt, found) && GoodRow(gap, row) && StartMs(row) !in found
    ensures AllFromRows(gap, rows + [row], serverTime, receivedAt, found[StartMs(row) := CandleOf(gap, row, serverTime, receivedAt)])
  {
    MoreRows(gap, rows, row, serverTime, receivedAt, found);
    CandleOfSays(gap, row, serverTime, receivedAt);
    assert (rows + [row])[|rows|] == row;
    assert FromRow(gap, rows + [row], serverTime, receivedAt, StartMs(row), CandleOf(gap, row, serverTime, receivedAt));
  }

  /** The rows are good and of distinct starts, and `found` holds one candle for each. */
  ghost predicate Collected(gap: GapEvent, rows: seq<Row>, serverTime: Option<int>, receivedAt: int, found: map<int, MarketCandle>) {
    && AllGood(gap, rows) && DistinctStarts(gap, rows)
    && |found| == |rows|
    && AllFromRows(gap, rows, serverTime, receivedAt, found)
    && forall k | 0 <= k < |rows| :: StartMs(rows[k]) in found
  }

  lemma CollectsOneMore(gap: GapEvent, rows: seq<Row>, row: Row, serverTime: Option<int>, receivedAt: int, found: map<int, MarketCandle>)
    requires Collected(gap, rows, serverTime, receivedAt, found) && GoodRow(gap, row) && StartMs(row) !in found
    ensures Collected(gap, rows + [row], serverTime, receivedAt, found[StartMs(row) := CandleOf(gap, row, serverTime, receivedAt)])
  {
    OneMoreRow(gap, rows, row, serverTime, receivedAt, found);
  }

  /** A bad or repeated row spoils the reply. */
  lemma BadRow(gap: GapEvent, rows: seq<Row>, i: nat, serverTime: Option<int>, receivedAt: int, found: map<int, MarketCandle>)
    requires i < |rows| && Collected(gap, rows[..i], serverTime, receivedAt, found)
    requires GoodRow(gap, rows[i]) ==> StartMs(rows[i]) in found
    ensures !(AllGood(gap, rows) && DistinctStarts(gap, rows))
  {
    if GoodRow(gap, rows[i]) {
      assert FromRow(gap, rows[..i], serverTime, receivedAt, StartMs(rows[i]), found[StartMs(rows[i])]);
      var k :| 0 <= k < i && GoodRow(gap, rows[..i][k]) && StartMs(rows[..i][k]) == StartMs(rows[i]);
      assert rows[..i][k] == rows[k];
    }
  }

  /** The loop of `_parse_rows`: one candle per start, or nothing on the first bad row. */
  method CollectRows(gap: GapEvent, rows: seq<Row>, serverTime: Option<int>, receivedAt: int)
    returns (collected: Option<map<int, MarketCandle>>)
    ensures collected.Some? <==> AllGood(gap, rows) && DistinctStarts(gap, rows)
    ensures collected.Some? ==>
      |collected.value| == |rows| && AllFromRows(gap, rows, serverTime, receivedAt, collected.value)
  {
    var found: map<int, MarketCandle> := map[];
    for i := 0 to |rows|
      invariant Collected(gap, rows[..i], serverTime, receivedAt, found)
    {
      var row := rows[i];
      assert rows[..i + 1] == rows[..i] + [row];
      if !GoodRow(gap, row) || StartMs(row) in found {
        BadRow(gap, rows, i, serverTime, receivedAt, found);
        return None;
      }
      CollectsOneMore(gap, rows[..i], row, serverTime, receivedAt, found);
      found := found[StartMs(row) := CandleOf(gap, row, serverTime, receivedAt)];
    }
    assert rows[..|rows|] == rows;
    return Some(found);
  }

  /** `tuple(found[key] for key in sorted(found))` */
  method InTimeOrder(found: map<int, MarketCandle>) returns (candles: seq<MarketCandle>)
    ensures |candles| == |found|
    ensures forall i | 0 <= i < |candles| :: Sorted(found.Keys)[i] in found && candles[i] == found[Sorted(found.Keys)[i]]
  {
    var keys := Sorted(found.Keys);
    candles := [];
    for i := 0 to |keys|
      invariant |candles| == i
      invariant forall k | 0 <= k < i :: keys[k] in found && candles[k] == found[keys[k]]
    {
      assert keys[i] in found.Keys;
      candles := candles + [found[keys[i]]];
    }
  }

  lemma OrderedParse(gap: GapEvent, rows: seq<Row>, serverTime: Option<int>, receivedAt: int,
                     found: map<int, MarketCandle>, candles: seq<MarketCandle>)
    requires AllGood(gap, rows) && |found| == |rows|
    requires AllFromRows(gap, rows, serverTime, receivedAt, found)
    requires |candles| == |found|
    requires forall i | 0 <= i < |candles| :: Sorted(found.Keys)[i] in found && candles[i] == found[Sorted(found.Keys)[i]]
    ensures ParsesTo(gap, rows, serverTime, receivedAt, candles)
  {
    var keys := Sorted(found.Keys);
    forall i | 0 <= i < |candles| ensures OfRow(gap, rows, serverTime, receivedAt, candles[i]) {
      assert FromRow(gap, rows, serverTime, receivedAt, keys[i], candles[i]);
    }
    forall i, j | 0 <= i < j < |candles| ensures candles[i].openTime < candles[j].openTime {
      assert keys[i] < keys[j];
      assert FromRow(gap, rows, serverTime, receivedAt, keys[i], candles[i]);
      assert FromRow(gap, rows, serverTime, receivedAt, keys[j], candles[j]);
    }
  }

  /** `_parse_rows`: nothing unless every row is good and no start repeats. */
  method ParseRows(gap: GapEvent, rows: seq<Row>, serverTime: Option<int>, receivedAt: int)
    returns (parsed: Option<seq<MarketCandle>>)
    ensures parsed.Some? <==> AllGood(gap, rows) && DistinctStarts(gap, rows)
    ensures parsed.Some? ==> ParsesTo(gap, rows, serverTime, receivedAt, parsed.value)
  {
    var collected := CollectRows(gap, rows, serverTime, receivedAt);
    if collected.None? {
      return None;
    }
    var candles := InTimeOrder(collected.value);
    OrderedParse(gap, rows, serverTime, receivedAt, collected.value, candles);
    return Some(candles);
  }

  // ---------------------------------------------------------------- one repair

  ghost predicate Parses(gap: GapEvent, a: Attempt) {
    a.reply.Rows? && AllGood(gap, a.reply.rows) && DistinctStarts(gap, a.reply.rows)
  }

  /** A clean reply that does not have every missing minute: the only reason to retry. */
  ghost predicate Insufficient(gap: GapEvent, a: Attempt) {
    Parses(gap, a) && |a.reply.rows| != gap.missingCount
  }

  ghost predicate CompleteParse(gap: GapEvent, a: Attempt, candles: seq<MarketCandle>) {
    && Parses(gap, a)
    && |a.reply.rows| == gap.missingCount
    && ParsesTo(gap, a.reply.rows, a.reply.serverTime, a.receivedAt, candles)
  }

  ghost predicate ClosedBy(candles: seq<MarketCandle>, decisionAt: int) {
    forall i | 0 <= i < |candles| :: candles[i].closeTime <= decisionAt
  }

  /** The result a decisive attempt must give. */
  ghost predicate Decides(gap: GapEvent, decisionAt: int, a: Attempt, o: Outcome) {
    match a.reply
    case Cancelled => o.Raised?
    case RestError(errorType) =>
      o.Returned? && o.result.status == REST_ERROR && o.result.errorType == Some(errorType) && o.result.candles == []
    case Rows(rows, serverTime) =>
      && o.Returned?
      && if !Parses(gap, a) then o.result.status == DATA_GAP && o.result.candles == []
         else if Insufficient(gap, a) then o.result.status == REST_MISSING && o.result.candles == []
         else if o.result.status == SUCCESS
         then CompleteParse(gap, a, o.result.candles) && ClosedBy(o.result.candles, decisionAt)
         else o.result.status == FUTURE_LEAKAGE && o.result.candles == []
              && exists candles :: CompleteParse(gap, a, candles) && !ClosedBy(candles, decisionAt)
  }

  function Used(o: Outcome): nat {
    match o
    case Raised(n) => n
    case Returned(result) => result.attempts
  }

  /** What a repair returns: too long a gap is refused without a request; otherwise
      the first attempt that is not a clean but incomplete reply decides, and three
      incomplete replies decide REST_MISSING. */
  ghost predicate Settled(gap: GapEvent, decisionAt: int, maxCandles: nat, attempts: seq<Attempt>, o: Outcome) {
    if gap.missingCount > maxCandles then
      o == Returned(BackfillResult(gap, RANGE_EXCEEDED, 0, None, None, [], None))
    else
      && 1 <= Used(o) <= |attempts|
      && (forall k | 0 <= k < Used(o) - 1 :: Insufficient(gap, attempts[k]))
      && (Insufficient(gap, attempts[Used(o) - 1]) ==> Used(o) == |attempts|)
      && Decides(gap, decisionAt, attempts[Used(o) - 1], o)
      && Stamped(gap, attempts[Used(o) - 1], o)
  }

  predicate Stamped(gap: GapEvent, a: Attempt, o: Outcome) {
    o.Returned? ==>
      && o.result.gap == gap
      && o.result.requestStartedAt == Some(a.startedAt)
      && o.result.responseReceivedAt == Some(a.receivedAt)
      && (o.result.errorType.Some? <==> o.result.status == REST_ERROR)
  }

  /** The first n replies are clean but incomplete. */
  ghost predicate Waited(gap: GapEvent, attempts: seq<Attempt>, n: nat) {
    n <= |attempts| && forall k | 0 <= k < n :: Insufficient(gap, attempts[k])
  }

  /** The outcome is what the first decisive attempt gives. */
  ghost predicate FirstDecision(gap: GapEvent, decisionAt: int, attempts: seq<Attempt>, o: Outcome) {
    && 1 <= Used(o) <= |attempts|
    && Waited(gap, attempts, Used(o) - 1)
    && !Insufficient(gap, attempts[Used(o) - 1])
    && Decides(gap, decisionAt, attempts[Used(o) - 1], o)
    && Stamped(gap, attempts[Used(o) - 1], o)
    && !Refused(o)
  }

  function MissingResult(gap: GapEvent, last: Attempt): Outcome {
    Returned(BackfillResult(gap, REST_MISSING, ATTEMPTS, Some(last.startedAt), Some(last.receivedAt), [], None))
  }

  lemma AllInsufficient(gap: GapEvent, decisionAt: int, maxCandles: nat, attempts: seq<Attempt>)
    requires |attempts| == ATTEMPTS && gap.missingCount <= maxCandles
    requires forall k | 0 <= k < ATTEMPTS :: Insufficient(gap, attempts[k])
    ensures Settled(gap, decisionAt, maxCandles, attempts, MissingResult(gap, attempts[ATTEMPTS - 1]))
  {
  }

  function Others(attempts: seq<Attempt>): seq<Step> {
    if attempts == [] then [] else Others(attempts[..|attempts| - 1]) + attempts[|attempts| - 1].others
  }

  lemma OneMoreAttempt(start: Tracker, attempts: seq<Attempt>, used: nat, current: Attempt)
    requires 1 <= used <= |attempts| && current == attempts[used - 1]
    ensures Others(attempts[..used]) == Others(attempts[..used - 1]) + current.others
    ensures Run(start, Others(attempts[..used])) == Run(Run(start, Others(attempts[..used - 1])), current.others)
  {
    assert attempts[..used][..used - 1] == attempts[..used - 1];
    RunConcat(start, Others(attempts[..used - 1]), current.others);
  }

  /** What the repair itself does to the tracker after its last wait. */
  function Ending(gap: GapEvent, o: Outcome): seq<Step> {
    match o
    case Raised(_) => []
    case Returned(result) => if result.status == SUCCESS then Closed(result.candles) else [MarkFailure(gap)]
  }

  predicate Refused(o: Outcome) {
    o.Returned? && o.result.status == RANGE_EXCEEDED
  }

  /** Everything that happens to the tracker during a repair, in order. */
  function Trace(gap: GapEvent, attempts: seq<Attempt>, o: Outcome): seq<Step>
    requires Used(o) <= |attempts|
  {
    if Refused(o) then [MarkFailure(gap)]
    else [MarkBackfilling(gap)] + Others(attempts[..Used(o)]) + Ending(gap, o)
  }

  class ClosedCandleBackfiller {
    const tracker: GapTracker
    const maxCandles: nat

    constructor (tracker: GapTracker, maxCandles: nat)
      requires 1 <= maxCandles
      ensures this.tracker == tracker && this.maxCandles == maxCandles
    {
      this.tracker, this.maxCandles := tracker, maxCandles;
    }

    method Apply(steps: seq<Step>)
      requires tracker.Valid()
      modifies tracker
      ensures tracker.Value() == Run(old(tracker.Value()), steps) && tracker.Valid()
    {
      for i := 0 to |steps|
        invariant tracker.Valid()
        invariant tracker.Value() == Run(old(tracker.Value()), steps[..i])
      {
        assert steps[..i + 1][..i] == steps[..i];
        match steps[i]
        case ConnectionOpened => tracker.ObserveConnection();
        case ClosedCandle(candle) => tracker.ObserveClosedCandle(candle);
        case MarkBackfilling(gap) => tracker.MarkBackfilling(gap);
        case MarkFailure(gap) => tracker.MarkBackfillFailure(gap);
      }
      assert steps[..|steps|] == steps;
    }

    method Insert(candles: seq<MarketCandle>)
      requires tracker.Valid()
      modifies tracker
      ensures tracker.Value() == Run(old(tracker.Value()), Closed(candles)) && tracker.Valid()
    {
      for i := 0 to |candles|
        invariant tracker.Valid()
        invariant tracker.Value() == Run(old(tracker.Value()), Closed(candles)[..i])
      {
        assert Closed(candles)[..i + 1][..i] == Closed(candles)[..i];
        tracker.ObserveClosedCandle(candles[i]);
      }
      assert Closed(candles)[..|candles|] == Closed(candles);
    }

    method Fail(gap: GapEvent)
      requires tracker.Valid()
      modifies tracker
      ensures tracker.Value() == Run(old(tracker.Value()), [MarkFailure(gap)]) && tracker.Valid()
    {
      RunOne(tracker.Value(), MarkFailure(gap));
      tracker.MarkBackfillFailure(gap);
    }

    /** The body of the retry loop; nothing is returned when it goes round again. */
    method Try(gap: GapEvent, decisionAt: int, attempt: nat, current: Attempt) returns (o: Option<Outcome>)
      requires tracker.Valid()
      modifies tracker
      ensures o.None? <==> Insufficient(gap, current)
      ensures o.Some? ==> Decides(gap, decisionAt, current, o.value) && Used(o.value) == attempt && !Refused(o.value)
      ensures o.Some? ==> Stamped(gap, current, o.value)
      ensures tracker.Value() ==
        Run(Run(old(tracker.Value()), current.others), if o.None? then [] else Ending(gap, o.value))
      ensures tracker.Valid()
    {
      Apply(current.others);
      match current.reply
      case Cancelled =>
        return Some(Raised(attempt));
      case RestError(errorType) =>
        Fail(gap);
        return Some(Returned(BackfillResult(
          gap, REST_ERROR, attempt, Some(current.startedAt), Some(current.receivedAt), [], Some(errorType))));
      case Rows(rows, serverTime) =>
        var parsed := ParseRows(gap, rows, serverTime, current.receivedAt);
        if parsed.None? {
          Fail(gap);
          return Some(Returned(BackfillResult(
            gap, DATA_GAP, attempt, Some(current.startedAt), Some(current.receivedAt), [], None)));
        }
        if |parsed.value| != gap.missingCount {
          return None;
        }
        assert CompleteParse(gap, current, parsed.value);
        if exists i | 0 <= i < |parsed.value| :: parsed.value[i].closeTime > decisionAt {
          Fail(gap);
          return Some(Returned(BackfillResult(
            gap, FUTURE_LEAKAGE, attempt, Some(current.startedAt), Some(current.receivedAt), [], None)));
        }
        Insert(parsed.value);
        return Some(Returned(BackfillResult(
          gap, SUCCESS, attempt, Some(current.startedAt), Some(current.receivedAt), parsed.value, None)));
    }

    /** The retry loop: `others` collects what other tasks did while it waited. */
    method Retry(gap: GapEvent, decisionAt: int, attempts: seq<Attempt>) returns (o: Option<Outcome>, ghost others: seq<Step>)
      requires tracker.Valid() && |attempts| == ATTEMPTS
      modifies tracker
      ensures o.None? ==> others == Others(attempts) && Waited(gap, attempts, ATTEMPTS)
      ensures o.Some? ==> FirstDecision(gap, decisionAt, attempts, o.value) && others == Others(attempts[..Used(o.value)])
      ensures tracker.Value() == Run(Run(old(tracker.Value()), others), if o.None? then [] else Ending(gap, o.value))
      ensures tracker.Valid()
    {
      ghost var start := tracker.Value();
      others := [];
      for attempt := 1 to ATTEMPTS + 1
        invariant tracker.Valid()
        invariant others == Others(attempts[..attempt - 1])
        invariant tracker.Value() == Run(start, others)
        invariant Waited(gap, attempts, attempt - 1)
      {
        var current := attempts[attempt - 1];
        OneMoreAttempt(start, attempts, attempt, current);
        others := others + current.others;
        o := Try(gap, decisionAt, attempt, current);
        if o.Some? {
          return;
        }
      }
      assert attempts[..ATTEMPTS] == attempts;
      return None, others;
    }

    /** `repair`, with three attempts. While an attempt waits, other tasks may do
        anything to the tracker. */
    method Repair(gap: GapEvent, decisionAt: int, attempts: seq<Attempt>) returns (o: Outcome)
      requires tracker.Valid() && gap.WellFormed() && |attempts| == ATTEMPTS
      modifies tracker
      ensures Settled(gap, decisionAt, maxCandles, attempts, o)
      ensures tracker.Value() == Run(old(tracker.Value()), Trace(gap, attempts, o))
      ensures tracker.Valid()
    {
      ghost var start := tracker.Value();
      if gap.missingCount > maxCandles {
        Fail(gap);
        return Returned(BackfillResult(gap, RANGE_EXCEEDED, 0, None, None, [], None));
      }
      ghost var mark := [MarkBackfilling(gap)];
      RunOne(start, MarkBackfilling(gap));
      tracker.MarkBackfilling(gap);
      ghost var others;
      var settled;
      settled, others := Retry(gap, decisionAt, attempts);
      RunConcat(start, mark, others);
      if settled.Some? {
        RunConcat(start, mark + others, Ending(gap, settled.value));
        return settled.value;
      }
      RunConcat(start, mark + others, [MarkFailure(gap)]);
      Fail(gap);
      AllInsufficient(gap, decisionAt, maxCandles, attempts);
      assert attempts[..ATTEMPTS] == attempts;
      return MissingResult(gap, attempts[ATTEMPTS - 1]);
    }
  }

  // ---------------------------------------------------------------- what a repair guarantees

  lemma StrictFill(q: seq<int>, lo: int)
    requires StrictlyIncreasing(q)
    requires forall i | 0 <= i < |q| :: lo <= q[i] < lo + |q|
    ensures forall i | 0 <= i < |q| :: q[i] == lo + i
  {
    forall i | 0 <= i < |q| ensures q[i] == lo + i {
      AtLeast(q, lo, i);
      AtMost(q, lo, i);
    }
  }

  lemma AtLeast(q: seq<int>, lo: int, i: nat)
    requires StrictlyIncreasing(q) && i < |q| && lo <= q[0]
    ensures q[i] >= lo + i
  {
    if i > 0 {
      AtLeast(q, lo, i - 1);
      assert q[i - 1] < q[i];
    }
  }

  lemma AtMost(q: seq<int>, lo: int, i: nat)
    requires StrictlyIncreasing(q) && i < |q| && q[|q| - 1] < lo + |q|
    ensures q[i] <= lo + i
    decreases |q| - i
  {
    if i < |q| - 1 {
      AtMost(q, lo, i + 1);
      assert q[i] < q[i + 1];
    }
  }

  /** A complete parse is exactly the gap's minutes, in order. */
  lemma CompleteParseFills(gap: GapEvent, a: Attempt, candles: seq<MarketCandle>)
    requires CompleteParse(gap, a, candles)
    ensures FillsInOrder(gap.(symbol := Upper(gap.symbol)), candles)
    ensures forall i | 0 <= i < |candles| :: candles[i].source == REST_BACKFILL_SOURCE
  {
    UpperIdempotent(gap.symbol);
    var times := seq(|candles|, i requires 0 <= i < |candles| => candles[i].openTime);
    forall i | 0 <= i < |candles|
      ensures gap.expectedStart <= times[i] < gap.expectedStart + |candles|
      ensures Upper(candles[i].symbol) == Upper(gap.symbol) && Accepted(candles[i])
      ensures candles[i].source == REST_BACKFILL_SOURCE
    {
      assert OfRow(gap, a.reply.rows, a.reply.serverTime, a.receivedAt, candles[i]);
      var k :| 0 <= k < |a.reply.rows| && RowSays(gap, a.reply.rows[k], a.reply.serverTime, a.receivedAt, candles[i]);
      assert GoodRow(gap, a.reply.rows[k]);
    }
    StrictFill(times, gap.expectedStart);
    forall i | 0 <= i < |candles| ensures candles[i].openTime == gap.expectedStart + i {
      assert times[i] == gap.expectedStart + i;
    }
  }

  /** SUCCESS carries exactly the gap's minutes in order, all closed by the decision time,
      each with the prices of the one row of the reply that starts at its minute. */
  lemma SuccessIsExact(gap: GapEvent, decisionAt: int, maxCandles: nat, attempts: seq<Attempt>, o: Outcome)
    requires Settled(gap, decisionAt, maxCandles, attempts, o)
    requires o.Returned? && o.result.status == SUCCESS
    ensures |o.result.candles| == gap.missingCount <= maxCandles
    ensures forall i | 0 <= i < |o.result.candles| ::
      o.result.candles[i].openTime == gap.expectedStart + i && o.result.candles[i].closeTime <= decisionAt
    ensures var a := attempts[Used(o) - 1];
      && a.reply.Rows? && OneRowEach(a.reply.rows)
      && forall i | 0 <= i < |o.result.candles| :: FromOneRow(gap, a, o.result.candles[i])
  {
    var a := attempts[Used(o) - 1];
    CompleteParseFills(gap, a, o.result.candles);
    forall i | 0 <= i < |o.result.candles| ensures FromOneRow(gap, a, o.result.candles[i]) {
      assert OfRow(gap, a.reply.rows, a.reply.serverTime, a.receivedAt, o.result.candles[i]);
    }
    forall j, k | 0 <= j < k < |a.reply.rows| ensures a.reply.rows[j][0].integer != a.reply.rows[k][0].integer {
      assert GoodRow(gap, a.reply.rows[j]) && GoodRow(gap, a.reply.rows[k]);
      assert StartMs(a.reply.rows[j]) != StartMs(a.reply.rows[k]);
    }
  }

  /** No two rows have the same start. */
  ghost predicate OneRowEach(rows: seq<Row>) {
    && (forall k | 0 <= k < |rows| :: |rows[k]| >= 7)
    && (forall j, k | 0 <= j < k < |rows| :: rows[j][0].integer != rows[k][0].integer)
  }

  /** Some row of the reply says what the candle holds. */
  ghost predicate FromOneRow(gap: GapEvent, a: Attempt, c: MarketCandle)
    requires a.reply.Rows?
  {
    exists k :: 0 <= k < |a.reply.rows| && RowSays(gap, a.reply.rows[k], a.reply.serverTime, a.receivedAt, c)
  }

  lemma MarkingIsInert(t: Tracker, gap: GapEvent)
    ensures SameContents(t, Run(t, [MarkBackfilling(gap)]), 0)
    ensures SameContents(t, Run(t, [MarkFailure(gap)]), 1)
  {
    RunOne(t, MarkBackfilling(gap));
    RunOne(t, MarkFailure(gap));
  }

  /** Any other returned status leaves the candles and the gaps as the other tasks
      alone would have left them, and adds exactly one failure. */
  lemma FailureChangesNothing(t: Tracker, gap: GapEvent, attempts: seq<Attempt>, o: Outcome)
    requires Used(o) <= |attempts|
    requires o.Returned? && o.result.status != SUCCESS
    ensures SameContents(
      Run(t, if Refused(o) then [] else Others(attempts[..Used(o)])),
      Run(t, Trace(gap, attempts, o)),
      1)
  {
    if Refused(o) {
      MarkingIsInert(t, gap);
    } else {
      var others := Others(attempts[..Used(o)]);
      var mark := [MarkBackfilling(gap)];
      MarkingIsInert(t, gap);
      RunSame(t, Run(t, mark), others, 0);
      RunConcat(t, mark, others);
      RunConcat(t, mark + others, [MarkFailure(gap)]);
      MarkingIsInert(Run(t, mark + others), gap);
    }
  }

  /** With no interference a failed repair leaves the stored candles and the gaps alone. */
  lemma QuietFailure(t: Tracker, gap: GapEvent, attempts: seq<Attempt>, o: Outcome)
    requires Used(o) <= |attempts|
    requires o.Returned? && o.result.status != SUCCESS
    requires Others(attempts[..Used(o)]) == []
    ensures SameContents(t, Run(t, Trace(gap, attempts, o)), 1)
  {
    FailureChangesNothing(t, gap, attempts, o);
  }

  /** Filling the minutes of a gap's identity closes whichever gap is active under it
      exactly when it was not active, or fits. */
  lemma FillingClosesIdentity(t: Tracker, gap: GapEvent, candles: seq<MarketCandle>)
    requires Inv(t) && gap.WellFormed() && FillsInOrder(gap, candles)
    ensures gap.Identity() !in Run(t, Closed(candles)).active <==>
      || gap.Identity() !in t.active
      || gap.missingCount + |RightOf(t.Window(gap.symbol), gap.observedNextStart)| <= t.maxCandles + 1
  {
    if gap.Identity() in t.active {
      assert GapInv(t, gap.Identity());
      FillingClosesIff(t, t.active[gap.Identity()], candles);
    } else {
      InactiveStaysInactive(t, gap, candles, |candles|);
      assert Closed(candles)[..|candles|] == Closed(candles);
    }
  }

  /** A successful repair ends in the state the other tasks left, marked, with the gap's
      candles fed in order. */
  lemma SuccessRuns(t: Tracker, gap: GapEvent, decisionAt: int, maxCandles: nat, attempts: seq<Attempt>, o: Outcome)
    returns (before: Tracker)
    requires Inv(t) && gap.symbol == Upper(gap.symbol)
    requires Settled(gap, decisionAt, maxCandles, attempts, o)
    requires o.Returned? && o.result.status == SUCCESS
    ensures Inv(before) && SameContents(Run(t, Others(attempts[..Used(o)])), before, 0)
    ensures before.maxCandles == t.maxCandles
    ensures FillsInOrder(gap, o.result.candles)
    ensures Run(t, Trace(gap, attempts, o)) == Run(before, Closed(o.result.candles))
  {
    var others := Others(attempts[..Used(o)]);
    var mark := [MarkBackfilling(gap)];
    CompleteParseFills(gap, attempts[Used(o) - 1], o.result.candles);
    assert gap.(symbol := Upper(gap.symbol)) == gap;
    MarkingIsInert(t, gap);
    RunSame(t, Run(t, mark), others, 0);
    RunConcat(t, mark, others);
    RunConcat(t, mark + others, Closed(o.result.candles));
    RunKeepsInvFrom(t, mark + others);
    RunFrame(t, mark + others);
    before := Run(t, mark + others);
  }

  /** A successful repair closes the gap exactly when it was no longer active by the
      time its candles were inserted, or the gap and the retained minutes after it
      exceed the window by at most one. */
  lemma SuccessCloses(t: Tracker, gap: GapEvent, decisionAt: int, maxCandles: nat, attempts: seq<Attempt>, o: Outcome)
    requires Inv(t) && gap.WellFormed() && gap.symbol == Upper(gap.symbol)
    requires Settled(gap, decisionAt, maxCandles, attempts, o)
    requires o.Returned? && o.result.status == SUCCESS
    ensures var before := Run(t, Others(attempts[..Used(o)]));
      gap.Identity() !in Run(t, Trace(gap, attempts, o)).active <==>
        || gap.Identity() !in before.active
        || gap.missingCount + |RightOf(before.Window(gap.symbol), gap.observedNextStart)| <= t.maxCandles + 1
  {
    var before := SuccessRuns(t, gap, decisionAt, maxCandles, attempts, o);
    FillingClosesIdentity(before, gap, o.result.candles);
  }
}
