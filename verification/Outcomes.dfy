/** Outcome maturation of a shadow episode: pricing at fixed horizons, and when to look again. */
module Outcomes {
  import opened MarketData
  import opened StableSort

  const HORIZONS: seq<int> := [15, 30, 60, 240, 720, 1440]

  /** The horizons whose excursions are kept: 1h, 4h, 12h and 24h. */
  const FIRST_EXCURSION := 2

  datatype Row = Row(openTime: int, closeTime: int, close: real, low: real, high: real)

  datatype Status = CENSORED | PARTIAL | MATURE | DATA_GAP | RETRYABLE_ERROR

  datatype Horizon = Horizon(price: Option<real>, shortReturnPct: Option<real>, gap: bool)

  datatype Outcome = Outcome(
    horizons: seq<Horizon>,
    mfePct: Option<real>,
    maePct: Option<real>,
    mfeByHorizon: map<int, real>,
    maeByHorizon: map<int, real>,
    newHigh: Option<bool>,
    status: Status,
    coverageEnd: Option<int>)

  function Target(anchor: int, i: nat): int
    requires i < |HORIZONS|
  {
    anchor + HORIZONS[i] * MS_PER_MINUTE
  }

  // ---------------------------------------------------------------- rows

  predicate ByClose(a: Row, b: Row) {
    a.closeTime <= b.closeTime
  }

  function Usable(observed: int, asof: int): Row -> bool {
    (r: Row) => r.openTime > observed && r.closeTime <= asof
  }

  /** `closed_5m_rows_after` */
  function ClosedRows(frame: seq<Row>, observed: int, asof: int): seq<Row> {
    SortBy(Filter(frame, Usable(observed, asof)), ByClose)
  }

  /** The first row closing at or after the target. */
  function FirstClosing(rows: seq<Row>, target: int): Option<Row> {
    if rows == [] then None
    else if rows[0].closeTime >= target then Some(rows[0])
    else FirstClosing(rows[1..], target)
  }

  function Percent(part: real, entry: real): real
    requires entry > 0.0
  {
    part / entry * 100.0
  }

  function HorizonAt(rows: seq<Row>, target: int, entry: real): Horizon
    requires entry > 0.0
  {
    match FirstClosing(rows, target)
    case None => Horizon(None, None, false)
    case Some(r) => Horizon(Some(r.close), Some(Percent(entry - r.close, entry)), false)
  }

  function HorizonsOf(rows: seq<Row>, observed: int, entry: real, n: nat): (h: seq<Horizon>)
    requires entry > 0.0 && n <= |HORIZONS|
    ensures |h| == n
    ensures forall i | 0 <= i < n :: h[i] == HorizonAt(rows, Target(observed, i), entry)
  {
    seq(n, i requires 0 <= i < n => HorizonAt(rows, Target(observed, i), entry))
  }

  function MinLow(rows: seq<Row>): (m: real)
    requires rows != []
    ensures forall r | r in rows :: m <= r.low
    ensures exists r :: r in rows && r.low == m
  {
    var last := rows[|rows| - 1];
    assert last in rows && forall r | r in rows :: r in rows[..|rows| - 1] || r == last;
    if |rows| == 1 then last.low else
      var m := MinLow(rows[..|rows| - 1]);
      if last.low < m then last.low else m
  }

  function MaxHigh(rows: seq<Row>): (m: real)
    requires rows != []
    ensures forall r | r in rows :: r.high <= m
    ensures exists r :: r in rows && r.high == m
  {
    var last := rows[|rows| - 1];
    assert last in rows && forall r | r in rows :: r in rows[..|rows| - 1] || r == last;
    if |rows| == 1 then last.high else
      var m := MaxHigh(rows[..|rows| - 1]);
      if last.high > m then last.high else m
  }

  // ---------------------------------------------------------------- status

  predicate PhysicallyDue(observed: int, asof: int, i: nat)
    requires i < |HORIZONS|
  {
    asof >= Target(observed, i)
  }

  predicate Priced(horizons: seq<Horizon>, i: nat)
    requires i < |horizons|
  {
    horizons[i].price.Some?
  }

  /** The status, by the branches of the code. */
  function StatusOf(horizons: seq<Horizon>, observed: int, asof: int): Status
    requires |horizons| == |HORIZONS|
  {
    if !exists i: nat | i < |HORIZONS| :: PhysicallyDue(observed, asof, i) then CENSORED
    else if forall i: nat | i < |HORIZONS| :: Priced(horizons, i) then MATURE
    else if exists i: nat | i < |HORIZONS| :: Priced(horizons, i) then
      if forall i: nat | i < |HORIZONS| :: PhysicallyDue(observed, asof, i) ==> Priced(horizons, i) then PARTIAL else DATA_GAP
    else DATA_GAP
  }

  // ---------------------------------------------------------------- evaluation

  function UpTo(rows: seq<Row>, end: int): seq<Row> {
    Filter(rows, (r: Row) => r.closeTime <= end)
  }

  function Mfe(rows: seq<Row>, entry: real): real
    requires entry > 0.0 && rows != []
  {
    Percent(entry - MinLow(rows), entry)
  }

  function Mae(rows: seq<Row>, entry: real): real
    requires entry > 0.0 && rows != []
  {
    Percent(MaxHigh(rows) - entry, entry)
  }

  /** The horizons that get their own excursions. */
  predicate HasExcursion(rows: seq<Row>, horizons: seq<Horizon>, observed: int, i: int) {
    FIRST_EXCURSION <= i < |horizons| && |horizons| <= |HORIZONS|
    && Priced(horizons, i) && UpTo(rows, Target(observed, i)) != []
  }

  function MfeByHorizon(rows: seq<Row>, horizons: seq<Horizon>, observed: int, entry: real, n: nat): map<int, real>
    requires entry > 0.0
  {
    map i | 0 <= i < n && HasExcursion(rows, horizons, observed, i) :: Mfe(UpTo(rows, Target(observed, i)), entry)
  }

  function MaeByHorizon(rows: seq<Row>, horizons: seq<Horizon>, observed: int, entry: real, n: nat): map<int, real>
    requires entry > 0.0
  {
    map i | 0 <= i < n && HasExcursion(rows, horizons, observed, i) :: Mae(UpTo(rows, Target(observed, i)), entry)
  }

  lemma MfeSame(rows: seq<Row>, horizons: seq<Horizon>, observed: int, entry: real, i: nat)
    requires entry > 0.0 && !HasExcursion(rows, horizons, observed, i)
    ensures MfeByHorizon(rows, horizons, observed, entry, i + 1) == MfeByHorizon(rows, horizons, observed, entry, i)
  {
  }

  lemma MfeAdds(rows: seq<Row>, horizons: seq<Horizon>, observed: int, entry: real, i: nat)
    requires entry > 0.0 && HasExcursion(rows, horizons, observed, i)
    ensures MfeByHorizon(rows, horizons, observed, entry, i + 1) ==
      MfeByHorizon(rows, horizons, observed, entry, i)[i := Mfe(UpTo(rows, Target(observed, i)), entry)]
  {
  }

  lemma MfeNext(rows: seq<Row>, horizons: seq<Horizon>, observed: int, entry: real, i: nat)
    requires entry > 0.0
    ensures MfeByHorizon(rows, horizons, observed, entry, i + 1) ==
      if HasExcursion(rows, horizons, observed, i)
      then MfeByHorizon(rows, horizons, observed, entry, i)[i := Mfe(UpTo(rows, Target(observed, i)), entry)]
      else MfeByHorizon(rows, horizons, observed, entry, i)
  {
    if HasExcursion(rows, horizons, observed, i) {
      MfeAdds(rows, horizons, observed, entry, i);
    } else {
      MfeSame(rows, horizons, observed, entry, i);
    }
  }

  lemma MaeSame(rows: seq<Row>, horizons: seq<Horizon>, observed: int, entry: real, i: nat)
    requires entry > 0.0 && !HasExcursion(rows, horizons, observed, i)
    ensures MaeByHorizon(rows, horizons, observed, entry, i + 1) == MaeByHorizon(rows, horizons, observed, entry, i)
  {
  }

  lemma MaeAdds(rows: seq<Row>, horizons: seq<Horizon>, observed: int, entry: real, i: nat)
    requires entry > 0.0 && HasExcursion(rows, horizons, observed, i)
    ensures MaeByHorizon(rows, horizons, observed, entry, i + 1) ==
      MaeByHorizon(rows, horizons, observed, entry, i)[i := Mae(UpTo(rows, Target(observed, i)), entry)]
  {
  }

  lemma MaeNext(rows: seq<Row>, horizons: seq<Horizon>, observed: int, entry: real, i: nat)
    requires entry > 0.0
    ensures MaeByHorizon(rows, horizons, observed, entry, i + 1) ==
      if HasExcursion(rows, horizons, observed, i)
      then MaeByHorizon(rows, horizons, observed, entry, i)[i := Mae(UpTo(rows, Target(observed, i)), entry)]
      else MaeByHorizon(rows, horizons, observed, entry, i)
  {
    if HasExcursion(rows, horizons, observed, i) {
      MaeAdds(rows, horizons, observed, entry, i);
    } else {
      MaeSame(rows, horizons, observed, entry, i);
    }
  }

  /** `evaluate_shadow_outcome`; None where it raises. */
  function Evaluated(observed: int, entry: real, eventHigh: Option<real>, frame: seq<Row>, asof: int): Option<Outcome> {
    if entry <= 0.0 then None else
      var rows := ClosedRows(frame, observed, asof);
      var horizons := HorizonsOf(rows, observed, entry, |HORIZONS|);
      var status := StatusOf(horizons, observed, asof);
      if rows == [] then Some(Outcome(horizons, None, None, map[], map[], None, status, None))
      else
        Some(Outcome(horizons, Some(Mfe(rows, entry)), Some(Mae(rows, entry)),
          MfeByHorizon(rows, horizons, observed, entry, |HORIZONS|),
          MaeByHorizon(rows, horizons, observed, entry, |HORIZONS|),
          if eventHigh.None? then None else Some(MaxHigh(rows) > eventHigh.value), status,
          Some(rows[|rows| - 1].closeTime)))
  }

  /** The horizon loop, the excursion loop and the final record. */
  method EvaluateShadowOutcome(observed: int, entry: real, eventHigh: Option<real>, frame: seq<Row>, asof: int)
    returns (r: Option<Outcome>)
    ensures r == Evaluated(observed, entry, eventHigh, frame, asof)
  {
    if entry <= 0.0 {
      return None;
    }
    var rows := ClosedRows(frame, observed, asof);
    var horizons := PriceHorizons(rows, observed, entry);
    var status := StatusOf(horizons, observed, asof);
    if rows == [] {
      return Some(Outcome(horizons, None, None, map[], map[], None, status, None));
    }
    var mfe, mae := Excurse(rows, horizons, observed, entry);
    r := Some(Outcome(horizons, Some(Mfe(rows, entry)), Some(Mae(rows, entry)), mfe, mae,
      if eventHigh.None? then None else Some(MaxHigh(rows) > eventHigh.value), status,
      Some(rows[|rows| - 1].closeTime)));
  }

  method PriceHorizons(rows: seq<Row>, observed: int, entry: real) returns (horizons: seq<Horizon>)
    requires entry > 0.0
    ensures horizons == HorizonsOf(rows, observed, entry, |HORIZONS|)
  {
    horizons := [];
    for i := 0 to |HORIZONS|
      invariant horizons == HorizonsOf(rows, observed, entry, i)
    {
      var matching := FirstClosing(rows, Target(observed, i));
      var horizon := if matching.None? then Horizon(None, None, false)
        else Horizon(Some(matching.value.close), Some(Percent(entry - matching.value.close, entry)), false);
      horizons := horizons + [horizon];
    }
  }

  method Excurse(rows: seq<Row>, horizons: seq<Horizon>, observed: int, entry: real)
    returns (mfe: map<int, real>, mae: map<int, real>)
    requires entry > 0.0 && |horizons| == |HORIZONS|
    ensures mfe == MfeByHorizon(rows, horizons, observed, entry, |HORIZONS|)
    ensures mae == MaeByHorizon(rows, horizons, observed, entry, |HORIZONS|)
  {
    mfe, mae := map[], map[];
    for i := FIRST_EXCURSION to |HORIZONS|
      invariant mfe == MfeByHorizon(rows, horizons, observed, entry, i)
      invariant mae == MaeByHorizon(rows, horizons, observed, entry, i)
    {
      var within := UpTo(rows, Target(observed, i));
      MfeNext(rows, horizons, observed, entry, i);
      MaeNext(rows, horizons, observed, entry, i);
      assert HasExcursion(rows, horizons, observed, i) <==> within != [] && horizons[i].price.Some?;
      if within != [] && horizons[i].price.Some? {
        mfe := mfe[i := Mfe(within, entry)];
        mae := mae[i := Mae(within, entry)];
      }
    }
  }

  // ---------------------------------------------------------------- terminalization and the next look

  predicate MissingDue(horizons: seq<Horizon>, anchor: int, asof: int, i: nat)
    requires i < |horizons| == |HORIZONS|
  {
    horizons[i].price.None? && asof >= Target(anchor, i)
  }

  /** `terminalize_due_horizons` */
  function Terminalized(anchor: int, asof: int, outcome: Outcome): Outcome
    requires |outcome.horizons| == |HORIZONS|
  {
    var h := outcome.horizons;
    outcome.(
      horizons := seq(|h|, i requires 0 <= i < |h| => if MissingDue(h, anchor, asof, i) then h[i].(gap := true) else h[i]),
      status := if (exists i: nat | i < |h| :: MissingDue(h, anchor, asof, i)) && outcome.status == PARTIAL
                then DATA_GAP else outcome.status)
  }

  function FirstUnpriced(horizons: seq<Horizon>): (k: nat)
    ensures k <= |horizons|
    ensures forall i: nat | i < k :: Priced(horizons, i)
    ensures k < |horizons| ==> !Priced(horizons, k)
  {
    if horizons == [] || horizons[0].price.None? then 0 else
      var k := FirstUnpriced(horizons[1..]);
      assert forall i: nat | i < k + 1 :: Priced(horizons, i) by {
        forall i: nat | i < k + 1 ensures Priced(horizons, i) {
          if i > 0 {
            assert Priced(horizons[1..], i - 1);
          }
        }
      }
      assert k + 1 < |horizons| ==> horizons[k + 1] == horizons[1..][k];
      k + 1
  }

  predicate IsTerminal(status: Status) {
    status in {MATURE, DATA_GAP, RETRYABLE_ERROR}
  }

  /** `next_outcome_due_at` */
  function NextDue(anchor: int, asof: int, outcome: Outcome, retryMinutes: int): Option<int>
    requires |outcome.horizons| == |HORIZONS|
  {
    if IsTerminal(outcome.status) then None else
      var k := FirstUnpriced(outcome.horizons);
      if k == |HORIZONS| then None
      else if Target(anchor, k) <= asof && outcome.status == DATA_GAP then
        Some(asof + (if retryMinutes < 1 then 1 else retryMinutes) * MS_PER_MINUTE)
      else Some(Target(anchor, k))
  }

  /** What the scheduler computes for a row: the outcome and its next due time. */
  function Processed(anchor: int, entry: real, eventHigh: Option<real>, frame: seq<Row>, asof: int, retryMinutes: int):
    (r: (Outcome, Option<int>))
    requires entry > 0.0
    ensures |r.0.horizons| == |HORIZONS|
  {
    var outcome := Terminalized(anchor, asof, Evaluated(anchor, entry, eventHigh, frame, asof).value);
    (outcome, NextDue(anchor, asof, outcome, retryMinutes))
  }
}
