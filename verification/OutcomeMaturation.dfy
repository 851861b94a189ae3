/** Maturation: what prices mean, that they arrive in order, and that it ends. */
module OutcomeMaturation {
  import opened MarketData
  import opened StableSort
  import opened Outcomes

  // ---------------------------------------------------------------- prices

  /** r is a row that closed after the observation and by the as-of time, at or after
      the target, and none of these closed earlier. */
  ghost predicate EarliestFrom(frame: seq<Row>, observed: int, asof: int, target: int, r: Row) {
    && r in frame && r.openTime > observed && target <= r.closeTime <= asof
    && forall o | o in frame && o.openTime > observed && target <= o.closeTime <= asof :: r.closeTime <= o.closeTime
  }

  lemma ByCloseIsTotal()
    ensures TotalOrder(ByClose)
  {
  }

  lemma ClosedRowsAre(frame: seq<Row>, observed: int, asof: int)
    ensures Ordered(ClosedRows(frame, observed, asof), ByClose)
    ensures forall r :: r in ClosedRows(frame, observed, asof) <==> r in frame && r.openTime > observed && r.closeTime <= asof
  {
    ByCloseIsTotal();
    var kept := Filter(frame, Usable(observed, asof));
    SortIsOrdered(kept, ByClose);
    forall r ensures r in ClosedRows(frame, observed, asof) <==> r in kept {
      SameElements(SortBy(kept, ByClose), kept, r);
    }
  }

  lemma {:induction false} FirstClosingIs(rows: seq<Row>, target: int)
    requires Ordered(rows, ByClose)
    ensures FirstClosing(rows, target).None? ==> forall r | r in rows :: r.closeTime < target
    ensures FirstClosing(rows, target).Some? ==>
      var first := FirstClosing(rows, target).value;
      && first in rows && first.closeTime >= target
      && forall r | r in rows && r.closeTime >= target :: first.closeTime <= r.closeTime
  {
    if rows != [] {
      forall r | r in rows ensures ByClose(rows[0], r) {
        var i :| 0 <= i < |rows| && rows[i] == r;
        assert i > 0 ==> ByClose(rows[0], rows[i]);
      }
      assert forall r | r in rows :: r == rows[0] || r in rows[1..];
      if rows[0].closeTime < target {
        FirstClosingIs(rows[1..], target);
      }
    }
  }

  /** The horizon is priced at the close of an earliest row, if there is one. */
  ghost predicate PricedFrom(h: Horizon, frame: seq<Row>, observed: int, asof: int, target: int, entry: real)
    requires entry > 0.0
  {
    match h.price
    case None => h.shortReturnPct.None? && forall r :: !EarliestFrom(frame, observed, asof, target, r)
    case Some(price) =>
      && h.shortReturnPct == Some(Percent(entry - price, entry))
      && exists r :: EarliestFrom(frame, observed, asof, target, r) && r.close == price
  }

  lemma HorizonAtIs(frame: seq<Row>, observed: int, asof: int, target: int, entry: real)
    requires entry > 0.0
    ensures PricedFrom(HorizonAt(ClosedRows(frame, observed, asof), target, entry), frame, observed, asof, target, entry)
  {
    var rows := ClosedRows(frame, observed, asof);
    ClosedRowsAre(frame, observed, asof);
    FirstClosingIs(rows, target);
    var first := FirstClosing(rows, target);
    if first.Some? {
      assert EarliestFrom(frame, observed, asof, target, first.value);
    }
  }

  /** A horizon is priced at the close of the earliest closed row at or after its target,
      and unpriced exactly when there is none. */
  lemma HorizonPriceIs(observed: int, entry: real, eventHigh: Option<real>, frame: seq<Row>, asof: int, i: nat)
    requires entry > 0.0 && i < |HORIZONS|
    ensures PricedFrom(Hs(observed, entry, eventHigh, frame, asof)[i], frame, observed, asof, Target(observed, i), entry)
  {
    HorizonAtIs(frame, observed, asof, Target(observed, i), entry);
  }

  /** The evaluation's horizons. */
  function Hs(observed: int, entry: real, eventHigh: Option<real>, frame: seq<Row>, asof: int): (h: seq<Horizon>)
    requires entry > 0.0
    ensures |h| == |HORIZONS|
  {
    Evaluated(observed, entry, eventHigh, frame, asof).value.horizons
  }

  lemma PricedIff(observed: int, entry: real, eventHigh: Option<real>, frame: seq<Row>, asof: int, i: nat)
    requires entry > 0.0 && i < |HORIZONS|
    ensures Priced(Hs(observed, entry, eventHigh, frame, asof), i) <==>
      exists r :: r in frame && r.openTime > observed && Target(observed, i) <= r.closeTime <= asof
  {
    ClosedRowsAre(frame, observed, asof);
    FirstClosingIs(ClosedRows(frame, observed, asof), Target(observed, i));
  }

  lemma TargetsIncrease(anchor: int, i: nat, j: nat)
    requires i <= j < |HORIZONS|
    ensures Target(anchor, i) <= Target(anchor, j)
    ensures i < j ==> Target(anchor, i) < Target(anchor, j)
  {
  }

  /** Priced horizons form a prefix of the list, and no horizon is priced before its time. */
  lemma PricedFormPrefix(observed: int, entry: real, eventHigh: Option<real>, frame: seq<Row>, asof: int, i: nat)
    requires entry > 0.0 && i < |HORIZONS|
    ensures Priced(Hs(observed, entry, eventHigh, frame, asof), i) <==> i < FirstUnpriced(Hs(observed, entry, eventHigh, frame, asof))
    ensures Priced(Hs(observed, entry, eventHigh, frame, asof), i) ==> PhysicallyDue(observed, asof, i)
  {
    var h := Hs(observed, entry, eventHigh, frame, asof);
    var k := FirstUnpriced(h);
    PricedIff(observed, entry, eventHigh, frame, asof, i);
    if i >= k {
      PricedIff(observed, entry, eventHigh, frame, asof, k);
      TargetsIncrease(observed, k, i);
    }
  }

  // ---------------------------------------------------------------- status

  lemma AllPricedIff(h: seq<Horizon>)
    requires |h| == |HORIZONS|
    ensures (forall i: nat | i < |HORIZONS| :: Priced(h, i)) <==> FirstUnpriced(h) == |HORIZONS|
  {
    assert FirstUnpriced(h) < |HORIZONS| ==> !Priced(h, FirstUnpriced(h));
  }

  /** Due horizons are those up to some point, and all priced ones are due. */
  lemma DueIff(observed: int, asof: int)
    ensures (exists i: nat | i < |HORIZONS| :: PhysicallyDue(observed, asof, i)) <==> asof >= Target(observed, 0)
  {
    if i: nat :| i < |HORIZONS| && PhysicallyDue(observed, asof, i) {
      TargetsIncrease(observed, 0, i);
    }
    if asof >= Target(observed, 0) {
      assert PhysicallyDue(observed, asof, 0);
    }
  }

  /** Whether the first unpriced horizon is due: the evaluation has a gap. */
  ghost predicate Gapped(h: seq<Horizon>, observed: int, asof: int)
    requires |h| == |HORIZONS|
  {
    FirstUnpriced(h) < |HORIZONS| && PhysicallyDue(observed, asof, FirstUnpriced(h))
  }

  lemma GappedIff(h: seq<Horizon>, observed: int, asof: int)
    requires |h| == |HORIZONS|
    ensures Gapped(h, observed, asof) <==> exists i: nat | i < |HORIZONS| :: PhysicallyDue(observed, asof, i) && !Priced(h, i)
  {
    if i: nat :| i < |HORIZONS| && PhysicallyDue(observed, asof, i) && !Priced(h, i) {
      TargetsIncrease(observed, FirstUnpriced(h), i);
    }
  }

  lemma NonePricedIff(observed: int, entry: real, eventHigh: Option<real>, frame: seq<Row>, asof: int)
    requires entry > 0.0
    ensures var h := Hs(observed, entry, eventHigh, frame, asof);
      (exists i: nat | i < |HORIZONS| :: Priced(h, i)) <==> FirstUnpriced(h) > 0
  {
    var h := Hs(observed, entry, eventHigh, frame, asof);
    if i: nat :| i < |HORIZONS| && Priced(h, i) {
      PricedFormPrefix(observed, entry, eventHigh, frame, asof, i);
    }
    if FirstUnpriced(h) > 0 {
      assert Priced(h, 0);
    }
  }

  /** The status says: nothing is due yet; all is priced; something due is missing; or
      all that is due is priced but more is to come. */
  lemma StatusMeans(observed: int, entry: real, eventHigh: Option<real>, frame: seq<Row>, asof: int)
    requires entry > 0.0
    ensures var status := Evaluated(observed, entry, eventHigh, frame, asof).value.status;
      var h := Hs(observed, entry, eventHigh, frame, asof);
      && (status == CENSORED <==> asof < Target(observed, 0))
      && (status == MATURE <==> FirstUnpriced(h) == |HORIZONS|)
      && (status == DATA_GAP <==> Gapped(h, observed, asof))
      && (status == PARTIAL <==> 0 < FirstUnpriced(h) < |HORIZONS| && !Gapped(h, observed, asof))
      && status != RETRYABLE_ERROR
  {
    var h := Hs(observed, entry, eventHigh, frame, asof);
    AllPricedIff(h);
    DueIff(observed, asof);
    GappedIff(h, observed, asof);
    NonePricedIff(observed, entry, eventHigh, frame, asof);
    PricedFormPrefix(observed, entry, eventHigh, frame, asof, 0);
    if FirstUnpriced(h) > 0 {
      PricedFormPrefix(observed, entry, eventHigh, frame, asof, FirstUnpriced(h) - 1);
    }
  }

  // ---------------------------------------------------------------- the next look

  lemma {:induction false} SamePricesSameFirst(a: seq<Horizon>, b: seq<Horizon>)
    requires |a| == |b| && forall i: nat | i < |a| :: Priced(a, i) == Priced(b, i)
    ensures FirstUnpriced(a) == FirstUnpriced(b)
  {
    assert FirstUnpriced(a) < |a| ==> Priced(b, FirstUnpriced(a)) == Priced(a, FirstUnpriced(a));
    assert FirstUnpriced(b) < |b| ==> Priced(b, FirstUnpriced(b)) == Priced(a, FirstUnpriced(b));
  }

  /** After an evaluation, terminalizing changes neither status nor prices; it marks
      exactly the due horizons without a price. */
  lemma TerminalizingAddsMarks(observed: int, entry: real, eventHigh: Option<real>, frame: seq<Row>, asof: int)
    requires entry > 0.0
    ensures var before := Evaluated(observed, entry, eventHigh, frame, asof).value;
      var after := Terminalized(observed, asof, before);
      && after.status == before.status
      && |after.horizons| == |HORIZONS|
      && (forall i: nat | i < |HORIZONS| ::
            && after.horizons[i].price == before.horizons[i].price
            && (after.horizons[i].gap <==> PhysicallyDue(observed, asof, i) && !Priced(before.horizons, i)))
  {
    StatusMeans(observed, entry, eventHigh, frame, asof);
    var h := Hs(observed, entry, eventHigh, frame, asof);
    GappedIff(h, observed, asof);
    if i: nat :| i < |h| && MissingDue(h, observed, asof, i) {
      assert PhysicallyDue(observed, asof, i) && !Priced(h, i);
    }
  }

  /** There is a next due time exactly while the outcome is not terminal; it is the first
      unpriced horizon, strictly after the as-of time, whatever the retry setting. */
  lemma NextDueIsLater(observed: int, entry: real, eventHigh: Option<real>, frame: seq<Row>, asof: int, retryMinutes: int)
    requires entry > 0.0
    ensures var r := Processed(observed, entry, eventHigh, frame, asof, retryMinutes);
      var k := FirstUnpriced(Hs(observed, entry, eventHigh, frame, asof));
      && (r.1.None? <==> IsTerminal(r.0.status))
      && (r.1.Some? ==> k < |HORIZONS| && r.1.value == Target(observed, k) > asof)
  {
    var h := Hs(observed, entry, eventHigh, frame, asof);
    var after := Terminalized(observed, asof, Evaluated(observed, entry, eventHigh, frame, asof).value);
    TerminalizingAddsMarks(observed, entry, eventHigh, frame, asof);
    StatusMeans(observed, entry, eventHigh, frame, asof);
    SamePricesSameFirst(h, after.horizons);
    TargetsIncrease(observed, 0, 0);
    if FirstUnpriced(h) > 0 {
      PricedFormPrefix(observed, entry, eventHigh, frame, asof, FirstUnpriced(h) - 1);
    }
  }

  // ---------------------------------------------------------------- termination

  /** One evaluation: the frame fetched and its as-of time. */
  datatype Attempt = Attempt(frame: seq<Row>, asof: int)

  function After(observed: int, entry: real, eventHigh: Option<real>, a: Attempt, retryMinutes: int): (Outcome, Option<int>)
    requires entry > 0.0
  {
    Processed(observed, entry, eventHigh, a.frame, a.asof, retryMinutes)
  }

  predicate IsOpen(observed: int, entry: real, eventHigh: Option<real>, a: Attempt, retryMinutes: int)
    requires entry > 0.0
  {
    After(observed, entry, eventHigh, a, retryMinutes).1.Some?
  }

  /** b follows an attempt that was not terminal, at its due time or later. */
  predicate Follows(observed: int, entry: real, eventHigh: Option<real>, a: Attempt, b: Attempt, retryMinutes: int)
    requires entry > 0.0
  {
    && IsOpen(observed, entry, eventHigh, a, retryMinutes)
    && b.asof >= After(observed, entry, eventHigh, a, retryMinutes).1.value
  }

  function FollowsOf(observed: int, entry: real, eventHigh: Option<real>, retryMinutes: int): (Attempt, Attempt) -> bool
    requires entry > 0.0
  {
    (a: Attempt, b: Attempt) => Follows(observed, entry, eventHigh, a, b, retryMinutes)
  }

  /** Every attempt follows the one before it. */
  ghost predicate Chain(attempts: seq<Attempt>, follows: (Attempt, Attempt) -> bool) {
    forall k | 0 <= k < |attempts| - 1 :: follows(attempts[k], attempts[k + 1])
  }

  /** An evaluation at or after a due horizon either prices it or is terminal. */
  lemma DueIsSettled(observed: int, entry: real, eventHigh: Option<real>, a: Attempt, retryMinutes: int, k: nat)
    requires entry > 0.0 && k < |HORIZONS| && a.asof >= Target(observed, k)
    requires After(observed, entry, eventHigh, a, retryMinutes).1.Some?
    ensures FirstUnpriced(Hs(observed, entry, eventHigh, a.frame, a.asof)) > k
  {
    NextDueIsLater(observed, entry, eventHigh, a.frame, a.asof, retryMinutes);
    var next := FirstUnpriced(Hs(observed, entry, eventHigh, a.frame, a.asof));
    if next <= k {
      TargetsIncrease(observed, next, k);
    }
  }

  /** The horizons an attempt leaves priced. */
  function PricedBy(observed: int, entry: real, eventHigh: Option<real>, a: Attempt): nat
    requires entry > 0.0
  {
    FirstUnpriced(Hs(observed, entry, eventHigh, a.frame, a.asof))
  }

  lemma OneAttemptOn(observed: int, entry: real, eventHigh: Option<real>, a: Attempt, b: Attempt, retryMinutes: int)
    requires entry > 0.0 && Follows(observed, entry, eventHigh, a, b, retryMinutes)
    ensures PricedBy(observed, entry, eventHigh, a) < |HORIZONS|
    ensures IsOpen(observed, entry, eventHigh, b, retryMinutes) ==>
      PricedBy(observed, entry, eventHigh, a) < PricedBy(observed, entry, eventHigh, b) < |HORIZONS|
  {
    NextDueIsLater(observed, entry, eventHigh, a.frame, a.asof, retryMinutes);
    NextDueIsLater(observed, entry, eventHigh, b.frame, b.asof, retryMinutes);
    if IsOpen(observed, entry, eventHigh, b, retryMinutes) {
      DueIsSettled(observed, entry, eventHigh, b, retryMinutes, PricedBy(observed, entry, eventHigh, a));
    }
  }

  lemma OpenHasMore(observed: int, entry: real, eventHigh: Option<real>, a: Attempt, retryMinutes: int)
    requires entry > 0.0 && IsOpen(observed, entry, eventHigh, a, retryMinutes)
    ensures PricedBy(observed, entry, eventHigh, a) < |HORIZONS|
  {
    NextDueIsLater(observed, entry, eventHigh, a.frame, a.asof, retryMinutes);
  }

  /** Only open attempts are followed, and the count grows while they stay open. */
  ghost predicate Orderly(follows: (Attempt, Attempt) -> bool, open: Attempt -> bool, count: Attempt -> int, n: nat) {
    && (forall a, b | follows(a, b) :: open(a))
    && (forall a, b | follows(a, b) && open(b) :: count(a) < count(b))
    && (forall a | open(a) :: 0 <= count(a) < n)
  }

  lemma {:induction false} CountGrows(attempts: seq<Attempt>, follows: (Attempt, Attempt) -> bool, open: Attempt -> bool,
                                      count: Attempt -> int, n: nat, k: nat)
    requires Chain(attempts, follows) && Orderly(follows, open, count, n)
    requires k < |attempts| && open(attempts[k])
    ensures k <= count(attempts[k]) < n
  {
    if k > 0 {
      assert follows(attempts[k - 1], attempts[k - 1 + 1]);
      CountGrows(attempts, follows, open, count, n, k - 1);
    }
  }

  lemma ChainIsShort(attempts: seq<Attempt>, follows: (Attempt, Attempt) -> bool, open: Attempt -> bool,
                     count: Attempt -> int, n: nat)
    requires Chain(attempts, follows) && Orderly(follows, open, count, n)
    ensures |attempts| <= n + 1
    ensures |attempts| == n + 1 ==> !open(attempts[n])
  {
    assert |attempts| > n + 1 ==> follows(attempts[n], attempts[n + 1]);
    if |attempts| > n && open(attempts[n]) {
      CountGrows(attempts, follows, open, count, n, n);
    }
  }

  function OpenAttempt(observed: int, entry: real, eventHigh: Option<real>, retryMinutes: int): Attempt -> bool
    requires entry > 0.0
  {
    (a: Attempt) => IsOpen(observed, entry, eventHigh, a, retryMinutes)
  }

  function PriceCount(observed: int, entry: real, eventHigh: Option<real>): Attempt -> int
    requires entry > 0.0
  {
    (a: Attempt) => PricedBy(observed, entry, eventHigh, a)
  }

  lemma MaturationIsOrderly(observed: int, entry: real, eventHigh: Option<real>, retryMinutes: int)
    requires entry > 0.0
    ensures Orderly(FollowsOf(observed, entry, eventHigh, retryMinutes), OpenAttempt(observed, entry, eventHigh, retryMinutes),
      PriceCount(observed, entry, eventHigh), |HORIZONS|)
  {
    var follows := FollowsOf(observed, entry, eventHigh, retryMinutes);
    var open, count := OpenAttempt(observed, entry, eventHigh, retryMinutes), PriceCount(observed, entry, eventHigh);
    forall a, b | follows(a, b) && open(b) ensures count(a) < count(b) {
      OneAttemptOn(observed, entry, eventHigh, a, b, retryMinutes);
    }
    forall a | open(a) ensures 0 <= count(a) < |HORIZONS| {
      OpenHasMore(observed, entry, eventHigh, a, retryMinutes);
    }
  }

  /** Maturation ends: whatever frames are fetched, if each evaluation follows one that
      was not terminal, at its due time or later, there are at most seven of them, and
      the seventh is terminal. */
  lemma MaturationEnds(observed: int, entry: real, eventHigh: Option<real>, attempts: seq<Attempt>, retryMinutes: int)
    requires entry > 0.0 && Chain(attempts, FollowsOf(observed, entry, eventHigh, retryMinutes))
    ensures |attempts| <= |HORIZONS| + 1
    ensures |attempts| == |HORIZONS| + 1 ==>
      IsTerminal(After(observed, entry, eventHigh, attempts[|HORIZONS|], retryMinutes).0.status)
  {
    MaturationIsOrderly(observed, entry, eventHigh, retryMinutes);
    ChainIsShort(attempts, FollowsOf(observed, entry, eventHigh, retryMinutes),
      OpenAttempt(observed, entry, eventHigh, retryMinutes), PriceCount(observed, entry, eventHigh), |HORIZONS|);
    if |attempts| == |HORIZONS| + 1 {
      var last := attempts[|HORIZONS|];
      NextDueIsLater(observed, entry, eventHigh, last.frame, last.asof, retryMinutes);
    }
  }

  // ---------------------------------------------------------------- no look-ahead

  function ClosedBy(asof: int): Row -> bool {
    (r: Row) => r.closeTime <= asof
  }

  lemma {:induction false} FilterTwice(frame: seq<Row>, observed: int, asof: int)
    ensures Filter(Filter(frame, ClosedBy(asof)), Usable(observed, asof)) == Filter(frame, Usable(observed, asof))
  {
    if frame != [] {
      var init, last := frame[..|frame| - 1], frame[|frame| - 1];
      FilterTwice(init, observed, asof);
      FilterConcat(Filter(init, ClosedBy(asof)), [last], Usable(observed, asof));
      assert [last][..0] == [];
    }
  }

  /** Rows closing after the as-of time never change the result: frames that agree on
      the rows closed by then give the same outcome. */
  lemma FutureRowsDoNotMatter(observed: int, entry: real, eventHigh: Option<real>, a: seq<Row>, b: seq<Row>, asof: int)
    requires Filter(a, ClosedBy(asof)) == Filter(b, ClosedBy(asof))
    ensures Evaluated(observed, entry, eventHigh, a, asof) == Evaluated(observed, entry, eventHigh, b, asof)
  {
    FilterTwice(a, observed, asof);
    FilterTwice(b, observed, asof);
  }

  // ---------------------------------------------------------------- excursions

  lemma PercentMonotone(a: real, b: real, entry: real)
    requires entry > 0.0 && a <= b
    ensures Percent(a, entry) <= Percent(b, entry)
  {
    assert b / entry - a / entry == (b - a) / entry;
    assert (b - a) / entry >= 0.0;
  }

  lemma MoreRowsMoreExcursion(some: seq<Row>, all: seq<Row>, entry: real)
    requires entry > 0.0 && some != [] && forall r | r in some :: r in all
    requires all != []
    ensures Mfe(some, entry) <= Mfe(all, entry) && Mae(some, entry) <= Mae(all, entry)
  {
    PercentMonotone(entry - MinLow(some), entry - MinLow(all), entry);
    PercentMonotone(MaxHigh(some) - entry, MaxHigh(all) - entry, entry);
  }

  /** The excursions of a longer horizon are at least those of a shorter one, and none
      exceeds those of the whole outcome. */
  lemma ExcursionsGrow(observed: int, entry: real, eventHigh: Option<real>, frame: seq<Row>, asof: int, i: int, j: int)
    requires entry > 0.0 && i <= j
    requires var o := Evaluated(observed, entry, eventHigh, frame, asof).value;
      i in o.mfeByHorizon && j in o.mfeByHorizon
    ensures var o := Evaluated(observed, entry, eventHigh, frame, asof).value;
      && i in o.maeByHorizon && j in o.maeByHorizon && o.mfePct.Some? && o.maePct.Some?
      && o.mfeByHorizon[i] <= o.mfeByHorizon[j] <= o.mfePct.value
      && o.maeByHorizon[i] <= o.maeByHorizon[j] <= o.maePct.value
  {
    var rows := ClosedRows(frame, observed, asof);
    TargetsIncrease(observed, i, j);
    MoreRowsMoreExcursion(UpTo(rows, Target(observed, i)), UpTo(rows, Target(observed, j)), entry);
    MoreRowsMoreExcursion(UpTo(rows, Target(observed, j)), rows, entry);
  }
}
