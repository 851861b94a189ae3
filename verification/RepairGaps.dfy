/** When filling a gap opens another one. */
module RepairGaps {
  import opened Text
  import opened MarketData
  import opened SortedInts
  import opened Continuity
  import opened ContinuityProofs
  import opened ContinuityRuns
  import opened ContinuityWindows
  import opened RepairProofs
  import opened Backfill

  // ---------------------------------------------------------------- minutes in order

  /** The candles are successive minutes of the symbol, from the first one on. */
  ghost predicate InOrder(symbol: string, candles: seq<MarketCandle>, first: int) {
    forall i | 0 <= i < |candles| ::
      candles[i].openTime == first + i && Accepted(candles[i]) && Upper(candles[i].symbol) == symbol
  }

  /** The first j candles go in. */
  function Filled(t: Tracker, candles: seq<MarketCandle>, j: nat): Tracker
    requires j <= |candles|
  {
    Run(t, Closed(candles)[..j])
  }

  lemma FilledNext(t: Tracker, candles: seq<MarketCandle>, j: nat)
    requires j < |candles|
    ensures Filled(t, candles, j + 1) == Observed(Filled(t, candles, j), candles[j])
  {
    var steps := Closed(candles)[..j + 1];
    assert steps[..j] == Closed(candles)[..j];
    assert steps[j] == ClosedCandle(candles[j]);
  }

  lemma FilledAll(t: Tracker, candles: seq<MarketCandle>)
    ensures Filled(t, candles, |candles|) == Run(t, Closed(candles))
  {
    assert Closed(candles)[..|candles|] == Closed(candles);
  }

  lemma FilledNone(t: Tracker, candles: seq<MarketCandle>)
    ensures Filled(t, candles, 0) == t
  {
    assert Closed(candles)[..0] == [];
  }

  lemma FilledSplit(t: Tracker, candles: seq<MarketCandle>, k: nat)
    requires k <= |candles|
    ensures Run(t, Closed(candles)) == Run(Run(t, Closed(candles[..k])), Closed(candles[k..]))
  {
    assert Closed(candles) == Closed(candles[..k]) + Closed(candles[k..]);
    RunConcat(t, Closed(candles[..k]), Closed(candles[k..]));
  }

  // ---------------------------------------------------------------- minutes that open nothing

  /** Storing this minute of the symbol would open no gap. */
  ghost predicate Calm(t: Tracker, symbol: string, minute: int) {
    !Jumps(t.Window(symbol), minute) && !FallsShort(t, symbol, minute)
  }

  lemma CalmOpensNone(t: Tracker, c: MarketCandle)
    requires Inv(t) && EndsInv(t) && Accepted(c) && Calm(t, Upper(c.symbol), c.openTime)
    ensures Observed(t, c).active.Keys <= t.active.Keys
  {
    if StoresNew(t, c) {
      OpensGapIff(t, c);
      forall id | id in Observed(t, c).active ensures id in t.active {
      }
    }
  }

  /** A retained minute makes the one after it calm. */
  lemma RetainedIsCalm(t: Tracker, symbol: string, minute: int, next: int)
    requires minute in t.Window(symbol) && next - 1 <= minute <= next
    ensures Calm(t, symbol, next)
  {
    assert minute in t.Window(symbol).Keys;
  }

  /** A stored minute that is dropped at once is older than a full window, which stays. */
  lemma DroppedIsOlder(w: Minutes, e: Minutes, c: MarketCandle, bound: nat)
    requires |w| <= bound && c.openTime !in w && c.openTime !in e
    requires LatestOf(w[c.openTime := c], e, bound)
    ensures |w| == bound && e == w && forall m | m in w.Keys :: c.openTime < m
  {
    var x := w[c.openTime := c];
    assert x.Keys == w.Keys + {c.openTime};
    assert |x.Keys| == |x| && |w.Keys| == |w| && |e.Keys| == |e|;
    if |x| <= bound {
      SameSizeSubset(e.Keys, x.Keys);
    }
    SameSizeSubset(e.Keys, w.Keys);
    forall m | m in w.Keys ensures c.openTime < m {
      assert m in e.Keys;
    }
    OlderMinuteIsDropped(w, e, c, bound);
  }

  ghost predicate DroppedAtOnce(t: Tracker, c: MarketCandle) {
    var w := t.Window(Upper(c.symbol));
    && |w| == t.maxCandles && Observed(t, c).Window(Upper(c.symbol)) == w
    && forall m | m in w.Keys :: c.openTime < m
  }

  lemma RetainedOrDropped(t: Tracker, c: MarketCandle)
    requires Inv(t) && Accepted(c)
    ensures c.openTime in Observed(t, c).Window(Upper(c.symbol)) || (StoresNew(t, c) && DroppedAtOnce(t, c))
  {
    var own := Upper(c.symbol);
    if StoresNew(t, c) {
      ObservedStores(t, c);
      EvictedKeepsLatest(Extended(t, c), t.maxCandles);
      assert own in t.candles ==> WindowInv(t, own);
      if c.openTime !in Observed(t, c).Window(own) {
        DroppedIsOlder(t.Window(own), Observed(t, c).Window(own), c, t.maxCandles);
      }
    }
  }

  /** A call adds no minute but the candle's. */
  lemma NotRetainedAfter(t: Tracker, c: MarketCandle, symbol: string, m: int)
    requires m !in t.Window(symbol) && c.openTime != m
    ensures m !in Observed(t, c).Window(symbol)
  {
    if StoresNew(t, c) {
      StoredWindow(t, c);
      if Upper(c.symbol) != symbol {
        ObservedOther(t, c, symbol);
      }
    }
  }

  lemma StoredWindow(t: Tracker, c: MarketCandle)
    requires StoresNew(t, c)
    ensures Observed(t, c).Window(Upper(c.symbol)).Keys <= t.Window(Upper(c.symbol)).Keys + {c.openTime}
  {
    ObservedStores(t, c);
    EvictedKeepsLatest(Extended(t, c), t.maxCandles);
    ExtendedKeys(t, c);
  }

  /** An active gap with a missing minute stays active while other minutes come. */
  lemma MissingStays(t: Tracker, c: MarketCandle, id: GapIdentity, m: int)
    requires Inv(t) && id in t.active && InGap(id, m) && m !in t.Window(id.symbol)
    requires c.openTime != m
    ensures id in Observed(t, c).active && Observed(t, c).active[id] == t.active[id]
    ensures m !in Observed(t, c).Window(id.symbol)
  {
    NotRetainedAfter(t, c, id.symbol, m);
    GapSurvives(t, ClosedCandle(c), id);
    assert GapInv(t, id);
    if Upper(c.symbol) == id.symbol {
      ExtendedKeys(t, c);
      assert m !in Extended(t, c).Keys;
    }
  }

  /** Behind a dropped minute an active gap reaches to the window, or the next minute is
      next to it. */
  lemma DroppedIsCalm(t: Tracker, c: MarketCandle, next: int)
    requires Inv(t) && StoresNew(t, c) && DroppedAtOnce(t, c) && next == c.openTime + 1
    requires Calm(t, Upper(c.symbol), c.openTime)
    ensures Calm(Observed(t, c), Upper(c.symbol), next)
  {
    var own := Upper(c.symbol);
    var w := t.Window(own);
    assert |w.Keys| == |w| > 0;
    var least := Least(w.Keys);
    if next + 1 < least {
      var id :| id in t.active && Covers(t.active[id], own, c.openTime, least);
      assert GapInv(t, id);
      assert next !in w.Keys;
      MissingStays(t, c, id, next);
      assert Covers(Observed(t, c).active[id], own, next, least);
    }
  }

  /** After a calm minute the next one is calm. */
  lemma CalmStep(t: Tracker, c: MarketCandle, next: int)
    requires Inv(t) && Accepted(c) && Calm(t, Upper(c.symbol), c.openTime) && next == c.openTime + 1
    ensures Calm(Observed(t, c), Upper(c.symbol), next)
  {
    RetainedOrDropped(t, c);
    if c.openTime in Observed(t, c).Window(Upper(c.symbol)) {
      RetainedIsCalm(Observed(t, c), Upper(c.symbol), c.openTime, next);
    } else {
      DroppedIsCalm(t, c, next);
    }
  }

  /** What a run of calm minutes keeps. */
  ghost predicate StillCalm(t: Tracker, u: Tracker, symbol: string, minute: int) {
    && Inv(u) && EndsInv(u) && u.maxCandles == t.maxCandles
    && Calm(u, symbol, minute) && u.active.Keys <= t.active.Keys
  }

  lemma KeepsAll(t: Tracker, c: MarketCandle)
    requires Inv(t) && EndsInv(t)
    ensures Inv(Observed(t, c)) && EndsInv(Observed(t, c)) && Observed(t, c).maxCandles == t.maxCandles
  {
    ObservedKeepsInv(t, c);
    NextKeepsEnds(t, ClosedCandle(c));
    StepFrame(t, ClosedCandle(c));
  }

  lemma StillCalmStep(t: Tracker, u: Tracker, c: MarketCandle, next: int)
    requires StillCalm(t, u, Upper(c.symbol), c.openTime) && Accepted(c) && next == c.openTime + 1
    ensures StillCalm(t, Observed(u, c), Upper(c.symbol), next)
  {
    KeepsAll(u, c);
    CalmStep(u, c, next);
    CalmOpensNone(u, c);
  }

  /** Successive minutes open nothing when the first one would not. */
  lemma {:induction false} CalmIsQuiet(t: Tracker, symbol: string, candles: seq<MarketCandle>, first: int, j: nat)
    requires Inv(t) && EndsInv(t) && InOrder(symbol, candles, first) && Calm(t, symbol, first) && j <= |candles|
    ensures StillCalm(t, Filled(t, candles, j), symbol, first + j)
  {
    if j == 0 {
      FilledNone(t, candles);
    } else {
      CalmIsQuiet(t, symbol, candles, first, j - 1);
      FilledNext(t, candles, j - 1);
      StillCalmStep(t, Filled(t, candles, j - 1), candles[j - 1], first + j);
    }
  }

  /** A gap with a minute that is missing, and not among the candles, stays. */
  lemma {:induction false} MissingStaysAlong(t: Tracker, candles: seq<MarketCandle>, id: GapIdentity, m: int, j: nat)
    requires Inv(t) && id in t.active && InGap(id, m) && m !in t.Window(id.symbol) && j <= |candles|
    requires forall i | 0 <= i < |candles| :: candles[i].openTime != m
    ensures Inv(Filled(t, candles, j)) && id in Filled(t, candles, j).active && m !in Filled(t, candles, j).Window(id.symbol)
  {
    if j == 0 {
      FilledNone(t, candles);
    } else {
      MissingStaysAlong(t, candles, id, m, j - 1);
      FilledNext(t, candles, j - 1);
      ObservedKeepsInv(Filled(t, candles, j - 1), candles[j - 1]);
      MissingStays(Filled(t, candles, j - 1), candles[j - 1], id, m);
    }
  }

  // ---------------------------------------------------------------- a first minute past the window

  ghost predicate Opened(t: Tracker, u: Tracker) {
    exists id :: id in u.active && id !in t.active
  }

  lemma JumpStaysOpen(t: Tracker, symbol: string, candles: seq<MarketCandle>, first: int)
    requires Inv(t) && EndsInv(t) && InOrder(symbol, candles, first) && candles != []
    requires Jumps(t.Window(symbol), first)
    ensures Opened(t, Run(t, Closed(candles)))
  {
    var c := candles[0];
    var p := Newest(t.Window(symbol));
    var id := GapIdentity(symbol, p + 1, first);
    assert first !in t.Window(symbol).Keys;
    JumpOpens(t, c, p, id);
    StaysOpen(t, candles, id, p + 1);
  }

  /** A gap opened by the first candle is open at the end if a minute of it never comes. */
  lemma StaysOpen(t: Tracker, candles: seq<MarketCandle>, id: GapIdentity, m: int)
    requires Inv(t) && candles != [] && id !in t.active && id in Observed(t, candles[0]).active
    requires InGap(id, m) && m !in t.Window(id.symbol)
    requires forall i | 0 <= i < |candles| :: candles[i].openTime != m
    ensures Opened(t, Run(t, Closed(candles)))
  {
    var c, rest := candles[0], candles[1..];
    AfterFirst(t, candles);
    ObservedKeepsInv(t, c);
    NotRetainedAfter(t, c, id.symbol, m);
    MissingStaysAlong(Observed(t, c), rest, id, m, |rest|);
    FilledAll(Observed(t, c), rest);
  }

  lemma AfterFirst(t: Tracker, candles: seq<MarketCandle>)
    requires candles != []
    ensures Run(t, Closed(candles)) == Run(Observed(t, candles[0]), Closed(candles[1..]))
  {
    FilledSplit(t, candles, 1);
    assert Closed(candles[..1]) == [ClosedCandle(candles[0])];
    RunOne(t, ClosedCandle(candles[0]));
  }

  // ---------------------------------------------------------------- a first minute short of the window

  function LeastOf(w: Minutes): (m: int)
    requires w != map[]
    ensures m in w && forall x | x in w.Keys :: m <= x
  {
    assert w.Keys != {};
    Least(w.Keys)
  }

  ghost predicate ShortfallOpened(t: Tracker, u: Tracker, symbol: string, id: GapIdentity, least: int) {
    && Inv(u) && EndsInv(u) && u.maxCandles == t.maxCandles
    && id in u.active && id !in t.active && u.active.Keys <= t.active.Keys + {id}
    && RightOf(u.Window(symbol), least) == t.Window(symbol).Keys
  }

  lemma OnlyTheShortfall(t: Tracker, c: MarketCandle, least: int, other: GapIdentity)
    requires Inv(t) && StoresNew(t, c) && least in t.Window(Upper(c.symbol)) && c.openTime < least
    requires forall m | m in t.Window(Upper(c.symbol)).Keys :: least <= m
    requires other in Observed(t, c).active && other !in t.active
    ensures other == GapIdentity(Upper(c.symbol), c.openTime + 1, least)
  {
    ObservedStores(t, c);
    InsertedOrigin(t, c, other);
    var p, q := other.expectedStart - 1, other.observedNextStart;
    FoundIsNext(t, c, p, q);
    ExtendedKeys(t, c);
    assert least in Extended(t, c).Keys && c.openTime in Extended(t, c).Keys;
  }

  lemma ShortfallOpens(t: Tracker, c: MarketCandle, least: int, id: GapIdentity)
    requires Inv(t) && EndsInv(t) && StoresNew(t, c) && FallsShort(t, Upper(c.symbol), c.openTime)
    requires least == LeastOf(t.Window(Upper(c.symbol))) && id == GapIdentity(Upper(c.symbol), c.openTime + 1, least)
    ensures ShortfallOpened(t, Observed(t, c), Upper(c.symbol), id, least)
  {
    ShortfallKeys(t, c, least, id);
    KeepsAll(t, c);
    RightUnchanged(t, c, least);
    assert RightOf(t.Window(Upper(c.symbol)), least) == t.Window(Upper(c.symbol)).Keys;
  }

  lemma ShortfallKeys(t: Tracker, c: MarketCandle, least: int, id: GapIdentity)
    requires Inv(t) && EndsInv(t) && StoresNew(t, c) && FallsShort(t, Upper(c.symbol), c.openTime)
    requires least == LeastOf(t.Window(Upper(c.symbol))) && id == GapIdentity(Upper(c.symbol), c.openTime + 1, least)
    ensures id in Observed(t, c).active && id !in t.active
    ensures Observed(t, c).active.Keys <= t.active.Keys + {id}
  {
    OpensGapIff(t, c);
    var found :| found in Observed(t, c).active && found !in t.active;
    OnlyTheShortfall(t, c, least, found);
    forall other | other in Observed(t, c).active ensures other in t.active.Keys + {id} {
      if other !in t.active {
        OnlyTheShortfall(t, c, least, other);
      }
    }
  }

  /** The minutes between the first one and the window: they close the hole exactly when
      it fits, and open nothing else. */
  lemma BridgeCloses(t: Tracker, u: Tracker, symbol: string, id: GapIdentity, least: int, candles: seq<MarketCandle>)
    requires ShortfallOpened(t, u, symbol, id, least) && id.symbol == symbol && id.observedNextStart == least
    requires InOrder(symbol, candles, id.expectedStart) && |candles| == least - id.expectedStart >= 1
    requires least in t.Window(symbol)
    ensures var v := Run(u, Closed(candles));
      && Inv(v) && EndsInv(v) && least in v.Window(symbol) && v.active.Keys <= u.active.Keys
      && (id !in v.active <==> |candles| + |t.Window(symbol)| <= t.maxCandles + 1)
  {
    assert GapInv(u, id);
    var gap := u.active[id];
    assert |t.Window(symbol).Keys| == |t.Window(symbol)|;
    assert least in RightOf(u.Window(symbol), least);
    FillingClosesIff(u, gap, candles);
    EndRetainedIsQuiet(u, gap, candles, |candles|);
    FilledAll(u, candles);
    EndStays(u, Run(u, Closed(candles)), gap, |candles|);
  }

  lemma EndStays(t: Tracker, after: Tracker, gap: GapEvent, j: nat)
    requires Progressed(t, after, gap, j) && gap.observedNextStart in t.Window(gap.symbol)
    ensures gap.observedNextStart in after.Window(gap.symbol)
  {
    assert gap.observedNextStart in RightOf(t.Window(gap.symbol), gap.observedNextStart);
  }

  /** What holds while the gap is filled with its end retained. */
  ghost predicate Quiet(t: Tracker, after: Tracker, gap: GapEvent, j: nat) {
    Progressed(t, after, gap, j) && EndsInv(after) && after.active.Keys <= t.active.Keys
  }

  lemma EndRetainedIsCalm(t: Tracker, gap: GapEvent)
    requires Inv(t) && IsActive(t, gap) && gap.observedNextStart in t.Window(gap.symbol)
    ensures gap.WellFormed() && Calm(t, gap.symbol, gap.expectedStart)
  {
    assert GapInv(t, gap.Identity());
    var w := t.Window(gap.symbol);
    assert gap.observedNextStart in w.Keys;
    assert Covers(gap, gap.symbol, gap.expectedStart, Least(w.Keys));
  }

  /** While the end of an active gap is retained, filling it opens nothing. */
  lemma EndRetainedIsQuiet(t: Tracker, gap: GapEvent, candles: seq<MarketCandle>, j: nat)
    requires Inv(t) && EndsInv(t) && IsActive(t, gap) && FillsInOrder(gap, candles) && j <= |candles|
    requires gap.observedNextStart in t.Window(gap.symbol)
    ensures Quiet(t, Filled(t, candles, j), gap, j)
  {
    FillingProgress(t, gap, candles, j);
    EndRetainedIsCalm(t, gap);
    CalmIsQuiet(t, gap.symbol, candles, gap.expectedStart, j);
  }

  lemma Parts(t: Tracker, symbol: string, candles: seq<MarketCandle>, first: int, k: nat)
    returns (bridge: seq<MarketCandle>, beyond: seq<MarketCandle>)
    requires InOrder(symbol, candles, first) && k < |candles|
    ensures |bridge| == k && InOrder(symbol, bridge, first + 1) && InOrder(symbol, beyond, first + 1 + k)
    ensures Run(t, Closed(candles)) == Run(Run(Observed(t, candles[0]), Closed(bridge)), Closed(beyond))
  {
    var rest := candles[1..];
    InOrderSplit(symbol, candles, first, 1);
    InOrderSplit(symbol, rest, first + 1, k);
    bridge, beyond := rest[..k], rest[k..];
    AfterFirst(t, candles);
    FilledSplit(Observed(t, candles[0]), rest, k);
  }

  lemma InOrderSplit(symbol: string, candles: seq<MarketCandle>, first: int, k: nat)
    requires InOrder(symbol, candles, first) && k <= |candles|
    ensures InOrder(symbol, candles[..k], first) && InOrder(symbol, candles[k..], first + k)
  {
  }

  /** The candles reach the window: the hole behind the first one is closed exactly when
      it fits. */
  lemma ReachingShortfall(t: Tracker, symbol: string, candles: seq<MarketCandle>, first: int, least: int)
    requires Inv(t) && EndsInv(t) && InOrder(symbol, candles, first) && FallsShort(t, symbol, first)
    requires least == LeastOf(t.Window(symbol)) && first + |candles| >= least
    ensures Opened(t, Run(t, Closed(candles))) <==> |t.Window(symbol)| + (least - first) > t.maxCandles + 2
  {
    var id := GapIdentity(symbol, first + 1, least);
    assert first !in t.Window(symbol).Keys;
    ShortfallOpens(t, candles[0], least, id);
    var bridge, beyond := Parts(t, symbol, candles, first, least - first - 1);
    FromShortfall(t, Observed(t, candles[0]), symbol, id, least, bridge, beyond);
  }

  lemma FromShortfall(t: Tracker, u: Tracker, symbol: string, id: GapIdentity, least: int,
                      bridge: seq<MarketCandle>, beyond: seq<MarketCandle>)
    requires ShortfallOpened(t, u, symbol, id, least) && id.symbol == symbol && id.observedNextStart == least
    requires InOrder(symbol, bridge, id.expectedStart) && |bridge| == least - id.expectedStart >= 1
    requires InOrder(symbol, beyond, least) && least in t.Window(symbol)
    ensures Opened(t, Run(Run(u, Closed(bridge)), Closed(beyond))) <==> |bridge| + |t.Window(symbol)| > t.maxCandles + 1
  {
    BridgeCloses(t, u, symbol, id, least, bridge);
    AfterBridge(t, Run(u, Closed(bridge)), symbol, id, least, beyond);
  }

  lemma MissingMinute(t: Tracker, id: GapIdentity) returns (m: int)
    requires Inv(t) && id in t.active
    ensures InGap(id, m) && m !in t.Window(id.symbol)
  {
    var gap := t.active[id];
    assert GapInv(t, id);
    m :| gap.expectedStart <= m < gap.expectedStart + gap.missingCount && m !in t.Window(id.symbol).Keys;
  }

  lemma AfterBridge(t: Tracker, v: Tracker, symbol: string, id: GapIdentity, least: int, candles: seq<MarketCandle>)
    requires Inv(v) && EndsInv(v) && least in v.Window(symbol) && v.active.Keys <= t.active.Keys + {id}
    requires id !in t.active && id.symbol == symbol && id.observedNextStart == least
    requires InOrder(symbol, candles, least)
    ensures Opened(t, Run(v, Closed(candles))) <==> id in v.active
  {
    FilledAll(v, candles);
    if id in v.active {
      var m := MissingMinute(v, id);
      MissingStaysAlong(v, candles, id, m, |candles|);
    } else {
      RetainedIsCalm(v, symbol, least, least);
      CalmIsQuiet(v, symbol, candles, least, |candles|);
    }
  }

  /** The candles end before the window: the hole behind the first one stays. */
  lemma ShortShortfall(t: Tracker, symbol: string, candles: seq<MarketCandle>, first: int, least: int)
    requires Inv(t) && EndsInv(t) && InOrder(symbol, candles, first) && candles != [] && FallsShort(t, symbol, first)
    requires least == LeastOf(t.Window(symbol)) && first + |candles| < least
    ensures Opened(t, Run(t, Closed(candles)))
  {
    var id := GapIdentity(symbol, first + 1, least);
    assert first !in t.Window(symbol).Keys && first + |candles| !in t.Window(symbol).Keys;
    ShortfallOpens(t, candles[0], least, id);
    StaysOpen(t, candles, id, first + |candles|);
  }

  // ---------------------------------------------------------------- the exact condition

  /** The gap starts past the window; or it starts short of it with no active gap between,
      and either ends before the window too, or with the minutes from its start to the
      window does not fit it. */
  ghost predicate OpensAnother(t: Tracker, gap: GapEvent)
  {
    var w := t.Window(gap.symbol);
    || Jumps(w, gap.expectedStart)
    || (FallsShort(t, gap.symbol, gap.expectedStart)
        && (gap.observedNextStart < LeastOf(w) || |w| + (LeastOf(w) - gap.expectedStart) > t.maxCandles + 2))
  }

  /** Feeding the minutes of any gap, active or not, in order leaves a gap that was not
      active before exactly when OpensAnother says so. */
  lemma FillingOpensIff(t: Tracker, gap: GapEvent, candles: seq<MarketCandle>)
    requires Inv(t) && EndsInv(t) && gap.WellFormed() && FillsInOrder(gap, candles)
    ensures Opened(t, Run(t, Closed(candles))) <==> OpensAnother(t, gap)
  {
    var symbol, first := gap.symbol, gap.expectedStart;
    if Jumps(t.Window(symbol), first) {
      JumpStaysOpen(t, symbol, candles, first);
    } else if FallsShort(t, symbol, first) {
      var least := LeastOf(t.Window(symbol));
      if gap.observedNextStart < least {
        ShortShortfall(t, symbol, candles, first, least);
      } else {
        ReachingShortfall(t, symbol, candles, first, least);
      }
    } else {
      CalmIsQuiet(t, symbol, candles, first, |candles|);
      FilledAll(t, candles);
    }
  }

  /** An active gap reaches from the gap's first minutes to the window. */
  ghost predicate Bridged(t: Tracker, gap: GapEvent)
    requires t.Window(gap.symbol) != map[]
  {
    HasCover(t.active, gap.symbol, gap.expectedStart, LeastOf(t.Window(gap.symbol)))
  }

  /** For an active gap that is: exactly when its end has left the window and no active
      gap reaches from its first minutes to the window. */
  lemma ActiveOpensIff(t: Tracker, gap: GapEvent)
    requires Inv(t) && EndsInv(t) && IsActive(t, gap)
    ensures t.Window(gap.symbol) != map[]
    ensures OpensAnother(t, gap) <==> gap.observedNextStart !in t.Window(gap.symbol) && !Bridged(t, gap)
  {
    var w := t.Window(gap.symbol);
    assert GapInv(t, gap.Identity()) && WindowInv(t, gap.symbol);
    assert Kept(w, t.maxCandles, gap.observedNextStart);
    var least := LeastOf(w);
    assert least in w.Keys;
    if gap.observedNextStart in w {
      EndRetainedIsCalm(t, gap);
    }
  }

  // ---------------------------------------------------------------- a successful repair

  lemma {:induction false} RunKeepsEndsFrom(t: Tracker, steps: seq<Step>)
    requires Inv(t) && EndsInv(t)
    ensures EndsInv(Run(t, steps))
  {
    if steps != [] {
      var init := steps[..|steps| - 1];
      RunKeepsEndsFrom(t, init);
      RunKeepsInvFrom(t, init);
      NextKeepsEnds(Run(t, init), steps[|steps| - 1]);
    }
  }

  /** The ends and the condition look at the candles and the gaps only. */
  lemma SameContentsSameEnds(t: Tracker, u: Tracker, gap: GapEvent)
    requires EndsInv(t) && SameContents(t, u, 0)
    ensures EndsInv(u) && (OpensAnother(u, gap) <==> OpensAnother(t, gap))
  {
    assert forall symbol :: u.Window(symbol) == t.Window(symbol);
  }

  /** A successful repair of any gap, whatever other tasks did to it meanwhile, leaves a
      gap that was not active when its candles went in exactly when OpensAnother held
      then. */
  lemma SuccessOpensIff(t: Tracker, gap: GapEvent, decisionAt: int, maxCandles: nat, attempts: seq<Attempt>, o: Outcome)
    requires Inv(t) && EndsInv(t) && gap.WellFormed() && gap.symbol == Upper(gap.symbol)
    requires Settled(gap, decisionAt, maxCandles, attempts, o)
    requires o.Returned? && o.result.status == SUCCESS
    ensures var before := Run(t, Others(attempts[..Used(o)]));
      Opened(before, Run(t, Trace(gap, attempts, o))) <==> OpensAnother(before, gap)
  {
    var others := Others(attempts[..Used(o)]);
    var before := SuccessRuns(t, gap, decisionAt, maxCandles, attempts, o);
    RunKeepsEndsFrom(t, others);
    SameContentsSameEnds(Run(t, others), before, gap);
    FillingOpensIff(before, gap, o.result.candles);
  }
}
