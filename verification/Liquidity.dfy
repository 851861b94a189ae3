/** The order-book liquidity record: level parsing, sorting, depth and slippage. */
module Liquidity {
  import opened MarketData
  import opened StableSort
  import opened Slippage
  import opened SlippageProofs

  datatype Liquidity = Liquidity(spreadPct: real, slippagePct: Option<real>, depth1Pct: real, depth2Pct: real)

  function IsPositive(): Level -> bool {
    (l: Level) => l.Positive()
  }

  /** `_levels`, once prices and sizes are numbers; a missing one is 0. */
  method Levels(raw: seq<Level>) returns (levels: seq<Level>)
    ensures levels == Filter(raw, IsPositive())
    ensures Positive(levels)
  {
    levels := [];
    for i := 0 to |raw|
      invariant levels == Filter(raw[..i], IsPositive())
    {
      assert raw[..i + 1][..i] == raw[..i];
      if raw[i].price > 0.0 && raw[i].size > 0.0 {
        levels := levels + [raw[i]];
      }
    }
    assert raw[..|raw|] == raw;
    FilteredArePositive(raw);
  }

  lemma FilteredArePositive(raw: seq<Level>)
    ensures Positive(Filter(raw, IsPositive()))
  {
    var levels := Filter(raw, IsPositive());
    forall i | 0 <= i < |levels| ensures levels[i].Positive() {
      assert levels[i] in levels;
    }
  }

  predicate HighFirst(a: Level, b: Level) {
    a.price >= b.price
  }

  predicate LowFirst(a: Level, b: Level) {
    a.price <= b.price
  }

  function Bids(raw: seq<Level>): seq<Level> {
    SortBy(Filter(raw, IsPositive()), HighFirst)
  }

  function Asks(raw: seq<Level>): seq<Level> {
    SortBy(Filter(raw, IsPositive()), LowFirst)
  }

  /** `_bid_depth_usdt` */
  function BidDepth(bids: seq<Level>, floor: real): real {
    if bids == [] then 0.0 else
      (if bids[0].price >= floor then bids[0].Value() else 0.0) + BidDepth(bids[1..], floor)
  }

  lemma SortedArePositive(levels: seq<Level>, le: (Level, Level) -> bool)
    requires Positive(levels)
    ensures Positive(SortBy(levels, le))
  {
    var sorted := SortBy(levels, le);
    forall i | 0 <= i < |sorted| ensures sorted[i].Positive() {
      assert sorted[i] in sorted;
      SameElements(sorted, levels, sorted[i]);
    }
  }

  lemma BidsAreOrdered(raw: seq<Level>)
    ensures Positive(Bids(raw)) && Descending(Bids(raw))
  {
    FilteredArePositive(raw);
    SortedArePositive(Filter(raw, IsPositive()), HighFirst);
    assert TotalOrder(HighFirst);
    SortIsOrdered(Filter(raw, IsPositive()), HighFirst);
    var bids := Bids(raw);
    forall i, j | 0 <= i < j < |bids| ensures bids[i].price >= bids[j].price {
      assert HighFirst(bids[i], bids[j]);
    }
  }

  function Midpoint(bid: real, ask: real): real {
    (bid + ask) / 2.0
  }

  function SpreadPct(bid: real, ask: real): real
    requires Midpoint(bid, ask) > 0.0
  {
    (ask - bid) / Midpoint(bid, ask) * 100.0
  }

  /** `_orderbook_liquidity`; None stands for the empty record. */
  function OrderbookLiquidity(rawBids: seq<Level>, rawAsks: seq<Level>, price: real): Option<Liquidity> {
    var bids := Bids(rawBids);
    var asks := Asks(rawAsks);
    if price <= 0.0 || bids == [] || asks == [] then None else
      if Midpoint(bids[0].price, asks[0].price) <= 0.0 then None else
        BidsAreOrdered(rawBids);
        Some(Liquidity(SpreadPct(bids[0].price, asks[0].price), SlippagePct(bids, SELL_NOTIONAL),
          BidDepth(bids, price * 0.99), BidDepth(bids, price * 0.98)))
  }

  method OrderbookLiquidityOf(rawBids: seq<Level>, rawAsks: seq<Level>, price: real) returns (r: Option<Liquidity>)
    ensures r == OrderbookLiquidity(rawBids, rawAsks, price)
  {
    var bidLevels := Levels(rawBids);
    var askLevels := Levels(rawAsks);
    var bids := SortBy(bidLevels, HighFirst);
    var asks := SortBy(askLevels, LowFirst);
    if price <= 0.0 || bids == [] || asks == [] {
      return None;
    }
    if Midpoint(bids[0].price, asks[0].price) <= 0.0 {
      return None;
    }
    BidsAreOrdered(rawBids);
    var slippage := SellSlippagePct(bids, SELL_NOTIONAL);
    r := Some(Liquidity(SpreadPct(bids[0].price, asks[0].price), slippage,
      BidDepth(bids, price * 0.99), BidDepth(bids, price * 0.98)));
  }

  // ---------------------------------------------------------------- what it says

  lemma {:induction false} TotalConcat(a: seq<Level>, b: seq<Level>)
    ensures Total(a + b) == Total(a) + Total(b)
  {
    if a == [] {
      assert a + b == b;
    } else {
      assert (a + b)[1..] == a[1..] + b;
      TotalConcat(a[1..], b);
    }
  }

  lemma {:induction false} TotalOfInserted(q: seq<Level>, x: Level, le: (Level, Level) -> bool)
    ensures Total(Insert(q, x, le)) == Total(q) + x.Value()
  {
    assert Total([x]) == x.Value() + Total([]);
    if q == [] || le(q[|q| - 1], x) {
      TotalConcat(q, [x]);
    } else {
      var init, last := q[..|q| - 1], q[|q| - 1];
      TotalOfInserted(init, x, le);
      TotalConcat(Insert(init, x, le), [last]);
      TotalConcat(init, [last]);
      assert q == init + [last];
    }
  }

  /** Sorting keeps the value of the book. */
  lemma {:induction false} TotalOfSorted(q: seq<Level>, le: (Level, Level) -> bool)
    ensures Total(SortBy(q, le)) == Total(q)
  {
    if q != [] {
      var init, last := q[..|q| - 1], q[|q| - 1];
      TotalOfSorted(init, le);
      TotalOfInserted(SortBy(init, le), last, le);
      TotalConcat(init, [last]);
      assert q == init + [last];
      assert Total([last]) == last.Value() + Total([]);
    }
  }

  lemma {:induction false} DepthGrows(bids: seq<Level>, lower: real, higher: real)
    requires Positive(bids) && lower <= higher
    ensures 0.0 <= BidDepth(bids, higher) <= BidDepth(bids, lower) <= Total(bids)
  {
    if bids != [] {
      Product(bids[0].price, bids[0].size);
      DepthGrows(bids[1..], lower, higher);
    }
  }

  lemma SomeIff(raw: seq<Level>, le: (Level, Level) -> bool)
    ensures SortBy(Filter(raw, IsPositive()), le) != [] <==> exists l :: l in raw && l.Positive()
  {
    var kept := Filter(raw, IsPositive());
    assert |SortBy(kept, le)| == |kept|;
    if kept != [] {
      assert kept[0] in kept;
    }
  }

  lemma FirstIsPositive(levels: seq<Level>)
    requires Positive(levels) && levels != []
    ensures levels[0].price > 0.0
  {
  }

  /** The record exists for a positive price and a book with usable levels on both sides. */
  lemma LiquidityExists(rawBids: seq<Level>, rawAsks: seq<Level>, price: real)
    ensures OrderbookLiquidity(rawBids, rawAsks, price).Some? <==>
      price > 0.0 && (exists l :: l in rawBids && l.Positive()) && (exists l :: l in rawAsks && l.Positive())
  {
    SomeIff(rawBids, HighFirst);
    SomeIff(rawAsks, LowFirst);
    BidsAreOrdered(rawBids);
    FilteredArePositive(rawAsks);
    SortedArePositive(Filter(rawAsks, IsPositive()), LowFirst);
    if Bids(rawBids) != [] && Asks(rawAsks) != [] {
      FirstIsPositive(Bids(rawBids));
      FirstIsPositive(Asks(rawAsks));
    }
  }

  ghost predicate Sound(l: Liquidity, book: real) {
    && (l.slippagePct.None? <==> book < SELL_NOTIONAL)
    && (l.slippagePct.Some? ==> 0.0 <= l.slippagePct.value < 100.0)
    && 0.0 <= l.depth1Pct <= l.depth2Pct <= book
  }

  /** Its slippage is missing exactly when the usable bids, in whatever order they came,
      are worth less than the notional; else it is in [0, 100). The depth at 2 percent is
      at least the depth at 1 percent, and no more than the book. */
  lemma LiquidityIsSound(rawBids: seq<Level>, rawAsks: seq<Level>, price: real)
    requires OrderbookLiquidity(rawBids, rawAsks, price).Some?
    ensures Sound(OrderbookLiquidity(rawBids, rawAsks, price).value, Total(Filter(rawBids, IsPositive())))
  {
    BidsAreOrdered(rawBids);
    TotalOfSorted(Filter(rawBids, IsPositive()), HighFirst);
    BookIsSound(Bids(rawBids), price);
  }

  lemma BookIsSound(bids: seq<Level>, price: real)
    requires Positive(bids) && Descending(bids) && price > 0.0
    ensures SlippagePct(bids, SELL_NOTIONAL).None? <==> Total(bids) < SELL_NOTIONAL
    ensures SlippagePct(bids, SELL_NOTIONAL).Some? ==> 0.0 <= SlippagePct(bids, SELL_NOTIONAL).value < 100.0
    ensures 0.0 <= BidDepth(bids, price * 0.99) <= BidDepth(bids, price * 0.98) <= Total(bids)
  {
    NoneIff(bids, SELL_NOTIONAL);
    SlippageInRange(bids, SELL_NOTIONAL);
    DepthGrows(bids, price * 0.98, price * 0.99);
  }

  // ---------------------------------------------------------------- what its figures mean

  function AtOrAbove(floor: real): Level -> bool {
    (l: Level) => l.Positive() && l.price >= floor
  }

  ghost predicate IsHighest(raw: seq<Level>, price: real) {
    && (exists l :: l in raw && l.Positive() && l.price == price)
    && forall l | l in raw && l.Positive() :: l.price <= price
  }

  ghost predicate IsLowest(raw: seq<Level>, price: real) {
    && (exists l :: l in raw && l.Positive() && l.price == price)
    && forall l | l in raw && l.Positive() :: price <= l.price
  }

  lemma FirstBidIsHighest(raw: seq<Level>)
    requires Bids(raw) != []
    ensures IsHighest(raw, Bids(raw)[0].price)
  {
    var bids, kept := Bids(raw), Filter(raw, IsPositive());
    BidsAreOrdered(raw);
    SameElements(bids, kept, bids[0]);
    forall l | l in raw && l.Positive() ensures l.price <= bids[0].price {
      SameElements(bids, kept, l);
      var i :| 0 <= i < |bids| && bids[i] == l;
    }
  }

  lemma FirstAskIsLowest(raw: seq<Level>)
    requires Asks(raw) != []
    ensures IsLowest(raw, Asks(raw)[0].price)
  {
    var asks, kept := Asks(raw), Filter(raw, IsPositive());
    assert TotalOrder(LowFirst);
    SortIsOrdered(kept, LowFirst);
    SameElements(asks, kept, asks[0]);
    forall l | l in raw && l.Positive() ensures asks[0].price <= l.price {
      SameElements(asks, kept, l);
      var i :| 0 <= i < |asks| && asks[i] == l;
      assert i > 0 ==> LowFirst(asks[0], asks[i]);
    }
  }

  lemma {:induction false} DepthIsValue(bids: seq<Level>, floor: real)
    requires Positive(bids)
    ensures BidDepth(bids, floor) == Total(Filter(bids, AtOrAbove(floor)))
  {
    if bids != [] {
      FilterFirst(bids, AtOrAbove(floor));
      DepthIsValue(bids[1..], floor);
      TotalConcat(Filter([bids[0]], AtOrAbove(floor)), Filter(bids[1..], AtOrAbove(floor)));
      OneLevel(bids[0], floor);
    }
  }

  lemma OneLevel(l: Level, floor: real)
    requires l.Positive()
    ensures Total(Filter([l], AtOrAbove(floor))) == if l.price >= floor then l.Value() else 0.0
  {
    assert [l][..0] == [];
    assert Filter([l], AtOrAbove(floor)) == if l.price >= floor then [l] else [];
    assert Total([l]) == l.Value() + Total([]);
  }

  lemma FilterFirst(q: seq<Level>, keep: Level -> bool)
    requires q != []
    ensures Filter(q, keep) == Filter([q[0]], keep) + Filter(q[1..], keep)
  {
    FilterConcat([q[0]], q[1..], keep);
    assert q == [q[0]] + q[1..];
  }

  lemma {:induction false} FilterBoth(raw: seq<Level>, floor: real)
    ensures Filter(Filter(raw, IsPositive()), AtOrAbove(floor)) == Filter(raw, AtOrAbove(floor))
  {
    if raw != [] {
      FilterBoth(raw[..|raw| - 1], floor);
      var init, last := raw[..|raw| - 1], raw[|raw| - 1];
      if last.Positive() {
        FilterConcat(Filter(init, IsPositive()), [last], AtOrAbove(floor));
        assert [last][..0] == [];
      }
    }
  }

  /** A depth is the value of exactly the usable bids at or above the floor. */
  lemma DepthMeans(raw: seq<Level>, floor: real)
    ensures BidDepth(Bids(raw), floor) == Total(Filter(raw, AtOrAbove(floor)))
  {
    BidsAreOrdered(raw);
    DepthIsValue(Bids(raw), floor);
    SortedDepth(Filter(raw, IsPositive()), floor);
    FilterBoth(raw, floor);
  }

  lemma SortedDepth(kept: seq<Level>, floor: real)
    ensures Total(Filter(SortBy(kept, HighFirst), AtOrAbove(floor))) == Total(Filter(kept, AtOrAbove(floor)))
  {
    assert TotalOrder(HighFirst);
    SortFilters(kept, HighFirst, AtOrAbove(floor));
    TotalOfSorted(Filter(kept, AtOrAbove(floor)), HighFirst);
  }

  lemma BestPrices(rawBids: seq<Level>, rawAsks: seq<Level>, price: real, bid: real, ask: real)
    requires OrderbookLiquidity(rawBids, rawAsks, price).Some?
    requires IsHighest(rawBids, bid) && IsLowest(rawAsks, ask)
    ensures Bids(rawBids) != [] && Bids(rawBids)[0].price == bid
    ensures Asks(rawAsks) != [] && Asks(rawAsks)[0].price == ask
    ensures Midpoint(bid, ask) > 0.0
  {
    FirstBidIsHighest(rawBids);
    FirstAskIsLowest(rawAsks);
  }

  /** The spread is the distance from the highest usable bid to the lowest usable ask in
      percent of their midpoint; the depths are the values of the usable bids at 99 and 98
      percent of the price or above; and the slippage is that of selling for 10,000. */
  lemma LiquidityMeans(rawBids: seq<Level>, rawAsks: seq<Level>, price: real, bid: real, ask: real)
    requires OrderbookLiquidity(rawBids, rawAsks, price).Some?
    requires IsHighest(rawBids, bid) && IsLowest(rawAsks, ask)
    ensures var l := OrderbookLiquidity(rawBids, rawAsks, price).value;
      && IsSpread(l.spreadPct, bid, ask)
      && l.depth1Pct == Total(Filter(rawBids, AtOrAbove(price * 0.99)))
      && l.depth2Pct == Total(Filter(rawBids, AtOrAbove(price * 0.98)))
      && Positive(Bids(rawBids)) && l.slippagePct == SlippagePct(Bids(rawBids), 10_000.0)
  {
    BestPrices(rawBids, rawAsks, price, bid, ask);
    BidsAreOrdered(rawBids);
    DepthMeans(rawBids, price * 0.99);
    DepthMeans(rawBids, price * 0.98);
    SpreadIs(bid, ask);
  }

  /** The distance in percent of the midpoint. */
  ghost predicate IsSpread(spread: real, bid: real, ask: real) {
    spread * (bid + ask) == (ask - bid) * 200.0
  }

  lemma SpreadIs(bid: real, ask: real)
    requires Midpoint(bid, ask) > 0.0
    ensures IsSpread(SpreadPct(bid, ask), bid, ask)
  {
    var q := (ask - bid) / Midpoint(bid, ask);
    assert q * Midpoint(bid, ask) == ask - bid;
    assert q * 100.0 * (2.0 * Midpoint(bid, ask)) == (q * Midpoint(bid, ask)) * 200.0;
  }
}
