/** Order-book liquidity: walking the bids to sell for a given amount of quote. */
module Slippage {
  import opened MarketData

  const SELL_NOTIONAL := 10_000.0

  datatype Level = Level(price: real, size: real)
  {
    function Value(): real {
      price * size
    }

    predicate Positive() {
      price > 0.0 && size > 0.0
    }
  }

  ghost predicate Positive(levels: seq<Level>) {
    forall i | 0 <= i < |levels| :: levels[i].Positive()
  }

  ghost predicate Descending(levels: seq<Level>) {
    forall i, j | 0 <= i < j < |levels| :: levels[i].price >= levels[j].price
  }

  function Smaller(a: real, b: real): real {
    if b < a then b else a
  }

  function Total(bids: seq<Level>): real {
    if bids == [] then 0.0 else bids[0].Value() + Total(bids[1..])
  }

  /** The base sold when the bids are taken from the best on, until the quote is received. */
  function Base(bids: seq<Level>, quote: real): real
    requires Positive(bids)
  {
    if bids == [] then 0.0 else
      var take := Smaller(quote, bids[0].Value());
      take / bids[0].price + Base(bids[1..], quote - take)
  }

  // ---------------------------------------------------------------- arithmetic

  lemma Product(a: real, b: real)
    ensures a > 0.0 && b > 0.0 ==> a * b > 0.0
    ensures a >= 0.0 && b >= 0.0 ==> a * b >= 0.0
  {
  }

  lemma Minus(p: real, x: real, y: real)
    ensures p * (x - y) == p * x - p * y
  {
  }

  lemma Cancel(p: real, x: real, y: real)
    requires p > 0.0 && p * x >= p * y
    ensures x >= y
  {
    Minus(p, y, x);
    Product(p, y - x);
  }

  lemma Quotient(a: real, p: real)
    requires p > 0.0
    ensures p * (a / p) == a
    ensures a >= 0.0 ==> a / p >= 0.0
    ensures a > 0.0 ==> a / p > 0.0
  {
  }

  lemma QuotientOfProduct(p: real, s: real)
    requires p > 0.0
    ensures (p * s) / p == s
  {
  }

  // ---------------------------------------------------------------- the walk

  lemma {:induction false} TotalIsPositive(bids: seq<Level>)
    requires Positive(bids)
    ensures Total(bids) >= 0.0
    ensures bids != [] ==> Total(bids) > 0.0
  {
    if bids != [] {
      Product(bids[0].price, bids[0].size);
      TotalIsPositive(bids[1..]);
    }
  }

  lemma {:induction false} NothingSold(bids: seq<Level>)
    requires Positive(bids)
    ensures Base(bids, 0.0) == 0.0
  {
    if bids != [] {
      Product(bids[0].price, bids[0].size);
      assert Smaller(0.0, bids[0].Value()) == 0.0;
      NothingSold(bids[1..]);
    }
  }

  /** The price of every bid is at most p. */
  ghost predicate AtMost(bids: seq<Level>, p: real) {
    forall i | 0 <= i < |bids| :: bids[i].price <= p
  }

  /** An amount of base costs at least so much quote at price p. */
  predicate Costs(p: real, base: real, quote: real) {
    p * base >= quote
  }

  lemma TakeAtPrice(less: real, more: real, price: real, p: real)
    requires 0.0 <= less <= more && 0.0 < price <= p
    ensures Costs(p, more / price - less / price, more - less)
  {
    var x := more / price - less / price;
    Quotient(more, price);
    Quotient(less, price);
    assert price * x == more - less;
    assert x >= 0.0 by {
      Quotient(more - less, price);
      assert (more - less) / price == x;
    }
    Product(p - price, x);
    assert p * x == price * x + (p - price) * x;
  }

  lemma AddCosts(p: real, x: real, y: real, dx: real, dy: real, base: real, quote: real)
    requires Costs(p, x, dx) && Costs(p, y, dy) && base == x + y && quote == dx + dy
    ensures Costs(p, base, quote)
  {
    assert p * (x + y) == p * x + p * y;
  }

  lemma BaseStep(bids: seq<Level>, quote: real, take: real)
    requires Positive(bids) && bids != [] && take == Smaller(quote, bids[0].Value())
    ensures Base(bids, quote) == take / bids[0].price + Base(bids[1..], quote - take)
  {
  }

  /** Each further unit of quote costs at least 1 / p of base. */
  lemma {:induction false} MarginalCost(bids: seq<Level>, p: real, less: real, more: real)
    requires Positive(bids) && AtMost(bids, p) && p > 0.0
    requires 0.0 <= less <= more <= Total(bids)
    ensures Costs(p, Base(bids, more) - Base(bids, less), more - less)
    decreases |bids|, 1
  {
    if bids != [] {
      MarginalStep(bids, p, less, more, Smaller(less, bids[0].Value()), Smaller(more, bids[0].Value()));
    }
  }

  lemma {:induction false} MarginalStep(bids: seq<Level>, p: real, less: real, more: real, a: real, b: real)
    requires Positive(bids) && AtMost(bids, p) && p > 0.0 && bids != []
    requires 0.0 <= less <= more <= Total(bids)
    requires a == Smaller(less, bids[0].Value()) && b == Smaller(more, bids[0].Value())
    ensures Costs(p, Base(bids, more) - Base(bids, less), more - less)
    decreases |bids|, 0
  {
    var price, rest := bids[0].price, bids[1..];
    Product(price, bids[0].size);
    TotalIsPositive(rest);
    BaseStep(bids, less, a);
    BaseStep(bids, more, b);
    TakeAtPrice(a, b, price, p);
    MarginalCost(rest, p, less - a, more - b);
    AddCosts(p, b / price - a / price, Base(rest, more - b) - Base(rest, less - a), b - a, (more - b) - (less - a),
      Base(bids, more) - Base(bids, less), more - less);
  }

  lemma RestAtMost(bids: seq<Level>)
    requires Descending(bids) && bids != []
    ensures AtMost(bids, bids[0].price) && AtMost(bids[1..], bids[0].price) && Descending(bids[1..])
  {
  }

  /** baseM sells for m no worse, per quote, than baseN for n. */
  predicate NoDearer(baseM: real, m: real, baseN: real, n: real) {
    baseM * n <= baseN * m
  }

  lemma CrossAdd(s: real, p: real, v: real, m: real, n: real, baseM: real, baseN: real, more: real, quote: real)
    requires s >= 0.0 && v == p * s && more == baseN - baseM && quote == n - m
    requires NoDearer(baseM, m - v, baseN, n - v) && Costs(p, more, quote)
    ensures NoDearer(s + baseM, m, s + baseN, n)
  {
    var d := baseN - baseM;
    Product(s, p * d - (n - m));
    assert s * (p * d - (n - m)) == v * d - s * (n - m);
    assert v * d == v * baseN - v * baseM;
    assert baseM * (n - v) == baseM * n - v * baseM;
    assert baseN * (m - v) == baseN * m - v * baseN;
    assert (s + baseM) * n == s * n + baseM * n;
    assert (s + baseN) * m == s * m + baseN * m;
  }

  lemma CrossFirst(p: real, m: real, n: real, baseM: real, baseN: real)
    requires p > 0.0 && 0.0 <= m && p * baseM == m && Costs(p, baseN, n)
    ensures NoDearer(baseM, m, baseN, n)
  {
    Product(m, p * baseN - n);
    assert m * (p * baseN - n) == p * (baseN * m) - m * n;
    assert m * n == p * (baseM * n);
    assert p * (baseN * m - baseM * n) >= 0.0;
    if baseN * m - baseM * n < 0.0 {
      Product(p, baseM * n - baseN * m);
    }
  }

  lemma BaseWithinFirst(bids: seq<Level>, quote: real)
    requires Positive(bids) && bids != [] && quote <= bids[0].Value()
    ensures Base(bids, quote) == quote / bids[0].price
  {
    assert Smaller(quote, bids[0].Value()) == quote;
    NothingSold(bids[1..]);
  }

  lemma BaseBeyondFirst(bids: seq<Level>, quote: real)
    requires Positive(bids) && bids != [] && quote >= bids[0].Value()
    ensures Base(bids, quote) == bids[0].size + Base(bids[1..], quote - bids[0].Value())
  {
    assert Smaller(quote, bids[0].Value()) == bids[0].Value();
    QuotientOfProduct(bids[0].price, bids[0].size);
  }

  lemma ConvexWithinFirst(bids: seq<Level>, m: real, n: real)
    requires Positive(bids) && Descending(bids) && bids != [] && 0.0 <= m <= n <= Total(bids)
    requires m <= bids[0].Value()
    ensures NoDearer(Base(bids, m), m, Base(bids, n), n)
  {
    RestAtMost(bids);
    BaseWithinFirst(bids, m);
    NothingSold(bids);
    Quotient(m, bids[0].price);
    MarginalCost(bids, bids[0].price, 0.0, n);
    CrossFirst(bids[0].price, m, n, Base(bids, m), Base(bids, n));
  }

  /** The base sold per quote never falls as the quote grows. */
  lemma {:induction false} BaseIsConvex(bids: seq<Level>, m: real, n: real)
    requires Positive(bids) && Descending(bids) && 0.0 <= m <= n <= Total(bids)
    ensures NoDearer(Base(bids, m), m, Base(bids, n), n)
    decreases |bids|, 1
  {
    if bids != [] {
      if m <= bids[0].Value() {
        ConvexWithinFirst(bids, m, n);
      } else {
        ConvexBeyondFirst(bids, m, n);
      }
    }
  }

  lemma {:induction false} ConvexBeyondFirst(bids: seq<Level>, m: real, n: real)
    requires Positive(bids) && Descending(bids) && bids != [] && 0.0 <= m <= n <= Total(bids)
    requires m > bids[0].Value()
    ensures NoDearer(Base(bids, m), m, Base(bids, n), n)
    decreases |bids|, 0
  {
    BaseBeyondFirst(bids, m);
    BaseBeyondFirst(bids, n);
    ConvexAfter(bids[0].size, bids[0].price, bids[0].Value(), bids, bids[1..], m, n);
  }

  /** The first level is sold out in both walks, and the rest is convex. */
  lemma {:induction false} ConvexAfter(size: real, price: real, v: real, bids: seq<Level>, rest: seq<Level>, m: real, n: real)
    requires Positive(bids) && Descending(bids) && bids != [] && rest == bids[1..]
    requires size == bids[0].size && price == bids[0].price && v == bids[0].Value()
    requires v < m <= n <= Total(bids)
    ensures NoDearer(size + Base(rest, m - v), m, size + Base(rest, n - v), n)
    decreases |rest|, 2
  {
    RestAtMost(bids);
    BaseIsConvex(rest, m - v, n - v);
    MarginalCost(rest, price, m - v, n - v);
    CrossAdd(size, price, v, m, n, Base(rest, m - v), Base(rest, n - v),
      Base(rest, n - v) - Base(rest, m - v), (n - v) - (m - v));
  }

  // ---------------------------------------------------------------- slippage

  function AveragePrice(bids: seq<Level>, notional: real): real
    requires Positive(bids) && Base(bids, notional) > 0.0
  {
    notional / Base(bids, notional)
  }

  predicate Sellable(bids: seq<Level>, notional: real) {
    bids != [] && notional > 0.0 && notional <= Total(bids)
  }

  lemma AtLeastPart(p: real, base: real, quote: real, part: real)
    requires p > 0.0 && p * part == quote && Costs(p, base, quote)
    ensures base >= part
  {
    Cancel(p, base, part);
  }

  lemma CostIsPositive(p: real, base: real, quote: real)
    requires p > 0.0 && quote > 0.0 && Costs(p, base, quote)
    ensures base > 0.0
  {
    Quotient(quote, p);
    AtLeastPart(p, base, quote, quote / p);
  }

  lemma SomethingSold(bids: seq<Level>, notional: real)
    requires Positive(bids) && Sellable(bids, notional)
    ensures Base(bids, notional) > 0.0
  {
    var p := Highest(bids);
    NothingSold(bids);
    MarginalCost(bids, p, 0.0, notional);
    assert Base(bids, notional) - Base(bids, 0.0) == Base(bids, notional);
    assert notional - 0.0 == notional;
    CostIsPositive(p, Base(bids, notional), notional);
  }

  lemma {:induction false} Highest(bids: seq<Level>) returns (p: real)
    requires Positive(bids) && bids != []
    ensures AtMost(bids, p) && p > 0.0
  {
    p := bids[0].price;
    if |bids| > 1 {
      var rest := Highest(bids[1..]);
      if rest > p {
        p := rest;
      }
      forall i | 0 <= i < |bids| ensures bids[i].price <= p {
        assert i > 0 ==> bids[i] == bids[1..][i - 1];
      }
    }
  }

  /** `_sell_slippage_pct` */
  function SlippagePct(bids: seq<Level>, notional: real): Option<real>
    requires Positive(bids)
  {
    if !Sellable(bids, notional) then None else
      SomethingSold(bids, notional);
      Some((bids[0].price - AveragePrice(bids, notional)) / bids[0].price * 100.0)
  }

  method SellSlippagePct(bids: seq<Level>, notional: real) returns (r: Option<real>)
    requires Positive(bids)
    ensures r == SlippagePct(bids, notional)
  {
    if bids == [] {
      return None;
    }
    var best := bids[0].price;
    var base, quote, remaining := Walk(bids, notional);
    if Sellable(bids, notional) {
      SomethingSold(bids, notional);
    }
    if remaining > 0.0 || base <= 0.0 {
      return None;
    }
    var average := quote / base;
    return Some((best - average) / best * 100.0);
  }

  /** The loop over the bids; it stops when the quote is received. */
  method Walk(bids: seq<Level>, notional: real) returns (base: real, quote: real, remaining: real)
    requires Positive(bids) && bids != []
    ensures quote + remaining == notional
    ensures notional <= 0.0 ==> base <= 0.0
    ensures Sellable(bids, notional) ==> remaining == 0.0 && base == Base(bids, notional)
    ensures notional > Total(bids) && notional > 0.0 ==> remaining > 0.0
  {
    if notional <= 0.0 {
      base, quote, remaining := WalkNothing(bids, notional);
      return;
    }
    base, quote, remaining := 0.0, 0.0, notional;
    var i := 0;
    while i < |bids| && remaining > 0.0
      invariant 0 <= i <= |bids|
      invariant quote + remaining == notional && remaining >= 0.0
      invariant base + Base(bids[i..], remaining) == Base(bids, notional)
      invariant notional - Total(bids) <= remaining - Total(bids[i..])
      invariant remaining > 0.0 ==> notional - Total(bids) == remaining - Total(bids[i..])
    {
      var level := bids[i];
      var take := Smaller(remaining, level.Value());
      Product(level.price, level.size);
      assert bids[i..][1..] == bids[i + 1..];
      BaseStep(bids[i..], remaining, take);
      base, quote, remaining := base + take / level.price, quote + take, remaining - take;
      i := i + 1;
    }
    TotalIsPositive(bids[i..]);
    if remaining == 0.0 {
      NothingSold(bids[i..]);
    }
  }

  /** A first round takes all of a notional that is not positive. */
  method WalkNothing(bids: seq<Level>, notional: real) returns (base: real, quote: real, remaining: real)
    requires Positive(bids) && bids != [] && notional <= 0.0
    ensures quote == notional && remaining == 0.0 && base <= 0.0
  {
    Product(bids[0].price, bids[0].size);
    var take := Smaller(notional, bids[0].Value());
    Quotient(-take, bids[0].price);
    assert take / bids[0].price == -((-take) / bids[0].price);
    base, quote, remaining := take / bids[0].price, take, notional - take;
  }
}
