/** What the slippage says about every way of selling into the book. */
module SlippageProofs {
  import opened MarketData
  import opened Slippage

  // ---------------------------------------------------------------- sales

  /** Amounts of base sold, one for each bid. */
  ghost predicate IsSale(bids: seq<Level>, amounts: seq<real>) {
    && |amounts| == |bids|
    && forall i | 0 <= i < |bids| :: 0.0 <= amounts[i] <= bids[i].size
  }

  function Received(bids: seq<Level>, amounts: seq<real>): real
    requires |amounts| == |bids|
  {
    if bids == [] then 0.0 else bids[0].price * amounts[0] + Received(bids[1..], amounts[1..])
  }

  function Sold(amounts: seq<real>): real {
    if amounts == [] then 0.0 else amounts[0] + Sold(amounts[1..])
  }

  /** The sale the walk makes. */
  function Fill(bids: seq<Level>, quote: real): (r: seq<real>)
    requires Positive(bids)
    ensures |r| == |bids|
  {
    if bids == [] then [] else
      var take := Smaller(quote, bids[0].Value());
      [take / bids[0].price] + Fill(bids[1..], quote - take)
  }

  lemma TakeFits(price: real, size: real, take: real)
    requires price > 0.0 && size > 0.0 && 0.0 <= take <= price * size
    ensures 0.0 <= take / price <= size
    ensures price * (take / price) == take
  {
    Quotient(take, price);
    Cancel(price, size, take / price);
  }

  /** The walk sells within the sizes, receives exactly the quote asked for, and its base
      is the base the slippage is computed from. */
  lemma {:induction false} FillIsExact(bids: seq<Level>, quote: real)
    requires Positive(bids) && 0.0 <= quote <= Total(bids)
    ensures IsSale(bids, Fill(bids, quote))
    ensures Received(bids, Fill(bids, quote)) == quote
    ensures Sold(Fill(bids, quote)) == Base(bids, quote)
    decreases |bids|, 1
  {
    if bids != [] {
      FillStep(bids, quote, Smaller(quote, bids[0].Value()));
    }
  }

  lemma {:induction false} FillStep(bids: seq<Level>, quote: real, take: real)
    requires Positive(bids) && bids != [] && 0.0 <= quote <= Total(bids) && take == Smaller(quote, bids[0].Value())
    ensures IsSale(bids, Fill(bids, quote))
    ensures Received(bids, Fill(bids, quote)) == quote
    ensures Sold(Fill(bids, quote)) == Base(bids, quote)
    decreases |bids|, 0
  {
    TakeBounds(bids, quote, take);
    FillIsExact(bids[1..], quote - take);
    FillIs(bids, quote, take);
    BaseStep(bids, quote, take);
    FillJoins(bids, take / bids[0].price, Fill(bids[1..], quote - take), take);
  }

  lemma TakeBounds(bids: seq<Level>, quote: real, take: real)
    requires Positive(bids) && bids != [] && 0.0 <= quote <= Total(bids) && take == Smaller(quote, bids[0].Value())
    ensures 0.0 <= take / bids[0].price <= bids[0].size
    ensures bids[0].price * (take / bids[0].price) == take
    ensures 0.0 <= quote - take <= Total(bids[1..])
  {
    Product(bids[0].price, bids[0].size);
    TotalIsPositive(bids[1..]);
    TakeFits(bids[0].price, bids[0].size, take);
  }

  lemma FillIs(bids: seq<Level>, quote: real, take: real)
    requires Positive(bids) && bids != [] && take == Smaller(quote, bids[0].Value())
    ensures Fill(bids, quote) == [take / bids[0].price] + Fill(bids[1..], quote - take)
  {
  }

  lemma FillJoins(bids: seq<Level>, first: real, rest: seq<real>, got: real)
    requires bids != [] && got == bids[0].price * first && IsSale(bids[1..], rest) && 0.0 <= first <= bids[0].size
    ensures IsSale(bids, [first] + rest)
    ensures Received(bids, [first] + rest) == got + Received(bids[1..], rest)
    ensures Sold([first] + rest) == first + Sold(rest)
  {
    assert ([first] + rest)[1..] == rest;
    forall i | 0 <= i < |bids| ensures 0.0 <= ([first] + rest)[i] <= bids[i].size {
      assert i > 0 ==> bids[i] == bids[1..][i - 1];
    }
  }

  lemma RestIsSale(bids: seq<Level>, amounts: seq<real>)
    requires IsSale(bids, amounts) && bids != []
    ensures IsSale(bids[1..], amounts[1..]) && 0.0 <= amounts[0] <= bids[0].size
  {
  }

  /** No sale receives more than the whole book. */
  lemma {:induction false} ReceivedWithinTotal(bids: seq<Level>, amounts: seq<real>)
    requires Positive(bids) && IsSale(bids, amounts)
    ensures 0.0 <= Received(bids, amounts) <= Total(bids)
  {
    if bids != [] {
      RestIsSale(bids, amounts);
      ReceivedWithinTotal(bids[1..], amounts[1..]);
      Product(bids[0].price, amounts[0]);
      Product(bids[0].price, bids[0].size - amounts[0]);
      assert bids[0].price * (bids[0].size - amounts[0]) == bids[0].Value() - bids[0].price * amounts[0];
    }
  }

  /** The walk is the cheapest sale: any sale that receives as much sells as much base. */
  lemma {:induction false} FillIsCheapest(bids: seq<Level>, amounts: seq<real>)
    requires Positive(bids) && Descending(bids) && IsSale(bids, amounts)
    ensures Base(bids, Received(bids, amounts)) <= Sold(amounts)
  {
    if bids != [] {
      var rest := bids[1..];
      RestIsSale(bids, amounts);
      RestAtMost(bids);
      ReceivedWithinTotal(rest, amounts[1..]);
      FillIsCheapest(rest, amounts[1..]);
      CheaperFirst(bids, bids[0].price * amounts[0], Received(rest, amounts[1..]), amounts[0]);
    }
  }

  lemma FirstWithin(bid: Level, amount: real)
    requires bid.Positive() && 0.0 <= amount <= bid.size
    ensures 0.0 <= bid.price * amount <= bid.Value()
  {
    Product(bid.price, amount);
    Product(bid.price, bid.size - amount);
    Minus(bid.price, bid.size, amount);
  }

  /** Taking less from the best bid than the walk does costs more base. */
  lemma CheaperFirst(bids: seq<Level>, first: real, later: real, amount: real)
    requires Positive(bids) && bids != [] && AtMost(bids[1..], bids[0].price)
    requires first == bids[0].price * amount && 0.0 <= amount <= bids[0].size
    requires 0.0 <= later <= Total(bids[1..])
    ensures Base(bids, first + later) <= amount + Base(bids[1..], later)
  {
    FirstWithin(bids[0], amount);
    SmallerAtLeast(first + later, bids[0].Value(), first);
    CheaperStep(bids, bids[0].price, first, later, amount, Smaller(first + later, bids[0].Value()));
  }

  lemma SmallerAtLeast(x: real, y: real, low: real)
    requires low <= x && low <= y
    ensures low <= Smaller(x, y)
  {
  }

  lemma CheaperStep(bids: seq<Level>, price: real, first: real, later: real, amount: real, take: real)
    requires Positive(bids) && bids != [] && AtMost(bids[1..], price) && price == bids[0].price
    requires first == price * amount && take == Smaller(first + later, bids[0].Value())
    requires 0.0 <= first <= take && 0.0 <= later <= Total(bids[1..])
    ensures Base(bids, first + later) <= amount + Base(bids[1..], later)
  {
    var rest := bids[1..];
    BaseStep(bids, first + later, take);
    MarginalCost(rest, price, first + later - take, later);
    assert later - (first + later - take) == take - first;
    CheaperGlue(price, first, take, amount, Base(bids, first + later), Base(rest, later), Base(rest, first + later - take));
  }

  lemma CheaperGlue(price: real, first: real, take: real, amount: real, all: real, later: real, less: real)
    requires price > 0.0 && first == price * amount
    requires all == take / price + less && Costs(price, later - less, take - first)
    ensures all <= amount + later
  {
    TakeDifference(price, first, take, amount);
    AtLeastPart(price, later - less, take - first, take / price - amount);
  }

  lemma TakeDifference(price: real, first: real, take: real, amount: real)
    requires price > 0.0 && first == price * amount
    ensures price * (take / price - amount) == take - first
  {
    Quotient(take, price);
    Minus(price, take / price, amount);
  }

  // ---------------------------------------------------------------- slippage

  /** There is no slippage figure exactly when nothing is asked for or no sale within
      the book receives the notional; for a positive notional, when the book is worth less. */
  lemma NoneIff(bids: seq<Level>, notional: real)
    requires Positive(bids)
    ensures SlippagePct(bids, notional).None? <==>
      notional <= 0.0 || forall amounts :: IsSale(bids, amounts) ==> Received(bids, amounts) < notional
    ensures notional > 0.0 ==> (SlippagePct(bids, notional).None? <==> Total(bids) < notional)
  {
    TotalIsPositive(bids);
    forall amounts | IsSale(bids, amounts) ensures Received(bids, amounts) <= Total(bids) {
      ReceivedWithinTotal(bids, amounts);
    }
    if notional > 0.0 && notional <= Total(bids) {
      FillIsExact(bids, notional);
      assert IsSale(bids, Fill(bids, notional));
    }
  }

  lemma AverageBelowBest(bids: seq<Level>, notional: real)
    requires Positive(bids) && Descending(bids) && Sellable(bids, notional)
    ensures Base(bids, notional) > 0.0
    ensures 0.0 < AveragePrice(bids, notional) <= bids[0].price
  {
    var b, p := Base(bids, notional), bids[0].price;
    SomethingSold(bids, notional);
    RestAtMost(bids);
    NothingSold(bids);
    MarginalCost(bids, p, 0.0, notional);
    assert Base(bids, notional) - Base(bids, 0.0) == b && notional - 0.0 == notional;
    Quotient(notional, b);
    AtLeastPart(b, p, notional, notional / b);
  }

  function Drop(best: real, average: real): real
    requires best > 0.0
  {
    (best - average) / best * 100.0
  }

  lemma DivideMinus(x: real, y: real, p: real)
    requires p > 0.0
    ensures (x - y) / p == x / p - y / p
  {
    Quotient(x, p);
    Quotient(y, p);
    Quotient(x - y, p);
    Minus(p, x / p, y / p);
    Cancel(p, (x - y) / p, x / p - y / p);
    Cancel(p, x / p - y / p, (x - y) / p);
  }

  lemma DropBounds(best: real, average: real)
    requires 0.0 < average <= best
    ensures 0.0 <= Drop(best, average) < 100.0
  {
    Quotient(best - average, best);
    Quotient(average, best);
    DivideMinus(best, average, best);
    QuotientOfProduct(best, 1.0);
  }

  lemma DropFalls(best: real, less: real, more: real)
    requires best > 0.0 && less <= more
    ensures Drop(best, more) <= Drop(best, less)
  {
    Quotient(more - less, best);
    DivideMinus(best - less, best - more, best);
  }

  /** The slippage is at least 0 and below 100. */
  lemma SlippageInRange(bids: seq<Level>, notional: real)
    requires Positive(bids) && Descending(bids)
    ensures SlippagePct(bids, notional).Some? ==> 0.0 <= SlippagePct(bids, notional).value < 100.0
  {
    if Sellable(bids, notional) {
      AverageBelowBest(bids, notional);
      DropBounds(bids[0].price, AveragePrice(bids, notional));
    }
  }

  lemma AverageFalls(baseM: real, m: real, baseN: real, n: real)
    requires baseM > 0.0 && baseN > 0.0 && NoDearer(baseM, m, baseN, n)
    ensures n / baseN <= m / baseM
  {
    var x, y := n / baseN, m / baseM;
    Quotient(n, baseN);
    Quotient(m, baseM);
    Product(baseM, baseN);
    Regroup(baseM, baseN, x, n);
    Regroup(baseN, baseM, y, m);
    assert baseM * baseN == baseN * baseM;
    Cancel(baseM * baseN, y, x);
  }

  lemma Regroup(a: real, b: real, x: real, n: real)
    requires b * x == n
    ensures a * b * x == a * n
  {
  }

  /** The slippage never decreases as the notional grows. */
  lemma SlippageGrows(bids: seq<Level>, less: real, more: real)
    requires Positive(bids) && Descending(bids) && less <= more
    requires SlippagePct(bids, less).Some? && SlippagePct(bids, more).Some?
    ensures SlippagePct(bids, less).value <= SlippagePct(bids, more).value
  {
    AverageBelowBest(bids, less);
    AverageBelowBest(bids, more);
    BaseIsConvex(bids, less, more);
    AverageFalls(Base(bids, less), less, Base(bids, more), more);
    DropFalls(bids[0].price, AveragePrice(bids, more), AveragePrice(bids, less));
  }

  /** No sale of the same worth has a better average price than the slippage is taken of. */
  lemma SlippageIsLeast(bids: seq<Level>, amounts: seq<real>)
    requires Positive(bids) && Descending(bids) && IsSale(bids, amounts)
    requires SlippagePct(bids, Received(bids, amounts)).Some?
    ensures Sold(amounts) > 0.0
    ensures SlippagePct(bids, Received(bids, amounts)).value <= Drop(bids[0].price, Received(bids, amounts) / Sold(amounts))
  {
    var notional := Received(bids, amounts);
    SomethingSold(bids, notional);
    FillIsCheapest(bids, amounts);
    CheaperIsBetter(Base(bids, notional), Sold(amounts), notional);
    DropFalls(bids[0].price, notional / Sold(amounts), AveragePrice(bids, notional));
  }

  lemma CheaperIsBetter(base: real, more: real, quote: real)
    requires 0.0 < base <= more && quote > 0.0
    ensures quote / more <= quote / base
  {
    Product(quote, more - base);
    assert base * quote <= more * quote;
    AverageFalls(base, quote, more, quote);
  }

  /** The best sale of exactly the notional. */
  ghost predicate IsBestSale(bids: seq<Level>, notional: real, amounts: seq<real>)
    requires |amounts| == |bids|
  {
    && IsSale(bids, amounts) && Received(bids, amounts) == notional
    && forall other | IsSale(bids, other) && Received(bids, other) == notional :: Sold(amounts) <= Sold(other)
  }

  /** The figure is the loss of selling that much base at the best price, in percent. */
  ghost predicate IsLoss(figure: real, best: real, base: real, notional: real) {
    figure * (best * base) == (best * base - notional) * 100.0
  }

  lemma LossIs(best: real, base: real, notional: real)
    requires best > 0.0 && base > 0.0
    ensures IsLoss(Drop(best, notional / base), best, base, notional)
  {
    var average := notional / base;
    var q := (best - average) / best;
    assert average * base == notional;
    assert q * best == best - average;
    assert q * 100.0 * (best * base) == q * best * base * 100.0;
    assert (best - average) * base == best * base - notional;
  }

  /** The slippage is attained: some sale within the book receives exactly the notional,
      with no less base sold by any other, and the figure is its loss against selling its
      base at the best price. */
  lemma SlippageIsAttained(bids: seq<Level>, notional: real) returns (amounts: seq<real>)
    requires Positive(bids) && Descending(bids) && SlippagePct(bids, notional).Some?
    ensures |amounts| == |bids| && bids != [] && IsBestSale(bids, notional, amounts) && Sold(amounts) > 0.0
    ensures IsLoss(SlippagePct(bids, notional).value, bids[0].price, Sold(amounts), notional)
  {
    amounts := Fill(bids, notional);
    SomethingSold(bids, notional);
    FillIsExact(bids, notional);
    forall other | IsSale(bids, other) && Received(bids, other) == notional ensures Sold(amounts) <= Sold(other) {
      FillIsCheapest(bids, other);
    }
    LossIs(bids[0].price, Sold(amounts), notional);
  }
}
