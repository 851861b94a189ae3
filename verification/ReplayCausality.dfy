/** A replay reads no future and no input order. */
module ReplayCausality {
  import opened MarketData
  import opened StableSort
  import opened PullbackTracker
  import opened Lifecycle
  import opened BaselineReplay
  import opened ReplaySafety
  import SortedStrings

  // ---------------------------------------------------------------- input order

  /** Opportunities are ordered both ways exactly when their sort keys are equal. */
  lemma SameKeyIff(a: Opportunity, b: Opportunity)
    ensures KeyLe(a, b) && KeyLe(b, a) <==>
      a.decisionTime == b.decisionTime && a.sequence == b.sequence && a.symbol == b.symbol && a.trigger == b.trigger
  {
    SortedStrings.LeReflexive(a.trigger);
    if a.symbol != b.symbol && SortedStrings.Le(a.symbol, b.symbol) && SortedStrings.Le(b.symbol, a.symbol) {
      SortedStrings.LeAntisymmetric(a.symbol, b.symbol);
    }
    if SortedStrings.Le(a.trigger, b.trigger) && SortedStrings.Le(b.trigger, a.trigger) {
      SortedStrings.LeAntisymmetric(a.trigger, b.trigger);
    }
  }

  /** With distinct sort keys the whole result, whether it raises included, does not
      depend on the order of the input. */
  lemma OrderDoesNotMatter(u: Setup, a: seq<Opportunity>, b: seq<Opportunity>, initial: States, cutoff: Option<int>)
    requires multiset(a) == multiset(b)
    requires forall x, y | x in a && y in a && x.decisionTime == y.decisionTime && x.sequence == y.sequence
      && x.symbol == y.symbol && x.trigger == y.trigger :: x == y
    ensures Replay(u, a, initial, cutoff) == Replay(u, b, initial, cutoff)
  {
    KeyLeIsTotal();
    forall x, y | x in a && y in a && KeyLe(x, y) && KeyLe(y, x) ensures x == y {
      SameKeyIff(x, y);
    }
    SortIgnoresOrder(a, b, KeyLe);
  }

  // ---------------------------------------------------------------- dates

  ghost predicate Dated(r: ReplayResult, r2: ReplayResult, p: int -> bool) {
    && r.transitions <= r2.transitions && r.evaluations <= r2.evaluations
    && (forall i | |r.transitions| <= i < |r2.transitions| :: p(r2.transitions[i].time))
    && (forall i | |r.evaluations| <= i < |r2.evaluations| :: p(r2.evaluations[i].decisionTime))
  }

  lemma CallDates(u: Setup, prior: Option<EventState>, o: Opportunity, features: Option<Features>)
    requires Called(u.config, u.strategy, prior, o, features).Some?
    ensures var l := Called(u.config, u.strategy, prior, o, features).value;
      forall i | 0 <= i < |l.transitions| :: l.transitions[i].time == o.decisionTime
  {
  }

  lemma AppliedDates(s: Strategy, r: ReplayResult, o: Opportunity, l: LifecycleResult, p: int -> bool)
    requires Applied(s, r, o, l).Some? && p(o.decisionTime)
    requires forall i | 0 <= i < |l.transitions| :: l.transitions[i].time == o.decisionTime
    ensures Dated(r, Applied(s, r, o, l).value, p)
  {
  }

  /** All that one opportunity records is dated at its decision time. */
  lemma StepDates(u: Setup, r: ReplayResult, o: Opportunity, p: int -> bool)
    requires Stepped(u, r, o).Some? && p(o.decisionTime)
    ensures Dated(r, Stepped(u, r, o).value, p)
  {
    var prior := Lookup(r.states, o.symbol);
    if prior.None? || !HasMinuteGap(o.candles) {
      var features := Lookup(u.overrides, o.symbol);
      CallDates(u, prior, o, features);
      AppliedDates(u.strategy, r, o, Called(u.config, u.strategy, prior, o, features).value, p);
    }
  }

  lemma {:induction false} FoldDates(u: Setup, start: ReplayResult, ordered: seq<Opportunity>, p: int -> bool)
    requires Folded(u, start, ordered).Some?
    requires forall i | 0 <= i < |ordered| :: p(ordered[i].decisionTime)
    ensures Dated(start, Folded(u, start, ordered).value, p)
    decreases |ordered|
  {
    if ordered != [] {
      var init, last := ordered[..|ordered| - 1], ordered[|ordered| - 1];
      FoldDates(u, start, init, p);
      StepDates(u, Folded(u, start, init).value, last, p);
    }
  }

  // ---------------------------------------------------------------- the cutoff

  /** In sorted order, the opportunities up to the cutoff come first. */
  lemma CutoffIsPrefix(q: seq<Opportunity>, cutoff: int) returns (k: nat)
    requires Ordered(q, KeyLe)
    ensures k <= |q| && Filter(q, Keep(Some(cutoff))) == q[..k]
    ensures forall i | 0 <= i < k :: q[i].decisionTime <= cutoff
    ensures forall i | k <= i < |q| :: q[i].decisionTime > cutoff
  {
    k := 0;
    while k < |q| && q[k].decisionTime <= cutoff
      invariant k <= |q|
      invariant forall i | 0 <= i < k :: q[i].decisionTime <= cutoff
    {
      k := k + 1;
    }
    forall i | k <= i < |q| ensures q[i].decisionTime > cutoff {
      assert k < i ==> KeyLe(q[k], q[i]);
    }
    PrefixIsKept(q, k, cutoff);
  }

  lemma PrefixIsKept(q: seq<Opportunity>, k: nat, cutoff: int)
    requires k <= |q|
    requires forall i | 0 <= i < k :: q[i].decisionTime <= cutoff
    requires forall i | k <= i < |q| :: q[i].decisionTime > cutoff
    ensures Filter(q, Keep(Some(cutoff))) == q[..k]
  {
    assert q == q[..k] + q[k..];
    FilterConcat(q[..k], q[k..], Keep(Some(cutoff)));
    FilterAll(q[..k], Keep(Some(cutoff)));
    FilterNone(q[k..], Keep(Some(cutoff)));
  }

  function DatedBy(cutoff: int): TransitionRecord -> bool {
    (t: TransitionRecord) => t.time <= cutoff
  }

  function DecidedBy(cutoff: int): EvaluationArtifact -> bool {
    (e: EvaluationArtifact) => e.decisionTime <= cutoff
  }

  lemma {:induction false} SplitFilter<T(!new)>(whole: seq<T>, part: seq<T>, keep: T -> bool)
    requires part <= whole
    requires forall i | 0 <= i < |part| :: keep(part[i])
    requires forall i | |part| <= i < |whole| :: !keep(whole[i])
    ensures Filter(whole, keep) == part
  {
    assert whole == part + whole[|part|..];
    FilterConcat(part, whole[|part|..], keep);
    FilterAll(part, keep);
    FilterNone(whole[|part|..], keep);
  }

  lemma DatesSplit(r: ReplayResult, full: ReplayResult, cutoff: int)
    requires Dated(Start(map[]), r, t => t <= cutoff) && Dated(r, full, t => t > cutoff)
    ensures r.transitions == Filter(full.transitions, DatedBy(cutoff))
    ensures r.evaluations == Filter(full.evaluations, DecidedBy(cutoff))
  {
    SplitFilter(full.transitions, r.transitions, DatedBy(cutoff));
    SplitFilter(full.evaluations, r.evaluations, DecidedBy(cutoff));
  }

  /** No look-ahead: if the full replay completes, so does the one with a cutoff, and it
      yields exactly the transitions and evaluations dated at or before the cutoff. */
  lemma NoLookAhead(u: Setup, opportunities: seq<Opportunity>, initial: States, cutoff: int)
    requires Replay(u, opportunities, initial, None).Some?
    ensures Replay(u, opportunities, initial, Some(cutoff)).Some?
    ensures var full := Replay(u, opportunities, initial, None).value;
      var cut := Replay(u, opportunities, initial, Some(cutoff)).value;
      && cut.transitions == Filter(full.transitions, DatedBy(cutoff))
      && cut.evaluations == Filter(full.evaluations, DecidedBy(cutoff))
  {
    var q := SortBy(opportunities, KeyLe);
    KeyLeIsTotal();
    SortIsOrdered(opportunities, KeyLe);
    FilterAll(q, Keep(None));
    var k := CutoffIsPrefix(q, cutoff);
    FoldSplits(u, initial, q, k, cutoff);
  }

  lemma FoldSplits(u: Setup, initial: States, q: seq<Opportunity>, k: nat, cutoff: int)
    requires k <= |q| && Folded(u, Start(initial), q).Some?
    requires forall i | 0 <= i < k :: q[i].decisionTime <= cutoff
    requires forall i | k <= i < |q| :: q[i].decisionTime > cutoff
    ensures Folded(u, Start(initial), q[..k]).Some?
    ensures var full := Folded(u, Start(initial), q).value;
      var cut := Folded(u, Start(initial), q[..k]).value;
      && cut.transitions == Filter(full.transitions, DatedBy(cutoff))
      && cut.evaluations == Filter(full.evaluations, DecidedBy(cutoff))
  {
    assert q == q[..k] + q[k..];
    FoldedConcat(u, Start(initial), q[..k], q[k..]);
    FoldDates(u, Start(initial), q[..k], t => t <= cutoff);
    var r := Folded(u, Start(initial), q[..k]).value;
    FoldDates(u, r, q[k..], t => t > cutoff);
    DatesSplit(r, Folded(u, Start(initial), q).value, cutoff);
  }
}
