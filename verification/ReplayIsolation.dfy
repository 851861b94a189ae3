/** Symbols do not interfere in a replay. */
module ReplayIsolation {
  import opened MarketData
  import opened StableSort
  import opened PullbackTracker
  import opened Lifecycle
  import opened BaselineReplay

  function OnlyOf(x: string): Opportunity -> bool {
    (o: Opportunity) => o.symbol == x
  }

  /** A record without the position that depends on the other symbols' records. */
  function Unplaced(t: TransitionRecord): TransitionRecord {
    if t.trigger == SIGNAL_MARKED then t.(sequence := 0) else t
  }

  /** The symbol's records, in order. */
  function Trace(ts: seq<TransitionRecord>, x: string): seq<TransitionRecord> {
    if ts == [] then [] else
      Trace(ts[..|ts| - 1], x) + if ts[|ts| - 1].symbol == x then [Unplaced(ts[|ts| - 1])] else []
  }

  function EvaluationsOf(es: seq<EvaluationArtifact>, x: string): seq<EvaluationArtifact> {
    if es == [] then [] else
      EvaluationsOf(es[..|es| - 1], x) + if es[|es| - 1].symbol == x then [es[|es| - 1]] else []
  }

  function StateOf(states: States, x: string): Option<EventState> {
    if x in states then Some(Unmarked(states[x])) else None
  }

  ghost predicate Keyed(states: States) {
    forall x | x in states :: states[x].symbol == x
  }

  /** The two results agree on the symbol: its state up to the number of its signal, its
      records up to the position of SIGNAL_MARKED, and its evaluations. */
  ghost predicate Agree(r: ReplayResult, solo: ReplayResult, x: string) {
    && StateOf(r.states, x) == StateOf(solo.states, x)
    && Trace(r.transitions, x) == Trace(solo.transitions, x)
    && EvaluationsOf(r.evaluations, x) == EvaluationsOf(solo.evaluations, x)
  }

  // ---------------------------------------------------------------- appending

  lemma {:induction false} TraceConcat(a: seq<TransitionRecord>, b: seq<TransitionRecord>, x: string)
    ensures Trace(a + b, x) == Trace(a, x) + Trace(b, x)
    decreases |b|
  {
    if b == [] {
      assert a + b == a;
    } else {
      assert (a + b)[..|a + b| - 1] == a + b[..|b| - 1];
      TraceConcat(a, b[..|b| - 1], x);
    }
  }

  lemma TraceNext(ts: seq<TransitionRecord>, t: TransitionRecord, x: string)
    ensures Trace(ts + [t], x) == Trace(ts, x) + if t.symbol == x then [Unplaced(t)] else []
  {
    assert (ts + [t])[..|ts|] == ts;
  }

  lemma EvaluationsNext(es: seq<EvaluationArtifact>, e: EvaluationArtifact, x: string)
    ensures EvaluationsOf(es + [e], x) == EvaluationsOf(es, x) + if e.symbol == x then [e] else []
  {
    assert (es + [e])[..|es|] == es;
  }

  lemma {:induction false} OthersLeaveNoTrace(ts: seq<TransitionRecord>, x: string)
    requires forall i | 0 <= i < |ts| :: ts[i].symbol != x
    ensures Trace(ts, x) == []
  {
    if ts != [] {
      OthersLeaveNoTrace(ts[..|ts| - 1], x);
    }
  }

  // ---------------------------------------------------------------- whose records

  /** What a call returns is of its opportunity's symbol. */
  ghost predicate Owned(l: LifecycleResult, x: string) {
    && (l.state.Some? ==> l.state.value.symbol == x)
    && forall i | 0 <= i < |l.transitions| :: l.transitions[i].symbol == x
  }

  lemma CallOwned(u: Setup, prior: Option<EventState>, o: Opportunity, features: Option<Features>)
    requires prior.Some? ==> prior.value.symbol == o.symbol
    requires Called(u.config, u.strategy, prior, o, features).Some?
    ensures Owned(Called(u.config, u.strategy, prior, o, features).value, o.symbol)
  {
    if Tracked(prior) {
      CoreOwned(u.config, u.strategy, prior.value, MomentOf(u.strategy, prior.value, o, features));
    }
  }

  lemma CoreOwned(c: Config, s: Strategy, e: EventState, m: Moment)
    requires Core(c, s, e, m).Some?
    ensures Owned(Core(c, s, e, m).value, e.symbol)
  {
    if !CanReset(e, m.current) {
      var w := Advanced(c, e, m.current, m.now);
      assert w.symbol == e.symbol;
      var zone := s.zone(Unmarked(w), m.current);
      if zone.Some? {
        ZonedOwned(w, zone.value, FinalFeatures(s, m, w, zone.value), m.now, AdvanceRecords(e, w, m.current, m.now), m.availability);
      }
    }
  }

  lemma ZonedOwned(w: EventState, zone: Zone, final: Features, now: int, records: seq<TransitionRecord>, availability: Option<int>)
    requires forall i | 0 <= i < |records| :: records[i].symbol == w.symbol
    ensures Owned(Zoned(w, zone, final, now, records, availability), w.symbol)
  {
  }

  lemma RecordedOther(r: ReplayResult, o: Opportunity, l: LifecycleResult, x: string)
    requires Owned(l, o.symbol) && Keyed(r.states) && x != o.symbol
    ensures Keyed(Recorded(r, o, l).states) && Agree(r, Recorded(r, o, l), x)
  {
    TraceConcat(r.transitions, l.transitions, x);
    OthersLeaveNoTrace(l.transitions, x);
  }

  lemma EvaluatedOther(s: Strategy, r: ReplayResult, o: Opportunity, e: EventState, item: StrategyInput, availability: int, x: string)
    requires Keyed(r.states) && e.symbol == o.symbol && x != o.symbol
    ensures Keyed(Evaluated(s, r, o, e, item, availability).states)
    ensures Agree(r, Evaluated(s, r, o, e, item, availability), x)
  {
    var now := o.decisionTime;
    EvaluationsNext(r.evaluations, ArtifactOf(o, e, item, availability, s.evaluate(item)), x);
    TraceNext(r.transitions, MarkRecord(Marked(e, |r.evaluations| + 1, now), item, now, |r.transitions|), x);
  }

  lemma AppliedOther(s: Strategy, r: ReplayResult, o: Opportunity, l: LifecycleResult, x: string)
    requires Owned(l, o.symbol) && Keyed(r.states) && x != o.symbol && Applied(s, r, o, l).Some?
    ensures Keyed(Applied(s, r, o, l).value.states) && Agree(r, Applied(s, r, o, l).value, x)
  {
    RecordedOther(r, o, l, x);
    if l.state.Some? && l.item.Some? {
      EvaluatedOther(s, Recorded(r, o, l), o, l.state.value, l.item.value, Or(l.availability, l.item.value.features.asof), x);
    }
  }

  /** An opportunity changes nothing of the other symbols. */
  lemma OtherStep(u: Setup, r: ReplayResult, o: Opportunity, x: string)
    requires Keyed(r.states) && x != o.symbol && Stepped(u, r, o).Some?
    ensures Keyed(Stepped(u, r, o).value.states) && Agree(r, Stepped(u, r, o).value, x)
  {
    var prior := Lookup(r.states, o.symbol);
    if prior.None? || !HasMinuteGap(o.candles) {
      var features := Lookup(u.overrides, o.symbol);
      CallOwned(u, prior, o, features);
      AppliedOther(u.strategy, r, o, Called(u.config, u.strategy, prior, o, features).value, x);
    }
  }

  // ---------------------------------------------------------------- the symbol's own opportunities

  lemma RecordedAlike(r: ReplayResult, solo: ReplayResult, o: Opportunity, l: LifecycleResult, l2: LifecycleResult)
    requires Keyed(r.states) && Keyed(solo.states) && Agree(r, solo, o.symbol)
    requires Owned(l, o.symbol) && Owned(l2, o.symbol) && Alike(l, l2)
    ensures Keyed(Recorded(r, o, l).states) && Keyed(Recorded(solo, o, l2).states)
    ensures Agree(Recorded(r, o, l), Recorded(solo, o, l2), o.symbol)
  {
    TraceConcat(r.transitions, l.transitions, o.symbol);
    TraceConcat(solo.transitions, l.transitions, o.symbol);
  }

  lemma EvaluatedAlike(s: Strategy, r: ReplayResult, solo: ReplayResult, o: Opportunity, e: EventState, e2: EventState,
                       item: StrategyInput, availability: int)
    requires Keyed(r.states) && Keyed(solo.states) && Agree(r, solo, o.symbol)
    requires Unmarked(e) == Unmarked(e2) && e.symbol == o.symbol
    ensures Keyed(Evaluated(s, r, o, e, item, availability).states)
    ensures Keyed(Evaluated(s, solo, o, e2, item, availability).states)
    ensures Agree(Evaluated(s, r, o, e, item, availability), Evaluated(s, solo, o, e2, item, availability), o.symbol)
  {
    var artifact := ArtifactOf(o, e, item, availability, s.evaluate(item));
    EvaluationsNext(r.evaluations, artifact, o.symbol);
    EvaluationsNext(solo.evaluations, artifact, o.symbol);
    MarkedAlike(r.transitions, solo.transitions, o.symbol, e, e2, |r.evaluations| + 1, |solo.evaluations| + 1, item, o.decisionTime);
  }

  /** The two marks differ in their numbers and places only. */
  lemma MarkedAlike(ts: seq<TransitionRecord>, solo: seq<TransitionRecord>, x: string, e: EventState, e2: EventState,
                    id: nat, id2: nat, item: StrategyInput, now: int)
    requires Trace(ts, x) == Trace(solo, x) && Unmarked(e) == Unmarked(e2)
    ensures Trace(ts + [MarkRecord(Marked(e, id, now), item, now, |ts|)], x)
      == Trace(solo + [MarkRecord(Marked(e2, id2, now), item, now, |solo|)], x)
    ensures Unmarked(Marked(e, id, now)) == Unmarked(Marked(e2, id2, now))
  {
    TraceNext(ts, MarkRecord(Marked(e, id, now), item, now, |ts|), x);
    TraceNext(solo, MarkRecord(Marked(e2, id2, now), item, now, |solo|), x);
  }

  lemma AppliedAlike(s: Strategy, r: ReplayResult, solo: ReplayResult, o: Opportunity, l: LifecycleResult, l2: LifecycleResult)
    requires Keyed(r.states) && Keyed(solo.states) && Agree(r, solo, o.symbol)
    requires Owned(l, o.symbol) && Owned(l2, o.symbol) && Alike(l, l2)
    requires Applied(s, r, o, l).Some?
    ensures Applied(s, solo, o, l2).Some?
    ensures Keyed(Applied(s, r, o, l).value.states) && Keyed(Applied(s, solo, o, l2).value.states)
    ensures Agree(Applied(s, r, o, l).value, Applied(s, solo, o, l2).value, o.symbol)
  {
    RecordedAlike(r, solo, o, l, l2);
    if l.state.Some? && l.item.Some? {
      EvaluatedAlike(s, Recorded(r, o, l), Recorded(solo, o, l2), o, l.state.value, l2.state.value, l.item.value,
        Or(l.availability, l.item.value.features.asof));
    }
  }

  lemma CallAlike(u: Setup, a: Option<EventState>, b: Option<EventState>, o: Opportunity, features: Option<Features>)
    requires (a.Some? <==> b.Some?) && (a.Some? ==> Unmarked(a.value) == Unmarked(b.value))
    requires Called(u.config, u.strategy, a, o, features).Some?
    ensures Called(u.config, u.strategy, b, o, features).Some?
    ensures Alike(Called(u.config, u.strategy, a, o, features).value, Called(u.config, u.strategy, b, o, features).value)
  {
    if Tracked(a) {
      assert MomentOf(u.strategy, a.value, o, features) == MomentOf(u.strategy, b.value, o, features);
      CoreIsBlind(u.config, u.strategy, a.value, b.value, MomentOf(u.strategy, a.value, o, features));
    }
  }

  lemma OwnStep(u: Setup, r: ReplayResult, solo: ReplayResult, o: Opportunity)
    requires Keyed(r.states) && Keyed(solo.states) && Agree(r, solo, o.symbol) && Stepped(u, r, o).Some?
    ensures Stepped(u, solo, o).Some?
    ensures Keyed(Stepped(u, r, o).value.states) && Keyed(Stepped(u, solo, o).value.states)
    ensures Agree(Stepped(u, r, o).value, Stepped(u, solo, o).value, o.symbol)
  {
    var a, b := Lookup(r.states, o.symbol), Lookup(solo.states, o.symbol);
    assert StateOf(r.states, o.symbol) == StateOf(solo.states, o.symbol);
    if a.None? || !HasMinuteGap(o.candles) {
      var features := Lookup(u.overrides, o.symbol);
      CallAlike(u, a, b, o, features);
      CallOwned(u, a, o, features);
      CallOwned(u, b, o, features);
      AppliedAlike(u.strategy, r, solo, o, Called(u.config, u.strategy, a, o, features).value,
        Called(u.config, u.strategy, b, o, features).value);
    }
  }

  // ---------------------------------------------------------------- whole replays

  lemma AgreeTransitive(a: ReplayResult, b: ReplayResult, c: ReplayResult, x: string)
    requires Agree(a, b, x) && Agree(a, c, x)
    ensures Agree(c, b, x)
  {
  }

  lemma {:induction false} FoldIsIsolated(u: Setup, initial: States, ordered: seq<Opportunity>, x: string)
    requires Keyed(initial) && Folded(u, Start(initial), ordered).Some?
    ensures Folded(u, Start(initial), Filter(ordered, OnlyOf(x))).Some?
    ensures Keyed(Folded(u, Start(initial), ordered).value.states)
    ensures Keyed(Folded(u, Start(initial), Filter(ordered, OnlyOf(x))).value.states)
    ensures Agree(Folded(u, Start(initial), ordered).value, Folded(u, Start(initial), Filter(ordered, OnlyOf(x))).value, x)
    decreases |ordered|
  {
    if ordered != [] {
      var init, last := ordered[..|ordered| - 1], ordered[|ordered| - 1];
      FoldIsIsolated(u, initial, init, x);
      var r := Folded(u, Start(initial), init).value;
      var own := Filter(init, OnlyOf(x));
      var solo := Folded(u, Start(initial), own).value;
      if last.symbol == x {
        FoldedNext(u, Start(initial), own, last);
        OwnStep(u, r, solo, last);
      } else {
        OtherStep(u, r, last, x);
        AgreeTransitive(r, solo, Stepped(u, r, last).value, x);
      }
    }
  }

  /** Non-interference: replaying only a symbol's opportunities completes when the mixed
      replay does, and gives the symbol the same state, records and evaluations. */
  lemma ReplayIsIsolated(u: Setup, opportunities: seq<Opportunity>, initial: States, cutoff: Option<int>, x: string)
    requires Keyed(initial) && Replay(u, opportunities, initial, cutoff).Some?
    ensures Replay(u, Filter(opportunities, OnlyOf(x)), initial, cutoff).Some?
    ensures Agree(Replay(u, opportunities, initial, cutoff).value,
      Replay(u, Filter(opportunities, OnlyOf(x)), initial, cutoff).value, x)
  {
    KeyLeIsTotal();
    SortFilters(opportunities, KeyLe, OnlyOf(x));
    var q := SortBy(opportunities, KeyLe);
    FiltersCommute(q, OnlyOf(x), Keep(cutoff));
    FoldIsIsolated(u, initial, Filter(q, Keep(cutoff)), x);
  }

  // ---------------------------------------------------------------- nothing else in a solo replay

  ghost predicate AllOf(r: ReplayResult, x: string) {
    && (forall i | 0 <= i < |r.transitions| :: r.transitions[i].symbol == x)
    && (forall i | 0 <= i < |r.evaluations| :: r.evaluations[i].symbol == x)
  }

  lemma AppliedAllOf(s: Strategy, r: ReplayResult, o: Opportunity, l: LifecycleResult)
    requires Owned(l, o.symbol) && Keyed(r.states) && AllOf(r, o.symbol) && Applied(s, r, o, l).Some?
    ensures AllOf(Applied(s, r, o, l).value, o.symbol) && Keyed(Applied(s, r, o, l).value.states)
  {
  }

  lemma {:induction false} FoldAllOf(u: Setup, initial: States, ordered: seq<Opportunity>, x: string)
    requires Keyed(initial) && Folded(u, Start(initial), ordered).Some?
    requires forall i | 0 <= i < |ordered| :: ordered[i].symbol == x
    ensures AllOf(Folded(u, Start(initial), ordered).value, x) && Keyed(Folded(u, Start(initial), ordered).value.states)
    decreases |ordered|
  {
    if ordered != [] {
      var init, o := ordered[..|ordered| - 1], ordered[|ordered| - 1];
      FoldAllOf(u, initial, init, x);
      var r := Folded(u, Start(initial), init).value;
      var prior := Lookup(r.states, o.symbol);
      if prior.None? || !HasMinuteGap(o.candles) {
        var features := Lookup(u.overrides, o.symbol);
        CallOwned(u, prior, o, features);
        AppliedAllOf(u.strategy, r, o, Called(u.config, u.strategy, prior, o, features).value);
      }
    }
  }

  /** A solo replay records and evaluates its own symbol only. */
  lemma SoloReplayIsOwn(u: Setup, opportunities: seq<Opportunity>, initial: States, cutoff: Option<int>, x: string)
    requires Keyed(initial) && Replay(u, Filter(opportunities, OnlyOf(x)), initial, cutoff).Some?
    ensures AllOf(Replay(u, Filter(opportunities, OnlyOf(x)), initial, cutoff).value, x)
  {
    var own := Filter(opportunities, OnlyOf(x));
    var q := SortBy(own, KeyLe);
    var kept := Filter(q, Keep(cutoff));
    forall i | 0 <= i < |kept| ensures kept[i].symbol == x {
      assert kept[i] in kept;
      SameElements(q, own, kept[i]);
    }
    FoldAllOf(u, initial, kept, x);
  }
}
