/** What every replay keeps of an event, from its creation to its replacement. */
module ReplaySafety {
  import opened MarketData
  import opened StableSort
  import opened PullbackTracker
  import opened Lifecycle
  import opened BaselineReplay

  ghost predicate StatesInv(states: States) {
    forall x | x in states :: states[x].symbol == x && WellFormed(states[x])
  }

  ghost predicate IsOf(t: TransitionRecord, x: string, trigger: string) {
    t.symbol == x && t.trigger == trigger
  }

  function Creations(ts: seq<TransitionRecord>, x: string): nat {
    if ts == [] then 0 else
      Creations(ts[..|ts| - 1], x)
      + if ts[|ts| - 1].symbol == x && ts[|ts| - 1].trigger == EVENT_CREATED then 1 else 0
  }

  /** The symbol's SIGNAL_MARKED records after its last EVENT_CREATED. */
  function MarksSinceCreation(ts: seq<TransitionRecord>, x: string): nat {
    if ts == [] then 0 else
      var last := ts[|ts| - 1];
      var before := MarksSinceCreation(ts[..|ts| - 1], x);
      if last.symbol != x then before
      else if last.trigger == EVENT_CREATED then 0
      else if last.trigger == SIGNAL_MARKED then before + 1
      else before
  }

  /** At most one mark since the creation, and a mark means a signal in the state. */
  ghost predicate MarkedOnce(r: ReplayResult, x: string) {
    && MarksSinceCreation(r.transitions, x) <= 1
    && (MarksSinceCreation(r.transitions, x) == 1 ==> x in r.states && r.states[x].signalId.Some?)
  }

  // ---------------------------------------------------------------- one opportunity

  lemma OneMoreRecord(ts: seq<TransitionRecord>, t: TransitionRecord, x: string)
    ensures Creations(ts + [t], x) == Creations(ts, x) + if t.symbol == x && t.trigger == EVENT_CREATED then 1 else 0
    ensures MarksSinceCreation(ts + [t], x) ==
      if t.symbol != x then MarksSinceCreation(ts, x)
      else if t.trigger == EVENT_CREATED then 0
      else if t.trigger == SIGNAL_MARKED then MarksSinceCreation(ts, x) + 1
      else MarksSinceCreation(ts, x)
  {
    assert (ts + [t])[..|ts|] == ts;
  }

  lemma {:induction false} PlainRecordsCountNothing(ts: seq<TransitionRecord>, more: seq<TransitionRecord>, e: EventState, now: int, x: string)
    requires PlainRecords(more, e, now)
    ensures Creations(ts + more, x) == Creations(ts, x)
    ensures MarksSinceCreation(ts + more, x) == MarksSinceCreation(ts, x)
    decreases |more|
  {
    if more == [] {
      assert ts + more == ts;
    } else {
      var init, last := more[..|more| - 1], more[|more| - 1];
      PlainRecordsCountNothing(ts, init, e, now, x);
      assert ts + more == (ts + init) + [last];
      OneMoreRecord(ts + init, last, x);
    }
  }

  /** The three things an opportunity can do to its own symbol. */
  datatype Effect = Nothing | Created(e: EventState) | Moved(e: EventState, marked: bool)

  ghost predicate Has(r: ReplayResult, r2: ReplayResult, o: Opportunity, effect: Effect) {
    match effect
    case Nothing => r2.states == r.states && r2.transitions == r.transitions
    case Created(e) =>
      && (o.symbol in r.states ==> r.states[o.symbol].status in {IDLE, EXPIRED})
      && e.symbol == o.symbol && WellFormed(e)
      && r2.states == r.states[o.symbol := e]
      && |r2.transitions| == |r.transitions| + 1 && r2.transitions[..|r.transitions|] == r.transitions
      && IsOf(r2.transitions[|r.transitions|], o.symbol, EVENT_CREATED)
      && r2.transitions[|r.transitions|].time == o.decisionTime
    case Moved(e, marked) =>
      && o.symbol in r.states && r.states[o.symbol].status !in {IDLE, EXPIRED}
      && WellFormed(e) && Progress(r.states[o.symbol], e)
      && r2.states == r.states[o.symbol := e]
      && (if marked then r.states[o.symbol].signalId.None? && e.signalId.Some? else e.signalId == r.states[o.symbol].signalId)
      && (SignalIsOld(r.states[o.symbol], o.decisionTime) ==> e.status == EXPIRED)
      && exists plain | PlainRecords(plain, e, o.decisionTime) ::
           if marked then
             exists mark | IsOf(mark, o.symbol, SIGNAL_MARKED) && mark.time == o.decisionTime ::
               r2.transitions == r.transitions + plain + [mark]
           else r2.transitions == r.transitions + plain
  }

  lemma DetectedEffect(u: Setup, r: ReplayResult, o: Opportunity, r2: ReplayResult) returns (effect: Effect)
    requires StatesInv(r.states) && Stepped(u, r, o) == Some(r2)
    requires !Tracked(Lookup(r.states, o.symbol))
    ensures Has(r, r2, o, effect)
  {
    var prior := Lookup(r.states, o.symbol);
    if prior.Some? && HasMinuteGap(o.candles) {
      return Nothing;
    }
    var l := Detected(u.config, u.strategy, o, Lookup(u.overrides, o.symbol));
    if l.state.None? {
      return Nothing;
    }
    return Created(l.state.value);
  }

  lemma SignalIsFirst(s: Strategy, e: EventState, item: StrategyInput)
    requires DecidesInSetupOnly(s) && WellFormed(e) && item.state == Unmarked(e)
    requires s.evaluate(item).Actionable()
    ensures e.signalId.None? && e.status in {PULLBACK_OBSERVED, SHORT_ZONE_ACTIVE}
  {
  }

  lemma MarkProgresses(e: EventState, id: nat, now: int)
    requires WellFormed(e) && e.signalId.None? && e.status in {PULLBACK_OBSERVED, SHORT_ZONE_ACTIVE}
    ensures WellFormed(Marked(e, id, now)) && Progress(e, Marked(e, id, now))
  {
  }

  lemma MovedEffect(u: Setup, r: ReplayResult, o: Opportunity, r2: ReplayResult, l: LifecycleResult) returns (effect: Effect)
    requires StatesInv(r.states) && DecidesInSetupOnly(u.strategy)
    requires Tracked(Lookup(r.states, o.symbol))
    requires l.state.Some? && WellFormed(l.state.value) && Progress(r.states[o.symbol], l.state.value)
    requires l.state.value.signalId == r.states[o.symbol].signalId
    requires PlainRecords(l.transitions, l.state.value, o.decisionTime)
    requires SignalIsOld(r.states[o.symbol], o.decisionTime) ==> l.state.value.status == EXPIRED
    requires l.item.Some? ==> l.item.value.state == Unmarked(l.state.value)
    requires Applied(u.strategy, r, o, l) == Some(r2)
    ensures Has(r, r2, o, effect) && effect.Moved?
  {
    var e := l.state.value;
    if l.item.Some? && u.strategy.evaluate(l.item.value).Actionable() {
      SignalIsFirst(u.strategy, e, l.item.value);
      var marked := Marked(e, |r.evaluations| + 1, o.decisionTime);
      MarkProgresses(e, |r.evaluations| + 1, o.decisionTime);
      ProgressTransitive(r.states[o.symbol], e, marked);
      effect := Moved(marked, true);
      var mark := MarkRecord(marked, l.item.value, o.decisionTime, |r.transitions + l.transitions|);
      assert IsOf(mark, o.symbol, SIGNAL_MARKED) && mark.time == o.decisionTime;
      assert r2.transitions == r.transitions + l.transitions + [mark];
      assert PlainRecords(l.transitions, marked, o.decisionTime);
      assert r2.states == r.states[o.symbol := marked];
    } else {
      effect := Moved(e, false);
      assert r2.transitions == r.transitions + l.transitions;
    }
  }

  lemma EffectOf(u: Setup, r: ReplayResult, o: Opportunity, r2: ReplayResult) returns (effect: Effect)
    requires StatesInv(r.states) && DecidesInSetupOnly(u.strategy) && Stepped(u, r, o) == Some(r2)
    ensures Has(r, r2, o, effect)
    ensures effect.Created? ==> !Tracked(Lookup(r.states, o.symbol))
    ensures effect.Nothing? ==> !Tracked(Lookup(r.states, o.symbol)) || HasMinuteGap(o.candles)
  {
    var prior := Lookup(r.states, o.symbol);
    if !Tracked(prior) {
      effect := DetectedEffect(u, r, o, r2);
    } else if HasMinuteGap(o.candles) {
      effect := Nothing;
    } else {
      var m := MomentOf(u.strategy, prior.value, o, Lookup(u.overrides, o.symbol));
      CoreProgresses(u.config, u.strategy, prior.value, m);
      effect := MovedEffect(u, r, o, r2, Core(u.config, u.strategy, prior.value, m).value);
    }
  }

  lemma EffectKeepsStates(r: ReplayResult, o: Opportunity, r2: ReplayResult, effect: Effect)
    requires StatesInv(r.states) && Has(r, r2, o, effect)
    ensures StatesInv(r2.states)
    ensures forall x | x != o.symbol :: Lookup(r2.states, x) == Lookup(r.states, x)
  {
  }

  /** Counting what one opportunity adds. */
  lemma EffectCounts(r: ReplayResult, o: Opportunity, r2: ReplayResult, effect: Effect, x: string)
    requires Has(r, r2, o, effect)
    ensures effect.Nothing? || x != o.symbol ==>
      && Creations(r2.transitions, x) == Creations(r.transitions, x)
      && MarksSinceCreation(r2.transitions, x) == MarksSinceCreation(r.transitions, x)
    ensures effect.Created? && x == o.symbol ==>
      && Creations(r2.transitions, x) == Creations(r.transitions, x) + 1
      && MarksSinceCreation(r2.transitions, x) == 0
    ensures effect.Moved? && x == o.symbol ==>
      && Creations(r2.transitions, x) == Creations(r.transitions, x)
      && MarksSinceCreation(r2.transitions, x) == MarksSinceCreation(r.transitions, x) + if effect.marked then 1 else 0
  {
    match effect
    case Nothing =>
    case Created(e) =>
      assert r2.transitions == r.transitions + [r2.transitions[|r.transitions|]];
      OneMoreRecord(r.transitions, r2.transitions[|r.transitions|], x);
    case Moved(e, marked) =>
      if marked {
        var plain, mark :| PlainRecords(plain, e, o.decisionTime) && IsOf(mark, o.symbol, SIGNAL_MARKED)
          && r2.transitions == r.transitions + plain + [mark];
        PlainRecordsCountNothing(r.transitions, plain, e, o.decisionTime, x);
        OneMoreRecord(r.transitions + plain, mark, x);
      } else {
        var plain :| PlainRecords(plain, e, o.decisionTime) && r2.transitions == r.transitions + plain;
        PlainRecordsCountNothing(r.transitions, plain, e, o.decisionTime, x);
      }
  }

  lemma StepMarksOnce(r: ReplayResult, o: Opportunity, r2: ReplayResult, effect: Effect, x: string)
    requires StatesInv(r.states) && Has(r, r2, o, effect) && MarkedOnce(r, x)
    ensures MarkedOnce(r2, x)
  {
    EffectCounts(r, o, r2, effect, x);
  }

  // ---------------------------------------------------------------- whole replays

  lemma {:induction false} FoldedKeepsStates(u: Setup, start: ReplayResult, ordered: seq<Opportunity>)
    requires StatesInv(start.states) && DecidesInSetupOnly(u.strategy) && Folded(u, start, ordered).Some?
    ensures StatesInv(Folded(u, start, ordered).value.states)
  {
    if ordered != [] {
      var init, last := ordered[..|ordered| - 1], ordered[|ordered| - 1];
      FoldedKeepsStates(u, start, init);
      var r, r2 := Folded(u, start, init).value, Folded(u, start, ordered).value;
      var effect := EffectOf(u, r, last, r2);
      EffectKeepsStates(r, last, r2, effect);
    }
  }

  /** At every point of every replay, at most one signal was marked since the symbol's
      last event was created; so there is at most one between two creations. */
  lemma {:induction false} AtMostOneSignal(u: Setup, initial: States, ordered: seq<Opportunity>, x: string)
    requires StatesInv(initial) && DecidesInSetupOnly(u.strategy) && Folded(u, Start(initial), ordered).Some?
    ensures MarkedOnce(Folded(u, Start(initial), ordered).value, x)
  {
    if ordered != [] {
      var init, last := ordered[..|ordered| - 1], ordered[|ordered| - 1];
      AtMostOneSignal(u, initial, init, x);
      FoldedKeepsStates(u, Start(initial), init);
      var r, r2 := Folded(u, Start(initial), init).value, Folded(u, Start(initial), ordered).value;
      var effect := EffectOf(u, r, last, r2);
      StepMarksOnce(r, last, r2, effect, x);
    }
  }

  lemma StepProgresses(r: ReplayResult, o: Opportunity, r2: ReplayResult, effect: Effect, x: string)
    requires Has(r, r2, o, effect) && x in r.states
    ensures x in r2.states
    ensures Creations(r2.transitions, x) >= Creations(r.transitions, x)
    ensures Creations(r2.transitions, x) == Creations(r.transitions, x) ==> Progress(r.states[x], r2.states[x])
  {
    EffectCounts(r, o, r2, effect, x);
  }

  lemma FoldedProgresses(u: Setup, start: ReplayResult, ordered: seq<Opportunity>, x: string)
    requires StatesInv(start.states) && DecidesInSetupOnly(u.strategy) && x in start.states
    requires Folded(u, start, ordered).Some?
    ensures var r := Folded(u, start, ordered).value;
      && x in r.states
      && Creations(r.transitions, x) >= Creations(start.transitions, x)
      && (Creations(r.transitions, x) == Creations(start.transitions, x) ==> Progress(start.states[x], r.states[x]))
    decreases |ordered|
  {
    if ordered != [] {
      var init, last := ordered[..|ordered| - 1], ordered[|ordered| - 1];
      FoldedProgresses(u, start, init, x);
      FoldedKeepsStates(u, start, init);
      var r, r2 := Folded(u, start, init).value, Folded(u, start, ordered).value;
      var effect := EffectOf(u, r, last, r2);
      StepProgresses(r, last, r2, effect, x);
      if Creations(r2.transitions, x) == Creations(start.transitions, x) {
        ProgressTransitive(start.states[x], r.states[x], r2.states[x]);
      }
    }
  }

  lemma {:induction false} FoldedConcat(u: Setup, start: ReplayResult, a: seq<Opportunity>, b: seq<Opportunity>)
    ensures Folded(u, start, a + b) ==
      if Folded(u, start, a).None? then None else Folded(u, Folded(u, start, a).value, b)
    decreases |b|
  {
    if b == [] {
      assert a + b == a;
    } else {
      var init, last := b[..|b| - 1], b[|b| - 1];
      FoldedConcat(u, start, a, init);
      assert a + b == (a + init) + [last];
      FoldedNext(u, start, a + init, last);
    }
  }

  /** Between two creations of a symbol's events nothing but progress happens: the base
      is fixed, the high never falls, and once a signal is marked it and the high are
      frozen and the only change of status is to EXPIRED, which is final. */
  lemma EventsOnlyProgress(u: Setup, initial: States, earlier: seq<Opportunity>, later: seq<Opportunity>, x: string)
    requires StatesInv(initial) && DecidesInSetupOnly(u.strategy)
    requires Folded(u, Start(initial), earlier + later).Some?
    ensures Folded(u, Start(initial), earlier).Some?
    ensures var before := Folded(u, Start(initial), earlier).value;
      var after := Folded(u, Start(initial), earlier + later).value;
      x in before.states ==>
        && x in after.states
        && (Creations(after.transitions, x) == Creations(before.transitions, x) ==> Progress(before.states[x], after.states[x]))
  {
    FoldedConcat(u, Start(initial), earlier, later);
    FoldedKeepsStates(u, Start(initial), earlier);
    var before := Folded(u, Start(initial), earlier).value;
    if x in before.states {
      FoldedProgresses(u, before, later, x);
    }
  }

  /** A sent signal is expired by the first opportunity of its symbol, without a minute
      gap, that comes 15 minutes on or later; and it stays expired. */
  lemma OldSignalsExpire(u: Setup, initial: States, earlier: seq<Opportunity>, o: Opportunity, later: seq<Opportunity>)
    requires StatesInv(initial) && DecidesInSetupOnly(u.strategy)
    requires Folded(u, Start(initial), earlier + [o] + later).Some?
    requires Folded(u, Start(initial), earlier).Some?
    requires var before := Folded(u, Start(initial), earlier).value;
      && o.symbol in before.states && before.states[o.symbol].status == SIGNAL_SENT
      && SignalIsOld(before.states[o.symbol], o.decisionTime)
    requires !HasMinuteGap(o.candles)
    ensures var before := Folded(u, Start(initial), earlier).value;
      var after := Folded(u, Start(initial), earlier + [o] + later).value;
      && o.symbol in after.states
      && (Creations(after.transitions, o.symbol) == Creations(before.transitions, o.symbol) ==>
            after.states[o.symbol].status == EXPIRED)
  {
    var start := Start(initial);
    FoldedKeepsStates(u, start, earlier);
    FoldedConcat(u, start, earlier + [o], later);
    FoldedNext(u, start, earlier, o);
    var before := Folded(u, start, earlier).value;
    var r := Folded(u, start, earlier + [o]).value;
    var effect := EffectOf(u, before, o, r);
    assert effect.Moved?;
    EffectKeepsStates(before, o, r, effect);
    EffectCounts(before, o, r, effect, o.symbol);
    FoldedProgresses(u, r, later, o.symbol);
  }

  // ---------------------------------------------------------------- signals

  /** Which event of which symbol got a signal, and when. */
  datatype Signal = Signal(symbol: string, eventId: string, time: int)

  /** The signals recorded as marked, in order. */
  function MarksOf(ts: seq<TransitionRecord>): seq<Signal> {
    if ts == [] then [] else
      var last := ts[|ts| - 1];
      MarksOf(ts[..|ts| - 1]) + if last.trigger == SIGNAL_MARKED then [Signal(last.symbol, last.eventId, last.time)] else []
  }

  /** The signals of the actionable evaluations, in order. */
  function ActionableOf(evaluations: seq<EvaluationArtifact>): seq<Signal> {
    if evaluations == [] then [] else
      var last := evaluations[|evaluations| - 1];
      ActionableOf(evaluations[..|evaluations| - 1])
      + if last.result.Actionable() then [Signal(last.symbol, last.eventId, last.decisionTime)] else []
  }

  lemma {:induction false} PlainRecordsMarkNothing(ts: seq<TransitionRecord>, more: seq<TransitionRecord>)
    requires forall i | 0 <= i < |more| :: more[i].trigger != SIGNAL_MARKED
    ensures MarksOf(ts + more) == MarksOf(ts)
    decreases |more|
  {
    if more == [] {
      assert ts + more == ts;
    } else {
      PlainRecordsMarkNothing(ts, more[..|more| - 1]);
      assert (ts + more)[..|ts + more| - 1] == ts + more[..|more| - 1];
    }
  }

  lemma OneMoreMark(ts: seq<TransitionRecord>, mark: TransitionRecord)
    ensures MarksOf(ts + [mark]) ==
      MarksOf(ts) + if mark.trigger == SIGNAL_MARKED then [Signal(mark.symbol, mark.eventId, mark.time)] else []
  {
    assert (ts + [mark])[..|ts|] == ts;
  }

  lemma OneMoreEvaluation(es: seq<EvaluationArtifact>, e: EvaluationArtifact)
    ensures ActionableOf(es + [e]) ==
      ActionableOf(es) + if e.result.Actionable() then [Signal(e.symbol, e.eventId, e.decisionTime)] else []
  {
    assert (es + [e])[..|es|] == es;
  }

  lemma EvaluatedMarks(s: Strategy, r: ReplayResult, o: Opportunity, e: EventState, item: StrategyInput, availability: int)
    requires MarksOf(r.transitions) == ActionableOf(r.evaluations)
    ensures var r2 := Evaluated(s, r, o, e, item, availability);
      MarksOf(r2.transitions) == ActionableOf(r2.evaluations)
  {
    var marked := Marked(e, |r.evaluations| + 1, o.decisionTime);
    OneMoreEvaluation(r.evaluations, ArtifactOf(o, e, item, availability, s.evaluate(item)));
    OneMoreMark(r.transitions, MarkRecord(marked, item, o.decisionTime, |r.transitions|));
  }

  lemma AppliedMarks(s: Strategy, r: ReplayResult, o: Opportunity, l: LifecycleResult)
    requires forall i | 0 <= i < |l.transitions| :: l.transitions[i].trigger != SIGNAL_MARKED
    requires Applied(s, r, o, l).Some? && MarksOf(r.transitions) == ActionableOf(r.evaluations)
    ensures var r2 := Applied(s, r, o, l).value;
      MarksOf(r2.transitions) == ActionableOf(r2.evaluations)
  {
    PlainRecordsMarkNothing(r.transitions, l.transitions);
    if l.state.Some? && l.item.Some? {
      EvaluatedMarks(s, Recorded(r, o, l), o, l.state.value, l.item.value, Or(l.availability, l.item.value.features.asof));
    }
  }

  lemma StepMarks(u: Setup, r: ReplayResult, o: Opportunity)
    requires StatesInv(r.states) && DecidesInSetupOnly(u.strategy) && Stepped(u, r, o).Some?
    requires MarksOf(r.transitions) == ActionableOf(r.evaluations)
    ensures MarksOf(Stepped(u, r, o).value.transitions) == ActionableOf(Stepped(u, r, o).value.evaluations)
  {
    var prior := Lookup(r.states, o.symbol);
    var features := Lookup(u.overrides, o.symbol);
    if prior.None? || !HasMinuteGap(o.candles) {
      if Tracked(prior) {
        CoreProgresses(u.config, u.strategy, prior.value, MomentOf(u.strategy, prior.value, o, features));
      }
      AppliedMarks(u.strategy, r, o, Called(u.config, u.strategy, prior, o, features).value);
    }
  }

  /** The signals marked in a replay are, in order, those of the actionable evaluations:
      the k-th of each has the same symbol, event and time. */
  lemma {:induction false} MarksMatchActionable(u: Setup, initial: States, ordered: seq<Opportunity>)
    requires StatesInv(initial) && DecidesInSetupOnly(u.strategy) && Folded(u, Start(initial), ordered).Some?
    ensures var r := Folded(u, Start(initial), ordered).value;
      MarksOf(r.transitions) == ActionableOf(r.evaluations)
  {
    if ordered != [] {
      var init, o := ordered[..|ordered| - 1], ordered[|ordered| - 1];
      MarksMatchActionable(u, initial, init);
      FoldedKeepsStates(u, Start(initial), init);
      StepMarks(u, Folded(u, Start(initial), init).value, o);
    }
  }

  // ---------------------------------------------------------------- terminality

  /** The event is still open, has its terminality, or is as it was at the start. */
  ghost predicate Accounted(r: ReplayResult, initial: States, x: string) {
    x in r.states ==>
      || Open(r.states[x].status) || r.states[x].status == IDLE
      || r.states[x].eventId in r.terminality
      || (x in initial && initial[x].eventId == r.states[x].eventId && initial[x].status == r.states[x].status)
  }

  lemma TerminalityGrows(u: Setup, r: ReplayResult, o: Opportunity)
    requires Stepped(u, r, o).Some?
    ensures r.terminality.Keys <= Stepped(u, r, o).value.terminality.Keys
    ensures forall x | x != o.symbol :: Lookup(Stepped(u, r, o).value.states, x) == Lookup(r.states, x)
  {
  }

  lemma AppliedAccounts(s: Strategy, r: ReplayResult, initial: States, o: Opportunity, l: LifecycleResult)
    requires Applied(s, r, o, l).Some? && l.state.Some?
    requires l.state.value.status == SIGNAL_SENT ==>
      && o.symbol in r.states && r.states[o.symbol].eventId == l.state.value.eventId
      && r.states[o.symbol].status == SIGNAL_SENT
    requires Accounted(r, initial, o.symbol)
    ensures Accounted(Applied(s, r, o, l).value, initial, o.symbol)
  {
    var recorded := Recorded(r, o, l);
    assert Accounted(recorded, initial, o.symbol);
  }

  lemma StepAccounts(u: Setup, initial: States, r: ReplayResult, o: Opportunity)
    requires StatesInv(r.states) && DecidesInSetupOnly(u.strategy) && Stepped(u, r, o).Some?
    requires Accounted(r, initial, o.symbol)
    ensures Accounted(Stepped(u, r, o).value, initial, o.symbol)
  {
    var prior := Lookup(r.states, o.symbol);
    var features := Lookup(u.overrides, o.symbol);
    if prior.None? || !HasMinuteGap(o.candles) {
      var l := Called(u.config, u.strategy, prior, o, features).value;
      if Tracked(prior) {
        CoreProgresses(u.config, u.strategy, prior.value, MomentOf(u.strategy, prior.value, o, features));
      }
      if l.state.Some? {
        AppliedAccounts(u.strategy, r, initial, o, l);
      }
    }
  }

  lemma {:induction false} FoldedAccounts(u: Setup, initial: States, ordered: seq<Opportunity>, x: string)
    requires StatesInv(initial) && DecidesInSetupOnly(u.strategy) && Folded(u, Start(initial), ordered).Some?
    ensures Accounted(Folded(u, Start(initial), ordered).value, initial, x)
  {
    if ordered != [] {
      var init, o := ordered[..|ordered| - 1], ordered[|ordered| - 1];
      var r := Folded(u, Start(initial), init).value;
      FoldedAccounts(u, initial, init, x);
      FoldedKeepsStates(u, Start(initial), init);
      TerminalityGrows(u, r, o);
      if x == o.symbol {
        StepAccounts(u, initial, r, o);
      } else {
        OtherAccounted(r, Stepped(u, r, o).value, initial, x);
      }
    }
  }

  lemma OtherAccounted(r: ReplayResult, r2: ReplayResult, initial: States, x: string)
    requires Accounted(r, initial, x) && r.terminality.Keys <= r2.terminality.Keys && Lookup(r2.states, x) == Lookup(r.states, x)
    ensures Accounted(r2, initial, x)
  {
    assert forall id | id in r.terminality :: id in r2.terminality.Keys;
  }

  /** A completed replay says how every event ended: each symbol's event has a
      terminality, unless it is idle, or it was over when the replay began, expired or
      signalled, and still is as it was. */
  lemma EveryEventIsReported(u: Setup, opportunities: seq<Opportunity>, initial: States, cutoff: Option<int>, x: string)
    requires StatesInv(initial) && DecidesInSetupOnly(u.strategy)
    requires Replay(u, opportunities, initial, cutoff).Some?
    requires x in Replay(u, opportunities, initial, cutoff).value.states
    ensures var r := Replay(u, opportunities, initial, cutoff).value;
      || r.states[x].eventId in r.terminality
      || r.states[x].status == IDLE
      || (x in initial && initial[x].eventId == r.states[x].eventId
          && r.states[x].status == initial[x].status && initial[x].status in {EXPIRED, SIGNAL_SENT})
  {
    var ordered := Filter(SortBy(opportunities, KeyLe), Keep(cutoff));
    FoldedAccounts(u, initial, ordered, x);
    ClosedReports(Folded(u, Start(initial), ordered).value, cutoff, x);
  }

  lemma ClosedReports(r: ReplayResult, cutoff: Option<int>, x: string)
    requires x in r.states
    ensures Open(r.states[x].status) ==> r.states[x].eventId in Closed(r, cutoff).terminality
    ensures r.states[x].eventId in r.terminality ==> r.states[x].eventId in Closed(r, cutoff).terminality
  {
  }
}
