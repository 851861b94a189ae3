/** What one opportunity adds to a replay, case by case, and the order they come in. */
module ReplaySteps {
  import opened MarketData
  import opened StableSort
  import opened PullbackTracker
  import opened Lifecycle
  import opened LifecycleSteps
  import opened BaselineReplay
  import SortedStrings

  // ---------------------------------------------------------------- order

  /** Strictly before: earlier; or at the same time with a smaller sequence; or with equal
      time and sequence, a smaller symbol; or with equal symbols too, a smaller trigger. */
  ghost predicate Before(a: Opportunity, b: Opportunity) {
    || a.decisionTime < b.decisionTime
    || (a.decisionTime == b.decisionTime && a.sequence < b.sequence)
    || (a.decisionTime == b.decisionTime && a.sequence == b.sequence
        && a.symbol != b.symbol && SortedStrings.Le(a.symbol, b.symbol))
    || (a.decisionTime == b.decisionTime && a.sequence == b.sequence && a.symbol == b.symbol
        && a.trigger != b.trigger && SortedStrings.Le(a.trigger, b.trigger))
  }

  /** In a replay no opportunity comes after one it is strictly before. */
  lemma OrderMeans(opportunities: seq<Opportunity>, i: nat, j: nat)
    requires i < j < |opportunities|
    ensures !Before(SortBy(opportunities, KeyLe)[j], SortBy(opportunities, KeyLe)[i])
  {
    KeyLeIsTotal();
    SortIsOrdered(opportunities, KeyLe);
    var a, b := SortBy(opportunities, KeyLe)[i], SortBy(opportunities, KeyLe)[j];
    assert KeyLe(a, b);
    if a.symbol != b.symbol && SortedStrings.Le(a.symbol, b.symbol) && SortedStrings.Le(b.symbol, a.symbol) {
      SortedStrings.LeAntisymmetric(a.symbol, b.symbol);
    }
    if a.trigger != b.trigger && SortedStrings.Le(a.trigger, b.trigger) && SortedStrings.Le(b.trigger, a.trigger) {
      SortedStrings.LeAntisymmetric(a.trigger, b.trigger);
    }
  }

  // ---------------------------------------------------------------- one opportunity

  /** An invalid observation raises. A minute gap in the candles of a symbol that has an
      event censors it, and nothing else happens. */
  lemma GapCensors(u: Setup, r: ReplayResult, o: Opportunity)
    ensures !u.strategy.validate(o) ==> Stepped(u, r, o).None?
    ensures u.strategy.validate(o) && o.symbol in r.states && HasMinuteGap(o.candles) ==>
      Stepped(u, r, o) == Some(r.(terminality := r.terminality[r.states[o.symbol].eventId := "DATA_GAP_CENSORED"]))
  {
  }

  /** The call the step makes, where it is made. */
  ghost predicate Calls(u: Setup, r: ReplayResult, o: Opportunity, l: Option<LifecycleResult>) {
    && u.strategy.validate(o) && !(o.symbol in r.states && HasMinuteGap(o.candles))
    && l == Called(u.config, u.strategy, if o.symbol in r.states then Some(r.states[o.symbol]) else None, o,
                   if o.symbol in u.overrides then Some(u.overrides[o.symbol]) else None)
  }

  /** An expired event is reported so. */
  function EndsAfter(terminality: map<string, string>, e: EventState): map<string, string> {
    if e.status == EXPIRED then terminality[e.eventId := "EXPIRED"] else terminality
  }

  /** What the call's records and state do, before any evaluation. */
  ghost predicate TakenOver(r: ReplayResult, o: Opportunity, l: LifecycleResult, r2: ReplayResult) {
    r2 == match l.state
      case None => r.(transitions := r.transitions + l.transitions)
      case Some(e) => r.(transitions := r.transitions + l.transitions, states := r.states[o.symbol := e],
                         terminality := EndsAfter(r.terminality, e))
  }

  /** A call that raises makes the step raise; without an input to evaluate its records and
      state are taken over, and that is all. */
  lemma UnevaluatedStep(u: Setup, r: ReplayResult, o: Opportunity, l: Option<LifecycleResult>)
    requires Calls(u, r, o, l)
    ensures l.None? ==> Stepped(u, r, o).None?
    ensures l.Some? && (l.value.state.None? || l.value.item.None?) ==>
      Stepped(u, r, o).Some? && TakenOver(r, o, l.value, Stepped(u, r, o).value)
  {
  }

  /** When the input's data were available: as the observation says, else the features. */
  function AvailableAt(l: LifecycleResult): int
    requires l.item.Some?
  {
    if l.availability.Some? then l.availability.value else l.item.value.features.asof
  }

  ghost predicate IsEvaluation(a: EvaluationArtifact, u: Setup, o: Opportunity, l: LifecycleResult)
    requires l.state.Some? && l.item.Some?
  {
    var e, item := l.state.value, l.item.value;
    && a.symbol == e.symbol && a.eventId == e.eventId && a.decisionTime == o.decisionTime
    && a.maxAvailability == AvailableAt(l) && a.flags == o.flags && a.result == u.strategy.evaluate(item)
    && a.input == InputPayload(item.features.symbol, e.eventId, item.decisionTime, item.features, item.zone)
  }

  ghost predicate IsActionable(a: EvaluationArtifact) {
    a.result.decision.Some? && a.result.decision.value.actionable
  }

  /** An input that was not available by the decision time raises. Else exactly one
      evaluation is added; and an actionable one marks the event as signalled, with the
      number of evaluations as the signal's, one SIGNAL_MARKED record and the terminality
      SIGNAL_SENT. */
  lemma EvaluatedStep(u: Setup, r: ReplayResult, o: Opportunity, l: LifecycleResult, taken: ReplayResult)
    requires Calls(u, r, o, Some(l)) && l.state.Some? && l.item.Some? && TakenOver(r, o, l, taken)
    ensures Stepped(u, r, o).None? <==> AvailableAt(l) > o.decisionTime
    ensures Stepped(u, r, o).Some? ==> IsEvaluated(u, r, o, l, taken, Stepped(u, r, o).value)
  {
    CallApplies(u, r, o, l);
    AppliesTo(u.strategy, r, o, l, taken);
    if AvailableAt(l) <= o.decisionTime {
      EvaluationAdds(u, r, o, l, taken);
    }
  }

  lemma CallApplies(u: Setup, r: ReplayResult, o: Opportunity, l: LifecycleResult)
    requires Calls(u, r, o, Some(l))
    ensures Stepped(u, r, o) == Applied(u.strategy, r, o, l)
  {
  }

  lemma AppliesTo(s: Strategy, r: ReplayResult, o: Opportunity, l: LifecycleResult, taken: ReplayResult)
    requires l.state.Some? && l.item.Some? && TakenOver(r, o, l, taken)
    ensures Applied(s, r, o, l) == if AvailableAt(l) > o.decisionTime then None
            else Some(Evaluated(s, taken, o, l.state.value, l.item.value, AvailableAt(l)))
  {
  }

  lemma EvaluationAdds(u: Setup, r: ReplayResult, o: Opportunity, l: LifecycleResult, taken: ReplayResult)
    requires l.state.Some? && l.item.Some? && TakenOver(r, o, l, taken)
    ensures IsEvaluated(u, r, o, l, taken, Evaluated(u.strategy, taken, o, l.state.value, l.item.value, AvailableAt(l)))
  {
  }

  /** One evaluation more, and the mark of an actionable one. */
  ghost predicate IsEvaluated(u: Setup, r: ReplayResult, o: Opportunity, l: LifecycleResult, taken: ReplayResult, r2: ReplayResult)
    requires l.state.Some? && l.item.Some?
  {
    var n, e := |r.evaluations|, l.state.value;
    && |r2.evaluations| == n + 1 && r2.evaluations[..n] == r.evaluations && IsEvaluation(r2.evaluations[n], u, o, l)
    && (if !IsActionable(r2.evaluations[n]) then r2 == taken.(evaluations := r2.evaluations) else
          && |r2.transitions| == |taken.transitions| + 1 && r2.transitions[..|taken.transitions|] == taken.transitions
          && IsRecord(r2.transitions[|taken.transitions|], e, SIGNAL_SENT, SIGNAL_SENT, "SIGNAL_MARKED", o.decisionTime,
                      Some(l.item.value.features.asof), Some("evaluator actionable"), |taken.transitions|)
          && r2.terminality == taken.terminality[e.eventId := "SIGNAL_SENT"]
          && r2.states == taken.states[o.symbol := e.(status := SIGNAL_SENT, signalId := Some(n + 1),
               signalSentAt := Some(o.decisionTime), updatedAt := Some(o.decisionTime))])
  }

  // ---------------------------------------------------------------- causality of the inputs

  ghost predicate Causal(r: ReplayResult) {
    forall i | 0 <= i < |r.evaluations| :: r.evaluations[i].maxAvailability <= r.evaluations[i].decisionTime
  }

  lemma StepIsCausal(u: Setup, r: ReplayResult, o: Opportunity)
    requires Causal(r) && Stepped(u, r, o).Some?
    ensures Causal(Stepped(u, r, o).value)
  {
  }

  /** No evaluation of a completed replay used data that came after its decision. */
  lemma {:induction false} EvaluationsAreCausal(u: Setup, initial: States, ordered: seq<Opportunity>)
    requires Folded(u, Start(initial), ordered).Some?
    ensures Causal(Folded(u, Start(initial), ordered).value)
  {
    if ordered != [] {
      EvaluationsAreCausal(u, initial, ordered[..|ordered| - 1]);
      StepIsCausal(u, Folded(u, Start(initial), ordered[..|ordered| - 1]).value, ordered[|ordered| - 1]);
    }
  }

  // ---------------------------------------------------------------- the end of a replay

  ghost predicate StillOpen(r: ReplayResult, id: string) {
    exists x :: x in r.states && r.states[x].eventId == id
      && r.states[x].status in {PUMP_DETECTED, PULLBACK_OBSERVED, SHORT_ZONE_ACTIVE}
  }

  /** The final pass reports exactly the events still open that have no end yet: as active
      at the cutoff where there is one, else as active. It changes nothing else. */
  lemma FinalPassMeans(r: ReplayResult, cutoff: Option<int>, id: string)
    ensures var c := Closed(r, cutoff);
      && c == r.(terminality := c.terminality)
      && (id in c.terminality <==> id in r.terminality || StillOpen(r, id))
      && (id in r.terminality ==> c.terminality[id] == r.terminality[id])
      && (id !in r.terminality && StillOpen(r, id) ==>
            c.terminality[id] == if cutoff.Some? then "ACTIVE_AT_DATASET_CUTOFF" else "ACTIVE")
  {
    OpenIff(r, id);
  }

  lemma OpenStatus(status: EventStatus)
    ensures Open(status) <==> status in {PUMP_DETECTED, PULLBACK_OBSERVED, SHORT_ZONE_ACTIVE}
  {
    match status
    case IDLE =>
    case _ =>
  }

  lemma OpenIff(r: ReplayResult, id: string)
    ensures StillOpen(r, id) <==> id in set x | x in r.states && Open(r.states[x].status) :: r.states[x].eventId
  {
    if x :| x in r.states && r.states[x].eventId == id && Open(r.states[x].status) {
      OpenStatus(r.states[x].status);
    }
    if StillOpen(r, id) {
      var x :| x in r.states && r.states[x].eventId == id
        && r.states[x].status in {PUMP_DETECTED, PULLBACK_OBSERVED, SHORT_ZONE_ACTIVE};
      OpenStatus(r.states[x].status);
    }
  }

  function Timely(cutoff: Option<int>): Opportunity -> bool {
    (o: Opportunity) => cutoff.None? || o.decisionTime <= cutoff.value
  }

  /** A replay is the sorted opportunities up to the cutoff, one after the other, and the
      final pass. */
  lemma ReplayMeans(u: Setup, opportunities: seq<Opportunity>, initial: States, cutoff: Option<int>)
    ensures var kept := Filter(SortBy(opportunities, KeyLe), Timely(cutoff));
      var r := Folded(u, ReplayResult(initial, [], [], map[]), kept);
      && Replay(u, opportunities, initial, cutoff) == if r.None? then None else Some(Closed(r.value, cutoff))
  {
    KeepIs(SortBy(opportunities, KeyLe), cutoff);
  }

  lemma {:induction false} KeepIs(q: seq<Opportunity>, cutoff: Option<int>)
    ensures Filter(q, Keep(cutoff)) == Filter(q, Timely(cutoff))
  {
    if q != [] {
      KeepIs(q[..|q| - 1], cutoff);
    }
  }
}
