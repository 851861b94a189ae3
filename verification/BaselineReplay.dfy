/** The replay driver: sorted opportunities folded through the lifecycle. */
module BaselineReplay {
  import opened MarketData
  import opened StableSort
  import opened PullbackTracker
  import opened Lifecycle
  import SortedInts
  import SortedStrings

  /** What the input fingerprint is taken of. */
  datatype InputPayload = InputPayload(
    symbol: string, eventId: string, decisionTime: int, features: Features, zone: Zone)

  datatype EvaluationArtifact = EvaluationArtifact(
    symbol: string,
    decisionTime: int,
    maxAvailability: int,
    input: InputPayload,
    eventId: string,
    flags: seq<string>,
    result: Evaluation)

  type States = map<string, EventState>

  datatype ReplayResult = ReplayResult(
    states: States,
    transitions: seq<TransitionRecord>,
    evaluations: seq<EvaluationArtifact>,
    terminality: map<string, string>)

  // ---------------------------------------------------------------- order

  /** `_opportunity_key`, compared lexicographically */
  predicate KeyLe(a: Opportunity, b: Opportunity) {
    if a.decisionTime != b.decisionTime then a.decisionTime < b.decisionTime
    else if a.sequence != b.sequence then a.sequence < b.sequence
    else if a.symbol != b.symbol then SortedStrings.Le(a.symbol, b.symbol)
    else SortedStrings.Le(a.trigger, b.trigger)
  }

  lemma KeyLeIsTotal()
    ensures TotalOrder(KeyLe)
  {
    forall a, b ensures KeyLe(a, b) || KeyLe(b, a) {
      SortedStrings.LeTotal(a.symbol, b.symbol);
      SortedStrings.LeTotal(a.trigger, b.trigger);
    }
    forall a, b, c | KeyLe(a, b) && KeyLe(b, c) ensures KeyLe(a, c) {
      KeyLeTransitive(a, b, c);
    }
  }

  lemma KeyLeTransitive(a: Opportunity, b: Opportunity, c: Opportunity)
    requires KeyLe(a, b) && KeyLe(b, c)
    ensures KeyLe(a, c)
  {
    if a.decisionTime == b.decisionTime == c.decisionTime && a.sequence == b.sequence == c.sequence {
      if a.symbol == b.symbol == c.symbol {
        SortedStrings.LeTransitive(a.trigger, b.trigger, c.trigger);
      } else if a.symbol == c.symbol {
        SortedStrings.LeAntisymmetric(a.symbol, b.symbol);
      } else if a.symbol != b.symbol && b.symbol != c.symbol {
        SortedStrings.LeTransitive(a.symbol, b.symbol, c.symbol);
      }
    }
  }

  // ---------------------------------------------------------------- minute gaps

  function Stamps(q: seq<int>): set<int> {
    set t | t in q
  }

  /** `_has_minute_gap` */
  predicate HasMinuteGap(candles: Candles) {
    candles.Frame? && candles.stamps.Some? && HasWideStep(SortedInts.Sorted(Stamps(candles.stamps.value)))
  }

  /** A stamp with a later one, but none within a minute. */
  ghost predicate GapAfter(stamps: set<int>, a: int, b: int) {
    a in stamps && b in stamps && a < b && forall t | t in stamps && a < t :: t - a > MS_PER_MINUTE
  }

  predicate HasWideStep(q: seq<int>) {
    exists i | 0 <= i < |q| - 1 :: q[i + 1] - q[i] > MS_PER_MINUTE
  }

  lemma MinuteGapIff(stamps: seq<int>, rows: seq<seq<real>>)
    ensures HasMinuteGap(Frame(Some(stamps), rows)) <==> exists a, b :: GapAfter(Stamps(stamps), a, b)
  {
    WideStepIff(Stamps(stamps), SortedInts.Sorted(Stamps(stamps)));
  }

  lemma WideStepIff(stamps: set<int>, q: seq<int>)
    requires SortedInts.StrictlyIncreasing(q) && forall t :: t in q <==> t in stamps
    ensures HasWideStep(q) <==> exists a, b :: GapAfter(stamps, a, b)
  {
    if i :| 0 <= i < |q| - 1 && q[i + 1] - q[i] > MS_PER_MINUTE {
      assert q[i] in q && q[i + 1] in q;
      assert forall k | 0 <= k < i :: q[k] < q[i];
      assert forall k | i + 1 < k < |q| :: q[i + 1] < q[k];
      assert GapAfter(stamps, q[i], q[i + 1]);
    }
    if a, b :| GapAfter(stamps, a, b) {
      assert a in q && b in q;
      var i :| 0 <= i < |q| && q[i] == a;
      assert forall k | 0 <= k < i :: q[k] < q[i];
      assert i < |q| - 1 && q[i] < q[i + 1];
      assert q[i + 1] in q;
    }
  }

  // ---------------------------------------------------------------- one opportunity

  function Lookup<K, V>(m: map<K, V>, k: K): Option<V> {
    if k in m then Some(m[k]) else None
  }

  function Or(a: Option<int>, b: int): int {
    if a.Some? then a.value else b
  }

  function ArtifactOf(o: Opportunity, e: EventState, item: StrategyInput, availability: int, result: Evaluation): EvaluationArtifact {
    EvaluationArtifact(e.symbol, o.decisionTime, availability,
      InputPayload(item.features.symbol, e.eventId, item.decisionTime, item.features, item.zone), e.eventId, o.flags, result)
  }

  /** The state was marked in place, so its record starts where it ends. */
  function MarkRecord(marked: EventState, item: StrategyInput, now: int, sequence: nat): TransitionRecord {
    TransitionRecord(marked.symbol, marked.eventId, now, marked.status, marked.status, SIGNAL_MARKED,
      Some(item.features.asof), Some("evaluator actionable"), sequence)
  }

  /** The state of the symbol and the records of the call are taken over. */
  function Recorded(r: ReplayResult, o: Opportunity, l: LifecycleResult): ReplayResult {
    var extended := r.(transitions := r.transitions + l.transitions);
    if l.state.None? then extended else
      extended.(states := r.states[o.symbol := l.state.value],
        terminality := if l.state.value.status == EXPIRED then r.terminality[l.state.value.eventId := "EXPIRED"] else r.terminality)
  }

  /** One evaluation, and the mark of an actionable one. */
  function Evaluated(s: Strategy, r: ReplayResult, o: Opportunity, e: EventState, item: StrategyInput, availability: int): ReplayResult {
    var now := o.decisionTime;
    var result := s.evaluate(item);
    var evaluated := r.(evaluations := r.evaluations + [ArtifactOf(o, e, item, availability, result)]);
    if !result.Actionable() then evaluated else
      var marked := Marked(e, |evaluated.evaluations|, now);
      evaluated.(states := r.states[o.symbol := marked],
        transitions := r.transitions + [MarkRecord(marked, item, now, |r.transitions|)],
        terminality := r.terminality[marked.eventId := "SIGNAL_SENT"])
  }

  function Applied(s: Strategy, r: ReplayResult, o: Opportunity, l: LifecycleResult): Option<ReplayResult> {
    var recorded := Recorded(r, o, l);
    if l.state.None? || l.item.None? then Some(recorded)
    else if Or(l.availability, l.item.value.features.asof) > o.decisionTime then None
    else Some(Evaluated(s, recorded, o, l.state.value, l.item.value, Or(l.availability, l.item.value.features.asof)))
  }

  /** The inputs of a replay besides the opportunities. */
  datatype Setup = Setup(config: Config, strategy: Strategy, overrides: map<string, Features>)

  /** The body of the replay loop; None where it raises. */
  function Stepped(u: Setup, r: ReplayResult, o: Opportunity): Option<ReplayResult> {
    var prior := Lookup(r.states, o.symbol);
    if !u.strategy.validate(o) then None
    else if prior.Some? && HasMinuteGap(o.candles) then
      Some(r.(terminality := r.terminality[prior.value.eventId := "DATA_GAP_CENSORED"]))
    else
      match Called(u.config, u.strategy, prior, o, Lookup(u.overrides, o.symbol))
      case None => None
      case Some(l) => Applied(u.strategy, r, o, l)
  }

  function Folded(u: Setup, start: ReplayResult, ordered: seq<Opportunity>): Option<ReplayResult> {
    if ordered == [] then Some(start) else
      var before := Folded(u, start, ordered[..|ordered| - 1]);
      if before.None? then None else Stepped(u, before.value, ordered[|ordered| - 1])
  }

  predicate Within(cutoff: Option<int>, o: Opportunity) {
    cutoff.None? || o.decisionTime <= cutoff.value
  }

  function Keep(cutoff: Option<int>): Opportunity -> bool {
    o => Within(cutoff, o)
  }

  predicate Open(status: EventStatus) {
    status !in {IDLE, EXPIRED, SIGNAL_SENT}
  }

  /** The final pass over the states. */
  function Closed(r: ReplayResult, cutoff: Option<int>): ReplayResult {
    var open := map id | id in (set x | x in r.states && Open(r.states[x].status) :: r.states[x].eventId)
      && id !in r.terminality :: if cutoff.Some? then "ACTIVE_AT_DATASET_CUTOFF" else "ACTIVE";
    r.(terminality := r.terminality + open)
  }

  function Start(initial: States): ReplayResult {
    ReplayResult(initial, [], [], map[])
  }

  /** `replay` */
  function Replay(u: Setup, opportunities: seq<Opportunity>, initial: States, cutoff: Option<int>): Option<ReplayResult> {
    var r := Folded(u, Start(initial), Filter(SortBy(opportunities, KeyLe), Keep(cutoff)));
    if r.None? then None else Some(Closed(r.value, cutoff))
  }

  // ---------------------------------------------------------------- the driver

  class BaselineReplayDriver {
    const config: Config
    const lifecycle: BaselineLifecycle

    constructor (config: Config, strategy: Strategy)
      ensures this.config == config && lifecycle.config == config && lifecycle.strategy == strategy
      ensures lifecycle.tracker.config == config
    {
      this.config := config;
      lifecycle := new BaselineLifecycle(config, strategy);
    }

    ghost predicate Valid() {
      lifecycle.config == config && lifecycle.tracker.config == config
    }

    /** `replay`; None where it raises. */
    method Run(opportunities: seq<Opportunity>, initial: States, overrides: map<string, Features>, cutoff: Option<int>)
      returns (r: Option<ReplayResult>)
      requires Valid()
      ensures r == Replay(Setup(config, lifecycle.strategy, overrides), opportunities, initial, cutoff)
    {
      ghost var u := Setup(config, lifecycle.strategy, overrides);
      var ordered := SortBy(opportunities, KeyLe);
      var result := Start(initial);
      for i := 0 to |ordered|
        invariant FoldedUpTo(u, initial, ordered, i, cutoff) == Some(result)
      {
        var o := ordered[i];
        UpToNext(u, initial, ordered, i, cutoff);
        if cutoff.Some? && o.decisionTime > cutoff.value {
          continue;
        }
        var next := Step(result, o, overrides);
        if next.None? {
          UpToFails(u, initial, ordered, i + 1, cutoff);
          return None;
        }
        result := next.value;
      }
      UpToAll(u, initial, ordered, cutoff);
      r := Some(Closed(result, cutoff));
    }

    /** The body of the replay loop. */
    method Step(result: ReplayResult, o: Opportunity, overrides: map<string, Features>) returns (r: Option<ReplayResult>)
      requires Valid()
      ensures r == Stepped(Setup(config, lifecycle.strategy, overrides), result, o)
    {
      if !lifecycle.strategy.validate(o) {
        return None;
      }
      var features := Lookup(overrides, o.symbol);
      var prior := Lookup(result.states, o.symbol);
      if prior.Some? && HasMinuteGap(o.candles) {
        return Some(result.(terminality := result.terminality[prior.value.eventId := "DATA_GAP_CENSORED"]));
      }
      if !Tracked(prior) {
        return Some(Recorded(result, o, Detected(config, lifecycle.strategy, o, features)));
      }
      var m := MomentOf(lifecycle.strategy, prior.value, o, features);
      var l, working := lifecycle.AdvanceCore(prior.value, m);
      if l.None? {
        return None;
      }
      r := Evaluate(Recorded(result, o, l.value), o, l.value, working);
    }

    /** The evaluation of one lifecycle result; a signal marks the working record itself. */
    method Evaluate(recorded: ReplayResult, o: Opportunity, l: LifecycleResult, working: EventRecord)
      returns (r: Option<ReplayResult>)
      requires l.state == Some(working.Value())
      modifies working
      ensures r ==
        if l.item.None? then Some(recorded)
        else if Or(l.availability, l.item.value.features.asof) > o.decisionTime then None
        else Some(Evaluated(lifecycle.strategy, recorded, o, l.state.value, l.item.value,
                            Or(l.availability, l.item.value.features.asof)))
    {
      if l.item.None? {
        return Some(recorded);
      }
      var item := l.item.value;
      var decision := lifecycle.strategy.evaluate(item);
      var availability := Or(l.availability, item.features.asof);
      if availability > o.decisionTime {
        return None;
      }
      var evaluations := recorded.evaluations + [ArtifactOf(o, working.Value(), item, availability, decision)];
      if !decision.Actionable() {
        return Some(recorded.(evaluations := evaluations));
      }
      lifecycle.tracker.MarkSignalSent(working, |evaluations|, o.decisionTime);
      var record := MarkRecord(working.Value(), item, o.decisionTime, |recorded.transitions|);
      r := Some(ReplayResult(
        recorded.states[o.symbol := working.Value()],
        recorded.transitions + [record],
        evaluations,
        recorded.terminality[working.eventId := "SIGNAL_SENT"]));
    }
  }

  // ---------------------------------------------------------------- folds

  lemma FilterNext(q: seq<Opportunity>, i: nat, keep: Opportunity -> bool)
    requires i < |q|
    ensures Filter(q[..i + 1], keep) == if keep(q[i]) then Filter(q[..i], keep) + [q[i]] else Filter(q[..i], keep)
  {
    assert q[..i + 1][..i] == q[..i];
  }

  lemma FoldedNext(u: Setup, start: ReplayResult, ordered: seq<Opportunity>, o: Opportunity)
    ensures Folded(u, start, ordered + [o]) ==
      var before := Folded(u, start, ordered);
      if before.None? then None else Stepped(u, before.value, o)
  {
    assert (ordered + [o])[..|ordered|] == ordered;
  }

  /** The fold of the first opportunities, of which the timely ones count. */
  function FoldedUpTo(u: Setup, initial: States, ordered: seq<Opportunity>, i: nat, cutoff: Option<int>): Option<ReplayResult>
    requires i <= |ordered|
  {
    Folded(u, Start(initial), Filter(ordered[..i], Keep(cutoff)))
  }

  lemma UpToNext(u: Setup, initial: States, ordered: seq<Opportunity>, i: nat, cutoff: Option<int>)
    requires i < |ordered|
    ensures var before := FoldedUpTo(u, initial, ordered, i, cutoff);
      FoldedUpTo(u, initial, ordered, i + 1, cutoff) ==
        if !Within(cutoff, ordered[i]) then before
        else if before.None? then None else Stepped(u, before.value, ordered[i])
  {
    FilterNext(ordered, i, Keep(cutoff));
    FoldedNext(u, Start(initial), Filter(ordered[..i], Keep(cutoff)), ordered[i]);
  }

  lemma UpToAll(u: Setup, initial: States, ordered: seq<Opportunity>, cutoff: Option<int>)
    ensures FoldedUpTo(u, initial, ordered, |ordered|, cutoff) == Folded(u, Start(initial), Filter(ordered, Keep(cutoff)))
  {
    assert ordered[..|ordered|] == ordered;
  }

  lemma {:induction false} UpToFails(u: Setup, initial: States, ordered: seq<Opportunity>, i: nat, cutoff: Option<int>)
    requires i <= |ordered| && FoldedUpTo(u, initial, ordered, i, cutoff).None?
    ensures Folded(u, Start(initial), Filter(ordered, Keep(cutoff))).None?
    decreases |ordered| - i
  {
    if i < |ordered| {
      UpToNext(u, initial, ordered, i, cutoff);
      UpToFails(u, initial, ordered, i + 1, cutoff);
    } else {
      UpToAll(u, initial, ordered, cutoff);
    }
  }
}
