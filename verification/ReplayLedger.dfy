/** The transition records of a replay are a ledger of each symbol's status. */
module ReplayLedger {
  import opened MarketData
  import opened PullbackTracker
  import opened Lifecycle
  import opened BaselineReplay
  import opened ReplayIsolation

  type Status = Option<EventStatus>

  function StatusOf(states: States, x: string): Status {
    if x in states then Some(states[x].status) else None
  }

  /** The status the symbol's last record says, or the given one before any record. */
  function StatusAfter(ts: seq<TransitionRecord>, x: string, initial: Status): Status {
    if ts == [] then initial
    else if ts[|ts| - 1].symbol == x then Some(ts[|ts| - 1].toState)
    else StatusAfter(ts[..|ts| - 1], x, initial)
  }

  /** The record follows on the status before it. An event is created where none is
      tracked; a signal is marked out of a set-up state, though its record already starts
      from SIGNAL_SENT; every other record starts from the status before it, and changes it. */
  predicate Links(before: Status, t: TransitionRecord) {
    if t.trigger == EVENT_CREATED then
      before in {None, Some(IDLE), Some(EXPIRED)} && t.fromState == IDLE && t.toState == PUMP_DETECTED
    else if t.trigger == SIGNAL_MARKED then
      before in {Some(PULLBACK_OBSERVED), Some(SHORT_ZONE_ACTIVE)} && t.fromState == t.toState == SIGNAL_SENT
    else
      && before == Some(t.fromState)
      && t.fromState !in {IDLE, EXPIRED}
      && (t.trigger != NEW_HIGH_RESET ==> t.toState != t.fromState)
  }

  ghost predicate Ledger(ts: seq<TransitionRecord>, x: string, initial: Status) {
    ts != [] ==>
      && Ledger(ts[..|ts| - 1], x, initial)
      && (ts[|ts| - 1].symbol == x ==> Links(StatusAfter(ts[..|ts| - 1], x, initial), ts[|ts| - 1]))
  }

  lemma LedgerNext(ts: seq<TransitionRecord>, t: TransitionRecord, x: string, initial: Status)
    ensures Ledger(ts + [t], x, initial) <==>
      Ledger(ts, x, initial) && (t.symbol == x ==> Links(StatusAfter(ts, x, initial), t))
    ensures StatusAfter(ts + [t], x, initial) == if t.symbol == x then Some(t.toState) else StatusAfter(ts, x, initial)
  {
    assert (ts + [t])[..|ts|] == ts;
  }

  lemma {:induction false} LedgerConcat(a: seq<TransitionRecord>, b: seq<TransitionRecord>, x: string, initial: Status)
    ensures Ledger(a + b, x, initial) <==> Ledger(a, x, initial) && Ledger(b, x, StatusAfter(a, x, initial))
    ensures StatusAfter(a + b, x, initial) == StatusAfter(b, x, StatusAfter(a, x, initial))
    decreases |b|
  {
    if b == [] {
      assert a + b == a;
    } else {
      var init, last := b[..|b| - 1], b[|b| - 1];
      LedgerConcat(a, init, x, initial);
      assert a + b == (a + init) + [last];
      LedgerNext(a + init, last, x, initial);
    }
  }

  lemma {:induction false} OthersKeepLedger(ts: seq<TransitionRecord>, x: string, initial: Status)
    requires forall i | 0 <= i < |ts| :: ts[i].symbol != x
    ensures Ledger(ts, x, initial) && StatusAfter(ts, x, initial) == initial
  {
    if ts != [] {
      OthersKeepLedger(ts[..|ts| - 1], x, initial);
    }
  }

  lemma OneRecord(t: TransitionRecord, x: string, initial: Status)
    ensures t.symbol == x && Links(initial, t) ==>
      Ledger([t], x, initial) && StatusAfter([t], x, initial) == Some(t.toState)
  {
    LedgerNext([], t, x, initial);
    assert [] + [t] == [t];
  }

  // ---------------------------------------------------------------- one call

  /** The records of a call lead from one status to the other. */
  ghost predicate Leads(l: LifecycleResult, x: string, before: Status) {
    && Ledger(l.transitions, x, before)
    && (if l.state.Some? then StatusAfter(l.transitions, x, before) == Some(l.state.value.status) else l.transitions == [])
  }

  lemma ResetLeads(e: EventState, f: Features, now: int, availability: Option<int>)
    requires CanReset(e, f) && !ResetRaises(e, f) && e.status !in {IDLE, EXPIRED}
    ensures Leads(ResetResult(e, f, now, availability), e.symbol, Some(e.status))
  {
    OneRecord(ResetResult(e, f, now, availability).transitions[0], e.symbol, Some(e.status));
  }

  lemma AdvanceLeads(e: EventState, w: EventState, f: Features, now: int)
    requires w.symbol == e.symbol && e.status !in {IDLE, EXPIRED}
    ensures Ledger(AdvanceRecords(e, w, f, now), e.symbol, Some(e.status))
    ensures StatusAfter(AdvanceRecords(e, w, f, now), e.symbol, Some(e.status)) == Some(w.status)
  {
    if w.status != e.status {
      OneRecord(AdvanceRecords(e, w, f, now)[0], e.symbol, Some(e.status));
    }
  }

  lemma ZonedLeads(w: EventState, zone: Zone, final: Features, now: int, records: seq<TransitionRecord>,
                   availability: Option<int>, before: Status)
    requires Ledger(records, w.symbol, before) && StatusAfter(records, w.symbol, before) == Some(w.status)
    ensures Leads(Zoned(w, zone, final, now, records, availability), w.symbol, before)
  {
    var entered := w.(zoneLow := Some(zone.low), zoneHigh := Some(zone.high), status := SHORT_ZONE_ACTIVE, updatedAt := Some(now));
    LedgerNext(records,
      Transition(entered, PULLBACK_OBSERVED, ZONE_ENTERED, now, final.lastStructuralCloseTime, None, |records|), w.symbol, before);
  }

  lemma CoreLeads(c: Config, s: Strategy, e: EventState, m: Moment)
    requires e.status !in {IDLE, EXPIRED} && Core(c, s, e, m).Some?
    ensures Leads(Core(c, s, e, m).value, e.symbol, Some(e.status))
  {
    if CanReset(e, m.current) {
      ResetLeads(e, m.current, m.now, m.availability);
    } else {
      var w := Advanced(c, e, m.current, m.now);
      var records := AdvanceRecords(e, w, m.current, m.now);
      AdvanceLeads(e, w, m.current, m.now);
      var zone := s.zone(Unmarked(w), m.current);
      if zone.Some? {
        ZonedLeads(w, zone.value, FinalFeatures(s, m, w, zone.value), m.now, records, m.availability, Some(e.status));
      }
    }
  }

  lemma CallLeads(u: Setup, prior: Option<EventState>, o: Opportunity, features: Option<Features>)
    requires prior.Some? ==> prior.value.symbol == o.symbol
    requires Called(u.config, u.strategy, prior, o, features).Some?
    ensures Leads(Called(u.config, u.strategy, prior, o, features).value, o.symbol,
      if prior.Some? then Some(prior.value.status) else None)
  {
    if Tracked(prior) {
      CoreLeads(u.config, u.strategy, prior.value, MomentOf(u.strategy, prior.value, o, features));
    } else {
      var l := Detected(u.config, u.strategy, o, features);
      if l.state.Some? {
        OneRecord(l.transitions[0], o.symbol, if prior.Some? then Some(prior.value.status) else None);
      }
    }
  }

  // ---------------------------------------------------------------- one opportunity

  /** The records so far account for the symbol's status. */
  ghost predicate Accounts(r: ReplayResult, x: string, initial: Status) {
    Ledger(r.transitions, x, initial) && StatusAfter(r.transitions, x, initial) == StatusOf(r.states, x)
  }

  lemma RecordedAccounts(r: ReplayResult, o: Opportunity, l: LifecycleResult, x: string, initial: Status)
    requires Accounts(r, x, initial) && Owned(l, o.symbol) && Leads(l, o.symbol, StatusOf(r.states, o.symbol))
    ensures Accounts(Recorded(r, o, l), x, initial)
  {
    LedgerConcat(r.transitions, l.transitions, x, initial);
    if x != o.symbol {
      OthersKeepLedger(l.transitions, x, StatusAfter(r.transitions, x, initial));
    }
  }

  lemma EvaluatedAccounts(s: Strategy, r: ReplayResult, o: Opportunity, e: EventState, item: StrategyInput,
                          availability: int, x: string, initial: Status)
    requires DecidesInSetupOnly(s) && item.state == Unmarked(e) && e.symbol == o.symbol
    requires StatusOf(r.states, o.symbol) == Some(e.status) && Accounts(r, x, initial)
    ensures Accounts(Evaluated(s, r, o, e, item, availability), x, initial)
  {
    var now := o.decisionTime;
    LedgerNext(r.transitions, MarkRecord(Marked(e, |r.evaluations| + 1, now), item, now, |r.transitions|), x, initial);
  }

  lemma ItemIsState(u: Setup, prior: Option<EventState>, o: Opportunity, features: Option<Features>)
    requires Called(u.config, u.strategy, prior, o, features).Some?
    ensures var l := Called(u.config, u.strategy, prior, o, features).value;
      l.item.Some? ==> l.state.Some? && l.item.value.state == Unmarked(l.state.value)
  {
  }

  lemma StepAccounts(u: Setup, r: ReplayResult, o: Opportunity, x: string, initial: Status)
    requires DecidesInSetupOnly(u.strategy) && Keyed(r.states) && Accounts(r, x, initial)
    requires Stepped(u, r, o).Some?
    ensures Accounts(Stepped(u, r, o).value, x, initial)
  {
    var prior := Lookup(r.states, o.symbol);
    if prior.None? || !HasMinuteGap(o.candles) {
      var features := Lookup(u.overrides, o.symbol);
      var l := Called(u.config, u.strategy, prior, o, features).value;
      CallOwned(u, prior, o, features);
      CallLeads(u, prior, o, features);
      ItemIsState(u, prior, o, features);
      RecordedAccounts(r, o, l, x, initial);
      if l.item.Some? {
        EvaluatedAccounts(u.strategy, Recorded(r, o, l), o, l.state.value, l.item.value,
          Or(l.availability, l.item.value.features.asof), x, initial);
      }
    }
  }

  /** At every point of every replay the records of a symbol account for its status: they
      link up from its initial status to the one it has. */
  lemma {:induction false} RecordsAreALedger(u: Setup, initial: States, ordered: seq<Opportunity>, x: string)
    requires Keyed(initial) && DecidesInSetupOnly(u.strategy) && Folded(u, Start(initial), ordered).Some?
    ensures Accounts(Folded(u, Start(initial), ordered).value, x, StatusOf(initial, x))
    decreases |ordered|
  {
    if ordered != [] {
      var init, last := ordered[..|ordered| - 1], ordered[|ordered| - 1];
      RecordsAreALedger(u, initial, init, x);
      FoldIsIsolated(u, initial, init, x);
      StepAccounts(u, Folded(u, Start(initial), init).value, last, x, StatusOf(initial, x));
    }
  }
}
