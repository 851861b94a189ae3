/** What a replay says of how a symbol's events ended does not depend on the others. */
module ReplayTerminality {
  import opened MarketData
  import opened StableSort
  import opened PullbackTracker
  import opened Lifecycle
  import opened BaselineReplay
  import opened ReplayIsolation

  /** How the events of the symbol ended, where `owner` tells an event's symbol. */
  function EndsOf(terminality: map<string, string>, owner: string -> string, x: string): map<string, string> {
    map id | id in terminality && owner(id) == x :: terminality[id]
  }

  ghost predicate OwnIds(states: States, owner: string -> string) {
    forall x | x in states :: owner(states[x].eventId) == x
  }

  /** The detector gives each event an id of its symbol. */
  ghost predicate IdsTell(s: Strategy, owner: string -> string) {
    forall symbol, candles, f, now | s.pump(symbol, candles, f, now).Some? ::
      owner(s.pump(symbol, candles, f, now).value.eventId) == symbol
  }

  // ---------------------------------------------------------------- one entry

  lemma EntryOfOwn(a: map<string, string>, b: map<string, string>, owner: string -> string, id: string, end: string, x: string)
    requires EndsOf(a, owner, x) == EndsOf(b, owner, x)
    ensures EndsOf(a[id := end], owner, x) == EndsOf(b[id := end], owner, x)
  {
    EntryAdds(a, owner, id, end, x);
    EntryAdds(b, owner, id, end, x);
  }

  lemma EntryAdds(terminality: map<string, string>, owner: string -> string, id: string, end: string, x: string)
    ensures EndsOf(terminality[id := end], owner, x) ==
      if owner(id) == x then EndsOf(terminality, owner, x)[id := end] else EndsOf(terminality, owner, x)
  {
  }

  // ---------------------------------------------------------------- whose entries

  /** A call's state is of the symbol and has an id of the symbol. */
  ghost predicate OwnState(l: LifecycleResult, owner: string -> string, x: string) {
    l.state.Some? ==> l.state.value.symbol == x && owner(l.state.value.eventId) == x
  }

  lemma CoreKeepsId(c: Config, s: Strategy, e: EventState, m: Moment)
    requires Core(c, s, e, m).Some?
    ensures Core(c, s, e, m).value.state.Some? ==> Core(c, s, e, m).value.state.value.eventId == e.eventId
  {
    if !CanReset(e, m.current) {
      assert Advanced(c, e, m.current, m.now).eventId == e.eventId;
    }
  }

  lemma CallOwnState(u: Setup, owner: string -> string, prior: Option<EventState>, o: Opportunity, features: Option<Features>)
    requires IdsTell(u.strategy, owner)
    requires prior.Some? ==> prior.value.symbol == o.symbol && owner(prior.value.eventId) == o.symbol
    requires Called(u.config, u.strategy, prior, o, features).Some?
    ensures OwnState(Called(u.config, u.strategy, prior, o, features).value, owner, o.symbol)
  {
    CallOwned(u, prior, o, features);
    if Tracked(prior) {
      CoreKeepsId(u.config, u.strategy, prior.value, MomentOf(u.strategy, prior.value, o, features));
    }
  }

  lemma AppliedOwnIds(s: Strategy, owner: string -> string, r: ReplayResult, o: Opportunity, l: LifecycleResult)
    requires OwnIds(r.states, owner) && OwnState(l, owner, o.symbol) && Applied(s, r, o, l).Some?
    ensures OwnIds(Applied(s, r, o, l).value.states, owner)
  {
  }

  lemma AppliedEndsOther(s: Strategy, owner: string -> string, r: ReplayResult, o: Opportunity, l: LifecycleResult, x: string)
    requires OwnState(l, owner, o.symbol) && x != o.symbol && Applied(s, r, o, l).Some?
    ensures EndsOf(Applied(s, r, o, l).value.terminality, owner, x) == EndsOf(r.terminality, owner, x)
  {
    if l.state.Some? {
      var id := l.state.value.eventId;
      EntryAdds(r.terminality, owner, id, "EXPIRED", x);
      EntryAdds(Recorded(r, o, l).terminality, owner, id, "SIGNAL_SENT", x);
    }
  }

  lemma AppliedEndsOwn(s: Strategy, owner: string -> string, r: ReplayResult, solo: ReplayResult, o: Opportunity,
                       l: LifecycleResult, l2: LifecycleResult)
    requires EndsOf(r.terminality, owner, o.symbol) == EndsOf(solo.terminality, owner, o.symbol)
    requires Alike(l, l2) && Applied(s, r, o, l).Some? && Applied(s, solo, o, l2).Some?
    ensures EndsOf(Applied(s, r, o, l).value.terminality, owner, o.symbol)
      == EndsOf(Applied(s, solo, o, l2).value.terminality, owner, o.symbol)
  {
    if l.state.Some? {
      var id := l.state.value.eventId;
      SameEnd(l.state.value, l2.state.value);
      EntryOfOwn(r.terminality, solo.terminality, owner, id, "EXPIRED", o.symbol);
      EntryOfOwn(Recorded(r, o, l).terminality, Recorded(solo, o, l2).terminality, owner, id, "SIGNAL_SENT", o.symbol);
    }
  }

  lemma SameEnd(e: EventState, e2: EventState)
    requires Unmarked(e) == Unmarked(e2)
    ensures e.eventId == e2.eventId && e.status == e2.status
  {
  }

  // ---------------------------------------------------------------- one opportunity

  lemma StepOwnIds(u: Setup, owner: string -> string, r: ReplayResult, o: Opportunity)
    requires Keyed(r.states) && OwnIds(r.states, owner) && IdsTell(u.strategy, owner) && Stepped(u, r, o).Some?
    ensures OwnIds(Stepped(u, r, o).value.states, owner)
  {
    var prior := Lookup(r.states, o.symbol);
    if prior.None? || !HasMinuteGap(o.candles) {
      var features := Lookup(u.overrides, o.symbol);
      CallOwnState(u, owner, prior, o, features);
      AppliedOwnIds(u.strategy, owner, r, o, Called(u.config, u.strategy, prior, o, features).value);
    }
  }

  lemma StepEndsOther(u: Setup, owner: string -> string, r: ReplayResult, o: Opportunity, x: string)
    requires Keyed(r.states) && OwnIds(r.states, owner) && IdsTell(u.strategy, owner) && Stepped(u, r, o).Some?
    requires x != o.symbol
    ensures EndsOf(Stepped(u, r, o).value.terminality, owner, x) == EndsOf(r.terminality, owner, x)
  {
    var prior := Lookup(r.states, o.symbol);
    if prior.Some? && HasMinuteGap(o.candles) {
      EntryAdds(r.terminality, owner, prior.value.eventId, "DATA_GAP_CENSORED", x);
    } else {
      var features := Lookup(u.overrides, o.symbol);
      CallOwnState(u, owner, prior, o, features);
      AppliedEndsOther(u.strategy, owner, r, o, Called(u.config, u.strategy, prior, o, features).value, x);
    }
  }

  lemma StepEndsOwn(u: Setup, owner: string -> string, r: ReplayResult, solo: ReplayResult, o: Opportunity)
    requires Agree(r, solo, o.symbol) && Stepped(u, r, o).Some? && Stepped(u, solo, o).Some?
    requires EndsOf(r.terminality, owner, o.symbol) == EndsOf(solo.terminality, owner, o.symbol)
    ensures EndsOf(Stepped(u, r, o).value.terminality, owner, o.symbol)
      == EndsOf(Stepped(u, solo, o).value.terminality, owner, o.symbol)
  {
    var a, b := Lookup(r.states, o.symbol), Lookup(solo.states, o.symbol);
    assert StateOf(r.states, o.symbol) == StateOf(solo.states, o.symbol);
    if a.Some? && HasMinuteGap(o.candles) {
      SameEnd(a.value, b.value);
      EntryOfOwn(r.terminality, solo.terminality, owner, a.value.eventId, "DATA_GAP_CENSORED", o.symbol);
    } else {
      var features := Lookup(u.overrides, o.symbol);
      CallAlike(u, a, b, o, features);
      AppliedEndsOwn(u.strategy, owner, r, solo, o, Called(u.config, u.strategy, a, o, features).value,
        Called(u.config, u.strategy, b, o, features).value);
    }
  }

  // ---------------------------------------------------------------- whole replays

  lemma {:induction false} FoldOwnIds(u: Setup, owner: string -> string, initial: States, ordered: seq<Opportunity>)
    requires Keyed(initial) && OwnIds(initial, owner) && IdsTell(u.strategy, owner) && Folded(u, Start(initial), ordered).Some?
    ensures OwnIds(Folded(u, Start(initial), ordered).value.states, owner)
  {
    if ordered != [] {
      var init, last := ordered[..|ordered| - 1], ordered[|ordered| - 1];
      FoldOwnIds(u, owner, initial, init);
      FoldIsIsolated(u, initial, init, last.symbol);
      StepOwnIds(u, owner, Folded(u, Start(initial), init).value, last);
    }
  }

  lemma {:induction false} FoldEndsAreIsolated(u: Setup, owner: string -> string, initial: States, ordered: seq<Opportunity>, x: string)
    requires Keyed(initial) && OwnIds(initial, owner) && IdsTell(u.strategy, owner)
    requires Folded(u, Start(initial), ordered).Some? && Folded(u, Start(initial), Filter(ordered, OnlyOf(x))).Some?
    ensures EndsOf(Folded(u, Start(initial), ordered).value.terminality, owner, x)
      == EndsOf(Folded(u, Start(initial), Filter(ordered, OnlyOf(x))).value.terminality, owner, x)
    decreases |ordered|
  {
    if ordered != [] {
      var init, last := ordered[..|ordered| - 1], ordered[|ordered| - 1];
      var own := Filter(init, OnlyOf(x));
      FoldIsIsolated(u, initial, init, x);
      var r, solo := Folded(u, Start(initial), init).value, Folded(u, Start(initial), own).value;
      FoldEndsAreIsolated(u, owner, initial, init, x);
      if last.symbol == x {
        FoldedNext(u, Start(initial), own, last);
        StepEndsOwn(u, owner, r, solo, last);
      } else {
        FoldOwnIds(u, owner, initial, init);
        StepEndsOther(u, owner, r, last, x);
      }
    }
  }

  /** The final pass adds at most the symbol's own open event. */
  lemma ClosedEnds(r: ReplayResult, owner: string -> string, cutoff: Option<int>, x: string, id: string)
    requires OwnIds(r.states, owner)
    ensures id in EndsOf(Closed(r, cutoff).terminality, owner, x) <==>
      || id in EndsOf(r.terminality, owner, x)
      || (x in r.states && Open(r.states[x].status) && r.states[x].eventId == id)
    ensures id in EndsOf(Closed(r, cutoff).terminality, owner, x) ==>
      EndsOf(Closed(r, cutoff).terminality, owner, x)[id] ==
        if id in EndsOf(r.terminality, owner, x) then EndsOf(r.terminality, owner, x)[id]
        else if cutoff.Some? then "ACTIVE_AT_DATASET_CUTOFF" else "ACTIVE"
  {
  }

  lemma ClosedAlike(r: ReplayResult, solo: ReplayResult, owner: string -> string, cutoff: Option<int>, x: string)
    requires OwnIds(r.states, owner) && OwnIds(solo.states, owner)
    requires StateOf(r.states, x) == StateOf(solo.states, x)
    requires EndsOf(r.terminality, owner, x) == EndsOf(solo.terminality, owner, x)
    ensures EndsOf(Closed(r, cutoff).terminality, owner, x) == EndsOf(Closed(solo, cutoff).terminality, owner, x)
  {
    if x in r.states {
      SameEnd(r.states[x], solo.states[x]);
    }
    forall id
      ensures id in EndsOf(Closed(r, cutoff).terminality, owner, x) <==> id in EndsOf(Closed(solo, cutoff).terminality, owner, x)
      ensures id in EndsOf(Closed(r, cutoff).terminality, owner, x) ==>
        EndsOf(Closed(r, cutoff).terminality, owner, x)[id] == EndsOf(Closed(solo, cutoff).terminality, owner, x)[id]
    {
      ClosedEnds(r, owner, cutoff, x, id);
      ClosedEnds(solo, owner, cutoff, x, id);
    }
  }

  /** Non-interference of the terminality: where an event's id tells its symbol, replaying
      only a symbol's opportunities says the same of how its events ended. */
  lemma TerminalityIsIsolated(u: Setup, opportunities: seq<Opportunity>, initial: States, cutoff: Option<int>, x: string,
                              owner: string -> string)
    requires Keyed(initial) && OwnIds(initial, owner) && IdsTell(u.strategy, owner)
    requires Replay(u, opportunities, initial, cutoff).Some?
    ensures Replay(u, Filter(opportunities, OnlyOf(x)), initial, cutoff).Some?
    ensures EndsOf(Replay(u, opportunities, initial, cutoff).value.terminality, owner, x)
      == EndsOf(Replay(u, Filter(opportunities, OnlyOf(x)), initial, cutoff).value.terminality, owner, x)
  {
    KeyLeIsTotal();
    SortFilters(opportunities, KeyLe, OnlyOf(x));
    var q := SortBy(opportunities, KeyLe);
    var kept := Filter(q, Keep(cutoff));
    FiltersCommute(q, OnlyOf(x), Keep(cutoff));
    FoldIsIsolated(u, initial, kept, x);
    FoldEndsAreIsolated(u, owner, initial, kept, x);
    FoldOwnIds(u, owner, initial, kept);
    FoldOwnIds(u, owner, initial, Filter(kept, OnlyOf(x)));
    ClosedAlike(Folded(u, Start(initial), kept).value, Folded(u, Start(initial), Filter(kept, OnlyOf(x))).value, owner, cutoff, x);
  }
}
