/** The climax fast monitor: the pool of tracked events and the bounded polls over it. */
module FastMonitor {
  import opened MarketData
  import opened StableSort
  import opened RoundRobin

  datatype Candidate = Candidate(symbol: string, eventId: string, eventHighTime: Option<int>, addedAt: int, poolAddedAt: int)

  /** An event state seen by a full scan; no event has the empty id. */
  datatype Sighting = Sighting(symbol: string, eventId: string, eventHighTime: Option<int>, now: int)
  {
    function AddedAt(): int {
      if eventHighTime.Some? then eventHighTime.value else now
    }

    predicate Live(ttl: int) {
      now - AddedAt() < ttl
    }
  }

  function CandidateOf(s: Sighting): Candidate {
    Candidate(s.symbol, s.eventId, s.eventHighTime, s.AddedAt(), s.now)
  }

  function KeyOf(c: Candidate): (string, string) {
    (c.symbol, c.eventId)
  }

  function KeysOf(pool: seq<Candidate>): (r: seq<(string, string)>)
    ensures |r| == |pool|
    ensures forall i | 0 <= i < |r| :: r[i] == KeyOf(pool[i])
  {
    seq(|pool|, i requires 0 <= i < |pool| => KeyOf(pool[i]))
  }

  predicate Stays(c: Candidate, s: Sighting) {
    c.symbol != s.symbol || c.eventId == s.eventId
  }

  function StaysWith(s: Sighting): Candidate -> bool {
    (c: Candidate) => Stays(c, s)
  }

  predicate Holds(pool: seq<Candidate>, key: (string, string)) {
    exists c :: c in pool && KeyOf(c) == key
  }

  /** `_track_climax_candidate` on the pool */
  function Tracked(pool: seq<Candidate>, s: Sighting, ttl: int): seq<Candidate> {
    if s.eventId == "" then pool else
      var kept := Filter(pool, StaysWith(s));
      if Holds(kept, (s.symbol, s.eventId)) || !s.Live(ttl) then kept else kept + [CandidateOf(s)]
  }

  function TrackedAll(sightings: seq<Sighting>, ttl: int): seq<Candidate> {
    if sightings == [] then [] else
      Tracked(TrackedAll(sightings[..|sightings| - 1], ttl), sightings[|sightings| - 1], ttl)
  }

  // ---------------------------------------------------------------- the pool over a run

  ghost predicate OnePerSymbol(pool: seq<Candidate>) {
    forall i, j | 0 <= i < j < |pool| :: pool[i].symbol != pool[j].symbol
  }

  /** The block of sightings that follows when a symbol's block meets another sighting. */
  function Extended(block: seq<Sighting>, s: Sighting, symbol: string): seq<Sighting> {
    if s.symbol != symbol then block
    else if block != [] && block[0].eventId == s.eventId then block + [s] else [s]
  }

  /** The sightings of a symbol's latest event, back to when that event replaced another. */
  function LatestEvent(sightings: seq<Sighting>, symbol: string): seq<Sighting> {
    if sightings == [] then [] else
      var last := sightings[|sightings| - 1];
      var before := LatestEvent(sightings[..|sightings| - 1], symbol);
      if last.eventId == "" then before else Extended(before, last, symbol)
  }

  function FirstLive(sightings: seq<Sighting>, ttl: int): Option<Sighting> {
    if sightings == [] then None else
      var before := FirstLive(sightings[..|sightings| - 1], ttl);
      if before.Some? then before
      else if sightings[|sightings| - 1].Live(ttl) then Some(sightings[|sightings| - 1])
      else None
  }

  /** The pool holds for this symbol exactly the given candidate, if any. */
  ghost predicate HoldsFor(pool: seq<Candidate>, symbol: string, first: Option<Sighting>) {
    match first
    case None => forall c | c in pool :: c.symbol != symbol
    case Some(s) => CandidateOf(s) in pool && forall c | c in pool && c.symbol == symbol :: c == CandidateOf(s)
  }

  ghost predicate SameEvent(sightings: seq<Sighting>, symbol: string) {
    forall s | s in sightings :: s.symbol == symbol && s.eventId == sightings[0].eventId
  }

  lemma {:induction false} FilterKeepsOne(pool: seq<Candidate>, keep: Candidate -> bool)
    requires OnePerSymbol(pool)
    ensures OnePerSymbol(Filter(pool, keep))
  {
    if pool != [] {
      var init, last := pool[..|pool| - 1], pool[|pool| - 1];
      FilterKeepsOne(init, keep);
      forall c | c in Filter(init, keep) ensures c.symbol != last.symbol {
        var i :| 0 <= i < |init| && init[i] == c;
        assert pool[i] == c;
      }
    }
  }

  lemma TrackedKeepsOne(pool: seq<Candidate>, s: Sighting, ttl: int)
    requires OnePerSymbol(pool)
    ensures OnePerSymbol(Tracked(pool, s, ttl))
  {
    var kept := Filter(pool, StaysWith(s));
    FilterKeepsOne(pool, StaysWith(s));
    if !Holds(kept, (s.symbol, s.eventId)) {
      forall i | 0 <= i < |kept| ensures kept[i].symbol != s.symbol {
        assert kept[i] in kept;
      }
    }
  }

  lemma {:induction false} LatestIsOneEvent(sightings: seq<Sighting>, symbol: string)
    ensures SameEvent(LatestEvent(sightings, symbol), symbol)
  {
    if sightings != [] {
      LatestIsOneEvent(sightings[..|sightings| - 1], symbol);
    }
  }

  lemma {:induction false} FirstLiveIsIn(sightings: seq<Sighting>, ttl: int)
    ensures FirstLive(sightings, ttl).Some? ==> FirstLive(sightings, ttl).value in sightings
    ensures FirstLive(sightings, ttl).Some? ==> FirstLive(sightings, ttl).value.Live(ttl)
  {
    if sightings != [] {
      FirstLiveIsIn(sightings[..|sightings| - 1], ttl);
    }
  }

  lemma OtherSightings(pool: seq<Candidate>, s: Sighting, ttl: int, symbol: string, first: Option<Sighting>)
    requires HoldsFor(pool, symbol, first) && s.symbol != symbol && (first.Some? ==> first.value.symbol == symbol)
    ensures HoldsFor(Tracked(pool, s, ttl), symbol, first)
  {
  }

  /** The same event seen again: a tracked candidate stays as it is. */
  lemma SeenAgain(pool: seq<Candidate>, s: Sighting, ttl: int, first: Option<Sighting>)
    requires HoldsFor(pool, s.symbol, first) && s.eventId != ""
    requires first.Some? ==> first.value.symbol == s.symbol && first.value.eventId == s.eventId
    ensures HoldsFor(Tracked(pool, s, ttl), s.symbol, if first.Some? then first else if s.Live(ttl) then Some(s) else None)
  {
    if first.Some? {
      assert CandidateOf(first.value) in Filter(pool, StaysWith(s));
      assert Holds(Filter(pool, StaysWith(s)), (s.symbol, s.eventId));
    }
  }

  /** Another event of the symbol replaces what was tracked. */
  lemma SeenNew(pool: seq<Candidate>, s: Sighting, ttl: int, first: Option<Sighting>)
    requires HoldsFor(pool, s.symbol, first) && s.eventId != ""
    requires first.Some? ==> first.value.eventId != s.eventId
    ensures HoldsFor(Tracked(pool, s, ttl), s.symbol, if s.Live(ttl) then Some(s) else None)
  {
  }

  lemma FirstLiveNext(block: seq<Sighting>, s: Sighting, ttl: int)
    ensures FirstLive(block + [s], ttl) ==
            (if FirstLive(block, ttl).Some? then FirstLive(block, ttl) else if s.Live(ttl) then Some(s) else None)
  {
    assert (block + [s])[..|block|] == block;
  }

  lemma FirstLiveIsOf(block: seq<Sighting>, ttl: int, symbol: string)
    requires SameEvent(block, symbol)
    ensures var first := FirstLive(block, ttl);
      first.Some? ==> block != [] && first.value.symbol == symbol && first.value.eventId == block[0].eventId
  {
    FirstLiveIsIn(block, ttl);
  }

  lemma TrackedFor(pool: seq<Candidate>, s: Sighting, ttl: int, symbol: string, block: seq<Sighting>)
    requires SameEvent(block, symbol) && s.eventId != ""
    requires HoldsFor(pool, symbol, FirstLive(block, ttl))
    ensures HoldsFor(Tracked(pool, s, ttl), symbol, FirstLive(Extended(block, s, symbol), ttl))
  {
    FirstLiveIsOf(block, ttl, symbol);
    if s.symbol != symbol {
      OtherSightings(pool, s, ttl, symbol, FirstLive(block, ttl));
    } else if block != [] && block[0].eventId == s.eventId {
      FirstLiveNext(block, s, ttl);
      SeenAgain(pool, s, ttl, FirstLive(block, ttl));
    } else {
      FirstLiveNext([], s, ttl);
      assert [] + [s] == [s];
      SeenNew(pool, s, ttl, FirstLive(block, ttl));
    }
  }

  /** After any run of sightings, a symbol is tracked for its latest event only, and as
      the first sighting of that event that was still live left it: later sightings
      neither refresh nor move it. */
  lemma {:induction false} PoolIsFirstSightings(sightings: seq<Sighting>, ttl: int, symbol: string)
    ensures HoldsFor(TrackedAll(sightings, ttl), symbol, FirstLive(LatestEvent(sightings, symbol), ttl))
  {
    if sightings != [] {
      var init, last := sightings[..|sightings| - 1], sightings[|sightings| - 1];
      PoolIsFirstSightings(init, ttl, symbol);
      LatestIsOneEvent(init, symbol);
      if last.eventId != "" {
        TrackedFor(TrackedAll(init, ttl), last, ttl, symbol, LatestEvent(init, symbol));
      }
    }
  }

  /** When a sighting counts as added: at the time of the event's high, if it has one. */
  lemma AddedMeans(s: Sighting, ttl: int)
    ensures s.AddedAt() == (match s.eventHighTime case Some(t) => t case None => s.now)
    ensures s.Live(ttl) <==> s.now < s.AddedAt() + ttl
  {
  }

  /** A tracked candidate of a symbol is a sighting of its latest event: its event, the time
      of its high, when it was added and when it was seen, less than the time to live on. */
  lemma PoolMeans(sightings: seq<Sighting>, ttl: int, c: Candidate) returns (s: Sighting)
    requires c in TrackedAll(sightings, ttl)
    ensures s in LatestEvent(sightings, c.symbol) && c.symbol == s.symbol && c.eventId == s.eventId
    ensures c.eventHighTime == s.eventHighTime && c.poolAddedAt == s.now
    ensures c.addedAt == (if s.eventHighTime.Some? then s.eventHighTime.value else s.now)
    ensures c.poolAddedAt < c.addedAt + ttl
  {
    var block := LatestEvent(sightings, c.symbol);
    PoolIsFirstSightings(sightings, ttl, c.symbol);
    FirstLiveIsIn(block, ttl);
    s := FirstLive(block, ttl).value;
    AddedMeans(s, ttl);
  }

  lemma {:induction false} PoolHasOnePerSymbol(sightings: seq<Sighting>, ttl: int)
    ensures OnePerSymbol(TrackedAll(sightings, ttl))
  {
    if sightings != [] {
      PoolHasOnePerSymbol(sightings[..|sightings| - 1], ttl);
      TrackedKeepsOne(TrackedAll(sightings[..|sightings| - 1], ttl), sightings[|sightings| - 1], ttl);
    }
  }

  lemma KeysDiffer(pool: seq<Candidate>)
    requires OnePerSymbol(pool)
    ensures Unique(KeysOf(pool))
  {
    forall i, j | 0 <= i < j < |pool| ensures KeysOf(pool)[i] != KeysOf(pool)[j] {
      assert pool[i].symbol != pool[j].symbol;
    }
  }

  /** Between two changes of the pool the monitor is fair to every tracked event. */
  lemma MonitorIsFair(sightings: seq<Sighting>, ttl: int, cap: int, cursor: int, t: nat, c: Candidate)
    requires c in TrackedAll(sightings, ttl)
    ensures var keys := KeysOf(TrackedAll(sightings, ttl));
      && keys != []
      && FairShare(TimesSelected(Polls(keys, cap, cursor, t), KeyOf(c)), t * Width(cap, |keys|), |keys|)
      && (Enough(t, |keys|, cap) ==> TimesSelected(Polls(keys, cap, cursor, t), KeyOf(c)) >= 1)
  {
    var pool := TrackedAll(sightings, ttl);
    PoolHasOnePerSymbol(sightings, ttl);
    KeysDiffer(pool);
    var i :| 0 <= i < |pool| && pool[i] == c;
    assert KeysOf(pool)[i] == KeyOf(c);
    PollsAreBalanced(KeysOf(pool), cap, cursor, t, KeyOf(c));
    if Enough(t, |KeysOf(pool)|, cap) {
      EveryKeyIsReached(KeysOf(pool), cap, cursor, t, KeyOf(c));
    }
  }

  // ---------------------------------------------------------------- the object

  function NotKeyed(key: (string, string)): Candidate -> bool {
    (c: Candidate) => KeyOf(c) != key
  }

  function Popped(pool: seq<Candidate>, key: (string, string)): seq<Candidate> {
    Filter(pool, NotKeyed(key))
  }

  /** Popping one key of a pool with one event per symbol removes just that entry. */
  lemma PoppedIs(before: seq<Candidate>, x: Candidate, rest: seq<Candidate>)
    requires OnePerSymbol(before + [x] + rest)
    ensures Popped(before + [x] + rest, KeyOf(x)) == before + rest
  {
    var pool := before + [x] + rest;
    var keep := NotKeyed(KeyOf(x));
    forall c | c in before ensures keep(c) {
      var i :| 0 <= i < |before| && before[i] == c;
      assert pool[i] == c && pool[|before|] == x;
    }
    forall c | c in rest ensures keep(c) {
      var i :| 0 <= i < |rest| && rest[i] == c;
      assert pool[|before| + 1 + i] == c && pool[|before|] == x;
    }
    FilterConcat(before + [x], rest, keep);
    FilterConcat(before, [x], keep);
    FilterAll(before, keep);
    FilterAll(rest, keep);
    assert [x][..0] == [];
  }

  /** One round of the loop over the entries. */
  lemma RemovalStep(entries: seq<Candidate>, i: nat, s: Sighting, pool: seq<Candidate>)
    requires i < |entries| && OnePerSymbol(pool)
    requires pool == Filter(entries[..i], StaysWith(s)) + entries[i..]
    ensures OnePerSymbol(Popped(pool, KeyOf(entries[i])))
    ensures Filter(entries[..i + 1], StaysWith(s)) + entries[i + 1..] ==
      if Stays(entries[i], s) then pool else Popped(pool, KeyOf(entries[i]))
  {
    var x, done, rest := entries[i], Filter(entries[..i], StaysWith(s)), entries[i + 1..];
    assert entries[..i + 1][..i] == entries[..i];
    assert pool == done + [x] + rest;
    assert Filter(entries[..i + 1], StaysWith(s)) == if Stays(x, s) then done + [x] else done;
    OnePopped(pool, done, x, rest);
  }

  lemma OnePopped(pool: seq<Candidate>, done: seq<Candidate>, x: Candidate, rest: seq<Candidate>)
    requires OnePerSymbol(pool) && pool == done + [x] + rest
    ensures OnePerSymbol(Popped(pool, KeyOf(x))) && Popped(pool, KeyOf(x)) == done + rest
  {
    PoppedIs(done, x, rest);
    FilterKeepsOne(pool, NotKeyed(KeyOf(x)));
  }

  class FastMonitor {
    const maxActive: int
    const ttl: int
    var pool: seq<Candidate>
    var cursor: nat

    ghost predicate Valid()
      reads this
    {
      maxActive >= 1 && OnePerSymbol(pool)
    }

    constructor (maxActive: int, ttl: int)
      requires maxActive >= 1
      ensures Valid() && pool == [] && cursor == 0
      ensures this.maxActive == maxActive && this.ttl == ttl
    {
      this.maxActive, this.ttl := maxActive, ttl;
      pool, cursor := [], 0;
    }

    /** `_track_climax_candidate` */
    method Track(s: Sighting)
      requires Valid()
      modifies this`pool
      ensures pool == Tracked(old(pool), s, ttl)
      ensures Valid()
    {
      TrackedKeepsOne(pool, s, ttl);
      if s.eventId == "" {
        return;
      }
      RemoveReplaced(s);
      if Holds(pool, (s.symbol, s.eventId)) {
        return;
      }
      if s.now - s.AddedAt() >= ttl {
        return;
      }
      pool := pool + [CandidateOf(s)];
    }

    /** The loop that pops the symbol's other events. */
    method RemoveReplaced(s: Sighting)
      requires Valid()
      modifies this`pool
      ensures pool == Filter(old(pool), StaysWith(s))
      ensures Valid()
    {
      var entries := pool;
      for i := 0 to |entries|
        invariant pool == Filter(entries[..i], StaysWith(s)) + entries[i..]
        invariant OnePerSymbol(pool)
      {
        RemovalStep(entries, i, s, pool);
        if !Stays(entries[i], s) {
          pool := Popped(pool, KeyOf(entries[i]));
        }
      }
      assert entries[..|entries|] == entries;
    }

    /** `_select_fast_monitor_keys` */
    method SelectKeys(keys: seq<(string, string)>) returns (selected: seq<(string, string)>)
      requires Valid() && keys != []
      modifies this`cursor
      ensures selected == Slice(keys, old(cursor), maxActive)
      ensures cursor == Moved(old(cursor), maxActive, |keys|) < |keys|
    {
      var start := cursor % |keys|;
      var ordered := keys[start..] + keys[..start];
      selected := if maxActive < |ordered| then ordered[..maxActive] else ordered;
      SliceAt(keys, cursor, maxActive);
      forall i | 0 <= i < |selected| ensures selected[i] == keys[Place(start, i, |keys|)] {
      }
      cursor := (start + |selected|) % |keys|;
    }

    /** The polls of a round over an unchanged pool, each feeding the cursor to the next. */
    method PollTimes(t: nat) returns (polls: seq<seq<(string, string)>>)
      requires Valid() && pool != []
      modifies this`cursor
      ensures polls == Polls(KeysOf(pool), maxActive, old(cursor), t)
      ensures forall c | c in pool :: Enough(t, |pool|, maxActive) ==> TimesSelected(polls, KeyOf(c)) >= 1
    {
      polls := [];
      for k := 0 to t
        invariant polls == Polls(KeysOf(pool), maxActive, old(cursor), k)
        invariant cursor == CursorAfter(|pool|, maxActive, old(cursor), k)
      {
        var selected := SelectKeys(KeysOf(pool));
        polls := polls + [selected];
      }
      KeysDiffer(pool);
      forall c | c in pool && Enough(t, |pool|, maxActive) ensures TimesSelected(polls, KeyOf(c)) >= 1 {
        var i :| 0 <= i < |pool| && pool[i] == c;
        assert KeysOf(pool)[i] == KeyOf(c);
        EveryKeyIsReached(KeysOf(pool), maxActive, old(cursor), t, KeyOf(c));
      }
    }
  }
}
