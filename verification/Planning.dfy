/** Topic construction and greedy character-budget batching. */
module Planning {
  import opened Text
  import opened SortedStrings

  const DEFAULT_CONNECTION_TOPIC_BUDGET := 18_000
  const DEFAULT_REQUEST_BATCH_BUDGET := 8_000

  const TICKERS := "tickers."
  const KLINE := "kline.1."

  datatype PlanError = BudgetNotPositive | TopicTooLong(topic: string) | CapacityExceeded

  datatype Result<+T> = Success(value: T) | Failure(error: PlanError)

  datatype ConnectionTopics = ConnectionTopics(topics: seq<string>, batches: seq<seq<string>>)

  datatype TopicPlan = TopicPlan(topics: seq<string>, connections: seq<ConnectionTopics>)

  // ---------------------------------------------------------------- symbols

  predicate IsSpace(c: char) {
    '\t' <= c <= '\r' || (28 as char) <= c <= ' '
  }

  function StripLeft(s: string): string {
    if s != "" && IsSpace(s[0]) then StripLeft(s[1..]) else s
  }

  function StripRight(s: string): string {
    if s != "" && IsSpace(s[|s| - 1]) then StripRight(s[..|s| - 1]) else s
  }

  /** `str.strip` */
  function Strip(s: string): string {
    StripRight(StripLeft(s))
  }

  lemma {:induction false} StripLeftMeans(s: string) returns (i: nat)
    ensures i <= |s| && StripLeft(s) == s[i..]
    ensures forall k | 0 <= k < i :: IsSpace(s[k])
    ensures i < |s| ==> !IsSpace(s[i])
  {
    i := 0;
    if s != "" && IsSpace(s[0]) {
      var j := StripLeftMeans(s[1..]);
      i := j + 1;
      assert s[i..] == s[1..][j..];
      forall k | 0 <= k < i ensures IsSpace(s[k]) {
        assert k > 0 ==> IsSpace(s[1..][k - 1]);
      }
    }
  }

  lemma {:induction false} StripRightMeans(s: string) returns (j: nat)
    ensures j <= |s| && StripRight(s) == s[..j]
    ensures forall k | j <= k < |s| :: IsSpace(s[k])
    ensures j > 0 ==> !IsSpace(s[j - 1])
  {
    j := |s|;
    if s != "" && IsSpace(s[|s| - 1]) {
      j := StripRightMeans(s[..|s| - 1]);
      assert s[..|s| - 1][..j] == s[..j];
      forall k | j <= k < |s| ensures IsSpace(s[k]) {
        assert k < |s| - 1 ==> IsSpace(s[..|s| - 1][k]);
      }
    }
  }

  /** Stripping leaves the part between the first and the last character that is not white
      space. */
  lemma StripMeans(s: string) returns (i: nat, j: nat)
    ensures i <= j <= |s| && Strip(s) == s[i..j]
    ensures forall k | 0 <= k < |s| && !(i <= k < j) :: IsSpace(s[k])
    ensures i < j ==> !IsSpace(s[i]) && !IsSpace(s[j - 1])
  {
    i := StripLeftMeans(s);
    var t := StripLeft(s);
    var n := StripRightMeans(t);
    j := i + n;
    forall k | 0 <= k < |s| && !(i <= k < j) ensures IsSpace(s[k]) {
      assert k >= j ==> IsSpace(t[k - i]);
    }
    if i < j {
      assert t[0] == s[i] && t[n - 1] == s[j - 1];
    }
  }

  function Canonical(symbols: seq<string>): set<string> {
    set s | s in symbols && Strip(s) != "" :: Upper(Strip(s))
  }

  /** `normalize_symbols` */
  function NormalizeSymbols(symbols: seq<string>): seq<string> {
    Sorted(Canonical(symbols))
  }

  function TopicsOf(symbols: set<string>): set<string> {
    (set s | s in symbols :: TICKERS + s) + (set s | s in symbols :: KLINE + s)
  }

  function Topics(symbols: seq<string>): seq<string> {
    Sorted(TopicsOf(set s | s in NormalizeSymbols(symbols)))
  }

  // ---------------------------------------------------------------- splits

  function Size(topics: seq<string>): nat {
    if topics == [] then 0 else Size(topics[..|topics| - 1]) + |topics[|topics| - 1]|
  }

  function Flatten(groups: seq<seq<string>>): seq<string> {
    if groups == [] then [] else Flatten(groups[..|groups| - 1]) + groups[|groups| - 1]
  }

  /** An order-preserving split of the topics into groups within the budget. */
  ghost predicate ValidSplit(topics: seq<string>, groups: seq<seq<string>>, budget: int) {
    && Flatten(groups) == topics
    && forall i | 0 <= i < |groups| :: Size(groups[i]) <= budget
  }

  /** No group is empty, and none could have taken the next topic too. */
  ghost predicate Greedy(groups: seq<seq<string>>, budget: int) {
    && (forall i | 0 <= i < |groups| :: groups[i] != [])
    && (forall i, j | 0 <= i < |groups| && j == i + 1 < |groups| :: Size(groups[i]) + |groups[j][0]| > budget)
  }

  lemma SizeSnoc(topics: seq<string>, topic: string)
    ensures Size(topics + [topic]) == Size(topics) + |topic|
  {
    assert (topics + [topic])[..|topics|] == topics;
  }

  lemma FlattenSnoc(groups: seq<seq<string>>, group: seq<string>)
    ensures Flatten(groups + [group]) == Flatten(groups) + group
  {
    assert (groups + [group])[..|groups|] == groups;
  }

  lemma GreedyGrows(groups: seq<seq<string>>, last: seq<string>, topic: string, budget: int)
    requires last != [] && Greedy(groups + [last], budget)
    ensures Greedy(groups + [last + [topic]], budget)
  {
    var before := groups + [last];
    var after := groups + [last + [topic]];
    assert |last + [topic]| > 0;
    forall k | 0 <= k < |after| ensures after[k] != [] {
      assert k < |groups| ==> after[k] == before[k];
    }
    forall k | 0 <= k < |after| - 1 ensures Size(after[k]) + |after[k + 1][0]| > budget {
      assert after[k] == before[k] && after[k + 1][0] == before[k + 1][0];
    }
  }

  lemma GreedyCloses(groups: seq<seq<string>>, last: seq<string>, topic: string, budget: int)
    requires last != [] && Greedy(groups + [last], budget)
    requires Size(last) + |topic| > budget
    ensures Greedy(groups + [last] + [[topic]], budget)
  {
    var before := groups + [last];
    var after := before + [[topic]];
    forall k | 0 <= k < |after| - 1 ensures Size(after[k]) + |after[k + 1][0]| > budget {
      assert k < |before| - 1 ==> after[k + 1] == before[k + 1];
    }
  }

  /** The groups of `_partition` once the open one is added. */
  function Groups(result: seq<seq<string>>, current: seq<string>): seq<seq<string>> {
    if current == [] then result else result + [current]
  }

  /** The topics done so far are split into `result` and the open group. */
  ghost predicate Progress(done: seq<string>, result: seq<seq<string>>, current: seq<string>, budget: int) {
    && (current == [] ==> done == [] && result == [])
    && ValidSplit(done, Groups(result, current), budget)
    && Greedy(Groups(result, current), budget)
  }

  lemma ProgressGrows(done: seq<string>, result: seq<seq<string>>, current: seq<string>, topic: string, budget: int)
    requires Progress(done, result, current, budget)
    requires Size(current) + |topic| <= budget
    ensures Progress(done + [topic], result, current + [topic], budget)
  {
    SizeSnoc(current, topic);
    FlattenSnoc(result, current);
    FlattenSnoc(result, current + [topic]);
    if current != [] {
      GreedyGrows(result, current, topic, budget);
      assert Flatten(result) + (current + [topic]) == done + [topic];
    } else {
      assert Groups(result, current + [topic]) == [[topic]];
      assert Flatten([[topic]]) == [topic];
    }
  }

  lemma ProgressCloses(done: seq<string>, result: seq<seq<string>>, current: seq<string>, topic: string, budget: int)
    requires Progress(done, result, current, budget)
    requires current != [] && Size(current) + |topic| > budget && |topic| <= budget
    ensures Progress(done + [topic], result + [current], [topic], budget)
  {
    SizeSnoc([], topic);
    assert [] + [topic] == [topic];
    FlattenSnoc(result + [current], [topic]);
    GreedyCloses(result, current, topic, budget);
  }

  predicate Splittable(topics: seq<string>, budget: int) {
    budget > 0 && forall t | t in topics :: |t| <= budget
  }

  /** `_partition` */
  method Partition(topics: seq<string>, budget: int) returns (r: Result<seq<seq<string>>>)
    ensures r.Success? ==> ValidSplit(topics, r.value, budget) && Greedy(r.value, budget)
    ensures r.Success? <==> Splittable(topics, budget)
    ensures r == Failure(BudgetNotPositive) <==> budget <= 0
    ensures r.Failure? && r.error != BudgetNotPositive ==>
      r.error.TopicTooLong? && r.error.topic in topics && |r.error.topic| > budget
  {
    if budget <= 0 {
      return Failure(BudgetNotPositive);
    }
    var result: seq<seq<string>> := [];
    var current: seq<string> := [];
    var currentSize := 0;
    for i := 0 to |topics|
      invariant forall k | 0 <= k < i :: |topics[k]| <= budget
      invariant currentSize == Size(current)
      invariant Progress(topics[..i], result, current, budget)
    {
      var topic := topics[i];
      var size := |topic|;
      if size > budget {
        return Failure(TopicTooLong(topic));
      }
      assert topics[..i + 1] == topics[..i] + [topic];
      SizeSnoc(current, topic);
      if current != [] && currentSize + size > budget {
        ProgressCloses(topics[..i], result, current, topic, budget);
        SizeSnoc([], topic);
        result := result + [current];
        current := [];
        currentSize := 0;
        assert current + [topic] == [topic];
      } else {
        ProgressGrows(topics[..i], result, current, topic, budget);
      }
      current := current + [topic];
      currentSize := currentSize + size;
    }
    assert topics[..|topics|] == topics;
    if current != [] {
      result := result + [current];
    }
    return Success(result);
  }

  // ---------------------------------------------------------------- optimality

  lemma {:induction false} SizeConcat(a: seq<string>, b: seq<string>)
    ensures Size(a + b) == Size(a) + Size(b)
  {
    if b == [] {
      assert a + b == a;
    } else {
      assert (a + b)[..|a + b| - 1] == a + b[..|b| - 1];
      SizeConcat(a, b[..|b| - 1]);
    }
  }

  /** A group holding another one and the topic after it is at least as big. */
  lemma SizeAtLeast(topics: seq<string>, lo: nat, from: nat, to: nat, hi: nat)
    requires lo <= from <= to < hi <= |topics|
    ensures Size(topics[lo..hi]) >= Size(topics[from..to]) + |topics[to]|
  {
    assert topics[lo..hi] == topics[lo..from] + (topics[from..to] + ([topics[to]] + topics[to + 1..hi]));
    SizeConcat(topics[lo..from], topics[from..to] + ([topics[to]] + topics[to + 1..hi]));
    SizeConcat(topics[from..to], [topics[to]] + topics[to + 1..hi]);
    SizeConcat([topics[to]], topics[to + 1..hi]);
    SizeSnoc([], topics[to]);
    assert [] + [topics[to]] == [topics[to]];
  }

  /** How many topics the first `i` groups hold. */
  function Reach(groups: seq<seq<string>>, i: nat): nat
    requires i <= |groups|
  {
    |Flatten(groups[..i])|
  }

  /** Each group is the stretch of topics between two reaches. */
  lemma {:induction false} GroupIsStretch(groups: seq<seq<string>>, i: nat)
    requires i < |groups|
    ensures Reach(groups, i + 1) == Reach(groups, i) + |groups[i]| <= |Flatten(groups)|
    ensures Flatten(groups)[Reach(groups, i)..Reach(groups, i + 1)] == groups[i]
    decreases |groups|
  {
    assert groups[..i + 1][..i] == groups[..i];
    if i == |groups| - 1 {
      assert groups[..i + 1] == groups;
    } else {
      var init := groups[..|groups| - 1];
      assert init[..i] == groups[..i] && init[..i + 1] == groups[..i + 1];
      GroupIsStretch(init, i);
    }
  }

  /** The greedy split is never behind: after any number of groups it has placed at
      least as many topics as any other split within the budget. */
  lemma {:induction false} GreedyStaysAhead(topics: seq<string>, groups: seq<seq<string>>, other: seq<seq<string>>, budget: int, i: nat)
    requires ValidSplit(topics, groups, budget) && Greedy(groups, budget)
    requires ValidSplit(topics, other, budget)
    requires i <= |groups| && i <= |other|
    ensures Reach(groups, i) >= Reach(other, i)
  {
    if i > 0 {
      GreedyStaysAhead(topics, groups, other, budget, i - 1);
      GroupIsStretch(groups, i - 1);
      GroupIsStretch(other, i - 1);
      var lo, from, to, hi := Reach(other, i - 1), Reach(groups, i - 1), Reach(groups, i), Reach(other, i);
      if to < hi {
        assert i < |groups| by {
          assert groups[..|groups|] == groups;
        }
        GroupIsStretch(groups, i);
        assert topics[to] == groups[i][0];
        SizeAtLeast(topics, lo, from, to, hi);
      }
    }
  }

  /** No order-preserving split within the budget has fewer groups than the greedy one. */
  lemma GreedyIsOptimal(topics: seq<string>, groups: seq<seq<string>>, other: seq<seq<string>>, budget: int)
    requires ValidSplit(topics, groups, budget) && Greedy(groups, budget)
    requires ValidSplit(topics, other, budget)
    ensures |groups| <= |other|
  {
    if |groups| > |other| {
      GreedyStaysAhead(topics, groups, other, budget, |other|);
      assert other[..|other|] == other;
      GroupIsStretch(groups, |other|);
    }
  }

  /** The greedy split is the only greedy one: its groups are determined. */
  lemma {:induction false} GreedyIsUnique(topics: seq<string>, groups: seq<seq<string>>, other: seq<seq<string>>, budget: int)
    requires ValidSplit(topics, groups, budget) && Greedy(groups, budget)
    requires ValidSplit(topics, other, budget) && Greedy(other, budget)
    ensures groups == other
  {
    GreedyIsOptimal(topics, groups, other, budget);
    GreedyIsOptimal(topics, other, groups, budget);
    forall i | 0 <= i < |groups| ensures groups[i] == other[i] {
      GreedyStaysAhead(topics, groups, other, budget, i);
      GreedyStaysAhead(topics, other, groups, budget, i);
      GreedyStaysAhead(topics, groups, other, budget, i + 1);
      GreedyStaysAhead(topics, other, groups, budget, i + 1);
      GroupIsStretch(groups, i);
      GroupIsStretch(other, i);
    }
  }

  // ---------------------------------------------------------------- the plan

  function AllBatches(connections: seq<ConnectionTopics>): seq<seq<string>> {
    if connections == [] then [] else
      AllBatches(connections[..|connections| - 1]) + connections[|connections| - 1].batches
  }

  function AllGroups(connections: seq<ConnectionTopics>): seq<seq<string>> {
    if connections == [] then [] else
      AllGroups(connections[..|connections| - 1]) + [connections[|connections| - 1].topics]
  }

  ghost predicate Batched(c: ConnectionTopics, requestBudget: int) {
    ValidSplit(c.topics, c.batches, requestBudget) && Greedy(c.batches, requestBudget)
  }

  /** A split of the topics into at most `maxConnections` groups fits the budget. */
  ghost predicate Fits(topics: seq<string>, budget: int, maxConnections: int) {
    exists groups :: ValidSplit(topics, groups, budget) && |groups| <= maxConnections
  }

  /** Flattening connections, then batches, gives back the sorted topics. */
  lemma {:induction false} BatchesFlatten(connections: seq<ConnectionTopics>, requestBudget: int)
    requires forall i | 0 <= i < |connections| :: Batched(connections[i], requestBudget)
    ensures Flatten(AllBatches(connections)) == Flatten(AllGroups(connections))
  {
    if connections != [] {
      var init := connections[..|connections| - 1];
      var last := connections[|connections| - 1];
      BatchesFlatten(init, requestBudget);
      FlattenConcat(AllBatches(init), last.batches);
      FlattenSnoc(AllGroups(init), last.topics);
    }
  }

  lemma {:induction false} FlattenConcat(a: seq<seq<string>>, b: seq<seq<string>>)
    ensures Flatten(a + b) == Flatten(a) + Flatten(b)
  {
    if b == [] {
      assert a + b == a;
    } else {
      assert (a + b)[..|a + b| - 1] == a + b[..|b| - 1];
      FlattenConcat(a, b[..|b| - 1]);
    }
  }

  /** The batches of each connection. */
  method BatchGroups(groups: seq<seq<string>>, requestBudget: int) returns (r: Result<seq<ConnectionTopics>>)
    ensures r.Success? ==> AllGroups(r.value) == groups
    ensures r.Success? ==> forall i | 0 <= i < |r.value| :: Batched(r.value[i], requestBudget)
    ensures r.Failure? ==> r.error != CapacityExceeded
    ensures r.Success? <==> forall i | 0 <= i < |groups| :: Splittable(groups[i], requestBudget)
  {
    var connections: seq<ConnectionTopics> := [];
    for i := 0 to |groups|
      invariant |connections| == i
      invariant AllGroups(connections) == groups[..i]
      invariant forall k | 0 <= k < i :: Batched(connections[k], requestBudget)
      invariant forall k | 0 <= k < i :: Splittable(groups[k], requestBudget)
    {
      var batches := Partition(groups[i], requestBudget);
      if batches.Failure? {
        return Failure(batches.error);
      }
      var connection := ConnectionTopics(groups[i], batches.value);
      assert (connections + [connection])[..i] == connections;
      connections := connections + [connection];
    }
    assert groups[..|groups|] == groups;
    return Success(connections);
  }

  /** What a plan is: the sorted topics, split greedily over the connections and each
      connection's topics split greedily over its batches. */
  ghost predicate IsPlan(plan: TopicPlan, topics: seq<string>, connectionBudget: int, requestBudget: int, maxConnections: int) {
    && plan.topics == topics
    && ValidSplit(topics, AllGroups(plan.connections), connectionBudget)
    && Greedy(AllGroups(plan.connections), connectionBudget)
    && |plan.connections| <= maxConnections
    && (forall i | 0 <= i < |plan.connections| :: Batched(plan.connections[i], requestBudget))
    && Flatten(AllBatches(plan.connections)) == topics
  }

  /** `plan_topics` */
  method PlanTopics(symbols: seq<string>, connectionBudget: int, requestBudget: int, maxConnections: int)
    returns (r: Result<TopicPlan>)
    ensures r.Success? ==> IsPlan(r.value, Topics(symbols), connectionBudget, requestBudget, maxConnections)
    ensures r == Failure(CapacityExceeded) <==>
      && Splittable(Topics(symbols), connectionBudget)
      && !Fits(Topics(symbols), connectionBudget, maxConnections)
    ensures r.Success? <==>
      && Splittable(Topics(symbols), connectionBudget)
      && Fits(Topics(symbols), connectionBudget, maxConnections)
      && (Topics(symbols) == [] || Splittable(Topics(symbols), requestBudget))
  {
    var topics := Topics(symbols);
    var groups := Partition(topics, connectionBudget);
    if groups.Failure? {
      return Failure(groups.error);
    }
    FitsIff(topics, groups.value, connectionBudget, maxConnections);
    if |groups.value| > maxConnections {
      return Failure(CapacityExceeded);
    }
    SplittableGroups(groups.value, requestBudget);
    var connections := BatchGroups(groups.value, requestBudget);
    if connections.Failure? {
      return Failure(connections.error);
    }
    BatchesFlatten(connections.value, requestBudget);
    GroupCount(connections.value);
    return Success(TopicPlan(topics, connections.value));
  }

  /** Splitting every group within a budget is splitting all the topics within it. */
  lemma {:induction false} SplittableGroups(groups: seq<seq<string>>, budget: int)
    requires forall i | 0 <= i < |groups| :: groups[i] != []
    ensures (forall i | 0 <= i < |groups| :: Splittable(groups[i], budget)) <==>
      (Flatten(groups) == [] || Splittable(Flatten(groups), budget))
  {
    if groups != [] {
      var init := groups[..|groups| - 1];
      var last := groups[|groups| - 1];
      SplittableGroups(init, budget);
      assert forall i | 0 <= i < |init| :: groups[i] == init[i];
      assert Flatten(groups) == Flatten(init) + last;
      assert last[0] in Flatten(groups);
      if Splittable(Flatten(groups), budget) {
        assert forall t | t in last :: t in Flatten(groups);
        assert forall t | t in Flatten(init) :: t in Flatten(groups);
      }
    }
  }

  lemma {:induction false} GroupCount(connections: seq<ConnectionTopics>)
    ensures |AllGroups(connections)| == |connections|
  {
    if connections != [] {
      GroupCount(connections[..|connections| - 1]);
    }
  }

  /** The greedy split decides capacity: it fits exactly when some split does. */
  lemma FitsIff(topics: seq<string>, groups: seq<seq<string>>, budget: int, maxConnections: int)
    requires ValidSplit(topics, groups, budget) && Greedy(groups, budget)
    ensures Fits(topics, budget, maxConnections) <==> |groups| <= maxConnections
  {
    if Fits(topics, budget, maxConnections) {
      var other :| ValidSplit(topics, other, budget) && |other| <= maxConnections;
      GreedyIsOptimal(topics, groups, other, budget);
    }
  }

  /** The topics are, in order and each once, the two topics of every symbol; and the
      symbols matter only through the set of their stripped, upper-cased names. */
  lemma TopicsAreExact(symbols: seq<string>, topic: string)
    ensures Ascending(Topics(symbols))
    ensures topic in Topics(symbols) <==>
      exists s :: s in symbols && Strip(s) != "" && topic in {"tickers." + Upper(Strip(s)), "kline.1." + Upper(Strip(s))}
  {
    var normal := set s | s in NormalizeSymbols(symbols);
    assert normal == Canonical(symbols);
    if topic in Topics(symbols) {
      var name :| name in normal && topic in {TICKERS + name, KLINE + name};
      var s :| s in symbols && Strip(s) != "" && Upper(Strip(s)) == name;
    }
    if s :| s in symbols && Strip(s) != "" && topic in {TICKERS + Upper(Strip(s)), KLINE + Upper(Strip(s))} {
      assert Upper(Strip(s)) in normal;
    }
  }
}
