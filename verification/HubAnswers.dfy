/** What the answers of the exchange do to the subscription sets, over any run. */
module HubAnswers {
  import opened Planning
  import opened Hub
  import opened HubSubscriptions
  import HubCycles

  /** The step empties the sets: a planned cycle starts, or a planned universe is adopted. */
  predicate Empties(step: Step) {
    (step.StartCycle? && step.planned.Success?) || (step.UpdateUniverse? && step.planned.Success?)
  }

  ghost predicate KeptSince(steps: seq<Step>, i: nat) {
    forall j | i < j < |steps| :: !Empties(steps[j])
  }

  /** Step i answers, with the given verdict, a request under way that carries the topic. */
  ghost predicate AnswersAt(start: HubState, steps: seq<Step>, i: nat, topic: string, verdict: bool)
    requires i < |steps|
  {
    Answers(Run(start, steps[..i]), steps[i], topic, verdict)
  }

  /** Step i ends the cycle, or fails to start one, while a request that carries the topic
      is under way. */
  ghost predicate LostAt(start: HubState, steps: seq<Step>, i: nat, topic: string)
    requires i < |steps|
  {
    Loses(Run(start, steps[..i]), steps[i], topic)
  }

  /** A positive answer came for the topic since the sets were last emptied. */
  ghost predicate Accepted(start: HubState, steps: seq<Step>, topic: string) {
    exists i: nat :: i < |steps| && AnswersAt(start, steps, i, topic, true) && KeptSince(steps, i)
  }

  /** A negative answer came for it, or its request was lost, since then. */
  ghost predicate Refused(start: HubState, steps: seq<Step>, topic: string) {
    exists i: nat :: i < |steps| && (AnswersAt(start, steps, i, topic, false) || LostAt(start, steps, i, topic)) && KeptSince(steps, i)
  }

  /** The step answers a request under way that carries the topic. */
  ghost predicate Answers(h: HubState, step: Step, topic: string, verdict: bool) {
    step.Ack? && step.success == verdict && step.id in h.pending && topic in h.pending[step.id]
  }

  ghost predicate Loses(h: HubState, step: Step, topic: string) {
    && (step.Drop? || (step.StartCycle? && step.planned.Failure?))
    && exists id :: id in h.pending && topic in h.pending[id]
  }

  // ---------------------------------------------------------------- one step

  lemma AcceptedNext(start: HubState, steps: seq<Step>, last: Step, topic: string)
    ensures Accepted(start, steps + [last], topic) <==>
      Answers(Run(start, steps), last, topic, true) || (!Empties(last) && Accepted(start, steps, topic))
  {
    var all := steps + [last];
    forall i: nat | i < |steps|
      ensures AnswersAt(start, all, i, topic, true) <==> AnswersAt(start, steps, i, topic, true)
      ensures KeptSince(all, i) <==> KeptSince(steps, i) && !Empties(last)
    {
      SamePrefix(steps, last, i);
    }
    assert KeptSince(all, |steps|) && all[..|steps|] == steps;
    if Accepted(start, all, topic) {
      var i: nat :| i < |all| && AnswersAt(start, all, i, topic, true) && KeptSince(all, i);
      assert i < |steps| ==> AnswersAt(start, steps, i, topic, true) && KeptSince(steps, i);
    }
    if !Empties(last) && Accepted(start, steps, topic) {
      var i: nat :| i < |steps| && AnswersAt(start, steps, i, topic, true) && KeptSince(steps, i);
      assert AnswersAt(start, all, i, topic, true) && KeptSince(all, i);
    }
  }

  lemma RefusedNext(start: HubState, steps: seq<Step>, last: Step, topic: string)
    ensures Refused(start, steps + [last], topic) <==>
      || Answers(Run(start, steps), last, topic, false) || Loses(Run(start, steps), last, topic)
      || (!Empties(last) && Refused(start, steps, topic))
  {
    var all := steps + [last];
    forall i: nat | i < |steps|
      ensures AnswersAt(start, all, i, topic, false) <==> AnswersAt(start, steps, i, topic, false)
      ensures LostAt(start, all, i, topic) <==> LostAt(start, steps, i, topic)
      ensures KeptSince(all, i) <==> KeptSince(steps, i) && !Empties(last)
    {
      SamePrefix(steps, last, i);
    }
    assert KeptSince(all, |steps|) && all[..|steps|] == steps;
    if Refused(start, all, topic) {
      var i: nat :| i < |all| && (AnswersAt(start, all, i, topic, false) || LostAt(start, all, i, topic)) && KeptSince(all, i);
      assert i < |steps| ==> (AnswersAt(start, steps, i, topic, false) || LostAt(start, steps, i, topic)) && KeptSince(steps, i);
    }
    if !Empties(last) && Refused(start, steps, topic) {
      var i: nat :| i < |steps| && (AnswersAt(start, steps, i, topic, false) || LostAt(start, steps, i, topic)) && KeptSince(steps, i);
      assert (AnswersAt(start, all, i, topic, false) || LostAt(start, all, i, topic)) && KeptSince(all, i);
    }
  }

  lemma SamePrefix(steps: seq<Step>, last: Step, i: nat)
    requires i < |steps|
    ensures (steps + [last])[..i] == steps[..i] && (steps + [last])[i] == steps[i]
    ensures KeptSince(steps + [last], i) <==> KeptSince(steps, i) && !Empties(last)
  {
    var all := steps + [last];
    if KeptSince(all, i) {
      assert !Empties(all[|steps|]);
      forall j | i < j < |steps| ensures !Empties(steps[j]) {
        assert !Empties(all[j]);
      }
    }
  }

  /** A positive answer to a request under way acknowledges all its topics and none of
      them counts as failed; a negative one fails all its topics and acknowledges none.
      Either way the request is settled and the other topics stay where they were. */
  lemma AnswerMeans(h: HubState, id: RequestId, success: bool, topic: string)
    requires SubscriptionInv(h) && id in h.pending
    ensures var r := Next(h, Ack(id, success));
      && (topic in r.acknowledged <==> topic in h.acknowledged || (success && topic in h.pending[id]))
      && (topic in r.failed <==> topic in h.failed || (!success && topic in h.pending[id]))
      && r.pending == h.pending - {id}
  {
    assert topic in h.pending[id] ==> topic in Elements(h.pending[id]);
  }

  lemma LossMeans(h: HubState, step: Step, topic: string)
    requires step.Drop? || step.StartCycle?
    ensures topic in Next(h, step).acknowledged <==> !Empties(step) && topic in h.acknowledged
    ensures topic in Next(h, step).failed <==> Loses(h, step, topic) || (!Empties(step) && topic in h.failed)
  {
  }

  lemma OtherStepMeans(h: HubState, step: Step, topic: string)
    requires !step.Ack? && !step.Drop? && !step.StartCycle?
    ensures topic in Next(h, step).acknowledged <==> !Empties(step) && topic in h.acknowledged
    ensures topic in Next(h, step).failed <==> !Empties(step) && topic in h.failed
  {
  }

  /** What any step does to the two sets. */
  lemma StepAnswers(h: HubState, step: Step, topic: string)
    requires SubscriptionInv(h)
    ensures topic in Next(h, step).acknowledged <==>
      Answers(h, step, topic, true) || (!Empties(step) && topic in h.acknowledged)
    ensures topic in Next(h, step).failed <==>
      Answers(h, step, topic, false) || Loses(h, step, topic) || (!Empties(step) && topic in h.failed)
  {
    if step.Ack? {
      if step.id in h.pending {
        AnswerMeans(h, step.id, step.success, topic);
      }
    } else if step.Drop? || step.StartCycle? {
      LossMeans(h, step, topic);
    } else {
      OtherStepMeans(h, step, topic);
    }
  }

  // ---------------------------------------------------------------- runs

  lemma PrefixIsRun(start: HubState, init: seq<Step>, last: Step)
    requires IsRun(start, init + [last])
    ensures IsRun(start, init)
  {
    var steps := init + [last];
    forall i | 0 <= i < |init| ensures Enabled(Run(start, init[..i]), init[i]) {
      assert init[..i] == steps[..i];
      assert Enabled(Run(start, steps[..i]), steps[i]);
    }
  }

  ghost predicate Decided(start: HubState, steps: seq<Step>, h: HubState, topic: string) {
    && (topic in h.acknowledged <==> Accepted(start, steps, topic))
    && (topic in h.failed <==> Refused(start, steps, topic))
  }

  lemma DecidedNext(start: HubState, steps: seq<Step>, last: Step, h: HubState, topic: string)
    requires h == Run(start, steps) && Decided(start, steps, h, topic) && SubscriptionInv(h)
    ensures Decided(start, steps + [last], Next(h, last), topic)
  {
    StepAnswers(h, last, topic);
    AcceptedNext(start, steps, last, topic);
    RefusedNext(start, steps, last, topic);
  }

  lemma DecidedStep(symbols: seq<string>, maxConnections: int, init: seq<Step>, last: Step, topic: string)
    requires IsRun(NewHub(symbols, maxConnections), init)
    requires Decided(NewHub(symbols, maxConnections), init, Run(NewHub(symbols, maxConnections), init), topic)
    ensures Decided(NewHub(symbols, maxConnections), init + [last], Run(NewHub(symbols, maxConnections), init + [last]), topic)
  {
    RunKeeps(symbols, maxConnections, init);
    DecidedNext(NewHub(symbols, maxConnections), init, last, Run(NewHub(symbols, maxConnections), init), topic);
    assert (init + [last])[..|init|] == init;
  }

  /** At every point of every run a topic is acknowledged exactly when a positive answer to
      a request that carried it came since the sets were last emptied, and failed exactly
      when a negative one came, or its request was lost, since then. */
  lemma {:induction false} AnswersDecide(symbols: seq<string>, maxConnections: int, steps: seq<Step>, topic: string)
    requires IsRun(NewHub(symbols, maxConnections), steps)
    ensures Decided(NewHub(symbols, maxConnections), steps, Run(NewHub(symbols, maxConnections), steps), topic)
    decreases |steps|
  {
    if steps != [] {
      var init, last := HubCycles.LastStep(steps);
      PrefixIsRun(NewHub(symbols, maxConnections), init, last);
      AnswersDecide(symbols, maxConnections, init, topic);
      DecidedStep(symbols, maxConnections, init, last, topic);
    }
  }
}
