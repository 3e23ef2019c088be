/** What the search keeps account of: every reserved model call, and where each
    candidate came from. */
module SearchLedger {
  import opened Text
  import opened Suites
  import opened Scoring
  import opened Search
  import opened SearchSafety
  import opened SearchRuns

  // --------------------------------------------------------- call accounting

  ghost predicate AllFit(suite: Suite, candidates: seq<Individual>, obs: seq<Observation>) {
    forall o :: o in obs ==> o.rollout.candidate < |candidates| && o.rollout.task < |suite.cases|
  }

  /** Model calls of the finished rollouts. */
  function Spent(suite: Suite, candidates: seq<Individual>, obs: seq<Observation>): nat
    requires AllFit(suite, candidates, obs)
  {
    if obs == [] then 0
    else Spent(suite, candidates, obs[..|obs| - 1]) + RolloutCalls(suite, candidates, obs[|obs| - 1].rollout)
  }

  function PendingRollouts(s: State): nat {
    if s.pending.Some? && s.pending.value.Evaluate? then 1 else 0
  }

  function PendingCalls(suite: Suite, s: State): nat
    requires FitsPending(suite, s)
  {
    if s.pending.Some? && s.pending.value.Evaluate? then RolloutCalls(suite, s.candidates, s.pending.value.rollout) else 0
  }

  /** Each reserved rollout is finished or pending, and nothing else was reserved. */
  ghost predicate Balanced(suite: Suite, s: State)
    requires Inv(suite, s)
  {
    && s.metricCalls == |s.observations| + PendingRollouts(s)
    && s.modelCallsReserved == s.proposalCalls + Spent(suite, s.candidates, s.observations) + PendingCalls(suite, s)
  }

  lemma {:induction false} SpentKeeps(suite: Suite, candidates: seq<Individual>, more: seq<Individual>, obs: seq<Observation>)
    requires AllFit(suite, candidates, obs) && candidates <= more
    ensures Spent(suite, more, obs) == Spent(suite, candidates, obs)
  {
    if obs != [] {
      SpentKeeps(suite, candidates, more, obs[..|obs| - 1]);
      assert obs[|obs| - 1] in obs;
    }
  }

  lemma AdvanceBalances(suite: Suite, s: State)
    requires Inv(suite, s) && s.pending.None? && Balanced(suite, s)
    requires Inv(suite, Advance(suite, s).state)
    ensures Balanced(suite, Advance(suite, s).state)
  {
    hide StartRound, SelectWinner, Mean, BestParent, SomeParentPerfect, Coverage;
    if s.queue == [] && s.stage.Choose? {
      hide Spent, RolloutCalls;
      ChooseKeepsCounters(suite, s);
    }
  }

  lemma ChooseKeepsCounters(suite: Suite, s: State)
    requires WellFormed(suite, s)
    ensures SameCounters(s, SelectWinner(suite, s).state) && SameCounters(s, StartRound(suite, s).state)
  {
    hide PlanRound, Frontier, Rollouts, Best;
  }

  ghost predicate SameCounters(s: State, t: State) {
    && t.candidates == s.candidates && t.observations == s.observations && t.pending == s.pending
    && t.metricCalls == s.metricCalls && t.proposalCalls == s.proposalCalls
    && t.modelCallsReserved == s.modelCallsReserved
  }

  lemma {:induction false} NextActionBalances(suite: Suite, s: State)
    requires Inv(suite, s) && Balanced(suite, s)
    ensures Inv(suite, NextAction(suite, s).0) && Balanced(suite, NextAction(suite, s).0)
    decreases RoundsLeft(s), Rank(s.stage), |s.queue|
  {
    hide Balanced;
    NextActionKeeps(suite, s);
    if s.pending.None? {
      AdvanceKeeps(suite, s);
      AdvanceProgress(suite, s);
      AdvanceBalances(suite, s);
      var turn := Advance(suite, s);
      if turn.Continue? {
        NextActionBalances(suite, turn.state);
      }
    }
  }

  lemma ReportBalances(suite: Suite, s: State, output: string, preflight: string, score: real)
    requires Inv(suite, s) && Balanced(suite, s)
    requires Inv(suite, CompleteRollout(s, output, preflight, score).0)
    ensures Balanced(suite, CompleteRollout(s, output, preflight, score).0)
  {
    var t := CompleteRollout(s, output, preflight, score).0;
    if t != s {
      assert t.observations[..|t.observations| - 1] == s.observations;
    }
  }

  lemma OfferBalances(suite: Suite, s: State, text: string, decoded: Decoded)
    requires Inv(suite, s) && Balanced(suite, s)
    requires Inv(suite, CompleteProposal(suite, s, text, decoded).0)
    ensures Balanced(suite, CompleteProposal(suite, s, text, decoded).0)
  {
    hide Revise, Known, Coverage, Settled, Budget, RolloutCalls, Row, ValidSuite, Best, Cases;
    var t := CompleteProposal(suite, s, text, decoded).0;
    SpentKeeps(suite, s.candidates, t.candidates, s.observations);
    hide Spent;
  }

  // ---------------------------------------------------------------- lineage

  ghost predicate Descends(candidates: seq<Individual>, c: nat, maxAgents: nat)
    requires c < |candidates|
  {
    var Individual(guidance, parents, origin) := candidates[c];
    && guidance.Valid(maxAgents)
    && (c < 2 ==> parents == [] && origin == FromSeed)
    && (c >= 2 ==>
          && 1 <= |parents| <= 2
          && (forall i :: 0 <= i < |parents| ==> parents[i] < c)
          && (|parents| == 2 ==> parents[0] != parents[1])
          && origin == if |parents| == 2 then FromMerge else FromReflection)
  }

  /** Parents precede their children, and no proposal repeats an earlier guidance. */
  ghost predicate Genealogy(s: State) {
    && (forall c :: 0 <= c < |s.candidates| ==> Descends(s.candidates, c, s.config.maxAgents))
    && (forall i, j :: 0 <= i < j < |s.candidates| && j >= 2 ==>
          !SameGuidance(s.candidates[i].guidance, s.candidates[j].guidance))
  }

  lemma ReviseKeepsValid(parent: Guidance, component: Component, text: string, decoded: Decoded, maxAgents: nat)
    requires parent.Valid(maxAgents)
    ensures var r := Revise(parent, component, text, decoded, maxAgents);
            r.Some? ==>
              && r.value.Valid(maxAgents)
              && (component.Instruction? ==> r.value.team == parent.team && r.value.instruction == text)
              && (component.Collaborators? ==> r.value.instruction == parent.instruction)
  {
  }

  lemma OfferDescends(suite: Suite, s: State, text: string, decoded: Decoded)
    requires Inv(suite, s) && Genealogy(s)
    ensures Genealogy(CompleteProposal(suite, s, text, decoded).0)
  {
    hide Coverage, Settled, Budget, Isolation, Revise, SameGuidance;
    var t := CompleteProposal(suite, s, text, decoded).0;
    if t.candidates != s.candidates {
      var Propose(parents, _, component) := s.pending.value;
      assert Descends(s.candidates, parents[0], s.config.maxAgents);
      ReviseKeepsValid(s.candidates[parents[0]].guidance, component, text, decoded, s.config.maxAgents);
      forall c | 0 <= c < |t.candidates|
        ensures Descends(t.candidates, c, s.config.maxAgents)
      {
        if c < |s.candidates| {
          assert Descends(s.candidates, c, s.config.maxAgents);
        }
      }
    }
  }

  // -------------------------------------------------------------- every run

  lemma LedgerStarts(config: Config, suite: Suite, seeds: seq<Guidance>)
    requires ValidSetup(config, suite, seeds)
    ensures var s := Start(config, suite, seeds); Inv(suite, s) && Balanced(suite, s) && Genealogy(s)
  {
    StartHolds(config, suite, seeds);
  }

  lemma ApplyBalances(suite: Suite, s: State, e: Event)
    requires Inv(suite, s) && Balanced(suite, s) && Genealogy(s)
    requires Inv(suite, Apply(suite, s, e).0)
    ensures Balanced(suite, Apply(suite, s, e).0) && Genealogy(Apply(suite, s, e).0)
  {
    hide NextAction, CompleteRollout, CompleteProposal, Balanced, Genealogy;
    match e
    case Ask =>
      NextActionBalances(suite, s);
      NextActionSteps(suite, s);
      SameGenealogy(s, NextAction(suite, s).0);
    case Report(output, preflight, score) =>
      ReportBalances(suite, s, output, preflight, score);
      RolloutSameGenealogy(s, output, preflight, score);
    case Offer(text, decoded) =>
      OfferBalances(suite, s, text, decoded);
      OfferDescends(suite, s, text, decoded);
  }

  lemma SameGenealogy(s: State, t: State)
    requires Genealogy(s) && t.candidates == s.candidates && t.config == s.config
    ensures Genealogy(t)
  {
  }

  lemma RolloutSameGenealogy(s: State, output: string, preflight: string, score: real)
    requires Genealogy(s)
    ensures Genealogy(CompleteRollout(s, output, preflight, score).0)
  {
    SameGenealogy(s, CompleteRollout(s, output, preflight, score).0);
  }

  lemma {:induction false} RunBalances(suite: Suite, s: State, events: seq<Event>)
    requires Inv(suite, s) && Balanced(suite, s) && Genealogy(s)
    ensures Balanced(suite, Run(suite, s, events)) && Genealogy(Run(suite, s, events))
  {
    hide Apply, Inv, Balanced, Genealogy;
    if events != [] {
      var before, e := Run(suite, s, events[..|events| - 1]), events[|events| - 1];
      RunBalances(suite, s, events[..|events| - 1]);
      ApplyKeeps(suite, before, e);
      ApplyBalances(suite, before, e);
    }
  }

  lemma {:induction false} SpentBound(suite: Suite, s: State, obs: seq<Observation>)
    requires AllFit(suite, s.candidates, obs) && ValidSuite(suite)
    requires forall c :: 0 <= c < |s.candidates| ==> s.candidates[c].guidance.Valid(s.config.maxAgents)
    ensures Spent(suite, s.candidates, obs) <= 12 * |obs|
  {
    if obs != [] {
      SpentBound(suite, s, obs[..|obs| - 1]);
      var r := obs[|obs| - 1].rollout;
      assert obs[|obs| - 1] in obs;
      assert s.candidates[r.candidate].guidance.Valid(s.config.maxAgents);
      assert suite.cases[r.task].Valid();
    }
  }

  /** In every run the reserved model calls are exactly those of the finished and
      pending rollouts plus one per proposal, and so bounded by the budgets;
      every candidate descends from older ones and repeats none of them. */
  lemma CallsAreAccounted(config: Config, suite: Suite, seeds: seq<Guidance>, events: seq<Event>)
    requires ValidSetup(config, suite, seeds)
    ensures Inv(suite, Start(config, suite, seeds))
    ensures var s := Run(suite, Start(config, suite, seeds), events);
            && Balanced(suite, s) && Genealogy(s)
            && s.modelCallsReserved <= 12 * config.maxMetricCalls + config.maxProposals
  {
    LedgerStarts(config, suite, seeds);
    var s0 := Start(config, suite, seeds);
    RunBalances(suite, s0, events);
    BudgetSafety(config, suite, seeds, events);
    IssuedCounts(suite, s0, events);
    ReservedBound(suite, Run(suite, s0, events));
  }

  lemma ReservedBound(suite: Suite, s: State)
    requires Inv(suite, s) && Balanced(suite, s) && Genealogy(s)
    ensures s.modelCallsReserved <= 12 * s.metricCalls + s.proposalCalls
  {
    hide Coverage, Settled, Budget;
    forall c | 0 <= c < |s.candidates|
      ensures s.candidates[c].guidance.Valid(s.config.maxAgents)
    {
      assert Descends(s.candidates, c, s.config.maxAgents);
    }
    SpentBound(suite, s, s.observations);
    if PendingRollouts(s) == 1 {
      var r := s.pending.value.rollout;
      assert s.candidates[r.candidate].guidance.Valid(s.config.maxAgents);
      assert suite.cases[r.task].Valid();
    }
  }
}
