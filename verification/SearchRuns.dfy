/** Whole runs: any sequence of requests, scores and proposals, in any order. */
module SearchRuns {
  import opened Text
  import opened Suites
  import opened Scoring
  import opened Search
  import opened SearchSafety

  /** One call on the search, with whatever the environment supplies. */
  datatype Event =
    | Ask
    | Report(output: string, preflight: string, score: real)
    | Offer(text: string, decoded: Decoded)

  lemma {:induction false} NextActionKeeps(suite: Suite, s: State)
    requires Inv(suite, s)
    ensures var (t, reply) := NextAction(suite, s);
            && Inv(suite, t)
            && (s.pending.Some? ==> t == s && reply == Rejected(AlreadyReserved))
            && (s.pending.None? && reply.Reserved? ==> t.pending == Some(reply.action))
            && (s.pending.None? && !reply.Reserved? ==> reply.Finished? && t.stage.Complete? && t.pending.None?)
    decreases RoundsLeft(s), Rank(s.stage), |s.queue|
  {
    if s.pending.None? {
      AdvanceKeeps(suite, s);
      AdvanceProgress(suite, s);
      var turn := Advance(suite, s);
      if turn.Continue? {
        NextActionKeeps(suite, turn.state);
      }
    }
  }

  function Apply(suite: Suite, s: State, e: Event): (State, Reply)
    requires Inv(suite, s)
  {
    match e
    case Ask => NextAction(suite, s)
    case Report(output, preflight, score) => CompleteRollout(s, output, preflight, score)
    case Offer(text, decoded) => CompleteProposal(suite, s, text, decoded)
  }

  lemma ApplyKeeps(suite: Suite, s: State, e: Event)
    requires Inv(suite, s)
    ensures Inv(suite, Apply(suite, s, e).0)
  {
    match e
    case Ask => NextActionKeeps(suite, s);
    case Report(output, preflight, score) => CompleteRolloutKeeps(suite, s, output, preflight, score);
    case Offer(text, decoded) => CompleteProposalKeeps(suite, s, text, decoded);
  }

  /** The state after a run; the invariant holds in every state it visits. */
  function Run(suite: Suite, s: State, events: seq<Event>): (t: State)
    requires Inv(suite, s)
    ensures Inv(suite, t)
  {
    if events == [] then s
    else
      var before := Run(suite, s, events[..|events| - 1]);
      ApplyKeeps(suite, before, events[|events| - 1]);
      Apply(suite, before, events[|events| - 1]).0
  }

  /** The smallest setup: one case per split and a budget for the two comparisons. */
  lemma SetupExists() returns (config: Config, suite: Suite, seeds: seq<Guidance>)
    ensures ValidSetup(config, suite, seeds)
    ensures Inv(suite, Start(config, suite, seeds))
  {
    suite := SmallSuite();
    config := Config(4, 1, 1, 7, true, false, false, 1);
    seeds := [Guidance(None, "left", None), Guidance(None, "right", None)];
    SmallSuiteIsValid();
    OneEach(suite);
    hide ValidSuite, SmallSuite, Start, Inv, Cases;
    StartHolds(config, suite, seeds);
  }

  function SmallSuite(): Suite {
    Suite("s", [SmallCase("a", Train, "x"), SmallCase("b", Validation, "y"), SmallCase("c", Test, "z")])
  }

  function SmallCase(id: string, split: Split, input: string): Case {
    Case(id, split, input, Exact("ok"), None)
  }

  lemma SmallCaseIsValid(id: string, split: Split, input: string)
    requires |id| == |input| == 1 && !IsSpace(input[0])
    ensures SmallCase(id, split, input).Valid() && Trim(input) == input
  {
  }

  lemma SmallSuiteIsValid()
    ensures ValidSuite(SmallSuite())
  {
    var suite := SmallSuite();
    SmallCaseIsValid("a", Train, "x");
    SmallCaseIsValid("b", Validation, "y");
    SmallCaseIsValid("c", Test, "z");
    assert !Blank("s") by { assert !IsSpace("s"[0]); }
    assert suite.cases[0].split == Train && suite.cases[1].split == Validation && suite.cases[2].split == Test;
    assert "a"[0] != "b"[0] && "a"[0] != "c"[0] && "b"[0] != "c"[0];
    assert "x"[0] != "y"[0] && "x"[0] != "z"[0] && "y"[0] != "z"[0];
    hide Trim, Blank, Case.Valid;
  }

  lemma OneEach(suite: Suite)
    requires |suite.cases| == 3
    requires suite.cases[0].split == Train && suite.cases[1].split == Validation && suite.cases[2].split == Test
    ensures |Cases(suite, Train)| == 1 && |Cases(suite, Validation)| == 1 && |Cases(suite, Test)| == 1
  {
    forall split: Split
      ensures |Cases(suite, split)| == 1
    {
      assert CasesUpto(suite, split, 0) == [];
      assert |CasesUpto(suite, split, 1)| == if split == Train then 1 else 0;
      assert |CasesUpto(suite, split, 2)| == if split == Test then 0 else 1;
    }
  }

  // ---------------------------------------------------------------- budget

  ghost function Calls(s: State): nat {
    s.metricCalls + s.proposalCalls
  }

  /** Asking changes neither the candidates nor what was observed of them, and
      a fixed winner ends the proposals. */
  ghost predicate Asked(s: State, t: State) {
    && t.config == s.config && t.candidates == s.candidates && t.observations == s.observations
    && (s.winner.Some? ==> t.winner == s.winner && t.proposalCalls == s.proposalCalls)
  }

  lemma AdvanceSteps(suite: Suite, s: State)
    requires Inv(suite, s) && s.pending.None?
    ensures var turn := Advance(suite, s);
            Asked(s, turn.state) && Calls(turn.state) == Calls(s) + (if turn.Reserve? then 1 else 0)
  {
    AdvanceKeeps(suite, s);
  }

  lemma {:induction false} NextActionSteps(suite: Suite, s: State)
    requires Inv(suite, s)
    ensures var (t, reply) := NextAction(suite, s);
            Asked(s, t) && Calls(t) == Calls(s) + (if reply.Reserved? then 1 else 0)
    decreases RoundsLeft(s), Rank(s.stage), |s.queue|
  {
    if s.pending.None? {
      AdvanceKeeps(suite, s);
      AdvanceProgress(suite, s);
      AdvanceSteps(suite, s);
      var turn := Advance(suite, s);
      if turn.Continue? {
        NextActionSteps(suite, turn.state);
      }
    }
  }

  lemma ApplySteps(suite: Suite, s: State, e: Event)
    requires Inv(suite, s)
    ensures var (t, reply) := Apply(suite, s, e);
            && t.config == s.config && s.candidates <= t.candidates && s.observations <= t.observations
            && Calls(t) == Calls(s) + (if reply.Reserved? then 1 else 0)
            && (s.winner.Some? ==>
                  t.winner == s.winner && t.candidates == s.candidates && t.proposalCalls == s.proposalCalls)
  {
    if e.Ask? {
      NextActionSteps(suite, s);
    }
  }

  /** How many actions a run was handed. */
  function Issued(suite: Suite, s: State, events: seq<Event>): nat
    requires Inv(suite, s)
  {
    if events == [] then 0
    else
      var before := Run(suite, s, events[..|events| - 1]);
      Issued(suite, s, events[..|events| - 1])
      + (if Apply(suite, before, events[|events| - 1]).1.Reserved? then 1 else 0)
  }

  /** Everything a run was answered: actions, completion, records and refusals. */
  function Replies(suite: Suite, s: State, events: seq<Event>): (r: seq<Reply>)
    requires Inv(suite, s)
    ensures |r| == |events|
  {
    if events == [] then []
    else
      var front := events[..|events| - 1];
      Replies(suite, s, front) + [Apply(suite, Run(suite, s, front), events[|events| - 1]).1]
  }

  lemma {:induction false} IssuedCounts(suite: Suite, s: State, events: seq<Event>)
    requires Inv(suite, s)
    ensures var t := Run(suite, s, events);
            && t.config == s.config
            && Calls(t) == Calls(s) + Issued(suite, s, events)
  {
    if events != [] {
      IssuedCounts(suite, s, events[..|events| - 1]);
      ApplySteps(suite, Run(suite, s, events[..|events| - 1]), events[|events| - 1]);
    }
  }

  /** Budget safety: no run overspends, no run meets an internal error, and before
      a winner is fixed the final comparison of two candidates stays affordable. */
  lemma BudgetSafety(config: Config, suite: Suite, seeds: seq<Guidance>, events: seq<Event>)
    requires ValidSetup(config, suite, seeds)
    ensures Inv(suite, Start(config, suite, seeds))
    ensures var s := Run(suite, Start(config, suite, seeds), events);
            && s.metricCalls <= config.maxMetricCalls && s.proposalCalls <= config.maxProposals
            && (s.winner.None? ==> s.metricCalls + 2 * |Cases(suite, Test)| <= config.maxMetricCalls)
            && Issued(suite, Start(config, suite, seeds), events) <= config.maxMetricCalls + config.maxProposals
            && var reply := NextAction(suite, s).1;
               if s.pending.Some? then reply == Rejected(AlreadyReserved) else reply.Reserved? || reply.Finished?
  {
    StartHolds(config, suite, seeds);
    var s0 := Start(config, suite, seeds);
    IssuedCounts(suite, s0, events);
    NextActionKeeps(suite, Run(suite, s0, events));
  }

  // ------------------------------------------------------------- completion

  /** The worker's loop: ask, carry the action out, repeat. Its answers are
      arbitrary as long as each is one the search accepts. */
  ghost predicate Cooperative(suite: Suite, oracle: (State, Action) -> Event) {
    forall s, a :: Inv(suite, s) && s.pending == Some(a) ==>
      !oracle(s, a).Ask? && Apply(suite, s, oracle(s, a)).1 == Recorded
  }

  lemma CompletionFrees(suite: Suite, s: State, e: Event)
    requires Inv(suite, s) && !e.Ask? && Apply(suite, s, e).1 == Recorded
    ensures var t := Apply(suite, s, e).0;
            && t.pending.None? && t.config == s.config
            && t.metricCalls == s.metricCalls && t.proposalCalls == s.proposalCalls
  {
  }

  /** A worker exists: one that reports a middling score and offers a fixed text. */
  lemma CooperativeExists(suite: Suite) returns (oracle: (State, Action) -> Event)
    ensures Cooperative(suite, oracle)
  {
    oracle := (s: State, a: Action) => if a.Evaluate? then Report("", "", 0.5) else Offer("x", Null);
    assert !Blank("x") by { assert !IsSpace("x"[0]); }
  }

  lemma {:induction false} RunSplits(suite: Suite, s: State, first: seq<Event>, more: seq<Event>)
    requires Inv(suite, s)
    ensures Run(suite, s, first + more) == Run(suite, Run(suite, s, first), more)
  {
    hide Apply, Inv;
    if more == [] {
      assert first + more == first;
    } else {
      RunSplits(suite, s, first, more[..|more| - 1]);
      assert (first + more)[..|first + more| - 1] == first + more[..|more| - 1];
    }
  }

  lemma RunTwo(suite: Suite, s: State, e: Event, f: Event)
    requires Inv(suite, s) && Inv(suite, Apply(suite, s, e).0)
    ensures Run(suite, s, [e]) == Apply(suite, s, e).0
    ensures Run(suite, s, [e, f]) == Apply(suite, Apply(suite, s, e).0, f).0
  {
    hide Apply, Inv;
    assert [e][..0] == [] && [e, f][..1] == [e];
  }

  /** The events of a driven search. It ends: after at most `maxMetricCalls +
      maxProposals` actions, each asked for and answered once, the last request finds
      it complete with its four application scores defined. */
  ghost function Drive(suite: Suite, s: State, oracle: (State, Action) -> Event): (events: seq<Event>)
    requires Inv(suite, s) && s.pending.None? && Cooperative(suite, oracle)
    ensures var t := Run(suite, s, events);
            && t.stage.Complete? && t.pending.None? && ApplicationScores(suite, t).Some?
    ensures |events| == 2 * Issued(suite, s, events) + 1
    ensures Issued(suite, s, events) <= s.config.maxMetricCalls + s.config.maxProposals - Calls(s)
    decreases s.config.maxMetricCalls + s.config.maxProposals - s.metricCalls - s.proposalCalls
  {
    NextActionKeeps(suite, s);
    NextActionSteps(suite, s);
    var (t, reply) := NextAction(suite, s);
    if reply.Finished? then
      CompleteIsScored(suite, t);
      RunTwo(suite, s, Ask, Ask);
      DriveCounts(suite, s, [Ask]);
      [Ask]
    else
      var answer := oracle(t, reply.action);
      ApplyKeeps(suite, t, answer);
      CompletionFrees(suite, t, answer);
      RunTwo(suite, s, Ask, answer);
      var rest := Drive(suite, Apply(suite, t, answer).0, oracle);
      RunSplits(suite, s, [Ask, answer], rest);
      DriveCounts(suite, s, [Ask, answer] + rest);
      DriveCounts(suite, Apply(suite, t, answer).0, rest);
      [Ask, answer] + rest
  }

  lemma DriveCounts(suite: Suite, s: State, events: seq<Event>)
    requires Inv(suite, s)
    ensures Issued(suite, s, events) == Calls(Run(suite, s, events)) - Calls(s)
    ensures Issued(suite, s, events) <= s.config.maxMetricCalls + s.config.maxProposals - Calls(s)
  {
    IssuedCounts(suite, s, events);
    WithinBudget(suite, Run(suite, s, events));
  }

  lemma WithinBudget(suite: Suite, s: State)
    requires Inv(suite, s)
    ensures s.metricCalls <= s.config.maxMetricCalls && s.proposalCalls <= s.config.maxProposals
  {
  }

  lemma CompleteIsScored(suite: Suite, s: State)
    requires Inv(suite, s) && s.stage.Complete?
    ensures ApplicationScores(suite, s).Some?
  {
    ReachesMeasured(suite, s, 0, Cases(suite, Test));
    ReachesMeasured(suite, s, s.winner.value, Cases(suite, Test));
  }

  /** A finished search is applied exactly when its winner is not the current
      guidance and does not lose to it on the held-out test. */
  lemma CanApplyMeans(suite: Suite, s: State)
    requires Inv(suite, s) && s.stage.Complete?
    ensures s.winner.Some? && Measured(s.observations, 0, Cases(suite, Test))
    ensures Measured(s.observations, s.winner.value, Cases(suite, Test))
    ensures CanApply(suite, s) <==>
            && s.winner.value != 0
            && Mean(s.observations, s.winner.value, Cases(suite, Test)).value
               >= Mean(s.observations, 0, Cases(suite, Test)).value
  {
    CompleteIsScored(suite, s);
    ReachesMeasured(suite, s, 0, Cases(suite, Test));
    ReachesMeasured(suite, s, s.winner.value, Cases(suite, Test));
  }

  // ----------------------------------------------------- held-out isolation

  ghost predicate IsTest(suite: Suite, r: Rollout) {
    r.task < |suite.cases| && suite.cases[r.task].split == Test
  }

  /** No test case is queued, reserved or observed before the winner is fixed;
      the winner is the best validated candidate and lies on the frontier. */
  lemma TestOnlyAfterWinner(suite: Suite, s: State, r: Rollout)
    requires Inv(suite, s)
    requires IsTest(suite, r) && (Waiting(s, r) || Observed(s.observations, r))
    ensures s.winner.Some?
    ensures IsBest(s.observations, |s.candidates|, Cases(suite, Validation), s.winner.value)
    ensures s.winner.value in Frontier(s.observations, |s.candidates|, Cases(suite, Validation))
  {
    if Waiting(s, r) {
      assert Needed(suite, s, r);
    }
    BestIsOnFrontier(s.observations, |s.candidates|, Cases(suite, Validation), s.winner.value);
  }

  lemma {:induction false} WinnerIsFixed(suite: Suite, s: State, events: seq<Event>)
    requires Inv(suite, s) && s.winner.Some?
    ensures var t := Run(suite, s, events);
            t.winner == s.winner && t.candidates == s.candidates && t.proposalCalls == s.proposalCalls
  {
    if events != [] {
      WinnerIsFixed(suite, s, events[..|events| - 1]);
      ApplySteps(suite, Run(suite, s, events[..|events| - 1]), events[|events| - 1]);
    }
  }

  /** A reserved proposal is briefed, and only with training cases. */
  lemma ProposalsSeeTrainingOnly(suite: Suite, s: State)
    requires Inv(suite, s) && s.pending.Some? && s.pending.value.Propose?
    ensures var brief := ProposalInput(suite, s);
            && brief.Briefed?
            && |brief.brief.parents| == |s.pending.value.parents|
            && forall p, i :: 0 <= p < |brief.brief.parents| && 0 <= i < |brief.brief.parents[p].examples| ==>
                 BriefedFrom(suite, s, s.pending.value.parents[p], brief.brief.parents[p].examples[i])
  {
    var Propose(parents, batch, _) := s.pending.value;
    assert TrainingOnly(suite, batch) by {
      assert forall i :: 0 <= i < |batch| ==> batch[i] in batch;
    }
    var brief := ProposalInput(suite, s).brief;
    forall p, i | 0 <= p < |brief.parents| && 0 <= i < |brief.parents[p].examples|
      ensures BriefedFrom(suite, s, parents[p], brief.parents[p].examples[i])
    {
      assert brief.parents[p] == LessonFor(suite, s, parents[p], batch);
      ReachesMeasured(suite, s, parents[p], batch);
      assert suite.cases[batch[i]].split == Train;
    }
  }

  /** An example quotes a training case and this parent's observation of it. */
  ghost predicate BriefedFrom(suite: Suite, s: State, parent: nat, e: Example) {
    exists x: nat :: x < |suite.cases| && suite.cases[x].split == Train
      && e.input == suite.cases[x].input && e.check == suite.cases[x].check
      && e.observed.Some? && e.observed.value.rollout == Rollout(parent, x)
      && e.observed.value in s.observations
  }
}
