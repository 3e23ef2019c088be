/** The invariant of the search and its preservation by every call. */
module SearchSafety {
  import opened Text
  import opened Suites
  import opened Scoring
  import opened Search
  import T = Training

  // ------------------------------------------------------------ invariant

  ghost predicate Waiting(s: State, r: Rollout) {
    r in s.queue || s.pending == Some(Evaluate(r))
  }

  /** The rollouts whose results the current stage is there to obtain. */
  ghost predicate Needed(suite: Suite, s: State, r: Rollout) {
    match s.stage
    case Seeds => r.candidate < 2 && r.task in Cases(suite, Validation)
    case Choose => false
    case Reflect(parents, batch) => r.candidate in parents && r.task in batch
    case Trial(candidate, _, batch) => r.candidate == candidate && r.task in batch
    case Validate => r.candidate == |s.candidates| - 1 && r.task in Cases(suite, Validation)
    case _ => s.winner.Some? && (r.candidate == 0 || r.candidate == s.winner.value) && r.task in Cases(suite, Test)
  }

  /** Exactly the needed rollouts are queued, reserved or already observed. */
  ghost predicate Coverage(suite: Suite, s: State) {
    && (forall r :: Needed(suite, s, r) ==> Waiting(s, r) || Observed(s.observations, r))
    && (forall r :: Waiting(s, r) ==> Needed(suite, s, r))
  }

  ghost predicate Settled(suite: Suite, s: State) {
    && (!s.stage.Seeds? ==> Measured(s.observations, 0, Cases(suite, Validation)))
    && (s.stage.Trial? ==> forall p :: p in s.stage.parents ==> Measured(s.observations, p, s.stage.batch))
  }

  ghost predicate ReadyBatch(suite: Suite, s: State, parents: seq<nat>, batch: seq<nat>) {
    && 1 <= |parents| <= 2 && (|parents| == 2 ==> parents[0] != parents[1])
    && |batch| == s.config.minibatchSize
    && forall x :: x in batch ==> x in Cases(suite, Train)
  }

  ghost predicate Shape(suite: Suite, s: State) {
    && 2 <= |s.candidates|
    && (s.stage.Choose? || s.stage.Complete? ==> s.queue == [] && s.pending.None?)
    && (s.pending.Some? && s.pending.value.Propose? ==>
          && s.queue == [] && s.stage == Reflect(s.pending.value.parents, s.pending.value.batch)
          && (s.pending.value.component.Collaborators? <==> s.config.evolveTeam && s.proposalCalls % 2 == 0))
    && (s.stage.Reflect? || s.stage.Trial? ==> ReadyBatch(suite, s, s.stage.parents, s.stage.batch))
    && (s.stage.Trial? ==>
          && s.stage.candidate == |s.candidates| - 1
          && s.candidates[s.stage.candidate].parents == s.stage.parents)
    && (s.stage.Trial? || s.stage.Validate? ==> 3 <= |s.candidates|)
  }

  /** Rollouts that the rest of the round and the final comparison may cost. */
  function Ahead(suite: Suite, s: State): nat {
    var validation, test := |Cases(suite, Validation)|, |Cases(suite, Test)|;
    match s.stage
    case Reflect(_, _) => s.config.minibatchSize + validation + 2 * test
    case Trial(_, _, _) => validation + 2 * test
    case Final => 0
    case Complete => 0
    case _ => 2 * test
  }

  ghost predicate Budget(suite: Suite, s: State) {
    && s.metricCalls + |s.queue| + Ahead(suite, s) <= s.config.maxMetricCalls
    && s.proposalCalls <= s.config.maxProposals
    && (s.stage.Reflect? && !(s.pending.Some? && s.pending.value.Propose?) ==> s.proposalCalls < s.config.maxProposals)
  }

  /** Test results exist only once a winner is fixed, and the winner is the
      best validated candidate. */
  ghost predicate Isolation(suite: Suite, s: State)
    requires ValidSuite(suite)
  {
    && (s.winner.Some? <==> s.stage.Final? || s.stage.Complete?)
    && (forall o :: o in s.observations ==> FitsRollout(suite, s, o.rollout))
    && (s.winner.None? ==> forall o :: o in s.observations ==> suite.cases[o.rollout.task].split != Test)
    && (s.winner.Some? ==> Best(s.observations, |s.candidates|, Cases(suite, Validation)) == s.winner)
  }

  ghost predicate Inv(suite: Suite, s: State) {
    && WellFormed(suite, s)
    && Shape(suite, s)
    && Coverage(suite, s)
    && Settled(suite, s)
    && Budget(suite, s)
    && Isolation(suite, s)
  }

  // -------------------------------------------------------------- initially

  lemma StartHolds(config: Config, suite: Suite, seeds: seq<Guidance>)
    requires ValidSetup(config, suite, seeds)
    ensures Inv(suite, Start(config, suite, seeds))
  {
    var train, s := Cases(suite, Train), Start(config, suite, seeds);
    T.ShuffleIsFair(train, T.Seed(config.seed));
    ProductFits(suite, s, [0, 1], Cases(suite, Validation));
  }

  // -------------------------------------------------------- within the loop

  lemma ReachesMeasured(suite: Suite, s: State, candidate: nat, tasks: seq<nat>)
    requires Coverage(suite, s) && s.queue == [] && !(s.pending.Some? && s.pending.value.Evaluate?)
    requires forall x :: x in tasks ==> Needed(suite, s, Rollout(candidate, x))
    ensures Measured(s.observations, candidate, tasks)
  {
    forall i | 0 <= i < |tasks|
      ensures Observed(s.observations, Rollout(candidate, tasks[i]))
    {
      assert Needed(suite, s, Rollout(candidate, tasks[i]));
    }
  }

  lemma DispatchKeepsCoverage(suite: Suite, s: State)
    requires Inv(suite, s) && s.pending.None? && s.queue != []
    ensures Coverage(suite, Dispatch(suite, s).state) || Dispatch(suite, s).Abort?
  {
    var r, turn := s.queue[0], Dispatch(suite, s);
    if !turn.Abort? {
      var t := turn.state;
      assert s.queue == [r] + s.queue[1..];
      forall x
        ensures Needed(suite, t, x) == Needed(suite, s, x)
        ensures Waiting(t, x) ==> Waiting(s, x)
        ensures Waiting(s, x) ==> Waiting(t, x) || Observed(t.observations, x)
      {
      }
    }
  }

  lemma DispatchKeeps(suite: Suite, s: State)
    requires Inv(suite, s) && s.pending.None? && s.queue != []
    ensures var turn := Dispatch(suite, s); !turn.Abort? && Inv(suite, turn.state)
  {
    DispatchKeepsCoverage(suite, s);
    var t := Dispatch(suite, s).state;
    assert t.stage == s.stage && t.observations == s.observations && t.candidates == s.candidates;
    assert |t.queue| == |s.queue| - 1;
    assert WellFormed(suite, t);
    assert Shape(suite, t);
    assert Settled(suite, t);
    assert Isolation(suite, t);
  }

  lemma LeaveSeedsOrValidate(suite: Suite, s: State)
    requires Inv(suite, s) && s.pending.None? && s.queue == [] && (s.stage.Seeds? || s.stage.Validate?)
    ensures Inv(suite, s.(stage := Choose))
  {
    if s.stage.Seeds? {
      ReachesMeasured(suite, s, 0, Cases(suite, Validation));
    }
  }

  lemma SelectWinnerKeeps(suite: Suite, s: State)
    requires Inv(suite, s) && s.pending.None? && s.queue == [] && s.stage.Choose?
    ensures var turn := SelectWinner(suite, s); turn.Continue? && Inv(suite, turn.state)
  {
    SelectWinnerWellFormed(suite, s);
    FinalKeeps(suite, s, SelectWinner(suite, s).state);
  }

  lemma FinalKeeps(suite: Suite, s: State, t: State)
    requires Inv(suite, s) && s.pending.None? && s.queue == [] && s.stage.Choose?
    requires t.winner.Some? && Best(s.observations, |s.candidates|, Cases(suite, Validation)) == t.winner
    requires t == s.(winner := t.winner, stage := Final,
                     queue := Rollouts(if t.winner.value == 0 then [0] else [0, t.winner.value], Cases(suite, Test)))
    requires WellFormed(suite, t)
    ensures Inv(suite, t)
  {
    hide Coverage, Best, Rollouts, Cases, ValidSuite, Measured;
    FinalCoverage(suite, s, t);
    assert |t.queue| <= 2 * |Cases(suite, Test)|;
    hide WellFormed;
  }

  lemma FinalCoverage(suite: Suite, s: State, t: State)
    requires s.pending.None? && t.winner.Some?
    requires t == s.(winner := t.winner, stage := Final,
                     queue := Rollouts(if t.winner.value == 0 then [0] else [0, t.winner.value], Cases(suite, Test)))
    ensures Coverage(suite, t)
  {
    forall r
      ensures Needed(suite, t, r) <==> Waiting(t, r)
    {
    }
  }

  lemma StartRoundKeeps(suite: Suite, s: State)
    requires Inv(suite, s) && s.pending.None? && s.queue == [] && s.stage.Choose? && !OutOfBudget(suite, s)
    ensures var turn := StartRound(suite, s); turn.Continue? && Inv(suite, turn.state)
  {
    var m := FrontierCovers(s.observations, |s.candidates|, Cases(suite, Validation), 0);
    StartRoundGives(suite, s);
    StartRoundWellFormed(suite, s);
    RoundKeeps(suite, s, StartRound(suite, s).state);
  }

  lemma RoundKeeps(suite: Suite, s: State, t: State)
    requires Inv(suite, s) && s.pending.None? && s.queue == [] && s.stage.Choose? && !OutOfBudget(suite, s)
    requires WellFormed(suite, t) && Round(suite, s, t)
    ensures Inv(suite, t)
  {
    forall r
      ensures Needed(suite, t, r) <==> Waiting(t, r)
    {
    }
    var b := s.config.minibatchSize;
    assert |t.queue| == |t.stage.parents| * b <= 2 * b;
  }

  lemma AskProposalKeeps(suite: Suite, s: State)
    requires Inv(suite, s) && s.pending.None? && s.queue == [] && s.stage.Reflect?
    ensures var turn := AskProposal(s, s.stage.parents, s.stage.batch); Inv(suite, turn.state)
  {
    hide Coverage, Best, Cases, ValidSuite, Measured;
    AskProposalCoverage(suite, s);
  }

  lemma AskProposalCoverage(suite: Suite, s: State)
    requires Inv(suite, s) && s.pending.None? && s.queue == [] && s.stage.Reflect?
    ensures Coverage(suite, AskProposal(s, s.stage.parents, s.stage.batch).state)
  {
    var t := AskProposal(s, s.stage.parents, s.stage.batch).state;
    forall r
      ensures !Waiting(t, r)
      ensures Needed(suite, t, r) ==> Needed(suite, s, r)
    {
    }
  }

  /** A trial is promoted exactly when it strictly beats every parent. */
  ghost predicate Beats(obs: seq<Observation>, candidate: nat, parents: seq<nat>, batch: seq<nat>)
    requires batch != []
  {
    && Measured(obs, candidate, batch)
    && Mean(obs, candidate, batch).value > 0.0
    && forall p :: p in parents ==>
         Measured(obs, p, batch) && Mean(obs, candidate, batch).value > Mean(obs, p, batch).value
  }

  lemma JudgeTrialDecides(suite: Suite, s: State)
    requires Inv(suite, s) && s.pending.None? && s.queue == [] && s.stage.Trial?
    ensures var Trial(candidate, parents, batch) := s.stage;
            var turn := JudgeTrial(suite, s, candidate, parents, batch);
            && turn.Continue?
            && turn.state == if Beats(s.observations, candidate, parents, batch)
               then s.(queue := Row(candidate, Cases(suite, Validation)), stage := Validate)
               else s.(stage := Choose)
  {
    ReachesMeasured(suite, s, s.stage.candidate, s.stage.batch);
  }

  lemma JudgeTrialKeeps(suite: Suite, s: State)
    requires Inv(suite, s) && s.pending.None? && s.queue == [] && s.stage.Trial?
    ensures var turn := JudgeTrial(suite, s, s.stage.candidate, s.stage.parents, s.stage.batch);
            turn.Continue? && Inv(suite, turn.state)
  {
    JudgeTrialDecides(suite, s);
    JudgeTrialWellFormed(suite, s);
    var t := JudgeTrial(suite, s, s.stage.candidate, s.stage.parents, s.stage.batch).state;
    forall r
      ensures Needed(suite, t, r) <==> Waiting(t, r)
    {
    }
  }

  lemma AdvanceKeeps(suite: Suite, s: State)
    requires Inv(suite, s) && s.pending.None?
    ensures var turn := Advance(suite, s); !turn.Abort? && Inv(suite, turn.state)
  {
    if s.queue != [] {
      DispatchKeeps(suite, s);
    } else {
      match s.stage
      case Seeds => LeaveSeedsOrValidate(suite, s);
      case Validate => LeaveSeedsOrValidate(suite, s);
      case Choose =>
        if OutOfBudget(suite, s) {
          SelectWinnerKeeps(suite, s);
        } else {
          StartRoundKeeps(suite, s);
        }
      case Reflect(_, _) => AskProposalKeeps(suite, s);
      case Trial(_, _, _) => JudgeTrialKeeps(suite, s);
      case Final => FinishKeeps(suite, s);
      case Complete =>
    }
  }

  lemma FinishKeeps(suite: Suite, s: State)
    requires Inv(suite, s) && s.pending.None? && s.queue == [] && s.stage.Final?
    ensures Inv(suite, s.(stage := Complete))
  {
    var t := s.(stage := Complete);
    forall r
      ensures Needed(suite, t, r) == Needed(suite, s, r) && Waiting(t, r) == Waiting(s, r)
    {
    }
  }

  // ------------------------------------------------------------ completions

  lemma MeasuredGrows(obs: seq<Observation>, o: Observation, candidate: nat, tasks: seq<nat>)
    requires Measured(obs, candidate, tasks)
    ensures Measured(obs + [o], candidate, tasks)
  {
    forall i | 0 <= i < |tasks|
      ensures Observed(obs + [o], Rollout(candidate, tasks[i]))
    {
      LatestAppend(obs, o, Rollout(candidate, tasks[i]));
    }
  }

  lemma OtherCasesAgree(obs: seq<Observation>, o: Observation, count: nat, tasks: seq<nat>)
    requires o.rollout.task !in tasks
    ensures AgreeOn(obs, obs + [o], count, tasks)
  {
    forall c, i | 0 <= c < count && 0 <= i < |tasks|
      ensures Latest(obs, Rollout(c, tasks[i])) == Latest(obs + [o], Rollout(c, tasks[i]))
    {
      LatestAppend(obs, o, Rollout(c, tasks[i]));
    }
  }

  lemma RolloutKeepsCoverage(suite: Suite, s: State, output: string, preflight: string, score: real)
    requires Inv(suite, s)
    ensures Coverage(suite, CompleteRollout(s, output, preflight, score).0)
  {
    var t := CompleteRollout(s, output, preflight, score).0;
    if t != s {
      var o := t.observations[|s.observations|];
      forall r
        ensures Needed(suite, t, r) == Needed(suite, s, r)
        ensures Waiting(t, r) ==> Waiting(s, r)
        ensures Waiting(s, r) || Observed(s.observations, r) ==> Waiting(t, r) || Observed(t.observations, r)
      {
        LatestAppend(s.observations, o, r);
      }
    }
  }

  lemma RolloutKeepsIsolation(suite: Suite, s: State, output: string, preflight: string, score: real)
    requires Inv(suite, s)
    ensures Isolation(suite, CompleteRollout(s, output, preflight, score).0)
  {
    var t := CompleteRollout(s, output, preflight, score).0;
    if t != s {
      var r := s.pending.value.rollout;
      assert Waiting(s, r);
      var o := t.observations[|s.observations|];
      if s.winner.Some? {
        OtherCasesAgree(s.observations, o, |s.candidates|, Cases(suite, Validation));
        AgreeBest(s.observations, t.observations, |s.candidates|, Cases(suite, Validation));
      }
    }
  }

  lemma RolloutKeepsSettled(suite: Suite, s: State, o: Observation)
    requires Settled(suite, s)
    ensures Settled(suite, s.(observations := s.observations + [o], pending := None))
  {
    if !s.stage.Seeds? {
      MeasuredGrows(s.observations, o, 0, Cases(suite, Validation));
    }
    if s.stage.Trial? {
      forall p | p in s.stage.parents
        ensures Measured(s.observations + [o], p, s.stage.batch)
      {
        MeasuredGrows(s.observations, o, p, s.stage.batch);
      }
    }
  }

  lemma CompleteRolloutKeeps(suite: Suite, s: State, output: string, preflight: string, score: real)
    requires Inv(suite, s)
    ensures Inv(suite, CompleteRollout(s, output, preflight, score).0)
  {
    RolloutKeepsCoverage(suite, s, output, preflight, score);
    RolloutKeepsIsolation(suite, s, output, preflight, score);
    var t := CompleteRollout(s, output, preflight, score).0;
    if t != s {
      RolloutKeepsSettled(suite, s, t.observations[|s.observations|]);
      assert WellFormed(suite, t);
      assert Shape(suite, t);
    }
  }

  lemma CompleteProposalKeeps(suite: Suite, s: State, text: string, decoded: Decoded)
    requires Inv(suite, s)
    ensures Inv(suite, CompleteProposal(suite, s, text, decoded).0)
  {
    var t := CompleteProposal(suite, s, text, decoded).0;
    if t != s {
      var Propose(parents, batch, _) := s.pending.value;
      forall p | p in parents
        ensures Measured(s.observations, p, batch)
      {
        ReachesMeasured(suite, s, p, batch);
      }
      forall r
        ensures Needed(suite, t, r) <==> Waiting(t, r)
      {
      }
      if t.stage.Trial? {
        var row := Row(|s.candidates|, batch);
        assert forall i :: 0 <= i < |row| ==> row[i] in row;
      }
    }
  }
}
