/** The checkpointed search as a transition system on its saved state. `Advance`
    is one pass through the loop of `next_action`; the three calls a driver can
    make are `NextAction`, `CompleteRollout` and `CompleteProposal`. */
module Search {
  import opened Text
  import opened Suites
  import opened Scoring
  import T = Training

  datatype Config = Config(
    maxMetricCalls: nat, maxProposals: nat, minibatchSize: nat, seed: bv64,
    merge: bool, cacheEvaluations: bool, evolveTeam: bool, maxAgents: nat)

  datatype Origin = FromSeed | FromReflection | FromMerge

  datatype Individual = Individual(guidance: Guidance, parents: seq<nat>, origin: Origin)

  datatype Component = Instruction | Collaborators

  datatype Action =
    | Evaluate(rollout: Rollout)
    | Propose(parents: seq<nat>, batch: seq<nat>, component: Component)

  datatype Stage =
    | Seeds
    | Choose
    | Reflect(parents: seq<nat>, batch: seq<nat>)
    | Trial(candidate: nat, parents: seq<nat>, batch: seq<nat>)
    | Validate
    | Final
    | Complete

  datatype State = State(
    config: Config,
    candidates: seq<Individual>,
    observations: seq<Observation>,
    metricCalls: nat,
    proposalCalls: nat,
    modelCallsReserved: nat,
    pending: Option<Action>,
    winner: Option<nat>,
    stage: Stage,
    queue: seq<Rollout>,
    rounds: nat,
    rng: T.Generator,
    trainOrder: seq<nat>,
    trainCursor: nat)

  datatype Error =
    | AlreadyReserved | BudgetExhausted | NothingValidated | MissingTrial | EmptyFrontier
    | NoEvaluation | BadRollout | NoProposal | BadProposal | HeldOutEvidence

  datatype Reply = Reserved(action: Action) | Finished | Recorded | Rejected(error: Error)

  datatype Turn =
    | Continue(state: State)
    | Reserve(state: State, action: Action)
    | Stop(state: State)
    | Abort(state: State, error: Error)

  // ------------------------------------------------------ well-formedness

  predicate Indexed(xs: seq<nat>, n: nat) {
    xs != [] && forall i :: 0 <= i < |xs| ==> xs[i] < n
  }

  predicate FitsRollout(suite: Suite, s: State, r: Rollout) {
    r.candidate < |s.candidates| && r.task < |suite.cases|
  }

  predicate FitsStage(suite: Suite, s: State) {
    match s.stage
    case Reflect(parents, batch) => Indexed(parents, |s.candidates|) && Indexed(batch, |suite.cases|)
    case Trial(candidate, parents, batch) =>
      candidate < |s.candidates| && Indexed(parents, |s.candidates|) && Indexed(batch, |suite.cases|)
    case _ => true
  }

  predicate FitsPending(suite: Suite, s: State) {
    match s.pending
    case Some(Evaluate(r)) => FitsRollout(suite, s, r)
    case Some(Propose(parents, batch, _)) => Indexed(parents, |s.candidates|) && Indexed(batch, |suite.cases|)
    case None => true
  }

  /** Every stored index is in range and the training order is a permutation. */
  ghost predicate WellFormed(suite: Suite, s: State) {
    && ValidSuite(suite)
    && 1 <= s.config.minibatchSize <= |Cases(suite, Train)|
    && multiset(s.trainOrder) == multiset(Cases(suite, Train))
    && s.trainCursor <= |s.trainOrder| && s.rng.Live()
    && (forall i :: 0 <= i < |s.queue| ==> FitsRollout(suite, s, s.queue[i]))
    && FitsStage(suite, s) && FitsPending(suite, s)
  }

  // -------------------------------------------------------------- setting up

  function Row(candidate: nat, tasks: seq<nat>): (r: seq<Rollout>)
    ensures |r| == |tasks|
    ensures forall x :: x in r <==> x.candidate == candidate && x.task in tasks
  {
    var r := seq(|tasks|, i requires 0 <= i < |tasks| => Rollout(candidate, tasks[i]));
    assert forall i :: 0 <= i < |tasks| ==> r[i].task == tasks[i];
    r
  }

  /** Candidate-major product, as the nested iterators produce it. */
  function Rollouts(candidates: seq<nat>, tasks: seq<nat>): (r: seq<Rollout>)
    ensures forall x :: x in r <==> x.candidate in candidates && x.task in tasks
    ensures |r| == |candidates| * |tasks|
  {
    if candidates == [] then []
    else Row(candidates[0], tasks) + Rollouts(candidates[1..], tasks)
  }

  predicate ValidSetup(config: Config, suite: Suite, seeds: seq<Guidance>) {
    && ValidSuite(suite)
    && 1 <= config.maxAgents <= 4
    && (forall i :: 0 <= i < |seeds| ==> seeds[i].Valid(config.maxAgents))
    && |seeds| == 2
    && 1 <= config.maxProposals <= 32
    && 1 <= config.minibatchSize <= |Cases(suite, Train)|
    && 2 * (|Cases(suite, Validation)| + |Cases(suite, Test)|) <= config.maxMetricCalls <= 512
  }

  function Start(config: Config, suite: Suite, seeds: seq<Guidance>): State
    requires ValidSetup(config, suite, seeds)
  {
    var shuffled := T.Shuffle(Cases(suite, Train), T.Seed(config.seed));
    State(
      config := config,
      candidates := [Individual(seeds[0], [], FromSeed), Individual(seeds[1], [], FromSeed)],
      observations := [],
      metricCalls := 0, proposalCalls := 0, modelCallsReserved := 0,
      pending := None, winner := None, stage := Seeds,
      queue := Rollouts([0, 1], Cases(suite, Validation)),
      rounds := 0,
      rng := shuffled.rng, trainOrder := shuffled.order, trainCursor := 0)
  }

  // ---------------------------------------------------- one pass of the loop

  function RolloutCalls(suite: Suite, candidates: seq<Individual>, r: Rollout): nat
    requires r.candidate < |candidates| && r.task < |suite.cases|
  {
    suite.cases[r.task].ModelCalls() + candidates[r.candidate].guidance.Members()
  }

  function Dispatch(suite: Suite, s: State): Turn
    requires WellFormed(suite, s) && s.queue != []
  {
    var r, t := s.queue[0], s.(queue := s.queue[1..]);
    if s.config.cacheEvaluations && Observed(s.observations, r) then Continue(t)
    else if s.metricCalls >= s.config.maxMetricCalls then Abort(t, BudgetExhausted)
    else
      Reserve(t.(metricCalls := s.metricCalls + 1,
                 modelCallsReserved := s.modelCallsReserved + RolloutCalls(suite, s.candidates, r),
                 pending := Some(Evaluate(r))),
              Evaluate(r))
  }

  /** No proposal, round or rollout budget is left for another round. */
  predicate OutOfBudget(suite: Suite, s: State) {
    || s.proposalCalls >= s.config.maxProposals
    || s.rounds >= 4 * s.config.maxProposals
    || s.metricCalls + (3 * s.config.minibatchSize + |Cases(suite, Validation)|)
         + 2 * |Cases(suite, Test)| > s.config.maxMetricCalls
  }

  function SelectWinner(suite: Suite, s: State): Turn
    requires WellFormed(suite, s)
  {
    match Best(s.observations, |s.candidates|, Cases(suite, Validation))
    case None => Abort(s, NothingValidated)
    case Some(w) =>
      Continue(s.(winner := Some(w),
                  queue := Rollouts(if w == 0 then [0] else [0, w], Cases(suite, Test)),
                  stage := Final))
  }

  function Without(xs: seq<nat>, x: nat): (r: seq<nat>)
    ensures forall y :: y in r <==> y in xs && y != x
  {
    if xs == [] then []
    else if xs[0] == x then Without(xs[1..], x)
    else [xs[0]] + Without(xs[1..], x)
  }

  /** One parent from the frontier, or two in every third round when merging. */
  function PickParents(frontier: seq<nat>, merging: bool, rng: T.Generator): (r: (seq<nat>, T.Generator))
    requires frontier != [] && Ascending(frontier)
    ensures 1 <= |r.0| <= 2 && forall p :: p in r.0 ==> p in frontier
    ensures |r.0| == 2 <==> merging && |frontier| > 1
    ensures |r.0| == 2 ==> r.0[0] != r.0[1]
  {
    var random := T.Next(rng);
    var parent := frontier[T.Index(random, |frontier|)];
    if merging && |frontier| > 1 then
      var others := Without(frontier, parent);
      assert frontier[0] in others || frontier[1] in others;
      var random' := T.Next(random);
      assert others[T.Index(random', |others|)] in others;
      ([parent, others[T.Index(random', |others|)]], random')
    else ([parent], random)
  }

  datatype Plan = Plan(parents: seq<nat>, draw: T.Drawn)

  function PlanRound(frontier: seq<nat>, merging: bool, rng: T.Generator, order: seq<nat>, cursor: nat, size: nat): Plan
    requires frontier != [] && Ascending(frontier)
    requires cursor <= |order|
  {
    var (parents, rng') := PickParents(frontier, merging, rng);
    Plan(parents, T.Draw(order, cursor, rng', size))
  }

  function Begin(s: State, plan: Plan): State {
    s.(rounds := s.rounds + 1,
       rng := plan.draw.rng, trainOrder := plan.draw.order, trainCursor := plan.draw.cursor,
       queue := Rollouts(plan.parents, plan.draw.batch), stage := Reflect(plan.parents, plan.draw.batch))
  }

  function StartRound(suite: Suite, s: State): Turn
    requires WellFormed(suite, s)
  {
    var rounds := s.rounds + 1;
    var frontier := Frontier(s.observations, |s.candidates|, Cases(suite, Validation));
    if frontier == [] then Abort(s.(rounds := rounds), EmptyFrontier)
    else
      Continue(Begin(s, PlanRound(frontier, s.config.merge && rounds % 3 == 0, s.rng,
                                  s.trainOrder, s.trainCursor, s.config.minibatchSize)))
  }

  predicate SomeParentPerfect(obs: seq<Observation>, parents: seq<nat>, batch: seq<nat>)
    requires batch != []
  {
    exists i :: 0 <= i < |parents| && Mean(obs, parents[i], batch) == Some(1.0)
  }

  function AskProposal(s: State, parents: seq<nat>, batch: seq<nat>): Turn
    requires batch != []
  {
    if SomeParentPerfect(s.observations, parents, batch) then Continue(s.(stage := Choose))
    else
      var component := if s.config.evolveTeam && s.proposalCalls % 2 == 1 then Collaborators else Instruction;
      var action := Propose(parents, batch, component);
      Reserve(s.(proposalCalls := s.proposalCalls + 1,
                 modelCallsReserved := s.modelCallsReserved + 1,
                 pending := Some(action)),
              action)
  }

  /** The highest mean among the measured parents, and at least zero. */
  function BestParent(obs: seq<Observation>, parents: seq<nat>, batch: seq<nat>): (m: real)
    requires batch != []
    ensures m >= 0.0
    ensures forall p :: p in parents && Measured(obs, p, batch) ==> Mean(obs, p, batch).value <= m
    ensures m == 0.0 || exists p :: p in parents && Mean(obs, p, batch) == Some(m)
  {
    if parents == [] then 0.0
    else
      var last := parents[|parents| - 1];
      assert last in parents;
      var m := BestParent(obs, parents[..|parents| - 1], batch);
      if Measured(obs, last, batch) && Mean(obs, last, batch).value > m then Mean(obs, last, batch).value else m
  }

  function JudgeTrial(suite: Suite, s: State, candidate: nat, parents: seq<nat>, batch: seq<nat>): Turn
    requires batch != []
  {
    match Mean(s.observations, candidate, batch)
    case None => Abort(s, MissingTrial)
    case Some(child) =>
      if child > BestParent(s.observations, parents, batch) then
        Continue(s.(queue := Row(candidate, Cases(suite, Validation)), stage := Validate))
      else Continue(s.(stage := Choose))
  }

  function Advance(suite: Suite, s: State): Turn
    requires WellFormed(suite, s)
  {
    if s.queue != [] then Dispatch(suite, s)
    else match s.stage
      case Seeds => Continue(s.(stage := Choose))
      case Validate => Continue(s.(stage := Choose))
      case Choose => if OutOfBudget(suite, s) then SelectWinner(suite, s) else StartRound(suite, s)
      case Reflect(parents, batch) => AskProposal(s, parents, batch)
      case Trial(candidate, parents, batch) => JudgeTrial(suite, s, candidate, parents, batch)
      case Final => Continue(s.(stage := Complete))
      case Complete => Stop(s)
  }

  // ----------------------------------------------------------- next_action

  function RoundsLeft(s: State): nat {
    if s.rounds < 4 * s.config.maxProposals then 4 * s.config.maxProposals - s.rounds else 0
  }

  function Rank(stage: Stage): nat {
    match stage
    case Complete => 0
    case Final => 1
    case Choose => 2
    case Validate => 3
    case Trial(_, _, _) => 4
    case Reflect(_, _) => 5
    case Seeds => 6
  }

  /** Each pass that does not return starts a round, lowers the stage or
      shortens the queue. */
  ghost predicate Closer(t: State, s: State) {
    || RoundsLeft(t) < RoundsLeft(s)
    || (RoundsLeft(t) == RoundsLeft(s) && Rank(t.stage) < Rank(s.stage))
    || (RoundsLeft(t) == RoundsLeft(s) && Rank(t.stage) == Rank(s.stage) && |t.queue| < |s.queue|)
  }

  lemma PickParentsNonzero(frontier: seq<nat>, merging: bool, rng: T.Generator)
    requires frontier != [] && Ascending(frontier)
    requires rng.Live()
    ensures PickParents(frontier, merging, rng).1.Live()
  {
    T.NextNonzero(rng);
    T.NextNonzero(T.Next(rng));
  }

  /** The batch is a set of training cases of the configured size. */
  lemma DrawFromTraining(suite: Suite, s: State, rng: T.Generator)
    requires WellFormed(suite, s) && rng.Live()
    ensures var d := T.Draw(s.trainOrder, s.trainCursor, rng, s.config.minibatchSize);
            && |d.batch| == s.config.minibatchSize && T.Distinct(d.batch)
            && (forall x :: x in d.batch ==> x in Cases(suite, Train))
            && multiset(d.order) == multiset(Cases(suite, Train))
            && d.cursor <= |d.order| && d.rng.Live()
  {
    T.PermutationDistinct(Cases(suite, Train), s.trainOrder);
    T.DrawIsFair(s.trainOrder, s.trainCursor, rng, s.config.minibatchSize);
  }

  lemma ProductFits(suite: Suite, s: State, candidates: seq<nat>, tasks: seq<nat>)
    requires forall c :: c in candidates ==> c < |s.candidates|
    requires forall x :: x in tasks ==> x < |suite.cases|
    ensures forall i :: 0 <= i < |Rollouts(candidates, tasks)| ==>
              FitsRollout(suite, s, Rollouts(candidates, tasks)[i])
  {
    forall i | 0 <= i < |Rollouts(candidates, tasks)|
      ensures FitsRollout(suite, s, Rollouts(candidates, tasks)[i])
    {
      assert Rollouts(candidates, tasks)[i] in Rollouts(candidates, tasks);
    }
  }

  /** What a new round leaves: parents from the frontier and a training batch. */
  ghost predicate Round(suite: Suite, s: State, t: State) {
    && t.stage.Reflect?
    && 1 <= |t.stage.parents| <= 2
    && (forall p :: p in t.stage.parents ==> OnFrontier(s.observations, |s.candidates|, Cases(suite, Validation), p))
    && (|t.stage.parents| == 2 ==> t.stage.parents[0] != t.stage.parents[1])
    && (|t.stage.parents| == 2 <==>
          s.config.merge && t.rounds % 3 == 0 && |Frontier(s.observations, |s.candidates|, Cases(suite, Validation))| > 1)
    && |t.stage.batch| == s.config.minibatchSize && T.Distinct(t.stage.batch)
    && (forall x :: x in t.stage.batch ==> x in Cases(suite, Train))
    && t == s.(rounds := s.rounds + 1, rng := t.rng, trainOrder := t.trainOrder, trainCursor := t.trainCursor,
               queue := Rollouts(t.stage.parents, t.stage.batch), stage := t.stage)
  }

  lemma StartRoundGives(suite: Suite, s: State)
    requires WellFormed(suite, s) && StartRound(suite, s).Continue?
    ensures var t := StartRound(suite, s).state;
            && Round(suite, s, t)
            && multiset(t.trainOrder) == multiset(Cases(suite, Train))
            && t.trainCursor <= |t.trainOrder| && t.rng.Live()
  {
    var frontier := Frontier(s.observations, |s.candidates|, Cases(suite, Validation));
    var merging := s.config.merge && (s.rounds + 1) % 3 == 0;
    hide OnFrontier, T.Draw, PickParents;
    PickParentsNonzero(frontier, merging, s.rng);
    DrawFromTraining(suite, s, PickParents(frontier, merging, s.rng).1);
  }

  lemma StartRoundWellFormed(suite: Suite, s: State)
    requires WellFormed(suite, s) && StartRound(suite, s).Continue?
    ensures WellFormed(suite, StartRound(suite, s).state)
  {
    StartRoundGives(suite, s);
    var t := StartRound(suite, s).state;
    RoundFits(suite, s, t);
  }

  lemma RoundFits(suite: Suite, s: State, t: State)
    requires Round(suite, s, t) && s.config.minibatchSize >= 1
    ensures FitsStage(suite, t)
    ensures forall i :: 0 <= i < |t.queue| ==> FitsRollout(suite, t, t.queue[i])
  {
    ProductFits(suite, t, t.stage.parents, t.stage.batch);
    assert forall i :: 0 <= i < |t.stage.batch| ==> t.stage.batch[i] in t.stage.batch;
    assert forall i :: 0 <= i < |t.stage.parents| ==> t.stage.parents[i] in t.stage.parents;
  }

  lemma SelectWinnerWellFormed(suite: Suite, s: State)
    requires WellFormed(suite, s)
    ensures WellFormed(suite, SelectWinner(suite, s).state)
  {
    var w := Best(s.observations, |s.candidates|, Cases(suite, Validation));
    if w.Some? {
      ProductFits(suite, s, if w.value == 0 then [0] else [0, w.value], Cases(suite, Test));
    }
  }

  lemma JudgeTrialWellFormed(suite: Suite, s: State)
    requires WellFormed(suite, s) && s.stage.Trial?
    ensures WellFormed(suite, JudgeTrial(suite, s, s.stage.candidate, s.stage.parents, s.stage.batch).state)
  {
    hide Mean, BestParent;
    var row := Row(s.stage.candidate, Cases(suite, Validation));
    assert forall i :: 0 <= i < |row| ==> row[i] in row;
  }

  ghost predicate Progress(suite: Suite, s: State, turn: Turn) {
    && WellFormed(suite, turn.state)
    && (turn.Continue? ==> turn.state.pending.None? && Closer(turn.state, s))
  }

  lemma DispatchProgress(suite: Suite, s: State)
    requires WellFormed(suite, s) && s.pending.None? && s.queue != []
    ensures Progress(suite, s, Dispatch(suite, s))
  {
    hide Observed, RolloutCalls;
  }

  lemma ChooseProgress(suite: Suite, s: State)
    requires WellFormed(suite, s) && s.pending.None? && s.stage.Choose?
    ensures Progress(suite, s, SelectWinner(suite, s))
    ensures !OutOfBudget(suite, s) ==> Progress(suite, s, StartRound(suite, s))
  {
    hide PlanRound, Frontier, Best, Rollouts;
    SelectWinnerWellFormed(suite, s);
    if StartRound(suite, s).Continue? {
      StartRoundWellFormed(suite, s);
    }
  }

  lemma AskProgress(suite: Suite, s: State)
    requires WellFormed(suite, s) && s.pending.None? && s.stage.Reflect?
    ensures Progress(suite, s, AskProposal(s, s.stage.parents, s.stage.batch))
  {
    hide Mean, SomeParentPerfect;
  }

  lemma JudgeCloser(suite: Suite, s: State)
    requires s.pending.None? && s.stage.Trial? && s.stage.batch != []
    ensures var turn := JudgeTrial(suite, s, s.stage.candidate, s.stage.parents, s.stage.batch);
            turn.Continue? ==> turn.state.pending.None? && Closer(turn.state, s)
  {
    hide Mean, BestParent, Row, Cases;
  }

  lemma JudgeProgress(suite: Suite, s: State)
    requires WellFormed(suite, s) && s.pending.None? && s.stage.Trial?
    ensures Progress(suite, s, JudgeTrial(suite, s, s.stage.candidate, s.stage.parents, s.stage.batch))
  {
    hide JudgeTrial, Closer;
    JudgeTrialWellFormed(suite, s);
    JudgeCloser(suite, s);
  }

  lemma AdvanceProgress(suite: Suite, s: State)
    requires WellFormed(suite, s) && s.pending.None?
    ensures Progress(suite, s, Advance(suite, s))
  {
    hide Dispatch, SelectWinner, StartRound, AskProposal, JudgeTrial;
    if s.queue != [] {
      DispatchProgress(suite, s);
    } else {
      match s.stage
      case Choose => ChooseProgress(suite, s);
      case Reflect(_, _) => AskProgress(suite, s);
      case Trial(_, _, _) => JudgeProgress(suite, s);
      case _ =>
    }
  }

  function NextAction(suite: Suite, s: State): (State, Reply)
    requires WellFormed(suite, s)
    decreases RoundsLeft(s), Rank(s.stage), |s.queue|
  {
    if s.pending.Some? then (s, Rejected(AlreadyReserved))
    else
      AdvanceProgress(suite, s);
      match Advance(suite, s)
      case Continue(t) => NextAction(suite, t)
      case Reserve(t, action) => (t, Reserved(action))
      case Stop(t) => (t, Finished)
      case Abort(t, error) => (t, Rejected(error))
  }

  // ---------------------------------------------------------- completions

  /** Only a conclusive score in [0, 1] is recorded. */
  function CompleteRollout(s: State, output: string, preflight: string, score: real): (State, Reply) {
    if !(s.pending.Some? && s.pending.value.Evaluate?) then (s, Rejected(NoEvaluation))
    else if |output| > 16_000 || |preflight| > 16_000 || score < 0.0 || score > 1.0 then
      (s, Rejected(BadRollout))
    else
      (s.(observations := s.observations + [Observation(s.pending.value.rollout, score, output, preflight)],
          pending := None),
       Recorded)
  }

  /** What a proposed text decodes to: nothing, an explicit null, or a team. */
  datatype Decoded = Malformed | Null | Decoded(team: Team)

  function Revise(parent: Guidance, component: Component, text: string, decoded: Decoded, maxAgents: nat): Option<Guidance> {
    var limit := if component.Instruction? then 12_000 else 16_000;
    if Blank(text) || |text| > limit then None
    else match component
      case Instruction => Some(parent.(revision := None, instruction := text))
      case Collaborators =>
        match decoded
        case Malformed => None
        case Null => Some(parent.(revision := None, team := None))
        case Decoded(team) =>
          if !team.Valid(maxAgents) then None
          else Some(parent.(revision := None, team := if team.members == [] then None else Some(team)))
  }

  predicate SameGuidance(a: Guidance, b: Guidance) {
    a.instruction == b.instruction && a.team == b.team
  }

  predicate Known(candidates: seq<Individual>, g: Guidance) {
    exists i :: 0 <= i < |candidates| && SameGuidance(candidates[i].guidance, g)
  }

  function CompleteProposal(suite: Suite, s: State, text: string, decoded: Decoded): (State, Reply)
    requires WellFormed(suite, s)
  {
    if !(s.pending.Some? && s.pending.value.Propose?) then (s, Rejected(NoProposal))
    else
      var Propose(parents, batch, component) := s.pending.value;
      match Revise(s.candidates[parents[0]].guidance, component, text, decoded, s.config.maxAgents)
      case None => (s, Rejected(BadProposal))
      case Some(guidance) =>
        if Known(s.candidates, guidance) then (s.(pending := None, stage := Choose), Recorded)
        else
          var candidate := |s.candidates|;
          (s.(pending := None,
              candidates := s.candidates + [Individual(guidance, parents, if |parents| == 2 then FromMerge else FromReflection)],
              queue := Row(candidate, batch),
              stage := Trial(candidate, parents, batch)),
           Recorded)
  }

  lemma CompletionsWellFormed(suite: Suite, s: State, output: string, preflight: string, score: real, text: string, decoded: Decoded)
    requires WellFormed(suite, s)
    ensures WellFormed(suite, CompleteRollout(s, output, preflight, score).0)
    ensures WellFormed(suite, CompleteProposal(suite, s, text, decoded).0)
  {
    hide Revise, Known;
    if s.pending.Some? && s.pending.value.Propose? {
      var row := Row(|s.candidates|, s.pending.value.batch);
      assert forall i :: 0 <= i < |row| ==> row[i] in row;
    }
  }

  // ---------------------------------------------------------- read-only views

  datatype Example = Example(input: string, check: Check, observed: Option<Observation>)
  datatype Lesson = Lesson(guidance: Guidance, examples: seq<Example>)
  datatype Brief = Brief(component: Component, maxAgents: nat, merge: bool, parents: seq<Lesson>)

  predicate TrainingOnly(suite: Suite, batch: seq<nat>)
    requires forall i :: 0 <= i < |batch| ==> batch[i] < |suite.cases|
  {
    forall i :: 0 <= i < |batch| ==> suite.cases[batch[i]].split == Train
  }

  function LessonFor(suite: Suite, s: State, parent: nat, batch: seq<nat>): (r: Lesson)
    requires parent < |s.candidates| && forall i :: 0 <= i < |batch| ==> batch[i] < |suite.cases|
  {
    Lesson(s.candidates[parent].guidance,
           seq(|batch|, i requires 0 <= i < |batch| && batch[i] < |suite.cases| =>
             var c := suite.cases[batch[i]];
             Example(c.input, c.check, Latest(s.observations, Rollout(parent, batch[i])))))
  }

  datatype Briefing = Briefed(brief: Brief) | Refused(error: Error)

  /** What the proposer is shown; refused when the batch holds a held-out case. */
  function ProposalInput(suite: Suite, s: State): Briefing
    requires WellFormed(suite, s)
  {
    if !(s.pending.Some? && s.pending.value.Propose?) then Refused(NoProposal)
    else
      var Propose(parents, batch, component) := s.pending.value;
      if !TrainingOnly(suite, batch) then Refused(HeldOutEvidence)
      else
        Briefed(Brief(component, s.config.maxAgents, |parents| == 2,
                   seq(|parents|, i requires 0 <= i < |parents| && parents[i] < |s.candidates|
                                    && forall k :: 0 <= k < |batch| ==> batch[k] < |suite.cases| =>
                     LessonFor(suite, s, parents[i], batch))))
  }

  datatype Outcome = Outcome(baseValidation: real, winnerValidation: real, baseTest: real, winnerTest: real)

  function ApplicationScores(suite: Suite, s: State): Option<Outcome>
    requires ValidSuite(suite)
  {
    if !s.stage.Complete? || s.pending.Some? || s.winner.None? then None
    else
      var validation, test, w := Cases(suite, Validation), Cases(suite, Test), s.winner.value;
      match (Mean(s.observations, 0, validation), Mean(s.observations, w, validation),
             Mean(s.observations, 0, test), Mean(s.observations, w, test))
      case (Some(a), Some(b), Some(c), Some(d)) => Some(Outcome(a, b, c, d))
      case _ => None
  }

  predicate CanApply(suite: Suite, s: State)
    requires ValidSuite(suite)
  {
    match ApplicationScores(suite, s)
    case None => false
    case Some(o) => o.winnerValidation > o.baseValidation && o.winnerTest >= o.baseTest
  }
}
