/** The search object itself: fields updated in place by loops, each method
    proved to perform the corresponding transition on the saved state. */
module SearchMachine {
  import opened Text
  import opened Suites
  import opened Scoring
  import opened Search
  import T = Training

  class Optimization {
    const config: Config
    var candidates: seq<Individual>
    var observations: seq<Observation>
    var metricCalls: nat
    var proposalCalls: nat
    var modelCallsReserved: nat
    var pending: Option<Action>
    var winner: Option<nat>
    var stage: Stage
    var queue: seq<Rollout>
    var rounds: nat
    var rng: T.Generator
    var trainOrder: seq<nat>
    var trainCursor: nat

    /** What a checkpoint stores. */
    function Saved(): State
      reads this
    {
      State(config, candidates, observations, metricCalls, proposalCalls, modelCallsReserved,
            pending, winner, stage, queue, rounds, rng, trainOrder, trainCursor)
    }

    constructor Restore(s: State)
      ensures Saved() == s
    {
      config := s.config;
      candidates, observations := s.candidates, s.observations;
      metricCalls, proposalCalls, modelCallsReserved := s.metricCalls, s.proposalCalls, s.modelCallsReserved;
      pending, winner, stage, queue := s.pending, s.winner, s.stage, s.queue;
      rounds, rng, trainOrder, trainCursor := s.rounds, s.rng, s.trainOrder, s.trainCursor;
    }

    constructor Fresh(config: Config, suite: Suite, seeds: seq<Guidance>)
      requires ValidSetup(config, suite, seeds)
      ensures Saved() == Start(config, suite, seeds)
    {
      this.config := config;
      candidates := [Individual(seeds[0], [], FromSeed), Individual(seeds[1], [], FromSeed)];
      observations := [];
      metricCalls, proposalCalls, modelCallsReserved := 0, 0, 0;
      pending, winner, stage := None, None, Seeds;
      queue := Rollouts([0, 1], Cases(suite, Validation));
      rounds, rng, trainCursor := 0, T.Seed(config.seed), 0;
      trainOrder := Cases(suite, Train);
      new;
      ShuffleOrder();
    }

    /** `Optimization::new` refuses exactly the setups that are not valid. */
    static method New(config: Config, suite: Suite, seeds: seq<Guidance>) returns (search: Option<Optimization>)
      ensures search.Some? <==> ValidSetup(config, suite, seeds)
      ensures search.Some? ==> fresh(search.value) && search.value.Saved() == Start(config, suite, seeds)
    {
      var ok := ValidateSuite(suite);
      if !ok || config.maxAgents < 1 || config.maxAgents > 4 {
        return None;
      }
      for i := 0 to |seeds|
        invariant forall k :: 0 <= k < i ==> seeds[k].Valid(config.maxAgents)
      {
        if seeds[i].team.Some? {
          ok := ValidateTeam(seeds[i].team.value, config.maxAgents);
          if !ok {
            return None;
          }
        }
      }
      if |seeds| != 2 || config.maxProposals < 1 || config.maxProposals > 32
         || config.minibatchSize < 1 || config.minibatchSize > |Cases(suite, Train)|
         || config.maxMetricCalls < 2 * (|Cases(suite, Validation)| + |Cases(suite, Test)|)
         || config.maxMetricCalls > 512 {
        return None;
      }
      var s := new Optimization.Fresh(config, suite, seeds);
      return Some(s);
    }

    // ----------------------------------------------------- training order

    method Random() returns (x: T.Generator)
      modifies `rng
      ensures x == rng == T.Next(old(rng))
    {
      rng := T.Generator(T.Left13(rng.bits));
      rng := T.Generator(T.Right7(rng.bits));
      rng := T.Generator(T.Left17(rng.bits));
      x := rng;
    }

    method ShuffleOrder()
      modifies `rng, `trainOrder, `trainCursor
      ensures T.Shuffled(trainOrder, rng) == T.Shuffle(old(trainOrder), old(rng))
      ensures trainCursor == 0
    {
      var i: nat := if trainOrder == [] then 0 else |trainOrder| - 1;
      while i > 0
        invariant i == 0 || i < |trainOrder|
        invariant T.ShuffleFrom(trainOrder, rng, i) == T.Shuffle(old(trainOrder), old(rng))
      {
        var random := Random();
        trainOrder := T.Swap(trainOrder, i, T.Index(random, i + 1));
        i := i - 1;
      }
      trainCursor := 0;
    }

    /** The drawing loop ends, and it performs `Draw`. */
    method Batch() returns (batch: seq<nat>)
      requires trainCursor <= |trainOrder| && config.minibatchSize <= |trainOrder|
      requires T.Distinct(trainOrder) && rng.Live()
      modifies `rng, `trainOrder, `trainCursor
      ensures T.Drawn(batch, trainOrder, trainCursor, rng)
           == T.Draw(old(trainOrder), old(trainCursor), old(rng), config.minibatchSize)
    {
      hide T.Shuffle;
      var size := config.minibatchSize;
      batch := [];
      ghost var first := T.TakeFresh(trainOrder, trainCursor, [], size);
      ghost var again := T.Shuffle(trainOrder, rng);
      ghost var reshuffled := false;
      T.ShuffleIsFair(trainOrder, rng);
      T.TakeFreshKeeps(trainOrder, trainCursor, [], size);
      while |batch| < size
        invariant trainCursor <= |trainOrder| == |old(trainOrder)|
        invariant |batch| <= size && T.Distinct(batch)
        invariant !reshuffled ==> trainOrder == old(trainOrder) && rng == old(rng)
        invariant !reshuffled ==> T.TakeFresh(trainOrder, trainCursor, batch, size) == first
        invariant reshuffled ==> |first.0| < size && trainOrder == again.order && rng == again.rng
        invariant reshuffled ==> T.TakeFresh(trainOrder, trainCursor, batch, size) == T.TakeFresh(again.order, 0, first.0, size)
        invariant reshuffled ==> forall i :: 0 <= i < trainCursor ==> trainOrder[i] in batch
        decreases !reshuffled, |trainOrder| - trainCursor
      {
        if trainCursor == |trainOrder| {
          if reshuffled {
            T.CoveringBatchIsLong(trainOrder, batch);
          }
          ShuffleOrder();
          reshuffled := true;
        }
        var next := trainOrder[trainCursor];
        trainCursor := trainCursor + 1;
        if next !in batch {
          batch := batch + [next];
        }
      }
    }

    // -------------------------------------------------------- next_action

    method SelectWinnerNow(suite: Suite) returns (reply: Option<Reply>)
      requires WellFormed(suite, Saved())
      modifies this
      ensures Performed(SelectWinner(suite, old(Saved())), Saved(), reply)
    {
      var best := Best(observations, |candidates|, Cases(suite, Validation));
      if best.None? {
        return Some(Rejected(NothingValidated));
      }
      winner := best;
      queue := Rollouts(if best.value == 0 then [0] else [0, best.value], Cases(suite, Test));
      stage := Final;
      reply := None;
    }

    method ChooseParents(frontier: seq<nat>, merging: bool) returns (parents: seq<nat>)
      requires frontier != [] && Ascending(frontier)
      modifies `rng
      ensures (parents, rng) == PickParents(frontier, merging, old(rng))
    {
      var random := Random();
      var parent := frontier[T.Index(random, |frontier|)];
      parents := [parent];
      if merging && |frontier| > 1 {
        var alternatives := Without(frontier, parent);
        assert frontier[0] in alternatives || frontier[1] in alternatives;
        random := Random();
        parents := [parent, alternatives[T.Index(random, |alternatives|)]];
      }
    }

    method PlanNow(frontier: seq<nat>, merging: bool) returns (ghost plan: Plan, parents: seq<nat>, batch: seq<nat>)
      requires frontier != [] && Ascending(frontier)
      requires trainCursor <= |trainOrder| && config.minibatchSize <= |trainOrder|
      requires T.Distinct(trainOrder) && rng.Live()
      modifies `rng, `trainOrder, `trainCursor
      ensures plan == PlanRound(frontier, merging, old(rng), old(trainOrder), old(trainCursor), config.minibatchSize)
      ensures plan == Plan(parents, T.Drawn(batch, trainOrder, trainCursor, rng))
    {
      plan := PlanRound(frontier, merging, rng, trainOrder, trainCursor, config.minibatchSize);
      PickParentsNonzero(frontier, merging, rng);
      hide PickParents, T.Draw;
      parents := ChooseParents(frontier, merging);
      batch := Batch();
    }

    method BeginRound(frontier: seq<nat>)
      requires frontier != [] && Ascending(frontier)
      requires trainCursor <= |trainOrder| && config.minibatchSize <= |trainOrder|
      requires T.Distinct(trainOrder) && rng.Live()
      modifies this
      ensures Saved() == Begin(old(Saved()), PlanRound(frontier, config.merge && (old(rounds) + 1) % 3 == 0, old(rng),
                                                       old(trainOrder), old(trainCursor), config.minibatchSize))
    {
      hide PlanRound, Rollouts, Ascending, T.Distinct;
      rounds := rounds + 1;
      ghost var plan;
      var parents, batch;
      plan, parents, batch := PlanNow(frontier, config.merge && rounds % 3 == 0);
      queue := Rollouts(parents, batch);
      stage := Reflect(parents, batch);
    }

    method StartRoundNow(suite: Suite) returns (reply: Option<Reply>)
      requires WellFormed(suite, Saved())
      modifies this
      ensures Performed(StartRound(suite, old(Saved())), Saved(), reply)
    {
      OrderIsReady(suite, Saved());
      ghost var before := Saved();
      hide WellFormed, StartRound, PlanRound, Begin, Frontier, Cases, Ascending, T.Distinct;
      var frontier := Frontier(observations, |candidates|, Cases(suite, Validation));
      if frontier == [] {
        rounds := rounds + 1;
        reply := Some(Rejected(EmptyFrontier));
      } else {
        BeginRound(frontier);
        reply := None;
      }
      RoundPerforms(suite, before, frontier);
    }

    method AskProposalNow(parents: seq<nat>, batch: seq<nat>) returns (reply: Option<Reply>)
      requires batch != []
      modifies this
      ensures Performed(AskProposal(old(Saved()), parents, batch), Saved(), reply)
    {
      if SomeParentPerfect(observations, parents, batch) {
        stage := Choose;
        return None;
      }
      var component := if config.evolveTeam && proposalCalls % 2 == 1 then Collaborators else Instruction;
      proposalCalls := proposalCalls + 1;
      modelCallsReserved := modelCallsReserved + 1;
      var action := Propose(parents, batch, component);
      pending := Some(action);
      reply := Some(Reserved(action));
    }

    method JudgeTrialNow(suite: Suite, candidate: nat, parents: seq<nat>, batch: seq<nat>) returns (reply: Option<Reply>)
      requires batch != []
      modifies this
      ensures Performed(JudgeTrial(suite, old(Saved()), candidate, parents, batch), Saved(), reply)
    {
      var child := Mean(observations, candidate, batch);
      if child.None? {
        return Some(Rejected(MissingTrial));
      }
      reply := None;
      if child.value > BestParent(observations, parents, batch) {
        queue := Row(candidate, Cases(suite, Validation));
        stage := Validate;
      } else {
        stage := Choose;
      }
    }

    /** One stage transition, taken when the queue is empty. */
    method Settle(suite: Suite) returns (reply: Option<Reply>)
      requires WellFormed(suite, Saved()) && queue == []
      modifies this
      ensures Performed(Advance(suite, old(Saved())), Saved(), reply)
    {
      hide SelectWinner, StartRound, AskProposal, JudgeTrial;
      reply := None;
      match stage
      case Seeds => stage := Choose;
      case Validate => stage := Choose;
      case Choose =>
        if OutOfBudget(suite, Saved()) {
          reply := SelectWinnerNow(suite);
        } else {
          reply := StartRoundNow(suite);
        }
      case Reflect(parents, batch) => reply := AskProposalNow(parents, batch);
      case Trial(candidate, parents, batch) => reply := JudgeTrialNow(suite, candidate, parents, batch);
      case Final => stage := Complete;
      case Complete => reply := Some(Finished);
    }

    /** The queue's first entry is dropped if cached and reserved otherwise. */
    method Dequeue(suite: Suite) returns (reply: Option<Reply>)
      requires WellFormed(suite, Saved()) && queue != []
      modifies this
      ensures Performed(Dispatch(suite, old(Saved())), Saved(), reply)
    {
      var r := queue[0];
      queue := queue[1..];
      if config.cacheEvaluations && Observed(observations, r) {
        return None;
      }
      if metricCalls >= config.maxMetricCalls {
        return Some(Rejected(BudgetExhausted));
      }
      metricCalls := metricCalls + 1;
      modelCallsReserved := modelCallsReserved + RolloutCalls(suite, candidates, r);
      pending := Some(Evaluate(r));
      reply := Some(Reserved(Evaluate(r)));
    }

    method NextAction(suite: Suite) returns (reply: Reply)
      requires WellFormed(suite, Saved())
      modifies this
      ensures WellFormed(suite, Saved())
      ensures (Saved(), reply) == Search.NextAction(suite, old(Saved()))
    {
      if pending.Some? {
        return Rejected(AlreadyReserved);
      }
      while true
        invariant WellFormed(suite, Saved()) && pending.None?
        invariant Search.NextAction(suite, Saved()) == Search.NextAction(suite, old(Saved()))
        decreases RoundsLeft(Saved()), Rank(stage), |queue|
      {
        ghost var before := Saved();
        AdvanceProgress(suite, before);
        NextActionUnfolds(suite, before);
        var outcome := None;
        if queue != [] {
          outcome := Dequeue(suite);
        } else {
          outcome := Settle(suite);
        }
        hide WellFormed, Advance, Search.NextAction, Closer;
        if outcome.Some? {
          return outcome.value;
        }
        assert Closer(Saved(), before);
      }
    }

    // -------------------------------------------------------- completions

    method CompleteScoredRollout(output: string, preflight: string, score: real) returns (reply: Reply)
      modifies `observations, `pending
      ensures (Saved(), reply) == CompleteRollout(old(Saved()), output, preflight, score)
    {
      if !(pending.Some? && pending.value.Evaluate?) {
        return Rejected(NoEvaluation);
      }
      if |output| > 16_000 || |preflight| > 16_000 || score < 0.0 || score > 1.0 {
        return Rejected(BadRollout);
      }
      observations := observations + [Observation(pending.value.rollout, score, output, preflight)];
      pending := None;
      reply := Recorded;
    }

    method CompleteProposal(suite: Suite, text: string, decoded: Decoded) returns (reply: Reply)
      requires WellFormed(suite, Saved())
      modifies this
      ensures WellFormed(suite, Saved())
      ensures (Saved(), reply) == Search.CompleteProposal(suite, old(Saved()), text, decoded)
    {
      CompletionsWellFormed(suite, Saved(), "", "", 0.0, text, decoded);
      if !(pending.Some? && pending.value.Propose?) {
        return Rejected(NoProposal);
      }
      var Propose(parents, batch, component) := pending.value;
      var revised := Revise(candidates[parents[0]].guidance, component, text, decoded, config.maxAgents);
      if revised.None? {
        return Rejected(BadProposal);
      }
      pending := None;
      reply := Recorded;
      if Known(candidates, revised.value) {
        stage := Choose;
        return;
      }
      var candidate := |candidates|;
      candidates := candidates + [Individual(revised.value, parents, if |parents| == 2 then FromMerge else FromReflection)];
      queue := Row(candidate, batch);
      stage := Trial(candidate, parents, batch);
    }
  }

  /** A turn of the loop as the object shows it: no reply while it goes on. */
  ghost predicate Performed(turn: Turn, after: State, reply: Option<Reply>) {
    && after == turn.state
    && reply == if turn.Continue? then None else Some(Answer(turn))
  }

  ghost function Answer(turn: Turn): Reply {
    match turn
    case Reserve(_, action) => Reserved(action)
    case Abort(_, error) => Rejected(error)
    case _ => Finished
  }

  lemma RoundPerforms(suite: Suite, s: State, frontier: seq<nat>)
    requires WellFormed(suite, s) && frontier == Frontier(s.observations, |s.candidates|, Cases(suite, Validation))
    ensures StartRound(suite, s) ==
            if frontier == [] then Abort(s.(rounds := s.rounds + 1), EmptyFrontier)
            else Continue(Begin(s, PlanRound(frontier, s.config.merge && (s.rounds + 1) % 3 == 0, s.rng,
                                             s.trainOrder, s.trainCursor, s.config.minibatchSize)))
  {
  }

  lemma OrderIsReady(suite: Suite, s: State)
    requires WellFormed(suite, s)
    ensures s.trainCursor <= |s.trainOrder| && s.config.minibatchSize <= |s.trainOrder|
    ensures T.Distinct(s.trainOrder) && s.rng.Live()
  {
    T.PermutationDistinct(Cases(suite, Train), s.trainOrder);
  }

  lemma NextActionUnfolds(suite: Suite, s: State)
    requires WellFormed(suite, s) && s.pending.None?
    ensures WellFormed(suite, Advance(suite, s).state)
    ensures var turn := Advance(suite, s);
            NextAction(suite, s) ==
            if turn.Continue? then NextAction(suite, turn.state)
            else (turn.state, Answer(turn))
  {
    AdvanceProgress(suite, s);
  }
}
