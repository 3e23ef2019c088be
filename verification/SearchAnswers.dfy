/** What each call on a search records and answers, said in terms of the search's
    inputs rather than of its steps. */
module SearchAnswers {
  import opened Text
  import opened Suites
  import opened Scoring
  import opened Search
  import opened SearchSafety
  import opened SearchRuns
  import opened SearchScores
  import T = Training

  // ------------------------------------------------------ when a search ends

  /** Nothing but the final comparison is affordable. */
  ghost predicate Exhausted(suite: Suite, s: State) {
    || s.proposalCalls >= s.config.maxProposals
    || s.rounds >= 4 * s.config.maxProposals
    || s.metricCalls + 3 * s.config.minibatchSize + |Cases(suite, Validation)| + 2 * |Cases(suite, Test)|
         > s.config.maxMetricCalls
  }

  /** A winner is fixed only once the budget is exhausted. */
  ghost predicate EndsLate(suite: Suite, s: State) {
    s.winner.Some? ==> Exhausted(suite, s)
  }

  lemma AdvanceEndsLate(suite: Suite, s: State)
    requires Inv(suite, s) && s.pending.None? && EndsLate(suite, s)
    ensures EndsLate(suite, Advance(suite, s).state)
  {
    hide Inv, Best, Frontier, PlanRound, SomeParentPerfect, BestParent, Mean, RolloutCalls, Cases, Rollouts, Row;
  }

  lemma {:induction false} NextActionEndsLate(suite: Suite, s: State)
    requires Inv(suite, s) && EndsLate(suite, s)
    ensures EndsLate(suite, NextAction(suite, s).0)
    decreases RoundsLeft(s), Rank(s.stage), |s.queue|
  {
    hide Inv, EndsLate, Advance;
    if s.pending.None? {
      InvIsWellFormed(suite, s);
      AdvanceKeeps(suite, s);
      AdvanceProgress(suite, s);
      AdvanceEndsLate(suite, s);
      if Advance(suite, s).Continue? {
        NextActionEndsLate(suite, Advance(suite, s).state);
      }
    }
  }

  lemma InvIsWellFormed(suite: Suite, s: State)
    requires Inv(suite, s)
    ensures WellFormed(suite, s)
  {
  }

  lemma ApplyEndsLate(suite: Suite, s: State, e: Event)
    requires Inv(suite, s) && EndsLate(suite, s)
    ensures EndsLate(suite, Apply(suite, s, e).0)
  {
    if e.Ask? {
      NextActionEndsLate(suite, s);
    } else {
      hide Inv, Revise, Known, Row, Cases;
    }
  }

  lemma {:induction false} AlwaysEndsLate(suite: Suite, s: State, events: seq<Event>)
    requires Inv(suite, s) && EndsLate(suite, s)
    ensures EndsLate(suite, Run(suite, s, events))
  {
    hide Inv, Apply, EndsLate;
    if events != [] {
      AlwaysEndsLate(suite, s, events[..|events| - 1]);
      ApplyEndsLate(suite, Run(suite, s, events[..|events| - 1]), events[|events| - 1]);
    }
  }

  /** No run stops early: once there is a winner, the proposals or the rounds are used
      up, or another round with its validation would cut into the final comparison. */
  lemma WinnerOnlyWhenExhausted(config: Config, suite: Suite, seeds: seq<Guidance>, events: seq<Event>)
    requires ValidSetup(config, suite, seeds)
    ensures Inv(suite, Start(config, suite, seeds))
    ensures var s := Run(suite, Start(config, suite, seeds), events);
            s.winner.Some? ==>
              || s.proposalCalls >= config.maxProposals
              || s.rounds >= 4 * config.maxProposals
              || s.metricCalls + 3 * config.minibatchSize + |Cases(suite, Validation)| + 2 * |Cases(suite, Test)|
                   > config.maxMetricCalls
  {
    StartHolds(config, suite, seeds);
    var s := Start(config, suite, seeds);
    AlwaysEndsLate(suite, s, events);
    IssuedCounts(suite, s, events);
    hide Inv, Run;
  }

  /** And it goes on exactly while a further round is affordable. */
  lemma RoundsGoOn(suite: Suite, s: State)
    requires Inv(suite, s) && s.pending.None? && s.queue == [] && s.stage.Choose?
    ensures var turn := Advance(suite, s);
            && turn.Continue?
            && if s.proposalCalls < s.config.maxProposals && s.rounds < 4 * s.config.maxProposals
                  && s.metricCalls + 3 * s.config.minibatchSize + |Cases(suite, Validation)| + 2 * |Cases(suite, Test)|
                       <= s.config.maxMetricCalls
               then turn.state.stage.Reflect? && turn.state.rounds == s.rounds + 1 && turn.state.winner.None?
               else turn.state.stage.Final? && turn.state.winner.Some? && turn.state.rounds == s.rounds
  {
    hide Coverage, Settled, Budget, Frontier, PlanRound, Best, Rollouts;
    AdvanceKeeps(suite, s);
    if Advance(suite, s).state.stage.Reflect? {
      assert s.winner.None?;
    }
  }

  // ------------------------------------------------------- what is recorded

  /** A report is recorded exactly when its rollout is outstanding and it is within
      bounds; then it is what is known of that rollout, and nothing else changes. */
  lemma ReportRecords(s: State, output: string, preflight: string, score: real, r: Rollout)
    ensures var (t, reply) := CompleteRollout(s, output, preflight, score);
            && (reply == Recorded <==>
                  && s.pending.Some? && s.pending.value.Evaluate?
                  && |output| <= 16_000 && |preflight| <= 16_000 && 0.0 <= score <= 1.0)
            && (reply != Recorded ==> t == s && reply.Rejected?)
            && (reply == Recorded ==>
                  && t == s.(observations := t.observations, pending := None)
                  && Latest(t.observations, s.pending.value.rollout)
                     == Some(Observation(s.pending.value.rollout, score, output, preflight))
                  && (r != s.pending.value.rollout ==> Latest(t.observations, r) == Latest(s.observations, r)))
  {
    var (t, reply) := CompleteRollout(s, output, preflight, score);
    if reply == Recorded {
      LatestAppend(s.observations, t.observations[|s.observations|], r);
    }
  }

  /** Event `i` reported the `k`-th observation, while its rollout was outstanding. */
  ghost predicate ReportedAt(suite: Suite, s: State, events: seq<Event>, k: nat, i: nat)
    requires Inv(suite, s)
  {
    && i < |events| && k < |Run(suite, s, events).observations| && events[i].Report?
    && var o := Run(suite, s, events).observations[k];
    && o.score == events[i].score && o.output == events[i].output && o.preflight == events[i].preflight
    && Run(suite, s, events[..i]).pending == Some(Evaluate(o.rollout))
    && Run(suite, s, events[..i]).observations == Run(suite, s, events).observations[..k]
  }

  /** Every observation of a run was reported, as it stands, by one of its events. */
  lemma {:induction false} EveryObservationWasReported(suite: Suite, s: State, events: seq<Event>, k: nat) returns (i: nat)
    requires Inv(suite, s) && |s.observations| <= k < |Run(suite, s, events).observations|
    ensures ReportedAt(suite, s, events, k, i)
  {
    hide Inv, Apply;
    var n := |events| - 1;
    assert events != [];
    var before := Run(suite, s, events[..n]);
    ApplyObserves(suite, before, events[n]);
    if k < |before.observations| {
      i := EveryObservationWasReported(suite, s, events[..n], k);
      assert events[..n][..i] == events[..i];
      assert Run(suite, s, events).observations[..k] == before.observations[..k];
    } else {
      i := n;
      assert Run(suite, s, events).observations[..k] == before.observations;
    }
  }

  lemma ApplyObserves(suite: Suite, s: State, e: Event)
    requires Inv(suite, s)
    ensures var t := Apply(suite, s, e).0;
            && s.observations <= t.observations
            && (t.observations != s.observations ==>
                  && e.Report? && s.pending.Some? && s.pending.value.Evaluate?
                  && t.observations == s.observations + [Observation(s.pending.value.rollout, e.score, e.output, e.preflight)])
  {
    if e.Ask? {
      NextActionSteps(suite, s);
    } else {
      hide Inv, Revise, Known, Row;
    }
  }

  // -------------------------------------------------------- serving the queue

  /** Already observed, and observations are reused. */
  predicate Cached(s: State, r: Rollout) {
    s.config.cacheEvaluations && Observed(s.observations, r)
  }

  lemma DispatchServes(suite: Suite, s: State)
    requires Inv(suite, s) && s.pending.None? && s.queue != []
    ensures var turn := Advance(suite, s);
            if Cached(s, s.queue[0]) then turn == Continue(s.(queue := s.queue[1..]))
            else turn.Reserve? && turn.action == Evaluate(s.queue[0])
                 && turn.state.queue == s.queue[1..] && turn.state.stage == s.stage
  {
    DispatchKeeps(suite, s);
    hide Inv, RolloutCalls;
  }

  /** A request hands out the first queued rollout that is not cached: with caching
      nothing observed is repeated, without it nothing queued is skipped. */
  lemma {:induction false} QueueIsServed(suite: Suite, s: State, k: nat)
    requires Inv(suite, s) && s.pending.None? && k < |s.queue|
    requires !Cached(s, s.queue[k]) && forall i :: 0 <= i < k ==> Cached(s, s.queue[i])
    ensures var (t, reply) := NextAction(suite, s);
            reply == Reserved(Evaluate(s.queue[k])) && t.queue == s.queue[k + 1..] && t.stage == s.stage
    decreases k
  {
    hide Inv, Advance, Observed;
    InvIsWellFormed(suite, s);
    AdvanceKeeps(suite, s);
    DispatchServes(suite, s);
    hide WellFormed;
    if k > 0 {
      assert Cached(s, s.queue[0]);
      var t := Advance(suite, s).state;
      QueueIsServed(suite, t, k - 1);
      assert t.queue[k..] == s.queue[k + 1..];
    }
  }

  lemma AdvanceSkipsCached(suite: Suite, s: State)
    requires Inv(suite, s) && s.pending.None?
    ensures var turn := Advance(suite, s);
            turn.Reserve? && turn.action.Evaluate? ==> !Cached(s, turn.action.rollout)
  {
    hide Inv, PlanRound, Frontier, Best, Mean, BestParent, SomeParentPerfect, RolloutCalls, Rollouts, Row, Cases;
    InvIsWellFormed(suite, s);
    hide WellFormed;
  }

  /** With caching, no request ever hands out an observed rollout. */
  lemma {:induction false} NeverRepeatsCached(suite: Suite, s: State)
    requires Inv(suite, s)
    ensures var reply := NextAction(suite, s).1;
            reply.Reserved? && reply.action.Evaluate? ==> !Cached(s, reply.action.rollout)
    decreases RoundsLeft(s), Rank(s.stage), |s.queue|
  {
    hide Inv, Advance;
    if s.pending.None? {
      InvIsWellFormed(suite, s);
      AdvanceKeeps(suite, s);
      AdvanceProgress(suite, s);
      AdvanceSteps(suite, s);
      AdvanceSkipsCached(suite, s);
      if Advance(suite, s).Continue? {
        NeverRepeatsCached(suite, Advance(suite, s).state);
      }
    }
  }

  // --------------------------------------------------------- what is charged

  /** Model calls of a rollout: the steps of a replay or one answer, a judge for an
      open-ended check, and one call per team member. */
  ghost function Charge(suite: Suite, s: State, r: Rollout): nat
    requires FitsRollout(suite, s, r)
  {
    var c, team := suite.cases[r.task], s.candidates[r.candidate].guidance.team;
    (match c.maxSteps case Some(n) => n case None => 1)
    + (if c.check.Judge? then 1 else 0)
    + (match team case Some(t) => |t.members| case None => 0)
  }

  /** The counters after handing out an action. */
  ghost predicate Charged(suite: Suite, s: State, t: State, action: Action) {
    match action
    case Evaluate(r) =>
      && FitsRollout(suite, s, r) && t.metricCalls == s.metricCalls + 1 && t.proposalCalls == s.proposalCalls
      && t.modelCallsReserved == s.modelCallsReserved + Charge(suite, s, r)
    case Propose(_, _, _) =>
      && t.metricCalls == s.metricCalls && t.proposalCalls == s.proposalCalls + 1
      && t.modelCallsReserved == s.modelCallsReserved + 1
  }

  ghost predicate Uncharged(s: State, t: State) {
    t.metricCalls == s.metricCalls && t.proposalCalls == s.proposalCalls && t.modelCallsReserved == s.modelCallsReserved
  }

  lemma AdvanceCharges(suite: Suite, s: State)
    requires Inv(suite, s) && s.pending.None?
    ensures var turn := Advance(suite, s);
            if turn.Reserve? then Charged(suite, s, turn.state, turn.action) else Uncharged(s, turn.state)
  {
    hide Coverage, Settled, Budget, Shape, Isolation, Best, Frontier, PlanRound, SomeParentPerfect, BestParent, Mean, Rollouts, Row, Cases;
  }

  /** A request charges exactly for the action it hands out. */
  lemma {:induction false} RequestCharges(suite: Suite, s: State)
    requires Inv(suite, s)
    ensures var (t, reply) := NextAction(suite, s);
            if reply.Reserved? then Charged(suite, s, t, reply.action) else Uncharged(s, t)
    decreases RoundsLeft(s), Rank(s.stage), |s.queue|
  {
    hide Inv, Advance;
    if s.pending.None? {
      InvIsWellFormed(suite, s);
      AdvanceKeeps(suite, s);
      AdvanceProgress(suite, s);
      AdvanceSteps(suite, s);
      AdvanceCharges(suite, s);
      if Advance(suite, s).Continue? {
        RequestCharges(suite, Advance(suite, s).state);
      }
    }
  }

  // ------------------------------------------------------------- reflection

  /** A reflection whose parents are measured skips the proposal exactly when some
      parent has the full score throughout; else it asks to revise the instruction,
      or every second time, if teams evolve, the team. */
  lemma ReflectDecides(suite: Suite, s: State)
    requires Inv(suite, s) && InUnit(s.observations) && s.pending.None? && s.queue == [] && s.stage.Reflect?
    ensures var Reflect(parents, batch) := s.stage;
            var turn := Advance(suite, s);
            if exists i :: 0 <= i < |parents| && Measured(s.observations, parents[i], batch)
                           && forall k :: 0 <= k < |batch| ==>
                                Latest(s.observations, Rollout(parents[i], batch[k])).value.score == 1.0
            then turn == Continue(s.(stage := Choose))
            else
              && turn.Reserve?
              && turn.action == Propose(parents, batch, if s.config.evolveTeam && s.proposalCalls % 2 == 1
                                                        then Collaborators else Instruction)
  {
    hide Coverage, Settled, Budget, Isolation, Mean, Latest, InUnit;
    PerfectExactly(s.observations, s.stage.parents, s.stage.batch);
  }

  // ---------------------------------------------------------------- parents

  lemma WithoutSkips(xs: seq<nat>, i: nat, j: nat)
    requires Ascending(xs) && i < |xs| && j < |xs| - 1
    ensures |Without(xs, xs[i])| == |xs| - 1
    ensures Without(xs, xs[i])[j] == xs[if j < i then j else j + 1]
  {
    if i == 0 {
      WithoutNone(xs[1..], xs[0]);
    } else {
      assert xs[1..][i - 1] == xs[i];
      if |xs| > 2 {
        WithoutSkips(xs[1..], i - 1, if j == 0 then 0 else j - 1);
      } else {
        WithoutSingle(xs);
      }
    }
  }

  lemma WithoutSingle(xs: seq<nat>)
    requires |xs| == 2 && xs[0] != xs[1]
    ensures Without(xs, xs[1]) == [xs[0]]
  {
    assert xs[1..] == [xs[1]] && [xs[1]][1..] == [];
    assert Without([xs[1]], xs[1]) == [];
  }

  lemma {:induction false} WithoutNone(xs: seq<nat>, x: nat)
    requires x !in xs
    ensures Without(xs, x) == xs
  {
    if xs != [] {
      WithoutNone(xs[1..], x);
    }
  }

  /** The first draw picks any frontier member, the second any other. */
  lemma ParentsAreDrawn(frontier: seq<nat>, merging: bool, rng: T.Generator)
    requires frontier != [] && Ascending(frontier)
    ensures var (parents, after) := PickParents(frontier, merging, rng);
            var first := T.Next(rng);
            var i := first.bits as nat % |frontier|;
            && parents[0] == frontier[i]
            && (|parents| == 1 ==> after == first)
            && (|parents| == 2 ==>
                  && after == T.Next(first)
                  && var j := after.bits as nat % (|frontier| - 1);
                  parents[1] == frontier[if j < i then j else j + 1])
  {
    hide T.Next;
    if merging && |frontier| > 1 {
      var first := T.Next(rng);
      var i := T.Index(first, |frontier|);
      WithoutSkips(frontier, i, 0);
      WithoutSkips(frontier, i, T.Index(T.Next(first), |frontier| - 1));
    }
  }

  /** The generator after a round's parents are drawn. */
  function AfterParents(parents: seq<nat>, rng: T.Generator): T.Generator {
    if |parents| == 2 then T.Next(T.Next(rng)) else T.Next(rng)
  }

  lemma PlanDraws(frontier: seq<nat>, merging: bool, rng: T.Generator, order: seq<nat>, cursor: nat, size: nat)
    requires frontier != [] && Ascending(frontier) && cursor <= |order|
    ensures var plan := PlanRound(frontier, merging, rng, order, cursor, size);
            && plan.draw == T.Draw(order, cursor, AfterParents(plan.parents, rng), size)
            && plan.parents == PickParents(frontier, merging, rng).0
  {
    hide T.Draw, T.Next, Without;
  }

  /** A round works on the next window of the training order. At the end of an epoch it
      takes the remainder first and goes on in a reshuffled order, so within an epoch
      every case is shown once before any is shown again. */
  lemma RoundDrawsNext(suite: Suite, s: State)
    requires Inv(suite, s) && s.pending.None? && s.queue == [] && s.stage.Choose?
    requires Advance(suite, s).state.stage.Reflect?
    ensures var t := Advance(suite, s).state;
            var size, end := s.config.minibatchSize, s.trainCursor + s.config.minibatchSize;
            var after, rest := AfterParents(t.stage.parents, s.rng), s.trainOrder[s.trainCursor..];
            && t.queue == Rollouts(t.stage.parents, t.stage.batch)
            && if end <= |s.trainOrder|
               then t.stage.batch == s.trainOrder[s.trainCursor..end] && t.trainCursor == end
                    && t.trainOrder == s.trainOrder && t.rng == after
               else T.Shuffled(t.trainOrder, t.rng) == T.Shuffle(s.trainOrder, after) && t.trainCursor <= |t.trainOrder|
                    && t.stage.batch == rest + T.Fresh(t.trainOrder[..t.trainCursor], rest)
  {
    var plan := RoundIsBegun(suite, s);
    OrderIsReady(suite, s, plan.parents);
    hide Inv, Advance, T.Draw, T.Shuffle, T.Fresh, AfterParents, Rollouts, T.Distinct;
    var after := AfterParents(plan.parents, s.rng);
    T.DrawIsFair(s.trainOrder, s.trainCursor, after, s.config.minibatchSize);
    if s.trainCursor + s.config.minibatchSize > |s.trainOrder| {
      T.DrawCrosses(s.trainOrder, s.trainCursor, after, s.config.minibatchSize);
    }
  }

  lemma RoundIsBegun(suite: Suite, s: State) returns (plan: Plan)
    requires Inv(suite, s) && s.pending.None? && s.queue == [] && s.stage.Choose?
    requires Advance(suite, s).state.stage.Reflect?
    ensures s.trainCursor <= |s.trainOrder|
    ensures Advance(suite, s).state == Begin(s, plan)
    ensures plan.draw == T.Draw(s.trainOrder, s.trainCursor, AfterParents(plan.parents, s.rng), s.config.minibatchSize)
  {
    hide Inv, Frontier, PlanRound, Best, Rollouts, Cases, T.Draw, AfterParents, Begin;
    InvIsWellFormed(suite, s);
    var frontier := Frontier(s.observations, |s.candidates|, Cases(suite, Validation));
    var merging := s.config.merge && (s.rounds + 1) % 3 == 0;
    assert frontier != [] && s.trainCursor <= |s.trainOrder|;
    hide WellFormed;
    plan := PlanRound(frontier, merging, s.rng, s.trainOrder, s.trainCursor, s.config.minibatchSize);
    PlanDraws(frontier, merging, s.rng, s.trainOrder, s.trainCursor, s.config.minibatchSize);
  }

  lemma OrderIsReady(suite: Suite, s: State, parents: seq<nat>)
    requires Inv(suite, s)
    ensures s.trainCursor <= |s.trainOrder| && s.config.minibatchSize <= |s.trainOrder| && T.Distinct(s.trainOrder)
    ensures AfterParents(parents, s.rng).Live()
  {
    T.PermutationDistinct(Cases(suite, Train), s.trainOrder);
    T.NextNonzero(s.rng);
    T.NextNonzero(T.Next(s.rng));
    hide T.Next, Coverage, Settled, Budget, Isolation, Shape;
  }

  /** Parent by parent, each on the batch in its order. */
  lemma {:induction false} RolloutsInOrder(candidates: seq<nat>, tasks: seq<nat>, i: nat, j: nat)
    requires i < |candidates| && j < |tasks|
    ensures i * |tasks| + j < |Rollouts(candidates, tasks)|
    ensures Rollouts(candidates, tasks)[i * |tasks| + j] == Rollout(candidates[i], tasks[j])
  {
    if i > 0 {
      RolloutsInOrder(candidates[1..], tasks, i - 1, j);
      assert (i - 1) * |tasks| + j == i * |tasks| + j - |tasks|;
      assert Rollouts(candidates, tasks)[i * |tasks| + j] == Rollouts(candidates[1..], tasks)[i * |tasks| + j - |tasks|];
    }
  }

  /** A search begins with the two seeds to validate, nothing spent, and the training
      cases shuffled from the configured seed. */
  lemma StartIsFresh(config: Config, suite: Suite, seeds: seq<Guidance>)
    requires ValidSetup(config, suite, seeds)
    ensures var s := Start(config, suite, seeds);
            && s.config == config && |s.candidates| == 2
            && s.candidates[0].guidance == seeds[0] && s.candidates[1].guidance == seeds[1]
            && s.queue == Rollouts([0, 1], Cases(suite, Validation)) && s.stage == Seeds
            && s.observations == [] && s.pending.None? && s.winner.None?
            && s.metricCalls == s.proposalCalls == s.modelCallsReserved == s.rounds == s.trainCursor == 0
            && T.Shuffled(s.trainOrder, s.rng) == T.Shuffle(Cases(suite, Train), T.Generator(if config.seed == 0 then 1 else config.seed))
  {
    hide T.Shuffle, Rollouts, Cases;
  }

  // --------------------------------------------------------------- proposals

  /** What an accepted text makes of the base guidance. */
  ghost predicate Revised(base: Guidance, component: Component, text: string, decoded: Decoded, g: Guidance) {
    && g.revision.None?
    && if component.Instruction? then g.instruction == text && g.team == base.team
       else
         && g.instruction == base.instruction
         && (decoded.Null? || (decoded.Decoded? && decoded.team.members == []) ==> g.team.None?)
         && (decoded.Decoded? && decoded.team.members != [] ==> g.team == Some(decoded.team))
  }

  ghost predicate Acceptable(component: Component, text: string, decoded: Decoded, maxAgents: nat) {
    && !Blank(text) && |text| <= (if component.Instruction? then 12_000 else 16_000)
    && (component.Collaborators? ==> decoded.Null? || (decoded.Decoded? && decoded.team.Valid(maxAgents)))
  }

  lemma ReviseExactly(base: Guidance, component: Component, text: string, decoded: Decoded, maxAgents: nat)
    ensures var r := Revise(base, component, text, decoded, maxAgents);
            && (r.Some? <==> Acceptable(component, text, decoded, maxAgents))
            && (r.Some? ==> Revised(base, component, text, decoded, r.value))
  {
  }

  /** An acceptable text for an outstanding proposal is recorded; it becomes a candidate
      on trial unless some candidate already has that guidance, and then the round is
      over. Anything else is refused without effect. */
  lemma OfferRecords(suite: Suite, s: State, text: string, decoded: Decoded)
    requires Inv(suite, s)
    ensures var (t, reply) := CompleteProposal(suite, s, text, decoded);
            if s.pending.Some? && s.pending.value.Propose?
               && Acceptable(s.pending.value.component, text, decoded, s.config.maxAgents)
            then
              var Propose(parents, batch, component) := s.pending.value;
              var base := s.candidates[parents[0]].guidance;
              && reply == Recorded && t.pending.None? && t.observations == s.observations
              && ((t.stage == Choose && t.candidates == s.candidates && t.queue == s.queue
                   && exists c :: c in s.candidates && AsRevised(base, component, text, decoded, c.guidance))
                  || (t.stage == Trial(|s.candidates|, parents, batch) && t.queue == Row(|s.candidates|, batch)
                      && |t.candidates| == |s.candidates| + 1 && s.candidates <= t.candidates
                      && t.candidates[|s.candidates|].parents == parents
                      && Revised(base, component, text, decoded, t.candidates[|s.candidates|].guidance)
                      && forall c :: c in s.candidates ==>
                           !SameGuidance(c.guidance, t.candidates[|s.candidates|].guidance)))
            else reply.Rejected? && t == s
  {
    if s.pending.Some? && s.pending.value.Propose? {
      var Propose(parents, batch, component) := s.pending.value;
      var base := s.candidates[parents[0]].guidance;
      ReviseExactly(base, component, text, decoded, s.config.maxAgents);
      hide Inv, Revise, Acceptable, Row, Revised, AsRevised;
      var g := Revise(base, component, text, decoded, s.config.maxAgents);
      if g.Some? {
        KnownIsRevised(s.candidates, base, component, text, decoded, g.value);
      }
    }
  }

  /** Has the instruction and team that the text asks for. */
  ghost predicate AsRevised(base: Guidance, component: Component, text: string, decoded: Decoded, g: Guidance) {
    Revised(base, component, text, decoded, g.(revision := None))
  }

  lemma KnownIsRevised(candidates: seq<Individual>, base: Guidance, component: Component, text: string, decoded: Decoded, g: Guidance)
    requires Revised(base, component, text, decoded, g)
    ensures Known(candidates, g) ==> exists c :: c in candidates && AsRevised(base, component, text, decoded, c.guidance)
    ensures !Known(candidates, g) ==> forall c :: c in candidates ==> !SameGuidance(c.guidance, g)
  {
    if Known(candidates, g) {
      var i :| 0 <= i < |candidates| && SameGuidance(candidates[i].guidance, g);
      assert candidates[i] in candidates && AsRevised(base, component, text, decoded, candidates[i].guidance);
    }
  }

  // -------------------------------------------------------------- what is shown

  /** A proposer is shown, per parent, its guidance and one example per batch case. */
  lemma BriefIsComplete(suite: Suite, s: State, p: nat, i: nat)
    requires Inv(suite, s) && s.pending.Some? && s.pending.value.Propose?
    requires p < |s.pending.value.parents| && i < |s.pending.value.batch|
    ensures var Propose(parents, batch, component) := s.pending.value;
            var shown := ProposalInput(suite, s);
            && shown.Briefed? && var Brief(asked, maxAgents, merge, lessons) := shown.brief;
            && asked == component && maxAgents == s.config.maxAgents && (merge <==> |parents| == 2)
            && |lessons| == |parents| && lessons[p].guidance == s.candidates[parents[p]].guidance
            && |lessons[p].examples| == |batch|
            && var e, c := lessons[p].examples[i], suite.cases[batch[i]];
            && e.input == c.input && e.check == c.check && e.observed == Latest(s.observations, Rollout(parents[p], batch[i]))
  {
    ProposalsSeeTrainingOnly(suite, s);
    hide Coverage, Settled, Budget, Isolation, Latest;
  }

  /** Even a restored search never shows a held-out case to a proposer. */
  lemma BriefedExactly(suite: Suite, s: State)
    requires WellFormed(suite, s)
    ensures var shown := ProposalInput(suite, s);
            && (shown.Briefed? <==>
                  && s.pending.Some? && s.pending.value.Propose?
                  && forall x :: x in s.pending.value.batch ==> suite.cases[x].split == Train)
            && (s.pending.Some? && s.pending.value.Propose? && !shown.Briefed? ==> shown == Refused(HeldOutEvidence))
  {
    if s.pending.Some? && s.pending.value.Propose? {
      var batch := s.pending.value.batch;
      assert forall i :: 0 <= i < |batch| ==> batch[i] in batch;
    }
  }

  /** The four application scores are the means of the baseline and of the winner, on
      validation and on test. */
  lemma OutcomeIsFourMeans(suite: Suite, s: State)
    requires Inv(suite, s) && s.stage.Complete?
    ensures var o := ApplicationScores(suite, s);
            && o.Some? && s.winner.Some?
            && Some(o.value.baseValidation) == Mean(s.observations, 0, Cases(suite, Validation))
            && Some(o.value.winnerValidation) == Mean(s.observations, s.winner.value, Cases(suite, Validation))
            && Some(o.value.baseTest) == Mean(s.observations, 0, Cases(suite, Test))
            && Some(o.value.winnerTest) == Mean(s.observations, s.winner.value, Cases(suite, Test))
  {
    CompleteIsScored(suite, s);
    hide Coverage, Settled, Budget, Mean;
  }
}
