/** What selection may depend on: promotion to validation is earned on training
    cases, and test scores influence nothing but the final comparison. */
module SearchIsolation {
  import opened Text
  import opened Suites
  import opened Scoring
  import opened Search
  import opened SearchSafety
  import opened SearchRuns

  // -------------------------------------------------------------- promotion

  /** The candidate has entered validation: some validation case of it is queued,
      reserved or observed. */
  ghost predicate Entered(suite: Suite, s: State, candidate: nat) {
    exists r: Rollout :: r.candidate == candidate && r.task in Cases(suite, Validation)
                         && (Waiting(s, r) || Observed(s.observations, r))
  }

  /** The candidate is on trial and strictly ahead of all its parents. */
  ghost predicate Leads(s: State, candidate: nat) {
    && s.stage.Trial? && s.stage.candidate == candidate && s.stage.batch != []
    && candidate < |s.candidates| && s.stage.parents == s.candidates[candidate].parents
    && Beats(s.observations, candidate, s.stage.parents, s.stage.batch)
  }

  lemma DispatchPromotes(suite: Suite, s: State, r: Rollout)
    requires WellFormed(suite, s) && s.pending.None? && s.queue != []
    ensures Waiting(Dispatch(suite, s).state, r) ==> Waiting(s, r)
  {
  }

  lemma SettlePromotes(suite: Suite, s: State, r: Rollout)
    requires Inv(suite, s) && s.pending.None? && s.queue == []
    requires Inv(suite, Advance(suite, s).state)
    requires r.candidate >= 2 && r.task in Cases(suite, Validation) && Waiting(Advance(suite, s).state, r)
    ensures Leads(s, r.candidate)
  {
    assert Needed(suite, Advance(suite, s).state, r);
    hide Inv, Needed, Leads, Waiting, Best, SomeParentPerfect, Mean, Cases;
    match s.stage
    case Trial(_, _, _) => TrialPromotes(suite, s, r);
    case Choose => ChooseNeedsNone(suite, s, r);
    case _ => OthersNeedNone(suite, s, r);
  }

  lemma TrialPromotes(suite: Suite, s: State, r: Rollout)
    requires Inv(suite, s) && s.pending.None? && s.queue == [] && s.stage.Trial?
    requires Needed(suite, Advance(suite, s).state, r)
    ensures Leads(s, r.candidate)
  {
    hide PlanRound, Frontier, Mean, BestParent, Best, SomeParentPerfect, Coverage, Budget, Isolation, Settled;
    JudgeTrialDecides(suite, s);
  }

  lemma RoundNeedsNone(suite: Suite, s: State, t: State, r: Rollout)
    requires Round(suite, s, t) && r.task in Cases(suite, Validation)
    ensures !Needed(suite, t, r)
  {
    hide OnFrontier, Frontier, Rollouts;
  }

  lemma FinalNeedsNone(suite: Suite, s: State, r: Rollout)
    requires WellFormed(suite, s) && SelectWinner(suite, s).Continue? && r.task in Cases(suite, Validation)
    ensures !Needed(suite, SelectWinner(suite, s).state, r)
  {
    hide WellFormed, Best, Rollouts;
  }

  lemma ChooseNeedsNone(suite: Suite, s: State, r: Rollout)
    requires Inv(suite, s) && s.pending.None? && s.queue == [] && s.stage.Choose?
    requires r.task in Cases(suite, Validation)
    ensures !Needed(suite, Advance(suite, s).state, r)
  {
    hide Needed, SelectWinner, StartRound, Cases, Round, Coverage, Budget, Isolation, Settled, Shape;
    if OutOfBudget(suite, s) {
      SelectWinnerKeeps(suite, s);
      FinalNeedsNone(suite, s, r);
    } else {
      StartRoundKeeps(suite, s);
      StartRoundGives(suite, s);
      RoundNeedsNone(suite, s, StartRound(suite, s).state, r);
    }
  }

  lemma OthersNeedNone(suite: Suite, s: State, r: Rollout)
    requires Inv(suite, s) && s.pending.None? && s.queue == [] && !s.stage.Choose? && !s.stage.Trial?
    requires r.task in Cases(suite, Validation)
    ensures !Needed(suite, Advance(suite, s).state, r)
  {
    hide Coverage, Budget, Settled, Best, Mean, SomeParentPerfect;
  }

  lemma AdvancePromotes(suite: Suite, s: State, candidate: nat)
    requires Inv(suite, s) && s.pending.None? && candidate >= 2
    ensures Entered(suite, Advance(suite, s).state, candidate) ==> Entered(suite, s, candidate) || Leads(s, candidate)
  {
    AdvanceKeeps(suite, s);
    AdvanceSteps(suite, s);
    var t := Advance(suite, s).state;
    if Entered(suite, t, candidate) {
      var r: Rollout :| r.candidate == candidate && r.task in Cases(suite, Validation)
                        && (Waiting(t, r) || Observed(t.observations, r));
      if s.queue != [] {
        DispatchPromotes(suite, s, r);
      } else if Waiting(t, r) {
        SettlePromotes(suite, s, r);
      }
    }
  }

  lemma {:induction false} NextActionPromotes(suite: Suite, s: State, candidate: nat)
    requires Inv(suite, s) && candidate >= 2
    ensures Entered(suite, NextAction(suite, s).0, candidate) ==> Entered(suite, s, candidate) || Leads(s, candidate)
    decreases RoundsLeft(s), Rank(s.stage), |s.queue|
  {
    if s.pending.None? {
      AdvanceKeeps(suite, s);
      AdvanceProgress(suite, s);
      AdvancePromotes(suite, s, candidate);
      var turn := Advance(suite, s);
      if turn.Continue? {
        NextActionPromotes(suite, turn.state, candidate);
        TrialIsNotStarted(suite, s, candidate);
      }
    }
  }

  /** Asking never starts a trial: only an accepted proposal does. */
  lemma TrialIsNotStarted(suite: Suite, s: State, candidate: nat)
    requires Inv(suite, s) && s.pending.None? && Advance(suite, s).Continue?
    ensures Leads(Advance(suite, s).state, candidate) ==> Leads(s, candidate)
  {
    AdvanceSteps(suite, s);
  }

  lemma ReportPromotes(suite: Suite, s: State, output: string, preflight: string, score: real, candidate: nat)
    requires Inv(suite, s)
    ensures Entered(suite, CompleteRollout(s, output, preflight, score).0, candidate) ==> Entered(suite, s, candidate)
  {
    var t := CompleteRollout(s, output, preflight, score).0;
    if t != s && Entered(suite, t, candidate) {
      var r: Rollout :| r.candidate == candidate && r.task in Cases(suite, Validation)
                        && (Waiting(t, r) || Observed(t.observations, r));
      LatestAppend(s.observations, t.observations[|s.observations|], r);
      assert Waiting(s, r) || Observed(s.observations, r);
    }
  }

  lemma OfferPromotes(suite: Suite, s: State, text: string, decoded: Decoded, candidate: nat)
    requires Inv(suite, s)
    ensures Entered(suite, CompleteProposal(suite, s, text, decoded).0, candidate) ==> Entered(suite, s, candidate)
  {
    hide Revise, Known, Budget, Isolation, Coverage, Settled;
    var t := CompleteProposal(suite, s, text, decoded).0;
    if t != s && Entered(suite, t, candidate) {
      var r: Rollout :| r.candidate == candidate && r.task in Cases(suite, Validation)
                        && (Waiting(t, r) || Observed(t.observations, r));
      assert r.task !in s.pending.value.batch;
      assert !Waiting(t, r);
      assert Observed(s.observations, r);
    }
  }

  lemma ApplyPromotes(suite: Suite, s: State, e: Event, candidate: nat)
    requires Inv(suite, s) && candidate >= 2
    ensures Entered(suite, Apply(suite, s, e).0, candidate) ==> Entered(suite, s, candidate) || Leads(s, candidate)
  {
    match e
    case Ask => NextActionPromotes(suite, s, candidate);
    case Report(output, preflight, score) => ReportPromotes(suite, s, output, preflight, score, candidate);
    case Offer(text, decoded) => OfferPromotes(suite, s, text, decoded, candidate);
  }

  lemma RunLast(suite: Suite, s: State, events: seq<Event>)
    requires Inv(suite, s) && events != []
    ensures Run(suite, s, events) == Apply(suite, Run(suite, s, events[..|events| - 1]), events[|events| - 1]).0
  {
  }

  /** In every run, a candidate that is not a seed enters validation only if at
      some earlier moment it strictly beat each of its parents on its batch. */
  lemma {:induction false} PromotionIsEarned(suite: Suite, s: State, events: seq<Event>, candidate: nat)
    returns (k: nat)
    requires Inv(suite, s) && candidate >= 2
    requires !Entered(suite, s, candidate) && Entered(suite, Run(suite, s, events), candidate)
    ensures k < |events| && Leads(Run(suite, s, events[..k]), candidate)
  {
    hide Apply, Inv, Entered, Leads;
    RunLast(suite, s, events);
    var front := events[..|events| - 1];
    if Entered(suite, Run(suite, s, front), candidate) {
      k := PromotionIsEarned(suite, s, front, candidate);
      assert front[..k] == events[..k];
    } else {
      ApplyPromotes(suite, Run(suite, s, front), events[|events| - 1], candidate);
      k := |events| - 1;
    }
  }

  lemma NothingEnteredAtStart(config: Config, suite: Suite, seeds: seq<Guidance>, candidate: nat)
    requires ValidSetup(config, suite, seeds) && candidate >= 2
    ensures !Entered(suite, Start(config, suite, seeds), candidate)
  {
    var s := Start(config, suite, seeds);
    if Entered(suite, s, candidate) {
      var r: Rollout :| r.candidate == candidate && r.task in Cases(suite, Validation)
                        && (Waiting(s, r) || Observed(s.observations, r));
      assert false;
    }
  }

  // ----------------------------------------------------------- blind to tests

  /** The same search up to what was observed on test cases. */
  ghost predicate SameButTest(suite: Suite, a: State, b: State) {
    && b == a.(observations := b.observations)
    && SameLogs(suite, a.observations, b.observations)
  }

  ghost predicate SameLogs(suite: Suite, a: seq<Observation>, b: seq<Observation>) {
    && |a| == |b|
    && forall i :: 0 <= i < |a| ==>
         a[i].rollout == b[i].rollout && (!IsTest(suite, a[i].rollout) ==> a[i] == b[i])
  }

  lemma {:induction false} SameLogsLatest(suite: Suite, a: seq<Observation>, b: seq<Observation>, r: Rollout)
    requires SameLogs(suite, a, b)
    ensures Latest(a, r).Some? == Latest(b, r).Some?
    ensures !IsTest(suite, r) ==> Latest(a, r) == Latest(b, r)
  {
    if a != [] {
      SameLogsLatest(suite, a[..|a| - 1], b[..|b| - 1], r);
    }
  }

  lemma SameLogsAgree(suite: Suite, a: seq<Observation>, b: seq<Observation>, count: nat, tasks: seq<nat>)
    requires SameLogs(suite, a, b)
    requires forall x :: x in tasks ==> x < |suite.cases| && suite.cases[x].split != Test
    ensures AgreeOn(a, b, count, tasks)
  {
    forall c, i | 0 <= c < count && 0 <= i < |tasks|
      ensures Latest(a, Rollout(c, tasks[i])) == Latest(b, Rollout(c, tasks[i]))
    {
      assert tasks[i] in tasks;
      SameLogsLatest(suite, a, b, Rollout(c, tasks[i]));
    }
  }

  ghost predicate SameTurn(suite: Suite, a: Turn, b: Turn) {
    && SameButTest(suite, a.state, b.state)
    && (a.Continue? <==> b.Continue?) && (a.Stop? <==> b.Stop?) && (a.Reserve? <==> b.Reserve?)
    && (a.Reserve? ==> a.action == b.action)
    && (a.Abort? <==> b.Abort?) && (a.Abort? ==> a.error == b.error)
  }

  lemma BlindSelectWinner(suite: Suite, a: State, b: State)
    requires WellFormed(suite, a) && WellFormed(suite, b) && SameButTest(suite, a, b)
    ensures SameTurn(suite, SelectWinner(suite, a), SelectWinner(suite, b))
  {
    var validation, n := Cases(suite, Validation), |a.candidates|;
    SameLogsAgree(suite, a.observations, b.observations, n, validation);
    AgreeBest(a.observations, b.observations, n, validation);
  }

  lemma BlindFrontier(suite: Suite, a: State, b: State)
    requires SameButTest(suite, a, b)
    ensures Frontier(a.observations, |a.candidates|, Cases(suite, Validation))
         == Frontier(b.observations, |b.candidates|, Cases(suite, Validation))
  {
    var validation, n := Cases(suite, Validation), |a.candidates|;
    SameLogsAgree(suite, a.observations, b.observations, n, validation);
    AgreeFrontierUpto(a.observations, b.observations, n, validation, n);
  }

  lemma BlindStartRound(suite: Suite, a: State, b: State)
    requires WellFormed(suite, a) && WellFormed(suite, b) && SameButTest(suite, a, b)
    ensures SameTurn(suite, StartRound(suite, a), StartRound(suite, b))
  {
    hide PlanRound, Rollouts, Frontier;
    BlindFrontier(suite, a, b);
  }

  lemma BlindMeans(suite: Suite, a: State, b: State, candidate: nat, batch: seq<nat>)
    requires SameButTest(suite, a, b) && batch != []
    requires forall x :: x in batch ==> x in Cases(suite, Train)
    ensures Mean(a.observations, candidate, batch) == Mean(b.observations, candidate, batch)
    ensures Measured(a.observations, candidate, batch) == Measured(b.observations, candidate, batch)
  {
    SameLogsAgree(suite, a.observations, b.observations, candidate + 1, batch);
    AgreeScores(a.observations, b.observations, candidate, batch);
  }

  lemma BlindReflect(suite: Suite, a: State, b: State, parents: seq<nat>, batch: seq<nat>)
    requires SameButTest(suite, a, b) && batch != []
    requires forall x :: x in batch ==> x in Cases(suite, Train)
    ensures SameTurn(suite, AskProposal(a, parents, batch), AskProposal(b, parents, batch))
  {
    forall i | 0 <= i < |parents|
      ensures Mean(a.observations, parents[i], batch) == Mean(b.observations, parents[i], batch)
    {
      BlindMeans(suite, a, b, parents[i], batch);
    }
  }

  lemma {:induction false} BlindBestParent(suite: Suite, a: State, b: State, parents: seq<nat>, batch: seq<nat>)
    requires SameButTest(suite, a, b) && batch != []
    requires forall x :: x in batch ==> x in Cases(suite, Train)
    ensures BestParent(a.observations, parents, batch) == BestParent(b.observations, parents, batch)
  {
    if parents != [] {
      BlindBestParent(suite, a, b, parents[..|parents| - 1], batch);
      BlindMeans(suite, a, b, parents[|parents| - 1], batch);
    }
  }

  lemma BlindTrial(suite: Suite, a: State, b: State, candidate: nat, parents: seq<nat>, batch: seq<nat>)
    requires SameButTest(suite, a, b) && batch != []
    requires forall x :: x in batch ==> x in Cases(suite, Train)
    ensures SameTurn(suite, JudgeTrial(suite, a, candidate, parents, batch), JudgeTrial(suite, b, candidate, parents, batch))
  {
    BlindMeans(suite, a, b, candidate, batch);
    BlindBestParent(suite, a, b, parents, batch);
  }

  lemma BlindDispatch(suite: Suite, a: State, b: State)
    requires WellFormed(suite, a) && WellFormed(suite, b) && SameButTest(suite, a, b) && a.queue != []
    ensures SameTurn(suite, Dispatch(suite, a), Dispatch(suite, b))
  {
    SameLogsLatest(suite, a.observations, b.observations, a.queue[0]);
  }

  lemma BlindAdvance(suite: Suite, a: State, b: State)
    requires Inv(suite, a) && a.pending.None? && SameButTest(suite, a, b) && WellFormed(suite, b)
    ensures SameTurn(suite, Advance(suite, a), Advance(suite, b))
  {
    if a.queue != [] {
      BlindDispatch(suite, a, b);
    } else {
      match a.stage
      case Choose =>
        if OutOfBudget(suite, a) {
          BlindSelectWinner(suite, a, b);
        } else {
          BlindStartRound(suite, a, b);
        }
      case Reflect(parents, batch) => BlindReflect(suite, a, b, parents, batch);
      case Trial(candidate, parents, batch) => BlindTrial(suite, a, b, candidate, parents, batch);
      case _ =>
    }
  }

  lemma {:induction false} BlindNextAction(suite: Suite, a: State, b: State)
    requires Inv(suite, a) && SameButTest(suite, a, b) && WellFormed(suite, b)
    ensures SameButTest(suite, NextAction(suite, a).0, NextAction(suite, b).0)
    ensures NextAction(suite, a).1 == NextAction(suite, b).1
    decreases RoundsLeft(a), Rank(a.stage), |a.queue|
  {
    if a.pending.None? {
      BlindAdvance(suite, a, b);
      AdvanceKeeps(suite, a);
      AdvanceProgress(suite, a);
      AdvanceProgress(suite, b);
      var turn := Advance(suite, a);
      if turn.Continue? {
        BlindNextAction(suite, turn.state, Advance(suite, b).state);
      }
    }
  }

  /** Runs that differ at most in what is reported for reserved test cases. */
  ghost predicate DifferOnTests(suite: Suite, s: State, a: seq<Event>, b: seq<Event>)
    requires Inv(suite, s)
  {
    && |a| == |b|
    && (a != [] ==>
          && DifferOnTests(suite, s, a[..|a| - 1], b[..|b| - 1])
          && var before, x, y := Run(suite, s, a[..|a| - 1]), a[|a| - 1], b[|b| - 1];
          && (x != y ==>
                && x.Report? && y.Report?
                && before.pending.Some? && before.pending.value.Evaluate? && IsTest(suite, before.pending.value.rollout)
                && Apply(suite, before, x).1 == Recorded && Apply(suite, before, y).1 == Recorded))
  }

  lemma BlindReport(suite: Suite, s: State, t: State, x: Event, y: Event)
    requires SameButTest(suite, s, t) && x.Report? && y.Report?
    requires x != y ==>
               && s.pending.Some? && s.pending.value.Evaluate? && IsTest(suite, s.pending.value.rollout)
               && CompleteRollout(s, x.output, x.preflight, x.score).1 == Recorded
               && CompleteRollout(s, y.output, y.preflight, y.score).1 == Recorded
    ensures SameButTest(suite, CompleteRollout(s, x.output, x.preflight, x.score).0,
                        CompleteRollout(t, y.output, y.preflight, y.score).0)
    ensures CompleteRollout(s, x.output, x.preflight, x.score).1 == CompleteRollout(t, y.output, y.preflight, y.score).1
  {
  }

  lemma BlindOffer(suite: Suite, s: State, t: State, text: string, decoded: Decoded)
    requires WellFormed(suite, s) && WellFormed(suite, t) && SameButTest(suite, s, t)
    ensures SameButTest(suite, CompleteProposal(suite, s, text, decoded).0, CompleteProposal(suite, t, text, decoded).0)
    ensures CompleteProposal(suite, s, text, decoded).1 == CompleteProposal(suite, t, text, decoded).1
  {
    hide WellFormed, SameLogs, Revise, Known, Row;
  }

  lemma BlindApply(suite: Suite, s: State, t: State, x: Event, y: Event)
    requires Inv(suite, s) && Inv(suite, t) && SameButTest(suite, s, t)
    requires x != y ==>
               && x.Report? && y.Report?
               && s.pending.Some? && s.pending.value.Evaluate? && IsTest(suite, s.pending.value.rollout)
               && Apply(suite, s, x).1 == Recorded && Apply(suite, s, y).1 == Recorded
    ensures SameButTest(suite, Apply(suite, s, x).0, Apply(suite, t, y).0)
    ensures Apply(suite, s, x).1 == Apply(suite, t, y).1
  {
    hide NextAction, CompleteRollout, CompleteProposal, SameButTest;
    match x
    case Ask => BlindNextAction(suite, s, t);
    case Report(_, _, _) => BlindReport(suite, s, t, x, y);
    case Offer(text, decoded) => BlindOffer(suite, s, t, text, decoded);
  }

  /** Two runs that differ only in test scores propose the same candidates, ask
      for the same work and choose the same winner. */
  lemma {:induction false} SelectionIsBlindToTests(suite: Suite, s: State, a: seq<Event>, b: seq<Event>)
    requires Inv(suite, s) && DifferOnTests(suite, s, a, b)
    ensures SameButTest(suite, Run(suite, s, a), Run(suite, s, b))
    ensures Run(suite, s, a).candidates == Run(suite, s, b).candidates
    ensures Run(suite, s, a).winner == Run(suite, s, b).winner
    ensures Replies(suite, s, a) == Replies(suite, s, b)
  {
    if a != [] {
      var a', b' := a[..|a| - 1], b[..|b| - 1];
      SelectionIsBlindToTests(suite, s, a', b');
      BlindApply(suite, Run(suite, s, a'), Run(suite, s, b'), a[|a| - 1], b[|b| - 1]);
    }
  }
}
