/** What the recorded scores are: numbers in [0, 1], in every run, and so are the four
    values by which a finished search is judged. */
module SearchScores {
  import opened Text
  import opened Suites
  import opened Scoring
  import opened Search
  import opened SearchSafety
  import opened SearchRuns

  lemma ApplyInUnit(suite: Suite, s: State, e: Event)
    requires Inv(suite, s) && InUnit(s.observations)
    ensures InUnit(Apply(suite, s, e).0.observations)
  {
    if e.Ask? {
      NextActionSteps(suite, s);
    }
    hide Inv, NextAction, Revise;
  }

  lemma {:induction false} AlwaysInUnit(suite: Suite, s: State, events: seq<Event>)
    requires Inv(suite, s) && InUnit(s.observations)
    ensures InUnit(Run(suite, s, events).observations)
  {
    hide Inv, Apply, InUnit;
    if events != [] {
      AlwaysInUnit(suite, s, events[..|events| - 1]);
      ApplyInUnit(suite, Run(suite, s, events[..|events| - 1]), events[|events| - 1]);
    }
  }

  ghost predicate UnitOutcome(o: Outcome) {
    && 0.0 <= o.baseValidation <= 1.0 && 0.0 <= o.winnerValidation <= 1.0
    && 0.0 <= o.baseTest <= 1.0 && 0.0 <= o.winnerTest <= 1.0
  }

  /** The application scores of any run lie in [0, 1], and the winner's validation mean
      is never below the baseline's. */
  lemma OutcomesInUnit(config: Config, suite: Suite, seeds: seq<Guidance>, events: seq<Event>)
    requires ValidSetup(config, suite, seeds)
    ensures Inv(suite, Start(config, suite, seeds))
    ensures var o := ApplicationScores(suite, Run(suite, Start(config, suite, seeds), events));
            o.Some? ==> UnitOutcome(o.value) && o.value.baseValidation <= o.value.winnerValidation
  {
    StartHolds(config, suite, seeds);
    AlwaysInUnit(suite, Start(config, suite, seeds), events);
    ScoredOutcome(suite, Run(suite, Start(config, suite, seeds), events));
  }

  lemma ScoredOutcome(suite: Suite, s: State)
    requires Inv(suite, s) && InUnit(s.observations)
    ensures var o := ApplicationScores(suite, s);
            o.Some? ==> UnitOutcome(o.value) && o.value.baseValidation <= o.value.winnerValidation
  {
    var o := ApplicationScores(suite, s);
    if o.Some? {
      var w := s.winner.value;
      assert IsBest(s.observations, |s.candidates|, Cases(suite, Validation), w);
      assert Measured(s.observations, 0, Cases(suite, Validation));
      MeanInUnit(s.observations, 0, Cases(suite, Validation));
      MeanInUnit(s.observations, w, Cases(suite, Validation));
      MeanInUnit(s.observations, 0, Cases(suite, Test));
      MeanInUnit(s.observations, w, Cases(suite, Test));
      hide Inv, Mean, Measured, Cases, InUnit;
    }
  }

  /** A round is given up before its proposal exactly when some parent has the full
      score on every case of the batch. */
  lemma PerfectExactly(obs: seq<Observation>, parents: seq<nat>, batch: seq<nat>)
    requires InUnit(obs) && batch != []
    ensures SomeParentPerfect(obs, parents, batch) <==>
            exists i :: 0 <= i < |parents| && Measured(obs, parents[i], batch)
                        && forall k :: 0 <= k < |batch| ==> Latest(obs, Rollout(parents[i], batch[k])).value.score == 1.0
  {
    hide Mean, Latest, InUnit;
    forall i | 0 <= i < |parents|
      ensures Mean(obs, parents[i], batch) == Some(1.0) <==>
              && Measured(obs, parents[i], batch)
              && forall k :: 0 <= k < |batch| ==> Latest(obs, Rollout(parents[i], batch[k])).value.score == 1.0
    {
      MeanInUnit(obs, parents[i], batch);
    }
  }
}
