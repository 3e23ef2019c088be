/** The suite drawn from a corpus, as the loops of `measured_trace_suite` build it. */
module TraceSuite {
  import opened Text
  import S = Suites
  import opened Corpus
  import opened Components
  import opened Curation
  import opened Splits
  import opened Sampling

  function SplitFor(bucket: Third): S.Split {
    if bucket == 0 then S.Train else if bucket == 1 then S.Validation else S.Test
  }

  /** Paraphrases are used for training only. */
  function ToCase(p: Pick, digest: Ref -> string): S.Case
    requires p.row.check.Some?
  {
    var c := p.row;
    S.Case(digest(c.episodeRef), SplitFor(p.bucket),
           if p.bucket == 0 && c.variant.Some? then c.variant.value else c.input, c.check.value, None)
  }

  predicate Answered(picks: seq<Pick>) {
    forall i :: 0 <= i < |picks| ==> picks[i].row.check.Some?
  }

  function ToSuite(name: string, picks: seq<Pick>, digest: Ref -> string): S.Suite
    requires Answered(picks)
  {
    S.Suite(name, seq(|picks|, i requires 0 <= i < |picks| && picks[i].row.check.Some? => ToCase(picks[i], digest)))
  }

  lemma SampleAnswered(h: Hash, cases: seq<TraceCase>, budget: nat, difficulty: Difficulty, admissible: TraceCase -> bool)
    ensures Answered(Sample(h, cases, budget, difficulty, admissible))
  {
    SampleIsFair(h, cases, budget, difficulty, admissible);
    hide Sample, CaseGroups;
    var picks := Sample(h, cases, budget, difficulty, admissible);
    forall i | 0 <= i < |picks|
      ensures picks[i].row.check.Some?
    {
      assert RepresentsSome(h, admissible, CaseGroups(cases), picks[i]);
    }
  }

  function Drawn(h: Hash, cases: seq<TraceCase>, budget: nat, difficulty: Difficulty,
                 admissible: TraceCase -> bool, name: string, digest: Ref -> string): S.Suite
  {
    SampleAnswered(h, cases, budget, difficulty, admissible);
    ToSuite(name, Sample(h, cases, budget, difficulty, admissible), digest)
  }

  /** A drawn case keeps its answer and its split; the held-out ones show the original
      input, and only a training case may show a paraphrase. */
  lemma DrawnShows(h: Hash, cases: seq<TraceCase>, budget: nat, difficulty: Difficulty,
                   admissible: TraceCase -> bool, name: string, digest: Ref -> string, i: nat)
    requires i < |Sample(h, cases, budget, difficulty, admissible)|
    ensures var Pick(bucket, row) := Sample(h, cases, budget, difficulty, admissible)[i];
            var suite := Drawn(h, cases, budget, difficulty, admissible, name, digest);
            && suite.name == name && |suite.cases| == |Sample(h, cases, budget, difficulty, admissible)|
            && var c := suite.cases[i];
            && Some(c.check) == row.check && c.id == digest(row.episodeRef) && c.maxSteps.None?
            && (c.split == S.Train <==> bucket == 0) && (c.split == S.Validation <==> bucket == 1)
            && (c.split == S.Test <==> bucket == 2)
            && (c.split != S.Train || row.variant.None? ==> c.input == row.input)
            && (c.split == S.Train && row.variant.Some? ==> c.input == row.variant.value)
  {
    SampleAnswered(h, cases, budget, difficulty, admissible);
    hide Sample;
  }

  // ------------------------------------------------------------------- budget

  lemma {:induction false} SplitCounts(name: string, picks: seq<Pick>, digest: Ref -> string, b: Third, n: nat)
    requires Answered(picks) && n <= |picks|
    ensures |S.CasesUpto(ToSuite(name, picks, digest), SplitFor(b), n)| == InBucket(picks[..n], b)
  {
    if n > 0 {
      SplitCounts(name, picks, digest, b, n - 1);
      assert picks[..n][..n - 1] == picks[..n - 1];
      assert ToSuite(name, picks, digest).cases[n - 1].split == SplitFor(picks[n - 1].bucket);
    }
  }

  /** A sampled suite that validates fits the search's budget check, twice the
      validation and test cases, exactly when the budget is at least four. */
  lemma SuiteFitsBudget(h: Hash, cases: seq<TraceCase>, budget: nat, difficulty: Difficulty,
                        admissible: TraceCase -> bool, name: string, digest: Ref -> string)
    requires S.ValidSuite(Drawn(h, cases, budget, difficulty, admissible, name, digest))
    ensures var suite := Drawn(h, cases, budget, difficulty, admissible, name, digest);
            2 * (|S.Cases(suite, S.Validation)| + |S.Cases(suite, S.Test)|) <= budget <==> budget >= 4
  {
    var picks := Sample(h, cases, budget, difficulty, admissible);
    SampleAnswered(h, cases, budget, difficulty, admissible);
    SampleIsFair(h, cases, budget, difficulty, admissible);
    hide Sample, CaseGroups, Entries;
    SplitCounts(name, picks, digest, 1, |picks|);
    SplitCounts(name, picks, digest, 2, |picks|);
    assert picks[..|picks|] == picks;
    var suite := ToSuite(name, picks, digest);
    assert |S.Cases(suite, S.Validation)| == InBucket(picks, 1) <= PerSplit(budget);
    assert |S.Cases(suite, S.Test)| == InBucket(picks, 2) <= PerSplit(budget);
  }

  // -------------------------------------------------------- training objectives

  ghost predicate IsObjective(h: Hash, groups: seq<seq<TraceCase>>, ref: Ref) {
    exists g, c :: 0 <= g < |groups| && c in groups[g] && c.episodeRef == ref
                   && !Conflicting(groups[g]) && Bucket(h, groups[g]) == 0
  }

  method TrainingObjectives(h: Hash, previous: seq<TraceCase>, changes: seq<TraceCase>) returns (refs: set<Ref>)
    ensures var stored := Store(previous, Curate(h, previous, changes));
            forall r :: r in refs <==> IsObjective(h, CaseGroups(stored), r)
  {
    var rows := CurateChanges(h, previous, changes);
    var groups := ComputeGroups(Store(previous, rows));
    hide CaseGroups, Bucket, Conflicting;
    refs := {};
    for n := 0 to |groups|
      invariant forall r :: r in refs <==> IsObjective(h, groups[..n], r)
    {
      ghost var before := refs;
      if !Conflicting(groups[n]) && Bucket(h, groups[n]) == 0 {
        refs := refs + (set c: TraceCase | c in groups[n] :: c.episodeRef);
      }
      ObjectivesExtend(h, groups, n, before, refs);
    }
    assert groups[..|groups|] == groups;
  }

  lemma ObjectivesExtend(h: Hash, groups: seq<seq<TraceCase>>, n: nat, before: set<Ref>, after: set<Ref>)
    requires n < |groups| && forall r :: r in before <==> IsObjective(h, groups[..n], r)
    requires after == if !Conflicting(groups[n]) && Bucket(h, groups[n]) == 0
                      then before + (set c: TraceCase | c in groups[n] :: c.episodeRef) else before
    ensures forall r :: r in after <==> IsObjective(h, groups[..n + 1], r)
  {
    hide Conflicting, Bucket;
    var more := groups[..n + 1];
    forall r
      ensures r in after <==> IsObjective(h, more, r)
    {
      if IsObjective(h, groups[..n], r) {
        var g, c: TraceCase :| 0 <= g < n && c in groups[..n][g] && c.episodeRef == r
                    && !Conflicting(groups[..n][g]) && Bucket(h, groups[..n][g]) == 0;
        assert more[g] == groups[..n][g];
      }
      if r in after && r !in before {
        var c :| c in groups[n] && c.episodeRef == r;
        assert more[n] == groups[n];
      }
      if IsObjective(h, more, r) {
        var g, c: TraceCase :| 0 <= g <= n && c in more[g] && c.episodeRef == r && !Conflicting(more[g]) && Bucket(h, more[g]) == 0;
        if g < n {
          assert groups[..n][g] == more[g];
        }
      }
    }
  }

  lemma RepresentativeDecides(h: Hash, admissible: TraceCase -> bool, groups: seq<seq<TraceCase>>, p: Pick)
    requires Disjoint(groups) && RefsIdentify(Members(groups)) && RepresentsSome(h, admissible, groups, p)
    ensures p.bucket == 0 <==> IsObjective(h, groups, p.row.episodeRef)
  {
    hide Bucket, Conflicting;
    var g :| 0 <= g < |groups| && Represents(h, admissible, groups[g], p);
    if IsObjective(h, groups, p.row.episodeRef) {
      var k, c: TraceCase :| 0 <= k < |groups| && c in groups[k] && c.episodeRef == p.row.episodeRef
                             && !Conflicting(groups[k]) && Bucket(h, groups[k]) == 0;
      assert c in Members(groups) && p.row in Members(groups);
    }
  }

  /** A sampled case trains exactly when its objective is a training objective. */
  lemma SamplesMatchObjectives(h: Hash, rows: seq<TraceCase>, budget: nat, difficulty: Difficulty,
                               admissible: TraceCase -> bool, p: Pick)
    requires p in Sample(h, rows, budget, difficulty, admissible)
    ensures p.bucket == 0 <==> IsObjective(h, CaseGroups(rows), p.row.episodeRef)
  {
    hide Sample, IsObjective, RepresentsSome, Disjoint, RefsIdentify;
    var groups, s := CaseGroups(rows), Rows(Canonical(rows));
    SampleIsFair(h, rows, budget, difficulty, admissible);
    CaseGroupsAreComponents(rows);
    ComponentsDisjoint(s, groups);
    InsertAllContents([], rows);
    OrderedIsDistinct(Canonical(rows));
    OrderedIdentifies(Canonical(rows));
    RepresentativeDecides(h, admissible, groups, p);
  }

  // -------------------------------------------------------------------- loops

  lemma EligibleIsUsable(group: seq<TraceCase>, admissible: TraceCase -> bool)
    requires Eligible(group, admissible)
    ensures Usable(group, admissible).Some?
  {
  }

  method FillBins(h: Hash, groups: seq<seq<TraceCase>>, difficulty: Difficulty, admissible: TraceCase -> bool)
    returns (bins: seq<Bin>)
    ensures bins == Fill(Entries(h, groups, admissible), difficulty)
  {
    hide Put, KeyOf, Bucket, Eligible, Usable;
    bins := [];
    for n := 0 to |groups|
      invariant bins == Fill(Entries(h, groups[..n], admissible), difficulty)
    {
      assert groups[..n + 1][..n] == groups[..n];
      var group := groups[n];
      if Eligible(group, admissible) {
        EligibleIsUsable(group, admissible);
        var p := Pick(Bucket(h, group), Usable(group, admissible).value);
        ghost var entries := Entries(h, groups[..n], admissible);
        assert (entries + [p])[..|entries|] == entries;
        bins := Put(bins, KeyOf(p, difficulty), p);
      }
    }
    assert groups[..|groups|] == groups;
  }

  method DealRound(bins: seq<Bin>, index: nat) returns (picks: seq<Pick>)
    ensures picks == Round(bins, index)
  {
    picks := [];
    for k := 0 to |bins|
      invariant picks + Round(bins[k..], index) == Round(bins, index)
    {
      assert bins[k..][1..] == bins[k + 1..];
      if index < |bins[k].picks| {
        picks := picks + [bins[k].picks[index]];
      }
    }
  }

  method DealBins(bins: seq<Bin>) returns (ordered: seq<Pick>)
    ensures ordered == Deal(bins)
  {
    hide Round;
    ordered := [];
    for index := 0 to Longest(bins)
      invariant ordered == Rounds(bins, index)
    {
      var round := DealRound(bins, index);
      ordered := ordered + round;
    }
  }

  method TakeCapped(ordered: seq<Pick>, cap: nat) returns (taken: seq<Pick>)
    ensures taken == Capped(ordered, cap)
  {
    var counts := new nat[3](_ => 0);
    taken := [];
    for n := 0 to |ordered|
      invariant taken == Capped(ordered[..n], cap)
      invariant forall b: Third :: counts[b] == InBucket(taken, b)
    {
      var p := ordered[n];
      assert ordered[..n + 1][..n] == ordered[..n];
      if counts[p.bucket] < cap {
        counts[p.bucket] := counts[p.bucket] + 1;
        ghost var before := taken;
        taken := taken + [p];
        assert taken[..|before|] == before;
      }
    }
    assert ordered[..|ordered|] == ordered;
  }

  /** The whole sampler; absent when the drawn suite does not validate. */
  method MeasuredTraceSuite(h: Hash, cases: seq<TraceCase>, budget: nat, difficulty: Difficulty,
                            admissible: TraceCase -> bool, name: string, digest: Ref -> string)
    returns (suite: Option<S.Suite>)
    ensures var drawn := Drawn(h, cases, budget, difficulty, admissible, name, digest);
            suite == if S.ValidSuite(drawn) then Some(drawn) else None
  {
    var groups := ComputeGroups(cases);
    var bins := FillBins(h, groups, difficulty, admissible);
    var ordered := DealBins(bins);
    var picks := TakeCapped(ordered, PerSplit(budget));
    SampleAnswered(h, cases, budget, difficulty, admissible);
    hide CaseGroups, Deal, Capped, Fill, PerSplit;
    var drawn := ToSuite(name, picks, digest);
    var ok := S.ValidateSuite(drawn);
    suite := if ok then Some(drawn) else None;
  }
}
