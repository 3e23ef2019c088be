/** Drawing an evaluation suite from a corpus: one case per component, spread
    round-robin over categories and capped per split. */
module Sampling {
  import opened Text
  import opened Corpus
  import opened Components
  import opened Curation
  import opened Splits

  /** A component's representative and the split its component falls in. */
  datatype Pick = Pick(bucket: Third, row: TraceCase)

  datatype Key = Key(category: string, stratum: string)

  datatype Bin = Bin(key: Key, picks: seq<Pick>)

  type Difficulty = map<Ref, string>

  const HELD_OUT := "held_out"

  // ---------------------------------------------------------- representatives

  /** Two members disagree about the answer. */
  predicate Conflicting(group: seq<TraceCase>) {
    exists i, j :: 0 <= i < j < |group| && group[i].check != group[j].check
  }

  /** The first member with a usable answer. */
  function Usable(group: seq<TraceCase>, admissible: TraceCase -> bool): (r: Option<TraceCase>)
    ensures r.Some? ==> r.value in group && r.value.check.Some? && admissible(r.value)
    ensures r.None? ==> forall c :: c in group ==> c.check.None? || !admissible(c)
    ensures r.Some? ==> exists k :: 0 <= k < |group| && group[k] == r.value
                                    && forall i :: 0 <= i < k ==> group[i].check.None? || !admissible(group[i])
  {
    if group == [] then None
    else if group[0].check.Some? && admissible(group[0]) then Some(group[0])
    else
      var r := Usable(group[1..], admissible);
      assert forall i :: 0 < i < |group| ==> group[i] == group[1..][i - 1];
      assert r.Some? ==> exists k :: 0 < k < |group| && group[k] == r.value
                                     && forall i :: 0 <= i < k ==> group[i].check.None? || !admissible(group[i]) by {
        if r.Some? {
          var k :| 0 <= k < |group[1..]| && group[1..][k] == r.value
                   && forall i :: 0 <= i < k ==> group[1..][i].check.None? || !admissible(group[1..][i]);
          assert group[k + 1] == r.value;
        }
      }
      r
  }

  predicate Eligible(group: seq<TraceCase>, admissible: TraceCase -> bool) {
    !Conflicting(group) && Usable(group, admissible).Some?
  }

  /** One entry per eligible group, in group order. */
  function Entries(h: Hash, groups: seq<seq<TraceCase>>, admissible: TraceCase -> bool): seq<Pick> {
    if groups == [] then []
    else
      var rest := Entries(h, groups[..|groups| - 1], admissible);
      var group := groups[|groups| - 1];
      if Eligible(group, admissible) then rest + [Pick(Bucket(h, group), Usable(group, admissible).value)] else rest
  }

  function Category(c: TraceCase): string {
    match c.classification
    case Some(k) => k.taskType + "/" + k.capability + "/" + k.structure
    case None => "unclassified"
  }

  /** Difficulty separates training cases only. */
  function KeyOf(p: Pick, difficulty: Difficulty): Key {
    Key(Category(p.row),
        if p.bucket != 0 then HELD_OUT
        else if p.row.episodeRef in difficulty then difficulty[p.row.episodeRef]
        else "insufficient")
  }

  predicate KeyLess(a: Key, b: Key) {
    Less(a.category, b.category) || (a.category == b.category && Less(a.stratum, b.stratum))
  }

  /** Append to the bin of a key, creating it in key order. */
  function Put(bins: seq<Bin>, key: Key, p: Pick): seq<Bin> {
    if bins == [] then [Bin(key, [p])]
    else if bins[0].key == key then [bins[0].(picks := bins[0].picks + [p])] + bins[1..]
    else if KeyLess(key, bins[0].key) then [Bin(key, [p])] + bins
    else [bins[0]] + Put(bins[1..], key, p)
  }

  function Fill(entries: seq<Pick>, difficulty: Difficulty): seq<Bin> {
    if entries == [] then []
    else
      var p := entries[|entries| - 1];
      Put(Fill(entries[..|entries| - 1], difficulty), KeyOf(p, difficulty), p)
  }

  // --------------------------------------------------------------- round robin

  function Round(bins: seq<Bin>, index: nat): seq<Pick> {
    if bins == [] then []
    else (if index < |bins[0].picks| then [bins[0].picks[index]] else []) + Round(bins[1..], index)
  }

  function Longest(bins: seq<Bin>): (n: nat)
    ensures forall i :: 0 <= i < |bins| ==> |bins[i].picks| <= n
  {
    if bins == [] then 0
    else
      var n := Longest(bins[1..]);
      assert forall i :: 0 < i < |bins| ==> bins[i] == bins[1..][i - 1];
      if |bins[0].picks| > n then |bins[0].picks| else n
  }

  function Rounds(bins: seq<Bin>, n: nat): seq<Pick> {
    if n == 0 then [] else Rounds(bins, n - 1) + Round(bins, n - 1)
  }

  function Deal(bins: seq<Bin>): seq<Pick> {
    Rounds(bins, Longest(bins))
  }

  // --------------------------------------------------------------------- caps

  function InBucket(picks: seq<Pick>, b: Third): nat {
    if picks == [] then 0
    else InBucket(picks[..|picks| - 1], b) + (if picks[|picks| - 1].bucket == b then 1 else 0)
  }

  /** A pick is taken while its split has room. */
  function Capped(picks: seq<Pick>, cap: nat): seq<Pick> {
    if picks == [] then []
    else
      var taken, p := Capped(picks[..|picks| - 1], cap), picks[|picks| - 1];
      if InBucket(taken, p.bucket) >= cap then taken else taken + [p]
  }

  /** A quarter of the budget, at least one case and at most sixteen. */
  function PerSplit(budget: nat): (cap: nat)
    ensures 1 <= cap <= 16
    ensures budget < 8 ==> cap == 1
    ensures budget >= 64 ==> cap == 16
    ensures 4 <= budget < 68 ==> 4 * cap <= budget < 4 * cap + 4
  {
    if budget / 4 < 1 then 1 else if budget / 4 > 16 then 16 else budget / 4
  }

  /** The sampled cases, in suite order. */
  function Sample(h: Hash, cases: seq<TraceCase>, budget: nat, difficulty: Difficulty, admissible: TraceCase -> bool): seq<Pick> {
    Capped(Deal(Fill(Entries(h, CaseGroups(cases), admissible), difficulty)), PerSplit(budget))
  }

  // ------------------------------------------------- nothing lost, nothing twice

  function Contents(bins: seq<Bin>): multiset<Pick> {
    if bins == [] then multiset{} else multiset(bins[0].picks) + Contents(bins[1..])
  }

  lemma {:induction false} PutContents(bins: seq<Bin>, key: Key, p: Pick)
    ensures Contents(Put(bins, key, p)) == Contents(bins) + multiset{p}
  {
    if bins != [] {
      if bins[0].key != key && !KeyLess(key, bins[0].key) {
        PutContents(bins[1..], key, p);
      }
    }
  }

  lemma {:induction false} FillContents(entries: seq<Pick>, difficulty: Difficulty)
    ensures Contents(Fill(entries, difficulty)) == multiset(entries)
  {
    hide Put, KeyOf;
    if entries != [] {
      var front, p := entries[..|entries| - 1], entries[|entries| - 1];
      FillContents(front, difficulty);
      PutContents(Fill(front, difficulty), KeyOf(p, difficulty), p);
      assert entries == front + [p];
    }
  }

  function Upto(picks: seq<Pick>, n: nat): seq<Pick> {
    if n < |picks| then picks[..n] else picks
  }

  function Dealt(bins: seq<Bin>, n: nat): multiset<Pick> {
    if bins == [] then multiset{} else multiset(Upto(bins[0].picks, n)) + Dealt(bins[1..], n)
  }

  lemma UptoNext(picks: seq<Pick>, n: nat)
    ensures multiset(Upto(picks, n + 1)) ==
            multiset(Upto(picks, n)) + if n < |picks| then multiset{picks[n]} else multiset{}
  {
    if n < |picks| {
      assert Upto(picks, n + 1) == picks[..n] + [picks[n]];
    }
  }

  lemma {:induction false} RoundDeals(bins: seq<Bin>, n: nat)
    ensures Dealt(bins, n + 1) == Dealt(bins, n) + multiset(Round(bins, n))
  {
    hide Upto;
    if bins != [] {
      RoundDeals(bins[1..], n);
      UptoNext(bins[0].picks, n);
    }
  }

  lemma {:induction false} RoundsDeal(bins: seq<Bin>, n: nat)
    ensures multiset(Rounds(bins, n)) == Dealt(bins, n)
  {
    hide Dealt, Round;
    if n == 0 {
      NothingDealt(bins);
    } else {
      RoundsDeal(bins, n - 1);
      RoundDeals(bins, n - 1);
    }
  }

  lemma {:induction false} NothingDealt(bins: seq<Bin>)
    ensures Dealt(bins, 0) == multiset{}
  {
    if bins != [] {
      NothingDealt(bins[1..]);
      assert Upto(bins[0].picks, 0) == [];
    }
  }

  lemma {:induction false} AllDealt(bins: seq<Bin>, n: nat)
    requires forall i :: 0 <= i < |bins| ==> |bins[i].picks| <= n
    ensures Dealt(bins, n) == Contents(bins)
  {
    if bins != [] {
      assert forall i :: 0 <= i < |bins| - 1 ==> bins[1..][i] == bins[i + 1];
      AllDealt(bins[1..], n);
      assert |bins[0].picks| <= n;
    }
  }

  /** The round-robin order is a rearrangement of the eligible entries. */
  lemma DealPermutes(entries: seq<Pick>, difficulty: Difficulty)
    ensures multiset(Deal(Fill(entries, difficulty))) == multiset(entries)
  {
    var bins := Fill(entries, difficulty);
    RoundsDeal(bins, Longest(bins));
    AllDealt(bins, Longest(bins));
    FillContents(entries, difficulty);
  }


  lemma InBucketAppend(picks: seq<Pick>, p: Pick, b: Third)
    ensures InBucket(picks + [p], b) == InBucket(picks, b) + (if p.bucket == b then 1 else 0)
  {
    assert (picks + [p])[..|picks|] == picks;
  }

  lemma {:induction false} CappedCounts(picks: seq<Pick>, cap: nat, b: Third)
    ensures InBucket(Capped(picks, cap), b) == if InBucket(picks, b) < cap then InBucket(picks, b) else cap
  {
    if picks != [] {
      var front, p := picks[..|picks| - 1], picks[|picks| - 1];
      CappedCounts(front, cap, b);
      InBucketAppend(Capped(front, cap), p, b);
    }
  }

  lemma {:induction false} CappedContents(picks: seq<Pick>, cap: nat)
    ensures multiset(Capped(picks, cap)) <= multiset(picks)
  {
    hide InBucket;
    if picks != [] {
      var front, p := picks[..|picks| - 1], picks[|picks| - 1];
      CappedContents(front, cap);
      assert picks == front + [p];
    }
  }

  lemma {:induction false} InBucketSplits(a: seq<Pick>, c: seq<Pick>, b: Third)
    ensures InBucket(a + c, b) == InBucket(a, b) + InBucket(c, b)
  {
    if c == [] {
      assert a + c == a;
    } else {
      assert (a + c)[..|a + c| - 1] == a + c[..|c| - 1];
      InBucketSplits(a, c[..|c| - 1], b);
    }
  }

  lemma RemoveOne(picks: seq<Pick>, k: nat, b: Third)
    requires k < |picks|
    ensures var rest := picks[..k] + picks[k + 1..];
            && multiset(rest) == multiset(picks) - multiset{picks[k]}
            && InBucket(picks, b) == InBucket(rest, b) + InBucket([picks[k]], b)
  {
    var before, p, after := picks[..k], picks[k], picks[k + 1..];
    assert picks == before + ([p] + after);
    assert multiset(picks) == multiset(before) + (multiset{p} + multiset(after));
    InBucketSplits(before, after, b);
    InBucketSplits(before, [p] + after, b);
    InBucketSplits([p], after, b);
  }

  lemma {:induction false} InBucketPermutes(a: seq<Pick>, c: seq<Pick>, b: Third)
    requires multiset(a) == multiset(c)
    ensures InBucket(a, b) == InBucket(c, b)
  {
    if a == [] {
      assert |c| == |multiset(c)| == 0;
    } else {
      var last := |a| - 1;
      assert a[last] in multiset(c);
      var k :| 0 <= k < |c| && c[k] == a[last];
      RemoveOne(a, last, b);
      RemoveOne(c, k, b);
      hide InBucket;
      InBucketPermutes(a[..last] + a[last + 1..], c[..k] + c[k + 1..], b);
    }
  }

  /** Entry `p` represents group `g`. */
  ghost predicate Represents(h: Hash, admissible: TraceCase -> bool, group: seq<TraceCase>, p: Pick) {
    && Usable(group, admissible) == Some(p.row)
    && !Conflicting(group) && p.bucket == Bucket(h, group)
  }

  ghost predicate RepresentsSome(h: Hash, admissible: TraceCase -> bool, groups: seq<seq<TraceCase>>, p: Pick) {
    exists g :: 0 <= g < |groups| && Represents(h, admissible, groups[g], p)
  }

  ghost predicate Disjoint(groups: seq<seq<TraceCase>>) {
    forall i, j, c :: 0 <= i < |groups| && 0 <= j < |groups| && c in groups[i] && c in groups[j] ==> i == j
  }

  ghost predicate TogetherIn(groups: seq<seq<TraceCase>>, a: TraceCase, b: TraceCase) {
    exists g :: 0 <= g < |groups| && a in groups[g] && b in groups[g]
  }

  lemma {:induction false} EntriesRepresent(h: Hash, groups: seq<seq<TraceCase>>, admissible: TraceCase -> bool, p: Pick)
    requires p in Entries(h, groups, admissible)
    ensures RepresentsSome(h, admissible, groups, p)
  {
    var front, last := groups[..|groups| - 1], groups[|groups| - 1];
    if p in Entries(h, front, admissible) {
      EntriesRepresent(h, front, admissible, p);
      var g :| 0 <= g < |front| && Represents(h, admissible, front[g], p);
      assert groups[g] == front[g];
    } else {
      assert Represents(h, admissible, groups[|groups| - 1], p);
    }
  }

  lemma ConflictingExactly(group: seq<TraceCase>)
    ensures Conflicting(group) <==> exists a, b :: a in group && b in group && a.check != b.check
  {
    if exists a, b :: a in group && b in group && a.check != b.check {
      var a, b :| a in group && b in group && a.check != b.check;
      var i :| 0 <= i < |group| && group[i] == a;
      var j :| 0 <= j < |group| && group[j] == b;
      assert i < j || j < i;
    }
  }

  /** Every component whose members agree and one of whose members has a usable answer
      has an entry. */
  lemma {:induction false} EntriesComplete(h: Hash, groups: seq<seq<TraceCase>>, admissible: TraceCase -> bool, g: nat, c: TraceCase)
    requires g < |groups| && c in groups[g] && c.check.Some? && admissible(c)
    requires forall a, b :: a in groups[g] && b in groups[g] ==> a.check == b.check
    ensures exists p :: p in Entries(h, groups, admissible) && Represents(h, admissible, groups[g], p)
  {
    var n := |groups| - 1;
    ConflictingExactly(groups[g]);
    hide Bucket, Conflicting;
    if g < n {
      assert groups[..n][g] == groups[g];
      EntriesComplete(h, groups[..n], admissible, g, c);
      var p :| p in Entries(h, groups[..n], admissible) && Represents(h, admissible, groups[g], p);
      assert p in Entries(h, groups, admissible);
    } else {
      var p := Pick(Bucket(h, groups[g]), Usable(groups[g], admissible).value);
      assert p in Entries(h, groups, admissible) && Represents(h, admissible, groups[g], p);
    }
  }

  lemma {:induction false} CappedKeepsAll(picks: seq<Pick>, cap: nat, p: Pick)
    requires p in picks && InBucket(Capped(picks, cap), p.bucket) < cap
    ensures p in Capped(picks, cap)
  {
    var front, last := picks[..|picks| - 1], picks[|picks| - 1];
    InBucketAppend(Capped(front, cap), last, p.bucket);
    if p != last {
      CappedKeepsAll(front, cap, p);
    }
  }

  /** A split that is not filled up to its cap has a case of every component that
      belongs to it, agrees and has a usable answer. */
  lemma SampleIsComplete(h: Hash, cases: seq<TraceCase>, budget: nat, difficulty: Difficulty, admissible: TraceCase -> bool,
                         g: nat, c: TraceCase)
    requires var groups := CaseGroups(cases);
             && g < |groups| && c in groups[g] && c.check.Some? && admissible(c)
             && (forall a, b :: a in groups[g] && b in groups[g] ==> a.check == b.check)
             && InBucket(Sample(h, cases, budget, difficulty, admissible), Bucket(h, groups[g])) < PerSplit(budget)
    ensures exists p :: p in Sample(h, cases, budget, difficulty, admissible)
                        && Represents(h, admissible, CaseGroups(cases)[g], p)
  {
    var groups := CaseGroups(cases);
    EntriesComplete(h, groups, admissible, g, c);
    var entries := Entries(h, groups, admissible);
    var p :| p in entries && Represents(h, admissible, groups[g], p);
    DealPermutes(entries, difficulty);
    var dealt := Deal(Fill(entries, difficulty));
    hide CaseGroups, Entries, Deal, Fill, Bucket, Capped, PerSplit, Usable, Conflicting;
    assert p in multiset(dealt);
    CappedKeepsAll(dealt, PerSplit(budget), p);
  }

  lemma DifferentGroups(groups: seq<seq<TraceCase>>, g: nat, k: nat, a: TraceCase, b: TraceCase)
    requires Disjoint(groups) && g < |groups| && k < |groups| && g != k && a in groups[g] && b in groups[k]
    ensures !TogetherIn(groups, a, b)
  {
  }

  lemma StillApart(groups: seq<seq<TraceCase>>, g: nat, a: TraceCase, b: TraceCase)
    requires groups != [] && Disjoint(groups) && g < |groups| - 1 && a in groups[g]
    requires !TogetherIn(groups[..|groups| - 1], a, b)
    ensures !TogetherIn(groups, a, b)
  {
    assert groups[..|groups| - 1][g] == groups[g];
  }

  lemma {:induction false} EntriesApart(h: Hash, groups: seq<seq<TraceCase>>, admissible: TraceCase -> bool, i: nat, j: nat)
    requires Disjoint(groups) && i < j < |Entries(h, groups, admissible)|
    ensures !TogetherIn(groups, Entries(h, groups, admissible)[i].row, Entries(h, groups, admissible)[j].row)
  {
    hide TogetherIn, Conflicting, Bucket;
    var front, last := groups[..|groups| - 1], groups[|groups| - 1];
    var rest, entries := Entries(h, front, admissible), Entries(h, groups, admissible);
    EntriesRepresent(h, front, admissible, rest[i]);
    var g :| 0 <= g < |front| && Represents(h, admissible, front[g], rest[i]);
    assert groups[g] == front[g];
    if j < |rest| {
      EntriesApart(h, front, admissible, i, j);
      StillApart(groups, g, entries[i].row, entries[j].row);
    } else {
      DifferentGroups(groups, g, |groups| - 1, entries[i].row, entries[j].row);
    }
  }

  lemma ComponentsDisjoint(s: set<TraceCase>, groups: seq<seq<TraceCase>>)
    requires AreComponents(s, groups)
    ensures Disjoint(groups)
  {
    hide Related, Connected;
    forall i, j, c | 0 <= i < |groups| && 0 <= j < |groups| && c in groups[i] && c in groups[j]
      ensures i == j
    {
      var g, h := Rows(groups[i]), Rows(groups[j]);
      assert c in g && c in h;
    }
  }

  lemma TwiceCounted(picks: seq<Pick>, i: nat, j: nat)
    requires i < j < |picks| && picks[i] == picks[j]
    ensures multiset(picks)[picks[i]] >= 2
  {
    assert picks == picks[..j] + ([picks[j]] + picks[j + 1..]);
    assert multiset(picks) == multiset(picks[..j]) + multiset{picks[j]} + multiset(picks[j + 1..]);
    assert picks[..j][i] in multiset(picks[..j]);
  }

  lemma {:induction false} OnceCounted(picks: seq<Pick>, p: Pick)
    requires forall i, j :: 0 <= i < j < |picks| ==> picks[i] != picks[j]
    ensures multiset(picks)[p] <= 1
  {
    if picks != [] {
      OnceCounted(picks[1..], p);
      assert picks == [picks[0]] + picks[1..];
      if p == picks[0] {
        assert p !in picks[1..];
        assert p !in multiset(picks[1..]);
      }
    }
  }

  /** Drawing from entries of different groups never draws a group twice. */
  lemma DrawnApart(groups: seq<seq<TraceCase>>, entries: seq<Pick>, drawn: seq<Pick>, i: nat, j: nat)
    requires multiset(drawn) <= multiset(entries) && i < j < |drawn|
    requires forall p :: p in entries ==> TogetherIn(groups, p.row, p.row)
    requires forall a, b :: 0 <= a < b < |entries| ==> !TogetherIn(groups, entries[a].row, entries[b].row)
    ensures !TogetherIn(groups, drawn[i].row, drawn[j].row)
  {
    forall a, b | 0 <= a < b < |entries|
      ensures entries[a] != entries[b]
    {
      assert entries[a] in entries && !TogetherIn(groups, entries[a].row, entries[b].row);
    }
    OnceCounted(entries, drawn[i]);
    assert multiset(drawn)[drawn[i]] <= multiset(entries)[drawn[i]];
    if drawn[i] == drawn[j] {
      TwiceCounted(drawn, i, j);
    } else {
      assert drawn[i] in multiset(drawn) && drawn[j] in multiset(drawn);
      assert drawn[i] in multiset(entries) && drawn[j] in multiset(entries);
      var a :| 0 <= a < |entries| && entries[a] == drawn[i];
      var b :| 0 <= b < |entries| && entries[b] == drawn[j];
      assert TogetherIn(groups, entries[a].row, entries[b].row) == TogetherIn(groups, entries[b].row, entries[a].row);
    }
  }

  /** Sampling takes at most one case per component, none from a component whose
      members disagree, and fills every split to its cap or exhausts it. */
  lemma SampleIsFair(h: Hash, cases: seq<TraceCase>, budget: nat, difficulty: Difficulty, admissible: TraceCase -> bool)
    ensures var groups := CaseGroups(cases);
            var picks := Sample(h, cases, budget, difficulty, admissible);
            && (forall p :: p in picks ==> RepresentsSome(h, admissible, groups, p))
            && (forall i, j :: 0 <= i < j < |picks| ==> !TogetherIn(groups, picks[i].row, picks[j].row))
            && (forall b: Third ::
                  var eligible := InBucket(Entries(h, groups, admissible), b);
                  InBucket(picks, b) == if eligible < PerSplit(budget) then eligible else PerSplit(budget))
  {
    var groups := CaseGroups(cases);
    var entries, picks := Entries(h, groups, admissible), Sample(h, cases, budget, difficulty, admissible);
    var dealt := Deal(Fill(entries, difficulty));
    CaseGroupsAreComponents(cases);
    ComponentsDisjoint(Rows(Canonical(cases)), groups);
    forall p | p in entries
      ensures RepresentsSome(h, admissible, groups, p)
    {
      EntriesRepresent(h, groups, admissible, p);
    }
    forall i, j | 0 <= i < j < |entries|
      ensures !TogetherIn(groups, entries[i].row, entries[j].row)
    {
      EntriesApart(h, groups, admissible, i, j);
    }
    DealPermutes(entries, difficulty);
    CappedContents(dealt, PerSplit(budget));
    hide CaseGroups, AreComponents, Deal, Fill, Entries, Disjoint, Canonical, PerSplit, Represents;
    forall b: Third
      ensures InBucket(picks, b) ==
              (var eligible := InBucket(entries, b); if eligible < PerSplit(budget) then eligible else PerSplit(budget))
    {
      CappedCounts(dealt, PerSplit(budget), b);
      InBucketPermutes(dealt, entries, b);
    }
    forall p | p in picks
      ensures RepresentsSome(h, admissible, groups, p)
    {
      assert p in multiset(picks) && p in multiset(entries);
    }
    SelfTogether(h, groups, admissible, entries);
    forall i, j | 0 <= i < j < |picks|
      ensures !TogetherIn(groups, picks[i].row, picks[j].row)
    {
      DrawnApart(groups, entries, picks, i, j);
    }
  }

  lemma SelfTogether(h: Hash, groups: seq<seq<TraceCase>>, admissible: TraceCase -> bool, entries: seq<Pick>)
    requires forall p :: p in entries ==> RepresentsSome(h, admissible, groups, p)
    ensures forall p :: p in entries ==> TogetherIn(groups, p.row, p.row)
  {
    forall p | p in entries
      ensures TogetherIn(groups, p.row, p.row)
    {
      var g :| 0 <= g < |groups| && Represents(h, admissible, groups[g], p);
    }
  }
}
