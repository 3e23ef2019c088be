/** Sampling is spread over categories: at every point of the dealing, no category is
    more than one pick ahead of another that still has picks to give. */
module Balance {
  import opened Text
  import opened Corpus
  import opened Components
  import opened Curation
  import opened Splits
  import opened Sampling
  import opened HeldOut

  // --------------------------------------------------------------- categories

  predicate Plain(s: string) {
    '/' !in s
  }

  lemma {:induction false} FirstSlash(a: string, x: string, b: string, y: string)
    requires Plain(a) && Plain(b) && a + "/" + x == b + "/" + y
    ensures a == b && x == y
  {
    if a == "" || b == "" {
      assert (a + "/" + x)[0] == (b + "/" + y)[0];
      assert a == "" && b == "";
      assert (a + "/" + x)[1..] == x && (b + "/" + y)[1..] == y;
    } else {
      assert (a + "/" + x)[0] == a[0] && (b + "/" + y)[0] == b[0];
      assert (a + "/" + x)[1..] == a[1..] + "/" + x && (b + "/" + y)[1..] == b[1..] + "/" + y;
      FirstSlash(a[1..], x, b[1..], y);
    }
  }

  ghost predicate PlainClass(c: TraceCase) {
    c.classification.Some? ==>
      Plain(c.classification.value.taskType) && Plain(c.classification.value.capability) && Plain(c.classification.value.structure)
  }

  /** Two cases are of one category exactly when they have the same task type,
      capability and structure, or are both unclassified. */
  lemma CategoryExactly(a: TraceCase, b: TraceCase)
    requires PlainClass(a) && PlainClass(b)
    ensures Category(a) == Category(b) <==>
            match (a.classification, b.classification)
            case (Some(k), Some(l)) => k.taskType == l.taskType && k.capability == l.capability && k.structure == l.structure
            case (None, None) => true
            case _ => false
  {
    match (a.classification, b.classification)
    case (Some(k), Some(l)) =>
      if Category(a) == Category(b) {
        assert k.taskType + "/" + (k.capability + "/" + k.structure) == Category(a);
        assert l.taskType + "/" + (l.capability + "/" + l.structure) == Category(b);
        FirstSlash(k.taskType, k.capability + "/" + k.structure, l.taskType, l.capability + "/" + l.structure);
        FirstSlash(k.capability, k.structure, l.capability, l.structure);
      }
    case (Some(k), None) => ClassifiedHasSlash(a);
    case (None, Some(l)) => ClassifiedHasSlash(b);
    case _ =>
  }

  lemma ClassifiedHasSlash(c: TraceCase)
    requires c.classification.Some?
    ensures Category(c) != "unclassified"
  {
    var k := c.classification.value;
    assert Category(c)[|k.taskType|] == '/';
    assert '/' in Category(c);
    assert '/' !in "unclassified";
  }

  /** The bins: all held-out cases of a category together, the training ones apart by
      their measured difficulty. */
  lemma KeyExactly(p: Pick, q: Pick, difficulty: Difficulty)
    requires Clean(difficulty)
    ensures KeyOf(p, difficulty) == KeyOf(q, difficulty) <==>
            && Category(p.row) == Category(q.row)
            && ((p.bucket != 0 && q.bucket != 0)
                || (p.bucket == 0 && q.bucket == 0 && Label(p.row, difficulty) == Label(q.row, difficulty)))
  {
    hide Category;
    assert "insufficient"[0] != HELD_OUT[0];
  }

  function Label(c: TraceCase, difficulty: Difficulty): string {
    match if c.episodeRef in difficulty then Option.Some(difficulty[c.episodeRef]) else None
    case Some(measured) => measured
    case None => "insufficient"
  }

  // ------------------------------------------------------------------- counting

  function InKey(picks: seq<Pick>, difficulty: Difficulty, key: Key): nat {
    if picks == [] then 0
    else InKey(picks[..|picks| - 1], difficulty, key) + (if KeyOf(picks[|picks| - 1], difficulty) == key then 1 else 0)
  }

  lemma {:induction false} InKeySplits(a: seq<Pick>, b: seq<Pick>, difficulty: Difficulty, key: Key)
    ensures InKey(a + b, difficulty, key) == InKey(a, difficulty, key) + InKey(b, difficulty, key)
  {
    hide KeyOf;
    if b == [] {
      assert a + b == a;
    } else {
      assert (a + b)[..|a + b| - 1] == a + b[..|b| - 1];
      InKeySplits(a, b[..|b| - 1], difficulty, key);
    }
  }

  /** Each bin holds the picks of its own key. */
  ghost predicate Homed(bins: seq<Bin>, difficulty: Difficulty) {
    forall i, k :: 0 <= i < |bins| && 0 <= k < |bins[i].picks| ==> KeyOf(bins[i].picks[k], difficulty) == bins[i].key
  }

  lemma {:induction false} PutHomed(bins: seq<Bin>, p: Pick, difficulty: Difficulty)
    requires Homed(bins, difficulty)
    ensures Homed(Put(bins, KeyOf(p, difficulty), p), difficulty)
  {
    hide KeyOf;
    if bins != [] {
      assert forall i :: 0 <= i < |bins| - 1 ==> bins[1..][i] == bins[i + 1];
      PutHomed(bins[1..], p, difficulty);
    }
  }

  lemma {:induction false} FillHomed(entries: seq<Pick>, difficulty: Difficulty)
    ensures Homed(Fill(entries, difficulty), difficulty)
  {
    hide Homed, Put, KeyOf;
    if entries == [] {
      NothingHomed(difficulty);
    } else {
      FillHomed(entries[..|entries| - 1], difficulty);
      PutHomed(Fill(entries[..|entries| - 1], difficulty), entries[|entries| - 1], difficulty);
    }
  }

  lemma NothingHomed(difficulty: Difficulty)
    ensures Homed([], difficulty)
  {
  }

  ghost predicate DistinctKeys(bins: seq<Bin>) {
    forall i, j :: 0 <= i < j < |bins| ==> bins[i].key != bins[j].key
  }

  /** One pick of the bin's key is dealt in a round, if the bin still has one. */
  lemma {:induction false} RoundCounts(bins: seq<Bin>, index: nat, difficulty: Difficulty, key: Key)
    requires Homed(bins, difficulty) && DistinctKeys(bins)
    ensures (forall i :: 0 <= i < |bins| ==> bins[i].key != key) ==> InKey(Round(bins, index), difficulty, key) == 0
    ensures forall i :: 0 <= i < |bins| && bins[i].key == key ==>
              InKey(Round(bins, index), difficulty, key) == if index < |bins[i].picks| then 1 else 0
  {
    if bins != [] {
      var rest := bins[1..];
      assert forall i :: 0 <= i < |rest| ==> rest[i] == bins[i + 1];
      RoundCounts(rest, index, difficulty, key);
      var head := if index < |bins[0].picks| then [bins[0].picks[index]] else [];
      InKeySplits(head, Round(rest, index), difficulty, key);
      hide KeyOf;
      assert head != [] ==> head[..0] == [];
      forall i | 0 <= i < |bins| && bins[i].key == key
        ensures InKey(Round(bins, index), difficulty, key) == if index < |bins[i].picks| then 1 else 0
      {
        if i > 0 {
          assert rest[i - 1].key == key;
        } else {
          assert forall j :: 0 <= j < |rest| ==> rest[j].key != key;
        }
      }
    }
  }

  function Least(a: nat, b: nat): nat {
    if a < b then a else b
  }

  lemma {:induction false} RoundsCount(bins: seq<Bin>, n: nat, difficulty: Difficulty, i: nat)
    requires Homed(bins, difficulty) && DistinctKeys(bins) && i < |bins|
    ensures InKey(Rounds(bins, n), difficulty, bins[i].key) == Least(n, |bins[i].picks|)
  {
    hide InKey, Round, Homed, DistinctKeys, KeyOf;
    if n == 0 {
      NothingCounted(difficulty, bins[i].key);
    } else {
      RoundsCount(bins, n - 1, difficulty, i);
      RoundCounts(bins, n - 1, difficulty, bins[i].key);
      InKeySplits(Rounds(bins, n - 1), Round(bins, n - 1), difficulty, bins[i].key);
    }
  }

  lemma NothingCounted(difficulty: Difficulty, key: Key)
    ensures InKey([], difficulty, key) == 0
  {
  }

  /** A prefix of the dealing: some whole rounds and one more over the first bins. */
  ghost predicate Cut(bins: seq<Bin>, dealt: seq<Pick>, n: nat, j: nat) {
    j <= |bins| && dealt == Rounds(bins, n) + Round(bins[..j], n)
  }

  lemma {:induction false} RoundPrefix(bins: seq<Bin>, index: nat, m: nat) returns (j: nat)
    requires m <= |Round(bins, index)|
    ensures j <= |bins| && Round(bins[..j], index) == Round(bins, index)[..m]
  {
    if m == 0 {
      j := 0;
    } else {
      var head := if index < |bins[0].picks| then 1 else 0;
      var k := RoundPrefix(bins[1..], index, m - head);
      j := k + 1;
      assert bins[..j][1..] == bins[1..][..k] && bins[..j][0] == bins[0];
    }
  }

  lemma {:induction false} RoundsPrefix(bins: seq<Bin>, total: nat, m: nat) returns (n: nat, j: nat)
    requires m <= |Rounds(bins, total)|
    ensures Cut(bins, Rounds(bins, total)[..m], n, j)
  {
    if total == 0 {
      n, j := 0, 0;
      assert bins[..0] == [];
    } else {
      var before := Rounds(bins, total - 1);
      if m <= |before| {
        n, j := RoundsPrefix(bins, total - 1, m);
        assert Rounds(bins, total)[..m] == before[..m];
      } else {
        n := total - 1;
        j := RoundPrefix(bins, n, m - |before|);
        assert Rounds(bins, total)[..m] == before + Round(bins, n)[..m - |before|];
      }
    }
  }

  lemma CutCounts(bins: seq<Bin>, dealt: seq<Pick>, n: nat, j: nat, difficulty: Difficulty, i: nat)
    requires Cut(bins, dealt, n, j) && Homed(bins, difficulty) && DistinctKeys(bins) && i < |bins|
    ensures InKey(dealt, difficulty, bins[i].key) == Least(if i < j then n + 1 else n, |bins[i].picks|)
  {
    var key := bins[i].key;
    RoundsCount(bins, n, difficulty, i);
    RoundCounts(bins[..j], n, difficulty, key);
    InKeySplits(Rounds(bins, n), Round(bins[..j], n), difficulty, key);
    hide KeyOf, InKey, Round, Rounds;
    if i < j {
      assert bins[..j][i].key == key;
    }
  }

  lemma {:induction false} SortedDistinct(bins: seq<Bin>)
    requires Sorted(bins)
    ensures DistinctKeys(bins)
  {
    forall i, j | 0 <= i < j < |bins|
      ensures bins[i].key != bins[j].key
    {
      assert KeyLess(bins[i].key, bins[j].key);
    }
  }

  /** After any number of dealt picks, a category is at most one ahead of another, unless
      the other has been dealt in full. */
  lemma DealIsBalanced(entries: seq<Pick>, difficulty: Difficulty, m: nat, i: nat, k: nat)
    requires var bins := Fill(entries, difficulty);
             m <= |Deal(bins)| && i < |bins| && k < |bins|
    ensures var bins := Fill(entries, difficulty);
            var dealt := Deal(bins)[..m];
            || InKey(dealt, difficulty, bins[i].key) <= InKey(dealt, difficulty, bins[k].key) + 1
            || InKey(dealt, difficulty, bins[k].key) == |bins[k].picks|
  {
    var bins := Fill(entries, difficulty);
    FillHomed(entries, difficulty);
    FillSorted(entries, difficulty);
    SortedDistinct(bins);
    hide Fill, InKey, Homed, DistinctKeys, Rounds, Sorted;
    var n, j := RoundsPrefix(bins, Longest(bins), m);
    CutCounts(bins, Deal(bins)[..m], n, j, difficulty, i);
    CutCounts(bins, Deal(bins)[..m], n, j, difficulty, k);
  }
}
