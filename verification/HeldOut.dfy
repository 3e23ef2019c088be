/** Held-out sampling does not depend on measured difficulty. */
module HeldOut {
  import opened Text
  import opened Corpus
  import opened Components
  import opened Curation
  import opened Splits
  import opened Sampling

  function HeldOutOnly(picks: seq<Pick>): seq<Pick> {
    if picks == [] then []
    else
      var rest, p := HeldOutOnly(picks[..|picks| - 1]), picks[|picks| - 1];
      if p.bucket != 0 then rest + [p] else rest
  }

  /** No training case is labelled like the held-out stratum. */
  ghost predicate Clean(difficulty: Difficulty) {
    forall r :: r in difficulty ==> difficulty[r] != HELD_OUT
  }

  lemma {:induction false} HeldOutSplits(a: seq<Pick>, b: seq<Pick>)
    ensures HeldOutOnly(a + b) == HeldOutOnly(a) + HeldOutOnly(b)
  {
    if b == [] {
      assert a + b == a;
    } else {
      assert (a + b)[..|a + b| - 1] == a + b[..|b| - 1];
      HeldOutSplits(a, b[..|b| - 1]);
    }
  }

  // --------------------------------------------------------------- held-out bins

  function Restrict(bins: seq<Bin>): seq<Bin> {
    if bins == [] then []
    else if bins[0].key.stratum == HELD_OUT then [bins[0]] + Restrict(bins[1..])
    else Restrict(bins[1..])
  }

  ghost predicate Sorted(bins: seq<Bin>) {
    forall i, j :: 0 <= i < j < |bins| ==> KeyLess(bins[i].key, bins[j].key)
  }

  lemma LessTransitive(a: string, b: string, c: string)
    requires Less(a, b) && Less(b, c)
    ensures Less(a, c)
  {
    LeqTransitive(a, b, c);
    if a == c {
      LeqAntisymmetric(a, b);
    }
  }

  lemma KeyLessTransitive(a: Key, b: Key, c: Key)
    requires KeyLess(a, b) && KeyLess(b, c)
    ensures KeyLess(a, c)
  {
    if Less(a.category, b.category) && Less(b.category, c.category) {
      LessTransitive(a.category, b.category, c.category);
    } else if a.category == b.category == c.category {
      LessTransitive(a.stratum, b.stratum, c.stratum);
    }
  }

  lemma KeyTotal(a: Key, b: Key)
    ensures a == b || KeyLess(a, b) || KeyLess(b, a)
  {
    LeqTotal(a.category, b.category);
    LeqTotal(a.stratum, b.stratum);
  }

  lemma {:induction false} PutSorted(bins: seq<Bin>, key: Key, p: Pick)
    requires Sorted(bins)
    ensures Sorted(Put(bins, key, p))
    ensures forall b :: b in Put(bins, key, p) ==> b.key == key || exists o :: o in bins && o.key == b.key
  {
    hide KeyLess;
    if bins != [] {
      var head, tail := bins[0], bins[1..];
      assert bins == [head] + tail;
      assert forall i :: 0 <= i < |tail| ==> KeyLess(head.key, tail[i].key);
      if head.key == key {
        assert forall b :: b in Put(bins, key, p) ==> b.key == key || b in tail;
      } else if KeyLess(key, head.key) {
        forall i | 0 <= i < |tail|
          ensures KeyLess(key, tail[i].key)
        {
          KeyLessTransitive(key, head.key, tail[i].key);
        }
      } else {
        KeyTotal(head.key, key);
        PutSorted(tail, key, p);
        var rest := Put(tail, key, p);
        forall i | 0 <= i < |rest|
          ensures KeyLess(head.key, rest[i].key)
        {
          assert rest[i] in rest;
          if rest[i].key != key {
            var o :| o in tail && o.key == rest[i].key;
          }
        }
      }
    }
  }

  lemma {:induction false} PutElsewhere(bins: seq<Bin>, key: Key, p: Pick)
    requires key.stratum != HELD_OUT
    ensures Restrict(Put(bins, key, p)) == Restrict(bins)
  {
    hide KeyLess;
    if bins != [] && bins[0].key != key && !KeyLess(key, bins[0].key) {
      PutElsewhere(bins[1..], key, p);
    }
  }

  lemma {:induction false} RestrictBelow(bins: seq<Bin>, key: Key, p: Pick)
    requires forall i :: 0 <= i < |bins| ==> KeyLess(key, bins[i].key)
    ensures Put(Restrict(bins), key, p) == [Bin(key, [p])] + Restrict(bins)
  {
    if bins != [] {
      assert bins[0].key != key;
      RestrictBelow(bins[1..], key, p);
    }
  }

  lemma {:induction false} PutHeldOut(bins: seq<Bin>, key: Key, p: Pick)
    requires Sorted(bins) && key.stratum == HELD_OUT
    ensures Restrict(Put(bins, key, p)) == Put(Restrict(bins), key, p)
  {
    hide KeyLess;
    if bins != [] {
      var head, tail := bins[0], bins[1..];
      if head.key == key {
        assert ([head.(picks := head.picks + [p])] + tail)[1..] == tail;
      } else if KeyLess(key, head.key) {
        forall i | 0 <= i < |bins|
          ensures KeyLess(key, bins[i].key)
        {
          if i > 0 {
            KeyLessTransitive(key, head.key, bins[i].key);
          }
        }
        RestrictBelow(bins, key, p);
        assert ([Bin(key, [p])] + bins)[1..] == bins;
      } else {
        PutHeldOut(tail, key, p);
        assert ([head] + Put(tail, key, p))[1..] == Put(tail, key, p);
        assert head.key.stratum == HELD_OUT ==> ([head] + Restrict(tail))[1..] == Restrict(tail);
      }
    }
  }

  lemma {:induction false} FillSorted(entries: seq<Pick>, difficulty: Difficulty)
    ensures Sorted(Fill(entries, difficulty))
  {
    if entries != [] {
      FillSorted(entries[..|entries| - 1], difficulty);
      var p := entries[|entries| - 1];
      PutSorted(Fill(entries[..|entries| - 1], difficulty), KeyOf(p, difficulty), p);
    }
  }

  /** The held-out bins are those of the held-out entries, whatever the difficulty. */
  lemma {:induction false} FillRestricts(entries: seq<Pick>, difficulty: Difficulty)
    requires Clean(difficulty)
    ensures Restrict(Fill(entries, difficulty)) == Fill(HeldOutOnly(entries), map[])
  {
    if entries != [] {
      var front, p := entries[..|entries| - 1], entries[|entries| - 1];
      var bins, key := Fill(front, difficulty), KeyOf(p, difficulty);
      FillRestricts(front, difficulty);
      FillSorted(front, difficulty);
      if p.bucket != 0 {
        PutHeldOut(bins, key, p);
        var held := HeldOutOnly(front);
        assert (held + [p])[..|held|] == held;
      } else {
        PutElsewhere(bins, key, p);
      }
    }
  }

  /** A bin holds held-out picks exactly when its stratum says so. */
  ghost predicate Pure(bins: seq<Bin>) {
    forall b, p :: b in bins && p in b.picks ==> (b.key.stratum == HELD_OUT <==> p.bucket != 0)
  }

  lemma {:induction false} PutPure(bins: seq<Bin>, key: Key, p: Pick)
    requires Pure(bins) && (key.stratum == HELD_OUT <==> p.bucket != 0)
    ensures Pure(Put(bins, key, p))
  {
    if bins != [] {
      assert bins == [bins[0]] + bins[1..];
      PutPure(bins[1..], key, p);
    }
  }

  lemma {:induction false} FillPure(entries: seq<Pick>, difficulty: Difficulty)
    requires Clean(difficulty)
    ensures Pure(Fill(entries, difficulty))
  {
    if entries != [] {
      FillPure(entries[..|entries| - 1], difficulty);
      var p := entries[|entries| - 1];
      PutPure(Fill(entries[..|entries| - 1], difficulty), KeyOf(p, difficulty), p);
    }
  }

  // ------------------------------------------------------------- dealing and caps

  lemma {:induction false} RoundRestricts(bins: seq<Bin>, index: nat)
    requires Pure(bins)
    ensures HeldOutOnly(Round(bins, index)) == Round(Restrict(bins), index)
  {
    if bins != [] {
      var first := if index < |bins[0].picks| then [bins[0].picks[index]] else [];
      RoundRestricts(bins[1..], index);
      HeldOutSplits(first, Round(bins[1..], index));
      assert bins[0] in bins;
      if bins[0].key.stratum == HELD_OUT {
        assert Restrict(bins)[1..] == Restrict(bins[1..]);
      }
    }
  }

  lemma {:induction false} RoundsRestrict(bins: seq<Bin>, n: nat)
    requires Pure(bins)
    ensures HeldOutOnly(Rounds(bins, n)) == Rounds(Restrict(bins), n)
  {
    if n > 0 {
      RoundsRestrict(bins, n - 1);
      RoundRestricts(bins, n - 1);
      HeldOutSplits(Rounds(bins, n - 1), Round(bins, n - 1));
    }
  }

  lemma {:induction false} EmptyRound(bins: seq<Bin>, index: nat)
    requires forall i :: 0 <= i < |bins| ==> |bins[i].picks| <= index
    ensures Round(bins, index) == []
  {
    if bins != [] {
      assert forall i :: 0 <= i < |bins| - 1 ==> bins[1..][i] == bins[i + 1];
      EmptyRound(bins[1..], index);
      assert |bins[0].picks| <= index;
    }
  }

  lemma {:induction false} ExtraRounds(bins: seq<Bin>, n: nat)
    requires n >= Longest(bins)
    ensures Rounds(bins, n) == Deal(bins)
  {
    hide Longest, Round;
    if n > Longest(bins) {
      ExtraRounds(bins, n - 1);
      EmptyRound(bins, n - 1);
    }
  }

  lemma {:induction false} RestrictShorter(bins: seq<Bin>)
    ensures Longest(Restrict(bins)) <= Longest(bins)
  {
    if bins != [] {
      RestrictShorter(bins[1..]);
      if bins[0].key.stratum == HELD_OUT {
        assert Restrict(bins)[1..] == Restrict(bins[1..]);
      }
    }
  }

  lemma {:induction false} CappedRestricts(picks: seq<Pick>, cap: nat)
    ensures HeldOutOnly(Capped(picks, cap)) == Capped(HeldOutOnly(picks), cap)
    ensures forall b: Third :: b != 0 ==> InBucket(Capped(picks, cap), b) == InBucket(Capped(HeldOutOnly(picks), cap), b)
  {
    if picks != [] {
      var front, p := picks[..|picks| - 1], picks[|picks| - 1];
      CappedRestricts(front, cap);
      var taken, held := Capped(front, cap), HeldOutOnly(front);
      assert (taken + [p])[..|taken|] == taken;
      assert (held + [p])[..|held|] == held;
      var takenHeld := Capped(held, cap);
      assert (takenHeld + [p])[..|takenHeld|] == takenHeld;
    }
  }

  lemma DealRestricts(entries: seq<Pick>, difficulty: Difficulty)
    requires Clean(difficulty)
    ensures HeldOutOnly(Deal(Fill(entries, difficulty))) == Deal(Fill(HeldOutOnly(entries), map[]))
  {
    var bins := Fill(entries, difficulty);
    FillPure(entries, difficulty);
    FillRestricts(entries, difficulty);
    RoundsRestrict(bins, Longest(bins));
    RestrictShorter(bins);
    ExtraRounds(Restrict(bins), Longest(bins));
  }

  /** The same held-out cases are drawn, in the same order, for any two difficulty
      maps that do not use the held-out label. */
  lemma HeldOutIgnoresDifficulty(h: Hash, cases: seq<TraceCase>, budget: nat, d: Difficulty, e: Difficulty, admissible: TraceCase -> bool)
    requires Clean(d) && Clean(e)
    ensures HeldOutOnly(Sample(h, cases, budget, d, admissible)) == HeldOutOnly(Sample(h, cases, budget, e, admissible))
  {
    var entries := Entries(h, CaseGroups(cases), admissible);
    DealRestricts(entries, d);
    DealRestricts(entries, e);
    CappedRestricts(Deal(Fill(entries, d)), PerSplit(budget));
    CappedRestricts(Deal(Fill(entries, e)), PerSplit(budget));
  }
}
