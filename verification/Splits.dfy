/** Which split a component falls in, and how that can change over time. */
module Splits {
  import opened Text
  import opened Corpus
  import opened Components
  import opened Curation

  /** Everything a row counts toward its component's split. */
  function Citations(c: TraceCase): seq<Ref> {
    Names(c) + RelatedRefs(c)
  }

  ghost predicate CitedBy(group: seq<TraceCase>, r: Ref) {
    exists c :: c in group && r in Citations(c)
  }

  function CitationsOf(group: seq<TraceCase>): (r: seq<Ref>)
    ensures forall x :: x in r <==> CitedBy(group, x)
    ensures group != [] ==> r != []
  {
    if group == [] then []
    else
      assert group == [group[0]] + group[1..];
      Citations(group[0]) + CitationsOf(group[1..])
  }

  function LowestHash(h: Hash, refs: seq<Ref>): (m: Third)
    ensures refs == [] ==> m == 0
    ensures refs != [] ==> exists r :: r in refs && h(r) == m
    ensures forall r :: r in refs ==> m <= h(r)
  {
    if refs == [] then 0
    else
      assert refs == [refs[0]] + refs[1..];
      var rest := LowestHash(h, refs[1..]);
      if refs[1..] == [] || h(refs[0]) < rest then h(refs[0]) else rest
  }

  /** 0 trains, 1 validates, 2 tests. */
  function Bucket(h: Hash, group: seq<TraceCase>): Third {
    LowestHash(h, CitationsOf(group))
  }

  ghost predicate IsBucket(h: Hash, s: set<TraceCase>, b: Third) {
    && (exists c, r :: c in s && r in Citations(c) && h(r) == b)
    && (forall c, r :: c in s && r in Citations(c) ==> b <= h(r))
  }

  lemma BucketIsBucket(h: Hash, group: seq<TraceCase>)
    requires group != []
    ensures IsBucket(h, Rows(group), Bucket(h, group))
  {
    var refs := CitationsOf(group);
    assert refs != [] && Bucket(h, group) == LowestHash(h, refs);
    var r :| r in refs && h(r) == LowestHash(h, refs);
    assert CitedBy(group, r);
    forall c, x | c in Rows(group) && x in Citations(c)
      ensures Bucket(h, group) <= h(x)
    {
      assert CitedBy(group, x);
    }
  }

  lemma BucketIsUnique(h: Hash, s: set<TraceCase>, b: Third, b': Third)
    requires IsBucket(h, s, b) && IsBucket(h, s, b')
    ensures b == b'
  {
  }

  // ------------------------------------------------- the split of a stored row

  function GroupWith(groups: seq<seq<TraceCase>>, ref: Ref): Option<seq<TraceCase>> {
    if groups == [] then None
    else if Find(groups[0], ref).Some? then Some(groups[0])
    else GroupWith(groups[1..], ref)
  }

  lemma {:induction false} GroupWithFinds(groups: seq<seq<TraceCase>>, ref: Ref)
    ensures var g := GroupWith(groups, ref);
            if g.Some? then g.value in groups && Find(g.value, ref).Some?
            else forall i :: 0 <= i < |groups| ==> Find(groups[i], ref).None?
  {
    if groups != [] && Find(groups[0], ref).None? {
      GroupWithFinds(groups[1..], ref);
      assert forall i :: 0 < i < |groups| ==> groups[i] == groups[1..][i - 1];
    }
  }

  /** The split the corpus assigns to a reference, if it holds it. */
  function SplitOf(h: Hash, rows: seq<TraceCase>, ref: Ref): Option<Third> {
    match GroupWith(CaseGroups(rows), ref)
    case Some(g) => Some(Bucket(h, g))
    case None => None
  }

  lemma SplitIsBucket(h: Hash, rows: seq<TraceCase>, c: TraceCase)
    requires DistinctRefs(rows) && c in rows
    ensures SplitOf(h, rows, c.episodeRef).Some?
    ensures IsBucket(h, Component(Rows(rows), c), SplitOf(h, rows, c.episodeRef).value)
  {
    CaseGroupsAreComponents(rows);
    var groups, s := CaseGroups(rows), Rows(rows);
    OrderedIdentifies(rows);
    assert c in Members(groups);
    var i :| 0 <= i < |groups| && c in groups[i];
    GroupWithFinds(groups, c.episodeRef);
    var g := GroupWith(groups, c.episodeRef).value;
    var j :| 0 <= j < |groups| && groups[j] == g;
    var d := Find(g, c.episodeRef).value;
    assert d in groups[j] && d in Members(groups);
    assert d == c;
    GroupIsComponent(s, groups, j, c);
    BucketIsBucket(h, g);
  }

  // ---------------------------------------------------------- toward training

  lemma MergeAddsOnly(previous: seq<TraceCase>, changes: seq<TraceCase>)
    requires DistinctRefs(previous)
    requires forall c :: c in previous ==> !HasRef(changes, c.episodeRef)
    ensures Rows(previous) <= Rows(Merge(previous, changes))
  {
    CanonicalRows(previous);
    MergeContents(Canonical(previous), changes);
    assert forall c :: c in previous ==> c in Rows(previous);
  }

  /** A stamped component cites something at least as low as each citation of the
      component it came from. */
  lemma StampedCites(h: Hash, s: set<TraceCase>, t: set<TraceCase>, c: TraceCase, d: TraceCase, x: TraceCase, r: Ref)
    returns (y: TraceCase, q: Ref)
    requires Curated(h, s, t) && Stamped(h, s, c, d)
    requires x in Component(s, c) && r in Citations(x)
    ensures y in Component(t, d) && q in Citations(y) && h(q) <= h(r)
  {
    hide Linked, Related;
    assert StampOf(h, s, d);
    if x.groupRef == Some(r) {
      y, q := d, d.groupRef.value;
      assert r in Names(x) && Before(h, q, r);
      LinkedSelf(t, d);
    } else {
      y, q := Stamp(x, d.groupRef.value), r;
      StampJoins(h, s, t, c, d, x);
    }
  }

  /** Stamped rows of one component stay together. */
  lemma StampJoins(h: Hash, s: set<TraceCase>, t: set<TraceCase>, c: TraceCase, d: TraceCase, x: TraceCase)
    requires Curated(h, s, t) && Stamped(h, s, c, d) && x in Component(s, c)
    ensures Stamp(x, d.groupRef.value) in Component(t, d)
  {
    hide Linked;
    var e := Stamp(x, d.groupRef.value);
    ComponentsAgree(s, c, x);
    assert Stamped(h, s, x, e);
    assert StampOf(h, s, d) && StampOf(h, s, e);
    LinkedSelf(t, d);
    LinkedStep(t, d, d, e);
  }

  lemma ComponentsAgree(s: set<TraceCase>, c: TraceCase, x: TraceCase)
    requires x in Component(s, c)
    ensures Component(s, x) == Component(s, c)
  {
    LinkedSymmetric(s, c, x);
    forall y | y in s
      ensures Linked(s, x, y) <==> Linked(s, c, y)
    {
      if Linked(s, x, y) {
        LinkedTransitive(s, c, x, y);
      }
      if Linked(s, c, y) {
        LinkedTransitive(s, x, c, y);
      }
    }
  }

  lemma ComponentGrows(s: set<TraceCase>, t: set<TraceCase>, c: TraceCase)
    requires s <= t
    ensures Component(s, c) <= Component(t, c)
  {
    forall x | x in Component(s, c)
      ensures x in Component(t, c)
    {
      LinkedGrows(s, t, c, x);
    }
  }

  /** Adding objectives and curating again never moves an existing one away from
      training. */
  lemma SplitsMoveTowardTraining(h: Hash, previous: seq<TraceCase>, changes: seq<TraceCase>, c: TraceCase)
    requires DistinctRefs(previous) && c in previous
    requires forall x :: x in previous ==> !HasRef(changes, x.episodeRef)
    ensures var stored := Store(previous, Curate(h, previous, changes));
            && SplitOf(h, previous, c.episodeRef).Some? && SplitOf(h, stored, c.episodeRef).Some?
            && SplitOf(h, stored, c.episodeRef).value <= SplitOf(h, previous, c.episodeRef).value
  {
    hide SplitOf, Curate, Store, Merge, Linked, Stamped, Curated;
    assert c in Rows(previous);
    var stored := Store(previous, Curate(h, previous, changes));
    var s, t := Rows(Merge(previous, changes)), Rows(stored);
    StoreIsCurated(h, previous, changes);
    MergeAddsOnly(previous, changes);
    SplitIsBucket(h, previous, c);
    var d := StampIn(h, previous, changes, c);
    SplitIsBucket(h, stored, d);
    var low :| exists r :: low in Component(Rows(previous), c) && r in Citations(low)
                           && h(r) == SplitOf(h, previous, c.episodeRef).value;
    var r :| r in Citations(low) && h(r) == SplitOf(h, previous, c.episodeRef).value;
    ComponentGrows(Rows(previous), s, c);
    var y, q := StampedCites(h, s, t, c, d, low, r);
  }

  lemma StampIn(h: Hash, previous: seq<TraceCase>, changes: seq<TraceCase>, c: TraceCase) returns (d: TraceCase)
    requires DistinctRefs(previous) && c in Merge(previous, changes)
    ensures Stamped(h, Rows(Merge(previous, changes)), c, d) && d.episodeRef == c.episodeRef
    ensures d in Store(previous, Curate(h, previous, changes))
  {
    var merged := Merge(previous, changes);
    CanonicalRows(previous);
    MergeContents(Canonical(previous), changes);
    OrderedIsDistinct(merged);
    CaseGroupsAreComponents(merged);
    d := StampExists(h, Rows(merged), CaseGroups(merged), c);
    UnchangedStays(h, previous, changes, d);
  }

  /** Curation, whatever was submitted, gives a row with an anchor that anchor or one
      preferred to it: no row is ever moved to a worse anchor. */
  lemma AnchorsOnlyImprove(h: Hash, previous: seq<TraceCase>, changes: seq<TraceCase>, c: TraceCase) returns (d: TraceCase)
    requires DistinctRefs(previous) && c in previous && c.groupRef.Some?
    ensures d in Store(previous, Curate(h, previous, changes)) && d.episodeRef == c.episodeRef
    ensures d.groupRef.Some? && Before(h, d.groupRef.value, c.groupRef.value)
  {
    var m := MergedRow(previous, changes, c);
    d := StampIn(h, previous, changes, m);
    assert c.groupRef.value in Names(m);
    assert m in Component(Rows(Merge(previous, changes)), m) by { LinkedSelf(Rows(Merge(previous, changes)), m); }
  }

  /** The merged row of a stored reference carries the stored anchor. */
  lemma MergedRow(previous: seq<TraceCase>, changes: seq<TraceCase>, c: TraceCase) returns (m: TraceCase)
    requires DistinctRefs(previous) && c in previous
    ensures m in Merge(previous, changes) && m.episodeRef == c.episodeRef && m.groupRef == c.groupRef
  {
    CanonicalRows(previous);
    MergeContents(Canonical(previous), changes);
    assert c in Rows(previous) && c in Rows(Canonical(previous));
    m := Find(Merge(previous, changes), c.episodeRef).value;
    MergeHolds(previous, changes, m);
    hide Merge, Canonical;
    if m in previous {
      OrderedIdentifies(previous);
      assert m in Rows(previous);
    }
  }

  // -------------------------------------------------------------- under pruning

  /** Every related reference names a row of the corpus. */
  ghost predicate Closed(s: set<TraceCase>) {
    forall c, r :: c in s && r in RelatedRefs(c) ==> exists d :: d in s && d.episodeRef == r
  }

  lemma ClosedBucket(h: Hash, s: set<TraceCase>, t: set<TraceCase>, c: TraceCase)
    requires Settled(h, s) && Closed(s) && t <= s && c in t
    ensures IsBucket(h, Component(t, c), h(c.groupRef.value))
  {
    SettledComponent(h, t, c);
    var a := c.groupRef.value;
    assert c in Component(t, c) && a in Citations(c);
    forall x, r | x in Component(t, c) && r in Citations(x)
      ensures h(a) <= h(r)
    {
      if r in RelatedRefs(x) {
        var d :| d in s && d.episodeRef == r;
        assert Related(x, d);
        assert d.groupRef == x.groupRef;
      } else {
        assert r in Names(x);
      }
    }
  }

  /** With no dangling related reference, pruning moves no survivor's split. */
  lemma PruningKeepsSplits(h: Hash, rows: seq<TraceCase>, survivors: seq<TraceCase>, c: TraceCase)
    requires DistinctRefs(rows) && DistinctRefs(survivors) && Rows(survivors) <= Rows(rows) && c in survivors
    requires Settled(h, Rows(rows)) && Closed(Rows(rows))
    ensures SplitOf(h, survivors, c.episodeRef) == SplitOf(h, rows, c.episodeRef)
    ensures SplitOf(h, rows, c.episodeRef) == Some(h(c.groupRef.value))
  {
    hide SplitOf, IsBucket, Component, Settled, Closed;
    assert c in Rows(survivors) && c in Rows(rows);
    SplitIsBucket(h, rows, c);
    SplitIsBucket(h, survivors, c);
    SettledHasAnchor(h, Rows(rows), c);
    ClosedBucket(h, Rows(rows), Rows(rows), c);
    ClosedBucket(h, Rows(rows), Rows(survivors), c);
    BucketIsUnique(h, Component(Rows(rows), c), h(c.groupRef.value), SplitOf(h, rows, c.episodeRef).value);
    BucketIsUnique(h, Component(Rows(survivors), c), h(c.groupRef.value), SplitOf(h, survivors, c.episodeRef).value);
  }

  lemma SettledHasAnchor(h: Hash, s: set<TraceCase>, c: TraceCase)
    requires Settled(h, s) && c in s
    ensures c.groupRef.Some?
  {
  }

  /** A name cited among the rows of an anchor whose bucket is the least of them. */
  ghost predicate Least(h: Hash, s: set<TraceCase>, anchor: Option<Ref>, r: Ref) {
    forall y, q :: y in s && y.groupRef == anchor && q in Citations(y) ==> h(r) <= h(q)
  }

  /** Some row of the anchor in `t` cites a name of the least bucket cited in `s`. */
  ghost predicate Attains(h: Hash, s: set<TraceCase>, t: set<TraceCase>, anchor: Option<Ref>) {
    exists x, r :: x in t && x.groupRef == anchor && r in Citations(x) && Least(h, s, anchor, r)
  }

  lemma SubsetSettled(h: Hash, s: set<TraceCase>, t: set<TraceCase>)
    requires Settled(h, s) && t <= s
    ensures Settled(h, t)
  {
  }

  lemma AnchorBucket(h: Hash, s: set<TraceCase>, c: TraceCase, b: Third)
    requires Settled(h, s) && c in s && IsBucket(h, Component(s, c), b)
    ensures exists x, r :: x in s && x.groupRef == c.groupRef && r in Citations(x) && h(r) == b
    ensures forall x, r :: x in s && x.groupRef == c.groupRef && r in Citations(x) ==> b <= h(r)
  {
    SettledComponent(h, s, c);
  }

  lemma AttainsExactly(h: Hash, s: set<TraceCase>, t: set<TraceCase>, c: TraceCase, b: Third, b': Third)
    requires Settled(h, s) && t <= s && c in t
    requires IsBucket(h, Component(s, c), b) && IsBucket(h, Component(t, c), b')
    ensures b' == b <==> Attains(h, s, t, c.groupRef)
  {
    SubsetSettled(h, s, t);
    AnchorBucket(h, s, c, b);
    AnchorBucket(h, t, c, b');
    hide IsBucket, Component, Settled, Citations;
    if b' == b {
      var x, r :| x in t && x.groupRef == c.groupRef && r in Citations(x) && h(r) == b';
      assert Least(h, s, c.groupRef, r);
    }
  }

  /** Removing rows of a settled corpus keeps the split of a survivor exactly when a
      surviving row of its anchor cites a name of the least bucket cited before. */
  lemma PruningKeepsSplitExactly(h: Hash, rows: seq<TraceCase>, survivors: seq<TraceCase>, c: TraceCase)
    requires DistinctRefs(rows) && DistinctRefs(survivors) && Rows(survivors) <= Rows(rows) && c in survivors
    requires Settled(h, Rows(rows))
    ensures SplitOf(h, survivors, c.episodeRef) == SplitOf(h, rows, c.episodeRef) <==>
            Attains(h, Rows(rows), Rows(survivors), c.groupRef)
  {
    hide SplitOf, IsBucket, Component, Settled, Attains, DistinctRefs;
    assert c in Rows(survivors) && c in Rows(rows);
    SplitIsBucket(h, rows, c);
    SplitIsBucket(h, survivors, c);
    AttainsExactly(h, Rows(rows), Rows(survivors), c,
                   SplitOf(h, rows, c.episodeRef).value, SplitOf(h, survivors, c.episodeRef).value);
  }

  /** No pruning of these rows moves a survivor. */
  ghost predicate PruningSafe(h: Hash, rows: seq<TraceCase>) {
    forall survivors: seq<TraceCase>, c: TraceCase :: DistinctRefs(survivors) && Rows(survivors) <= Rows(rows) && c in survivors ==>
      SplitOf(h, survivors, c.episodeRef) == SplitOf(h, rows, c.episodeRef)
  }

  /** A settled corpus keeps its splits under every pruning exactly when each row
      itself cites a name of the least bucket cited among the rows of its anchor. */
  lemma PruningSafeExactly(h: Hash, rows: seq<TraceCase>)
    requires DistinctRefs(rows) && Settled(h, Rows(rows))
    ensures PruningSafe(h, rows) <==> forall c :: c in rows ==> Attains(h, Rows(rows), {c}, c.groupRef)
  {
    hide SplitOf, Settled, Attains;
    if PruningSafe(h, rows) {
      forall c | c in rows
        ensures Attains(h, Rows(rows), {c}, c.groupRef)
      {
        assert Rows([c]) == {c} && c in [c] && DistinctRefs([c]);
        PruningKeepsSplitExactly(h, rows, [c], c);
      }
    }
    if forall c :: c in rows ==> Attains(h, Rows(rows), {c}, c.groupRef) {
      forall survivors: seq<TraceCase>, c: TraceCase | DistinctRefs(survivors) && Rows(survivors) <= Rows(rows) && c in survivors
        ensures SplitOf(h, survivors, c.episodeRef) == SplitOf(h, rows, c.episodeRef)
      {
        assert c in Rows(survivors);
        AttainsGrows(h, Rows(rows), {c}, Rows(survivors), c.groupRef);
        PruningKeepsSplitExactly(h, rows, survivors, c);
      }
    }
  }

  lemma AttainsGrows(h: Hash, s: set<TraceCase>, t: set<TraceCase>, u: set<TraceCase>, anchor: Option<Ref>)
    requires Attains(h, s, t, anchor) && t <= u
    ensures Attains(h, s, u, anchor)
  {
    hide Least, Citations;
  }

  function Citing(ref: Ref, cited: Ref): TraceCase {
    TraceCase(ref, Some("p"), Some(Classification("coding", "other", "single_step", "direct", [cited])),
              [ref], "", None, None, "seen")
  }

  /** Pruning does move splits in general: a curated pair trains because one row
      cites an absent objective; when that row goes, the other becomes a test. */
  lemma DanglingReferenceMovesSplit() returns (h: Hash, rows: seq<TraceCase>, survivors: seq<TraceCase>, c: TraceCase)
    ensures DistinctRefs(rows) && DistinctRefs(survivors) && Rows(survivors) <= Rows(rows) && c in survivors
    ensures Curate(h, rows, []) == []
    ensures SplitOf(h, rows, c.episodeRef) == Some(0)
    ensures SplitOf(h, survivors, c.episodeRef) == Some(2)
  {
    hide SplitOf, Curate, IsBucket, Component, Settled, Citing;
    h := (r: Ref) => if r == "z" then 0 else 2;
    assert "q"[0] != "z"[0] && "p"[0] != "z"[0];
    var a := Citing("p", "z");
    c := Citing("q", "p");
    assert a.episodeRef != c.episodeRef by {
      CitingRef("p", "z");
      CitingRef("q", "p");
      assert "p"[0] != "q"[0];
    }
    rows, survivors := [a, c], [c];
    assert Rows(rows) == {a, c} && Rows(survivors) == {c};
    PairSettled(h, a, c);
    SettledNeedsNothing(h, rows);
    SplitIsBucket(h, rows, c);
    SplitIsBucket(h, survivors, c);
    PairBuckets(h, a, c, SplitOf(h, rows, c.episodeRef).value, SplitOf(h, survivors, c.episodeRef).value);
  }

  lemma CitingRef(ref: Ref, cited: Ref)
    ensures Citing(ref, cited).episodeRef == ref
  {
  }

  lemma PairBuckets(h: Hash, a: TraceCase, c: TraceCase, b: Third, b': Third)
    requires a == Citing("p", "z") && c == Citing("q", "p") && h("p") == h("q") == 2 && h("z") == 0
    requires IsBucket(h, {a, c}, b) && IsBucket(h, {c}, b')
    ensures b == 0 && b' == 2
  {
    assert Citations(a) == ["p", "p", "z"] && Citations(c) == ["q", "p", "p"];
    hide Citing, Citations;
    assert "z" in Citations(a) && "q" in Citations(c);
  }

  lemma PairSettled(h: Hash, a: TraceCase, c: TraceCase)
    requires a == Citing("p", "z") && c == Citing("q", "p") && h("p") == h("q")
    ensures Settled(h, {a, c})
    ensures Component({a, c}, c) == {a, c} && Component({c}, c) == {c}
  {
    assert Settled(h, {a, c}) by {
      hide Related;
      LeqReflexive("p");
      assert Leq("p", "q");
    }
    SettledComponent(h, {a, c}, c);
    SettledComponent(h, {c}, c);
  }
}
