/** Curation stamps every row of a component with one stable anchor. Once
    stamped, a corpus needs no further curation, however it is pruned. */
module Curation {
  import opened Text
  import opened Corpus
  import opened Components

  type Third = n: nat | n < 3

  /** First digest byte modulo three: any function will do. */
  type Hash = Ref -> Third

  // ----------------------------------------------------------------- anchors

  /** The order in which anchors are preferred. */
  predicate Before(h: Hash, a: Ref, b: Ref) {
    h(a) < h(b) || (h(a) == h(b) && Leq(a, b))
  }

  lemma BeforeTransitive(h: Hash, a: Ref, b: Ref, c: Ref)
    requires Before(h, a, b) && Before(h, b, c)
    ensures Before(h, a, c)
  {
    if h(a) == h(c) {
      LeqTransitive(a, b, c);
    }
  }

  lemma BeforeAntisymmetric(h: Hash, a: Ref, b: Ref)
    requires Before(h, a, b) && Before(h, b, a)
    ensures a == b
  {
    LeqAntisymmetric(a, b);
  }

  function Names(c: TraceCase): seq<Ref> {
    [c.episodeRef] + if c.groupRef.Some? then [c.groupRef.value] else []
  }

  ghost predicate NamedBy(group: seq<TraceCase>, r: Ref) {
    exists c :: c in group && r in Names(c)
  }

  function NamesOf(group: seq<TraceCase>): (r: seq<Ref>)
    ensures forall x :: x in r <==> NamedBy(group, x)
    ensures group != [] ==> r != []
  {
    if group == [] then []
    else
      assert group == [group[0]] + group[1..];
      Names(group[0]) + NamesOf(group[1..])
  }

  function First(h: Hash, refs: seq<Ref>): (r: Ref)
    requires refs != []
    ensures r in refs
    ensures forall x :: x in refs ==> Before(h, r, x)
  {
    var last := refs[|refs| - 1];
    if |refs| == 1 then LeqReflexive(last); last
    else
      var r := First(h, refs[..|refs| - 1]);
      assert refs == refs[..|refs| - 1] + [last];
      if Before(h, r, last) then r
      else
        assert forall x :: x in refs ==> Before(h, last, x) by {
          LeqReflexive(last);
          LeqTotal(r, last);
          forall x | x in refs[..|refs| - 1]
            ensures Before(h, last, x)
          {
            BeforeTransitive(h, last, r, x);
          }
        }
        last
  }

  function Anchor(h: Hash, group: seq<TraceCase>): Ref
    requires group != []
  {
    First(h, NamesOf(group))
  }

  /** The anchor as a property of a set of rows: the most preferred of their names. */
  ghost predicate IsAnchor(h: Hash, s: set<TraceCase>, a: Ref) {
    && (exists c :: c in s && a in Names(c))
    && (forall c, r :: c in s && r in Names(c) ==> Before(h, a, r))
  }

  lemma AnchorIsAnchor(h: Hash, group: seq<TraceCase>)
    requires group != []
    ensures IsAnchor(h, Rows(group), Anchor(h, group))
  {
    var a := Anchor(h, group);
    assert NamedBy(group, a);
    forall c, r | c in Rows(group) && r in Names(c)
      ensures Before(h, a, r)
    {
      assert NamedBy(group, r);
    }
  }

  lemma AnchorIsUnique(h: Hash, s: set<TraceCase>, a: Ref, b: Ref)
    requires IsAnchor(h, s, a) && IsAnchor(h, s, b)
    ensures a == b
  {
    BeforeAntisymmetric(h, a, b);
  }

  // ---------------------------------------------------------------- curation

  function KeptAnchor(rows: seq<TraceCase>, ref: Ref): Option<Ref> {
    match Find(rows, ref)
    case Some(c) => c.groupRef
    case None => None
  }

  /** Incoming anchors are never trusted: a change keeps the stored one. */
  function MergeFrom(rows: seq<TraceCase>, changes: seq<TraceCase>): seq<TraceCase>
    decreases |changes|
  {
    if changes == [] then rows
    else
      var c := changes[0];
      MergeFrom(Insert(rows, c.(groupRef := KeptAnchor(rows, c.episodeRef))), changes[1..])
  }

  function Merge(previous: seq<TraceCase>, changes: seq<TraceCase>): seq<TraceCase> {
    MergeFrom(Canonical(previous), changes)
  }

  function Stamp(c: TraceCase, a: Ref): TraceCase {
    c.(groupRef := Some(a))
  }

  function StampGroup(group: seq<TraceCase>, a: Ref): (r: seq<TraceCase>)
    ensures |r| == |group| && forall i :: 0 <= i < |r| ==> r[i] == Stamp(group[i], a)
  {
    seq(|group|, i requires 0 <= i < |group| => Stamp(group[i], a))
  }

  predicate HasRef(rows: seq<TraceCase>, ref: Ref) {
    exists i :: 0 <= i < |rows| && rows[i].episodeRef == ref
  }

  /** A row is persisted when it was in the batch or differs from what is stored. */
  predicate Differs(previous: seq<TraceCase>, changes: seq<TraceCase>, c: TraceCase) {
    HasRef(changes, c.episodeRef) || Find(previous, c.episodeRef) != Some(c)
  }

  function Kept(previous: seq<TraceCase>, changes: seq<TraceCase>, rows: seq<TraceCase>): (r: seq<TraceCase>)
    ensures forall x :: x in r <==> x in rows && Differs(previous, changes, x)
  {
    if rows == [] then []
    else
      assert rows == [rows[0]] + rows[1..];
      var rest := Kept(previous, changes, rows[1..]);
      if Differs(previous, changes, rows[0]) then [rows[0]] + rest else rest
  }

  function StampAll(h: Hash, groups: seq<seq<TraceCase>>): seq<TraceCase>
    requires forall i :: 0 <= i < |groups| ==> groups[i] != []
  {
    if groups == [] then []
    else StampGroup(groups[0], Anchor(h, groups[0])) + StampAll(h, groups[1..])
  }

  lemma {:induction false} GroupsNonempty(rows: seq<TraceCase>)
    ensures forall i :: 0 <= i < |GroupsOf(rows)| ==> GroupsOf(rows)[i] != []
  {
    if rows != [] {
      var before := GroupsOf(rows[..|rows| - 1]);
      GroupsNonempty(rows[..|rows| - 1]);
      AbsorbNonempty(before, [rows[|rows| - 1]], 0);
    }
  }

  lemma {:induction false} AbsorbNonempty(groups: seq<seq<TraceCase>>, merged: seq<TraceCase>, index: nat)
    requires merged != [] && index <= |groups| && forall i :: 0 <= i < |groups| ==> groups[i] != []
    ensures var (rest, all) := Absorb(groups, merged, index);
            Canonical(all) != [] && forall i :: 0 <= i < |rest| ==> rest[i] != []
    decreases |groups|, |groups| - index
  {
    if index < |groups| {
      if Touches(groups[index], merged) {
        AbsorbNonempty(Removed(groups, index), merged + groups[index], 0);
      } else {
        AbsorbNonempty(groups, merged, index + 1);
      }
    } else {
      InsertAllContents([], merged);
      assert Find(Canonical(merged), merged[0].episodeRef).Some?;
    }
  }

  function Curate(h: Hash, previous: seq<TraceCase>, changes: seq<TraceCase>): seq<TraceCase> {
    var groups := CaseGroups(Merge(previous, changes));
    GroupsNonempty(Canonical(Merge(previous, changes)));
    Kept(previous, changes, StampAll(h, groups))
  }

  /** The corpus after the returned rows are persisted. */
  function Store(previous: seq<TraceCase>, rows: seq<TraceCase>): seq<TraceCase> {
    InsertAll(Canonical(previous), rows)
  }

  lemma {:induction false} KeptSplits(previous: seq<TraceCase>, changes: seq<TraceCase>, a: seq<TraceCase>, b: seq<TraceCase>)
    ensures Kept(previous, changes, a + b) == Kept(previous, changes, a) + Kept(previous, changes, b)
  {
    hide Differs;
    if a == [] {
      assert a + b == b;
    } else {
      assert (a + b)[1..] == a[1..] + b;
      KeptSplits(previous, changes, a[1..], b);
    }
  }

  method CurateGroup(previous: seq<TraceCase>, changes: seq<TraceCase>, group: seq<TraceCase>, anchor: Ref)
    returns (result: seq<TraceCase>)
    ensures result == Kept(previous, changes, StampGroup(group, anchor))
  {
    hide Differs;
    ghost var stamped := StampGroup(group, anchor);
    result := [];
    for i := 0 to |group|
      invariant result == Kept(previous, changes, stamped[..i])
    {
      var c := Stamp(group[i], anchor);
      if Differs(previous, changes, c) {
        result := result + [c];
      }
      KeptSplits(previous, changes, stamped[..i], [c]);
      assert stamped[..i + 1] == stamped[..i] + [c];
    }
    assert stamped[..|group|] == stamped;
  }

  /** The curation loop over groups and their members. */
  method CurateChanges(h: Hash, previous: seq<TraceCase>, changes: seq<TraceCase>) returns (result: seq<TraceCase>)
    ensures result == Curate(h, previous, changes)
  {
    var groups := ComputeGroups(Merge(previous, changes));
    GroupsNonempty(Canonical(Merge(previous, changes)));
    hide CaseGroups, AreComponents, Differs, Anchor, Merge;
    result := [];
    for n := 0 to |groups|
      invariant result + Kept(previous, changes, StampAll(h, groups[n..])) == Kept(previous, changes, StampAll(h, groups))
    {
      var anchor := Anchor(h, groups[n]);
      var rows := CurateGroup(previous, changes, groups[n], anchor);
      assert groups[n..][1..] == groups[n + 1..];
      KeptSplits(previous, changes, StampGroup(groups[n], anchor), StampAll(h, groups[n + 1..]));
      result := result + rows;
    }
    assert groups[|groups|..] == [] && groups[0..] == groups;
  }

  // ------------------------------------------------ what curation produces

  lemma {:induction false} MergeContents(rows: seq<TraceCase>, changes: seq<TraceCase>)
    requires Ordered(rows)
    ensures Ordered(MergeFrom(rows, changes))
    ensures forall c :: c in rows ==> Find(MergeFrom(rows, changes), c.episodeRef).Some?
    ensures forall c :: c in rows && !HasRef(changes, c.episodeRef) ==> c in MergeFrom(rows, changes)
    decreases |changes|
  {
    if changes != [] {
      var c := changes[0].(groupRef := KeptAnchor(rows, changes[0].episodeRef));
      var next := Insert(rows, c);
      InsertContents(rows, c);
      MergeContents(next, changes[1..]);
      assert changes[0].episodeRef == c.episodeRef;
      forall x | x in rows
        ensures Find(MergeFrom(rows, changes), x.episodeRef).Some?
      {
        if x.episodeRef == c.episodeRef {
          assert c in next;
          assert Find(MergeFrom(next, changes[1..]), c.episodeRef).Some?;
        } else {
          assert x in next;
        }
      }
      forall x | x in rows && !HasRef(changes, x.episodeRef)
        ensures x in MergeFrom(rows, changes)
      {
        assert x.episodeRef != changes[0].episodeRef;
        assert x in next;
        assert !HasRef(changes[1..], x.episodeRef);
      }
    }
  }

  /** The anchor a reference is stored with; none if it is not stored. */
  ghost predicate StoredAnchor(previous: seq<TraceCase>, ref: Ref, anchor: Option<Ref>) {
    && (forall p :: p in previous && p.episodeRef == ref ==> anchor == p.groupRef)
    && ((forall p :: p in previous ==> p.episodeRef != ref) ==> anchor.None?)
  }

  /** No later change has the same reference. */
  ghost predicate LastOfItsRef(changes: seq<TraceCase>, i: nat) {
    i < |changes| && forall j :: i < j < |changes| ==> changes[j].episodeRef != changes[i].episodeRef
  }

  ghost predicate IsChange(previous: seq<TraceCase>, changes: seq<TraceCase>, d: TraceCase, i: nat) {
    && LastOfItsRef(changes, i) && d == changes[i].(groupRef := d.groupRef)
    && StoredAnchor(previous, d.episodeRef, d.groupRef)
  }

  /** A stored row that is not changed, or the last change of its reference with the
      stored anchor. */
  ghost predicate Merged(previous: seq<TraceCase>, changes: seq<TraceCase>, d: TraceCase) {
    || (d in previous && !HasRef(changes, d.episodeRef))
    || exists i: nat :: IsChange(previous, changes, d, i)
  }

  lemma KeptIsStored(rows: seq<TraceCase>, ref: Ref)
    requires Ordered(rows)
    ensures forall a :: StoredAnchor(rows, ref, a) <==> a == KeptAnchor(rows, ref)
  {
    OrderedIsDistinct(rows);
    var found := Find(rows, ref);
    if found.Some? {
      assert forall p :: p in rows && p.episodeRef == ref ==> p == found.value;
    }
  }

  lemma InsertKeepsAnchors(rows: seq<TraceCase>, c: TraceCase, ref: Ref, a: Option<Ref>)
    requires Ordered(rows) && c.groupRef == KeptAnchor(rows, c.episodeRef)
    ensures StoredAnchor(Insert(rows, c), ref, a) <==> StoredAnchor(rows, ref, a)
  {
    InsertContents(rows, c);
    KeptIsStored(rows, ref);
    hide Insert, KeptAnchor;
    if ref == c.episodeRef {
      assert c in Insert(rows, c);
      assert StoredAnchor(Insert(rows, c), ref, a) <==> a == c.groupRef;
    } else {
      assert forall p: TraceCase :: p.episodeRef == ref ==> (p in Insert(rows, c) <==> p in rows);
    }
  }

  lemma ChangeShifts(previous: seq<TraceCase>, next: seq<TraceCase>, changes: seq<TraceCase>, d: TraceCase)
    requires changes != []
    requires forall a :: StoredAnchor(next, d.episodeRef, a) <==> StoredAnchor(previous, d.episodeRef, a)
    ensures (exists i: nat :: IsChange(previous, changes, d, i)) <==>
            (exists i: nat :: IsChange(next, changes[1..], d, i)) || IsChange(previous, changes, d, 0)
  {
    var rest := changes[1..];
    assert forall i :: 0 <= i < |rest| ==> rest[i] == changes[i + 1];
    forall i: nat
      ensures i > 0 ==> (IsChange(previous, changes, d, i) <==> IsChange(next, rest, d, i - 1))
    {
      if i > 0 {
        assert LastOfItsRef(changes, i) <==> LastOfItsRef(rest, i - 1);
      }
    }
    if exists i: nat :: IsChange(next, rest, d, i) {
      var i: nat :| IsChange(next, rest, d, i);
      assert (i + 1) - 1 == i;
      assert IsChange(previous, changes, d, i + 1);
    }
  }

  lemma {:induction false} MergeFromHolds(rows: seq<TraceCase>, changes: seq<TraceCase>, d: TraceCase)
    requires Ordered(rows)
    ensures d in MergeFrom(rows, changes) <==> Merged(rows, changes, d)
    decreases |changes|
  {
    if changes != [] {
      var c := changes[0].(groupRef := KeptAnchor(rows, changes[0].episodeRef));
      var next := Insert(rows, c);
      InsertContents(rows, c);
      MergeFromHolds(next, changes[1..], d);
      forall a
        ensures StoredAnchor(next, d.episodeRef, a) <==> StoredAnchor(rows, d.episodeRef, a)
      {
        InsertKeepsAnchors(rows, c, d.episodeRef, a);
      }
      ChangeShifts(rows, next, changes, d);
      FirstChange(rows, changes, c, d);
    }
  }

  lemma FirstChange(rows: seq<TraceCase>, changes: seq<TraceCase>, c: TraceCase, d: TraceCase)
    requires Ordered(rows) && changes != [] && c == changes[0].(groupRef := KeptAnchor(rows, changes[0].episodeRef))
    ensures IsChange(rows, changes, d, 0) <==> d == c && !HasRef(changes[1..], d.episodeRef)
    ensures HasRef(changes, d.episodeRef) <==> d.episodeRef == c.episodeRef || HasRef(changes[1..], d.episodeRef)
  {
    KeptIsStored(rows, d.episodeRef);
    var rest := changes[1..];
    assert forall i :: 0 < i < |changes| ==> rest[i - 1] == changes[i];
    hide KeptAnchor, StoredAnchor;
  }

  /** What curation works on: the stored rows, with the submitted changes in place of
      those they name. Submitted anchors are never trusted. */
  lemma MergeHolds(previous: seq<TraceCase>, changes: seq<TraceCase>, d: TraceCase)
    requires DistinctRefs(previous)
    ensures d in Merge(previous, changes) <==> Merged(previous, changes, d)
  {
    CanonicalRows(previous);
    MergeFromHolds(Canonical(previous), changes, d);
    hide MergeFrom, Canonical;
    forall x
      ensures x in Canonical(previous) <==> x in previous
    {
      assert x in Rows(Canonical(previous)) <==> x in Rows(previous);
    }
    forall i: nat
      ensures IsChange(Canonical(previous), changes, d, i) <==> IsChange(previous, changes, d, i)
    {
    }
  }

  lemma DiffersExactly(previous: seq<TraceCase>, changes: seq<TraceCase>, d: TraceCase)
    requires DistinctRefs(previous)
    ensures Differs(previous, changes, d) <==> (exists c :: c in changes && c.episodeRef == d.episodeRef) || d !in previous
  {
    if d in previous {
      assert Find(previous, d.episodeRef) == Some(d);
    }
  }

  /** `d` is the row `c` of corpus `s`, stamped with the anchor of its component. */
  ghost predicate Stamped(h: Hash, s: set<TraceCase>, c: TraceCase, d: TraceCase) {
    && c in s && d.groupRef.Some? && d == Stamp(c, d.groupRef.value)
    && IsAnchor(h, Component(s, c), d.groupRef.value)
  }

  ghost predicate StampOf(h: Hash, s: set<TraceCase>, d: TraceCase) {
    exists c :: Stamped(h, s, c, d)
  }

  /** `t` holds exactly the stamped rows of `s`. */
  ghost predicate Curated(h: Hash, s: set<TraceCase>, t: set<TraceCase>) {
    && (forall d :: d in t <==> StampOf(h, s, d))
    && RefsIdentify(s) && RefsIdentify(t)
  }

  lemma StampedUnique(h: Hash, s: set<TraceCase>, c: TraceCase, d: TraceCase, e: TraceCase)
    requires Stamped(h, s, c, d) && Stamped(h, s, c, e)
    ensures d == e
  {
    AnchorIsUnique(h, Component(s, c), d.groupRef.value, e.groupRef.value);
  }

  lemma {:induction false} StampAllContents(h: Hash, groups: seq<seq<TraceCase>>, d: TraceCase)
    requires forall i :: 0 <= i < |groups| ==> groups[i] != []
    ensures d in StampAll(h, groups) <==>
            exists i, c :: 0 <= i < |groups| && c in groups[i] && d == Stamp(c, Anchor(h, groups[i]))
  {
    if groups != [] {
      var head, rest := StampGroup(groups[0], Anchor(h, groups[0])), groups[1..];
      StampAllContents(h, rest, d);
      if d in head {
        var k :| 0 <= k < |head| && head[k] == d;
        assert groups[0][k] in groups[0];
      } else if d in StampAll(h, rest) {
        var i, c :| 0 <= i < |rest| && c in rest[i] && d == Stamp(c, Anchor(h, rest[i]));
        assert rest[i] == groups[i + 1];
      }
      if i, c :| 0 <= i < |groups| && c in groups[i] && d == Stamp(c, Anchor(h, groups[i])) {
        if i == 0 {
          var k :| 0 <= k < |groups[0]| && groups[0][k] == c;
          assert head[k] == d;
        } else {
          assert rest[i - 1] == groups[i];
        }
      }
    }
  }

  lemma StampAllStamps(h: Hash, s: set<TraceCase>, groups: seq<seq<TraceCase>>)
    requires AreComponents(s, groups)
    ensures forall d :: d in StampAll(h, groups) <==> StampOf(h, s, d)
  {
    forall d
      ensures d in StampAll(h, groups) <==> StampOf(h, s, d)
    {
      StampAllContents(h, groups, d);
      if d in StampAll(h, groups) {
        var i, c :| 0 <= i < |groups| && c in groups[i] && d == Stamp(c, Anchor(h, groups[i]));
        GroupIsComponent(s, groups, i, c);
        AnchorIsAnchor(h, groups[i]);
        assert c in Members(groups);
        assert Stamped(h, s, c, d);
      }
      if StampOf(h, s, d) {
        var c :| Stamped(h, s, c, d);
        assert c in Members(groups);
        var i :| 0 <= i < |groups| && c in groups[i];
        GroupIsComponent(s, groups, i, c);
        AnchorIsAnchor(h, groups[i]);
        AnchorIsUnique(h, Component(s, c), d.groupRef.value, Anchor(h, groups[i]));
      }
    }
  }

  lemma StampsIdentify(h: Hash, s: set<TraceCase>, d: TraceCase, e: TraceCase)
    requires RefsIdentify(s) && StampOf(h, s, d) && StampOf(h, s, e) && d.episodeRef == e.episodeRef
    ensures d == e
  {
    var a :| Stamped(h, s, a, d);
    var b :| Stamped(h, s, b, e);
    assert a == b;
    StampedUnique(h, s, a, d, e);
  }

  lemma OrderedIdentifies(rows: seq<TraceCase>)
    requires DistinctRefs(rows)
    ensures RefsIdentify(Rows(rows))
  {
  }

  lemma {:induction false} KeptDistinct(previous: seq<TraceCase>, changes: seq<TraceCase>, rows: seq<TraceCase>)
    requires DistinctRefs(rows)
    ensures DistinctRefs(Kept(previous, changes, rows))
  {
    if rows != [] {
      KeptDistinct(previous, changes, rows[1..]);
      var rest := Kept(previous, changes, rows[1..]);
      assert forall i :: 0 <= i < |rest| ==> rest[i] in rest && rest[i] in rows[1..];
    }
  }

  lemma TailApart(groups: seq<seq<TraceCase>>)
    requires groups != [] && AllApart(groups)
    ensures AllApart(groups[1..]) && Members(groups[1..]) <= Members(groups)
  {
    var rest := groups[1..];
    assert forall i :: 0 <= i < |rest| ==> rest[i] == groups[i + 1];
    forall i, j | 0 <= i < |rest| && 0 <= j < |rest| && i != j
      ensures Apart(Rows(rest[i]), Rows(rest[j]))
    {
      assert Apart(Rows(groups[i + 1]), Rows(groups[j + 1]));
    }
  }

  lemma HeadRefsDiffer(h: Hash, s: set<TraceCase>, groups: seq<seq<TraceCase>>, c: TraceCase, d: TraceCase)
    requires RefsIdentify(s) && Members(groups) <= s && AllApart(groups) && groups != []
    requires forall i :: 0 <= i < |groups| ==> groups[i] != []
    requires c in groups[0] && d in StampAll(h, groups[1..])
    ensures c.episodeRef != d.episodeRef
  {
    hide Related, Anchor;
    var rest := groups[1..];
    StampAllContents(h, rest, d);
    hide StampAll;
    var k, e :| 0 <= k < |rest| && e in rest[k] && d == Stamp(e, Anchor(h, rest[k]));
    assert rest[k] == groups[k + 1];
    assert Apart(Rows(groups[0]), Rows(groups[k + 1]));
    assert c in Rows(groups[0]) && e in Rows(groups[k + 1]);
    assert c in Members(groups) && e in Members(groups);
  }

  lemma JoinDistinct(a: seq<TraceCase>, b: seq<TraceCase>)
    requires DistinctRefs(a) && DistinctRefs(b)
    requires forall i, j :: 0 <= i < |a| && 0 <= j < |b| ==> a[i].episodeRef != b[j].episodeRef
    ensures DistinctRefs(a + b)
  {
  }

  lemma {:induction false} StampAllDistinct(h: Hash, s: set<TraceCase>, groups: seq<seq<TraceCase>>)
    requires RefsIdentify(s) && Members(groups) <= s && AllApart(groups)
    requires forall i :: 0 <= i < |groups| ==> groups[i] != [] && Ordered(groups[i])
    ensures DistinctRefs(StampAll(h, groups))
  {
    hide RefsIdentify, Members, Anchor, Related;
    if groups != [] {
      TailApart(groups);
      StampAllDistinct(h, s, groups[1..]);
      var head, tail := StampGroup(groups[0], Anchor(h, groups[0])), StampAll(h, groups[1..]);
      forall i, j | 0 <= i < |head| && 0 <= j < |tail|
        ensures head[i].episodeRef != tail[j].episodeRef
      {
        HeadRefsDiffer(h, s, groups, groups[0][i], tail[j]);
      }
      assert DistinctRefs(head) by {
        OrderedIsDistinct(groups[0]);
      }
      JoinDistinct(head, tail);
    }
  }

  /** The rows returned are the stamped rows that were in the batch or differ. */
  lemma CurateReturns(h: Hash, previous: seq<TraceCase>, changes: seq<TraceCase>)
    requires DistinctRefs(previous)
    ensures var s := Rows(Merge(previous, changes));
            && RefsIdentify(s) && DistinctRefs(Curate(h, previous, changes))
            && forall d :: d in Curate(h, previous, changes) <==> StampOf(h, s, d) && Differs(previous, changes, d)
  {
    var merged := Merge(previous, changes);
    var groups := CaseGroups(merged);
    CanonicalRows(previous);
    MergeContents(Canonical(previous), changes);
    OrderedIsDistinct(merged);
    OrderedIdentifies(merged);
    CaseGroupsAreComponents(merged);
    StampAllStamps(h, Rows(merged), groups);
    StampAllDistinct(h, Rows(merged), groups);
    KeptDistinct(previous, changes, StampAll(h, groups));
  }

  /** Which rows are returned, in terms of what was stored and submitted. */
  lemma CurateReturnsExactly(h: Hash, previous: seq<TraceCase>, changes: seq<TraceCase>, d: TraceCase)
    requires DistinctRefs(previous)
    ensures d in Curate(h, previous, changes) <==>
            && StampOf(h, Rows(Merge(previous, changes)), d)
            && ((exists c :: c in changes && c.episodeRef == d.episodeRef) || d !in previous)
  {
    CurateReturns(h, previous, changes);
    DiffersExactly(previous, changes, d);
    hide Curate, StampOf, Differs, Merge;
  }

  lemma StampExists(h: Hash, s: set<TraceCase>, groups: seq<seq<TraceCase>>, c: TraceCase) returns (d: TraceCase)
    requires AreComponents(s, groups) && c in s
    ensures Stamped(h, s, c, d) && d.episodeRef == c.episodeRef
  {
    assert c in Members(groups);
    var i :| 0 <= i < |groups| && c in groups[i];
    GroupIsComponent(s, groups, i, c);
    AnchorIsAnchor(h, groups[i]);
    d := Stamp(c, Anchor(h, groups[i]));
  }

  lemma UnchangedStays(h: Hash, previous: seq<TraceCase>, changes: seq<TraceCase>, d: TraceCase)
    requires DistinctRefs(previous) && StampOf(h, Rows(Merge(previous, changes)), d)
    ensures d in Store(previous, Curate(h, previous, changes))
  {
    var result := Curate(h, previous, changes);
    CurateReturns(h, previous, changes);
    CanonicalRows(previous);
    InsertAllKeeps(Canonical(previous), result);
    if d !in result {
      InsertAllContents(Canonical(previous), result);
      assert Find(previous, d.episodeRef) == Some(d);
      assert d in Rows(previous) && d in Canonical(previous);
      var clash := Find(result, d.episodeRef);
      if clash.Some? {
        StampsIdentify(h, Rows(Merge(previous, changes)), d, clash.value);
      }
    }
  }

  /** After persisting the result, the store holds the stamped corpus and nothing else. */
  lemma StoreIsCurated(h: Hash, previous: seq<TraceCase>, changes: seq<TraceCase>)
    requires DistinctRefs(previous)
    ensures Curated(h, Rows(Merge(previous, changes)), Rows(Store(previous, Curate(h, previous, changes))))
    ensures DistinctRefs(Store(previous, Curate(h, previous, changes)))
  {
    var merged, result := Merge(previous, changes), Curate(h, previous, changes);
    var s, stored := Rows(merged), Store(previous, result);
    CanonicalRows(previous);
    MergeContents(Canonical(previous), changes);
    CurateReturns(h, previous, changes);
    InsertAllContents(Canonical(previous), result);
    OrderedIsDistinct(stored);
    OrderedIdentifies(stored);
    CanonicalRows(merged) by {
      OrderedIsDistinct(merged);
    }
    CaseGroupsAreComponents(merged);
    forall d | d in stored
      ensures StampOf(h, s, d)
    {
      if d !in result {
        var c := Find(merged, d.episodeRef).value;
        var e := StampExists(h, s, CaseGroups(merged), c);
        UnchangedStays(h, previous, changes, e);
        assert e in Rows(stored) && d in Rows(stored);
      }
    }
    forall d | StampOf(h, s, d)
      ensures d in stored
    {
      UnchangedStays(h, previous, changes, d);
    }
  }

  // --------------------------------------------------------------- stability

  /** Every row carries an anchor preferred to its own reference, and related
      rows carry the same one. */
  ghost predicate Settled(h: Hash, s: set<TraceCase>) {
    && (forall c :: c in s ==> c.groupRef.Some? && Before(h, c.groupRef.value, c.episodeRef))
    && (forall a, b :: a in s && b in s && Related(a, b) ==> a.groupRef == b.groupRef)
  }

  lemma CuratedIsSettled(h: Hash, s: set<TraceCase>, t: set<TraceCase>)
    requires Curated(h, s, t)
    ensures Settled(h, t)
  {
    forall d | d in t
      ensures d.groupRef.Some? && Before(h, d.groupRef.value, d.episodeRef)
    {
      var c :| Stamped(h, s, c, d);
      LinkedSelf(s, c);
      assert c in Component(s, c) && c.episodeRef in Names(c);
    }
    forall d, e | d in t && e in t && Related(d, e)
      ensures d.groupRef == e.groupRef
    {
      var a :| Stamped(h, s, a, d);
      var b :| Stamped(h, s, b, e);
      if d.groupRef != e.groupRef {
        assert RelatedByContent(a, b);
        SameComponent(s, a, b);
        AnchorIsUnique(h, Component(s, a), d.groupRef.value, e.groupRef.value);
      }
    }
  }

  lemma SameComponent(s: set<TraceCase>, a: TraceCase, b: TraceCase)
    requires a in s && b in s && Related(a, b)
    ensures Component(s, a) == Component(s, b)
  {
    LinkedSelf(s, a);
    LinkedStep(s, a, a, b);
    LinkedSymmetric(s, a, b);
    forall x | x in s
      ensures Linked(s, a, x) <==> Linked(s, b, x)
    {
      if Linked(s, a, x) {
        LinkedTransitive(s, b, a, x);
      }
      if Linked(s, b, x) {
        LinkedTransitive(s, a, b, x);
      }
    }
  }

  /** In a settled corpus a component is the set of rows with one anchor. */
  lemma SettledComponent(h: Hash, s: set<TraceCase>, c: TraceCase)
    requires Settled(h, s) && c in s
    ensures Component(s, c) == set x | x in s && x.groupRef == c.groupRef
  {
    var same := set x | x in s && x.groupRef == c.groupRef;
    forall x | x in Component(s, c)
      ensures x in same
    {
      LinkedStays(s, same, c, x);
    }
    forall x | x in same
      ensures x in Component(s, c)
    {
      LinkedSelf(s, c);
      LinkedStep(s, c, c, x);
    }
  }

  lemma SettledAnchor(h: Hash, s: set<TraceCase>, c: TraceCase)
    requires Settled(h, s) && c in s
    ensures IsAnchor(h, Component(s, c), c.groupRef.value)
  {
    SettledComponent(h, s, c);
    assert c in Component(s, c) && c.groupRef.value in Names(c);
    LeqReflexive(c.groupRef.value);
  }

  lemma NoChanges(previous: seq<TraceCase>)
    requires DistinctRefs(previous)
    ensures Rows(Merge(previous, [])) == Rows(previous)
  {
    CanonicalRows(previous);
  }

  /** A settled corpus has nothing left to curate. */
  lemma SettledNeedsNothing(h: Hash, rows: seq<TraceCase>)
    requires DistinctRefs(rows) && Settled(h, Rows(rows))
    ensures Curate(h, rows, []) == []
  {
    NoChanges(rows);
    CurateReturns(h, rows, []);
    var result := Curate(h, rows, []);
    if result != [] {
      var d := result[0];
      assert d in result;
      var c :| Stamped(h, Rows(rows), c, d);
      SettledAnchor(h, Rows(rows), c);
      AnchorIsUnique(h, Component(Rows(rows), c), d.groupRef.value, c.groupRef.value);
      assert false;
    }
  }

  /** Curation is idempotent and stable under pruning: whatever subset of the
      stored rows survives, curating it again changes nothing. */
  lemma PruningNeedsNoCuration(h: Hash, previous: seq<TraceCase>, changes: seq<TraceCase>, survivors: seq<TraceCase>)
    requires DistinctRefs(previous) && DistinctRefs(survivors)
    requires Rows(survivors) <= Rows(Store(previous, Curate(h, previous, changes)))
    ensures Curate(h, survivors, []) == []
  {
    StoreIsCurated(h, previous, changes);
    CuratedIsSettled(h, Rows(Merge(previous, changes)), Rows(Store(previous, Curate(h, previous, changes))));
    SettledNeedsNothing(h, survivors);
  }
}
