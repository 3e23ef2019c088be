/** Grouping a corpus into the connected components of `Related`. */
module Components {
  import opened Text
  import opened Corpus

  // ----------------------------------------------------------- connectivity

  ghost predicate IsPath(s: set<TraceCase>, p: seq<TraceCase>) {
    && p != []
    && (forall i :: 0 <= i < |p| ==> p[i] in s)
    && (forall i :: 0 <= i < |p| - 1 ==> Related(p[i], p[i + 1]))
  }

  ghost predicate Linked(s: set<TraceCase>, a: TraceCase, b: TraceCase) {
    exists p :: IsPath(s, p) && p[0] == a && p[|p| - 1] == b
  }

  /** Everything reachable from `c`: its connected component. */
  ghost function Component(s: set<TraceCase>, c: TraceCase): set<TraceCase> {
    set x | x in s && Linked(s, c, x)
  }

  lemma LinkedSelf(s: set<TraceCase>, a: TraceCase)
    requires a in s
    ensures Linked(s, a, a)
  {
    assert IsPath(s, [a]);
  }

  lemma LinkedStep(s: set<TraceCase>, a: TraceCase, b: TraceCase, c: TraceCase)
    requires Linked(s, a, b) && c in s && Related(b, c)
    ensures Linked(s, a, c)
  {
    var p :| IsPath(s, p) && p[0] == a && p[|p| - 1] == b;
    assert IsPath(s, p + [c]);
  }

  lemma {:induction false} LinkedVia(s: set<TraceCase>, a: TraceCase, p: seq<TraceCase>)
    requires IsPath(s, p) && Linked(s, a, p[0])
    ensures Linked(s, a, p[|p| - 1])
  {
    if |p| > 1 {
      LinkedStep(s, a, p[0], p[1]);
      assert IsPath(s, p[1..]);
      LinkedVia(s, a, p[1..]);
    }
  }

  lemma LinkedTransitive(s: set<TraceCase>, a: TraceCase, b: TraceCase, c: TraceCase)
    requires Linked(s, a, b) && Linked(s, b, c)
    ensures Linked(s, a, c)
  {
    var p :| IsPath(s, p) && p[0] == b && p[|p| - 1] == c;
    LinkedVia(s, a, p);
  }

  lemma {:induction false} PathBack(s: set<TraceCase>, p: seq<TraceCase>)
    requires IsPath(s, p)
    ensures Linked(s, p[|p| - 1], p[0])
  {
    if |p| == 1 {
      LinkedSelf(s, p[0]);
    } else {
      assert IsPath(s, p[1..]);
      PathBack(s, p[1..]);
      RelatedSymmetric(p[0], p[1]);
      LinkedStep(s, p[|p| - 1], p[1], p[0]);
    }
  }

  lemma LinkedSymmetric(s: set<TraceCase>, a: TraceCase, b: TraceCase)
    requires Linked(s, a, b)
    ensures Linked(s, b, a)
  {
    var p :| IsPath(s, p) && p[0] == a && p[|p| - 1] == b;
    PathBack(s, p);
  }

  lemma LinkedGrows(s: set<TraceCase>, t: set<TraceCase>, a: TraceCase, b: TraceCase)
    requires s <= t && Linked(s, a, b)
    ensures Linked(t, a, b)
  {
    var p :| IsPath(s, p) && p[0] == a && p[|p| - 1] == b;
    assert IsPath(t, p);
  }

  /** A property that related members share is shared by a whole component. */
  lemma {:induction false} PathKeeps(s: set<TraceCase>, inside: set<TraceCase>, p: seq<TraceCase>)
    requires IsPath(s, p) && p[0] in inside
    requires forall a, b :: a in inside && b in s && Related(a, b) ==> b in inside
    ensures p[|p| - 1] in inside
  {
    if |p| > 1 {
      assert IsPath(s, p[1..]);
      PathKeeps(s, inside, p[1..]);
    }
  }

  lemma LinkedStays(s: set<TraceCase>, inside: set<TraceCase>, a: TraceCase, b: TraceCase)
    requires Linked(s, a, b) && a in inside
    requires forall x, y :: x in inside && y in s && Related(x, y) ==> y in inside
    ensures b in inside
  {
    var p :| IsPath(s, p) && p[0] == a && p[|p| - 1] == b;
    PathKeeps(s, inside, p);
  }

  // -------------------------------------------------------------- components

  ghost predicate Connected(g: set<TraceCase>) {
    forall a, b :: a in g && b in g ==> Linked(g, a, b)
  }

  ghost predicate Apart(g: set<TraceCase>, h: set<TraceCase>) {
    forall a, b :: a in g && b in h ==> a != b && !Related(a, b)
  }

  ghost predicate AllApart(groups: seq<seq<TraceCase>>) {
    forall i, j :: 0 <= i < |groups| && 0 <= j < |groups| && i != j ==> Apart(Rows(groups[i]), Rows(groups[j]))
  }

  ghost function Members(groups: seq<seq<TraceCase>>): set<TraceCase> {
    set i, c | 0 <= i < |groups| && c in groups[i] :: c
  }

  /** The groups partition `s`, each is connected and no two are related. */
  ghost predicate AreComponents(s: set<TraceCase>, groups: seq<seq<TraceCase>>) {
    && Members(groups) == s
    && (forall i :: 0 <= i < |groups| ==> groups[i] != [] && Connected(Rows(groups[i])))
    && AllApart(groups)
  }

  lemma ConnectedUnion(g: set<TraceCase>, h: set<TraceCase>, a: TraceCase, b: TraceCase)
    requires Connected(g) && Connected(h) && a in g && b in h && Related(a, b)
    ensures Connected(g + h)
  {
    var u := g + h;
    RelatedSymmetric(a, b);
    forall x | x in u
      ensures Linked(u, a, x) && Linked(u, x, a)
    {
      if x in g {
        LinkedGrows(g, u, a, x);
      } else {
        LinkedSelf(u, a);
        LinkedStep(u, a, a, b);
        LinkedGrows(h, u, b, x);
        LinkedTransitive(u, a, b, x);
      }
      LinkedSymmetric(u, a, x);
    }
    forall x, y | x in u && y in u
      ensures Linked(u, x, y)
    {
      LinkedTransitive(u, x, a, y);
    }
  }

  /** A group is the component, in the whole corpus, of each of its members. */
  lemma GroupIsComponent(s: set<TraceCase>, groups: seq<seq<TraceCase>>, i: nat, c: TraceCase)
    requires AreComponents(s, groups) && i < |groups| && c in groups[i]
    ensures Rows(groups[i]) == Component(s, c)
  {
    var g := Rows(groups[i]);
    assert g <= s;
    forall x | x in g
      ensures x in Component(s, c)
    {
      LinkedGrows(g, s, c, x);
    }
    forall x | x in Component(s, c)
      ensures x in g
    {
      forall a, b | a in g && b in s && Related(a, b)
        ensures b in g
      {
        var j :| 0 <= j < |groups| && b in groups[j];
        var other := Rows(groups[j]);
        assert b in other;
      }
      LinkedStays(s, g, c, x);
    }
  }

  ghost predicate IsGroup(groups: seq<seq<TraceCase>>, g: set<TraceCase>) {
    exists j :: 0 <= j < |groups| && Rows(groups[j]) == g
  }

  /** The components are determined by the corpus alone. */
  lemma ComponentsAreUnique(s: set<TraceCase>, groups: seq<seq<TraceCase>>, others: seq<seq<TraceCase>>)
    requires AreComponents(s, groups) && AreComponents(s, others)
    ensures forall i :: 0 <= i < |groups| ==> IsGroup(others, Rows(groups[i]))
  {
    forall i | 0 <= i < |groups|
      ensures IsGroup(others, Rows(groups[i]))
    {
      var c := groups[i][0];
      assert c in groups[i] && c in Members(groups);
      var j :| 0 <= j < |others| && c in others[j];
      GroupIsComponent(s, groups, i, c);
      GroupIsComponent(s, others, j, c);
    }
  }

  // --------------------------------------------------------------- grouping

  predicate Touches(group: seq<TraceCase>, merged: seq<TraceCase>) {
    exists i, j :: 0 <= i < |group| && 0 <= j < |merged| && Related(group[i], merged[j])
  }

  function Removed(groups: seq<seq<TraceCase>>, index: nat): seq<seq<TraceCase>>
    requires index < |groups|
  {
    groups[..index] + groups[index + 1..]
  }

  /** Fold every touched group into `merged`, starting over after each. */
  function Absorb(groups: seq<seq<TraceCase>>, merged: seq<TraceCase>, index: nat): (seq<seq<TraceCase>>, seq<TraceCase>)
    requires index <= |groups|
    decreases |groups|, |groups| - index
  {
    if index == |groups| then (groups, merged)
    else if Touches(groups[index], merged) then Absorb(Removed(groups, index), merged + groups[index], 0)
    else Absorb(groups, merged, index + 1)
  }

  /** One case joins the groups found so far. */
  function Join(groups: seq<seq<TraceCase>>, c: TraceCase): seq<seq<TraceCase>> {
    var (rest, merged) := Absorb(groups, [c], 0);
    rest + [Canonical(merged)]
  }

  function GroupsOf(rows: seq<TraceCase>): seq<seq<TraceCase>> {
    if rows == [] then [] else Join(GroupsOf(rows[..|rows| - 1]), rows[|rows| - 1])
  }

  /** `case_groups`: the grouping of the canonical corpus. */
  function CaseGroups(cases: seq<TraceCase>): seq<seq<TraceCase>> {
    GroupsOf(Canonical(cases))
  }

  /** The state while a case is being merged: both parts together still cover the
      corpus, and the groups already passed do not touch the merged part. */
  ghost predicate Merging(s: set<TraceCase>, groups: seq<seq<TraceCase>>, merged: seq<TraceCase>, index: nat) {
    && Members(groups) + Rows(merged) == s
    && Members(groups) !! Rows(merged)
    && merged != [] && Connected(Rows(merged)) && DistinctRefs(merged)
    && (forall i :: 0 <= i < |groups| ==> groups[i] != [] && Connected(Rows(groups[i])) && Ordered(groups[i]))
    && AllApart(groups)
    && index <= |groups|
    && (forall k :: 0 <= k < index ==> !Touches(groups[k], merged))
  }

  ghost predicate RefsIdentify(s: set<TraceCase>) {
    forall a, b :: a in s && b in s && a.episodeRef == b.episodeRef ==> a == b
  }

  lemma RemovedMembers(groups: seq<seq<TraceCase>>, index: nat)
    requires index < |groups|
    ensures Members(groups) == Members(Removed(groups, index)) + Rows(groups[index])
  {
    var rest := Removed(groups, index);
    forall i | 0 <= i < |groups| && i != index
      ensures groups[i] == rest[if i < index then i else i - 1]
    {
    }
    forall c | c in Members(groups)
      ensures c in Members(rest) + Rows(groups[index])
    {
      var i :| 0 <= i < |groups| && c in groups[i];
      if i != index {
        assert c in rest[if i < index then i else i - 1];
      }
    }
    forall c | c in Members(rest)
      ensures c in Members(groups)
    {
      var k :| 0 <= k < |rest| && c in rest[k];
      assert c in groups[if k < index then k else k + 1];
    }
  }

  lemma RemovedApart(groups: seq<seq<TraceCase>>, index: nat)
    requires index < |groups| && AllApart(groups)
    ensures AllApart(Removed(groups, index))
    ensures Members(Removed(groups, index)) !! Rows(groups[index])
  {
    var rest := Removed(groups, index);
    forall i, j | 0 <= i < |rest| && 0 <= j < |rest| && i != j
      ensures Apart(Rows(rest[i]), Rows(rest[j]))
    {
      var i', j' := if i < index then i else i + 1, if j < index then j else j + 1;
      assert Apart(Rows(groups[i']), Rows(groups[j']));
    }
    forall c | c in Members(rest)
      ensures c !in Rows(groups[index])
    {
      var k :| 0 <= k < |rest| && c in rest[k];
      var k' := if k < index then k else k + 1;
      assert c in Rows(groups[k']) && Apart(Rows(groups[k']), Rows(groups[index]));
    }
  }

  lemma TouchedJoins(group: seq<TraceCase>, merged: seq<TraceCase>)
    requires Touches(group, merged) && Connected(Rows(group)) && Connected(Rows(merged))
    ensures Connected(Rows(merged + group))
  {
    var i, j :| 0 <= i < |group| && 0 <= j < |merged| && Related(group[i], merged[j]);
    ConnectedUnion(Rows(group), Rows(merged), group[i], merged[j]);
    assert Rows(merged + group) == Rows(group) + Rows(merged);
  }

  lemma OrderedIsDistinct(rows: seq<TraceCase>)
    requires Ordered(rows)
    ensures DistinctRefs(rows)
  {
  }

  lemma ConcatDistinct(s: set<TraceCase>, a: seq<TraceCase>, b: seq<TraceCase>)
    requires RefsIdentify(s) && DistinctRefs(a) && DistinctRefs(b)
    requires Rows(a) <= s && Rows(b) <= s && Rows(a) !! Rows(b)
    ensures DistinctRefs(a + b)
  {
    forall i, j | 0 <= i < j < |a + b|
      ensures (a + b)[i].episodeRef != (a + b)[j].episodeRef
    {
      if i < |a| && j >= |a| {
        assert a[i] in Rows(a) && b[j - |a|] in Rows(b);
      }
    }
  }

  lemma AbsorbStep(s: set<TraceCase>, groups: seq<seq<TraceCase>>, merged: seq<TraceCase>, index: nat)
    requires RefsIdentify(s) && Merging(s, groups, merged, index) && index < |groups|
    requires Touches(groups[index], merged)
    ensures Merging(s, Removed(groups, index), merged + groups[index], 0)
  {
    RemovedMembers(groups, index);
    RemovedApart(groups, index);
    TouchedJoins(groups[index], merged);
    OrderedIsDistinct(groups[index]);
    ConcatDistinct(s, merged, groups[index]);
    assert Rows(merged + groups[index]) == Rows(merged) + Rows(groups[index]);
    var rest := Removed(groups, index);
    forall i | 0 <= i < |rest|
      ensures rest[i] != [] && Connected(Rows(rest[i])) && Ordered(rest[i])
    {
      assert rest[i] == groups[if i < index then i else i + 1];
    }
  }

  lemma {:induction false} AbsorbMerges(s: set<TraceCase>, groups: seq<seq<TraceCase>>, merged: seq<TraceCase>, index: nat)
    requires RefsIdentify(s) && Merging(s, groups, merged, index)
    ensures var (rest, all) := Absorb(groups, merged, index); Merging(s, rest, all, |rest|)
    decreases |groups|, |groups| - index
  {
    hide Touches;
    if index < |groups| {
      if Touches(groups[index], merged) {
        AbsorbStep(s, groups, merged, index);
        AbsorbMerges(s, Removed(groups, index), merged + groups[index], 0);
      } else {
        AbsorbMerges(s, groups, merged, index + 1);
      }
    }
  }

  /** When nothing touches the merged part any more it becomes a group. */
  lemma MergedCloses(s: set<TraceCase>, groups: seq<seq<TraceCase>>, merged: seq<TraceCase>)
    requires Merging(s, groups, merged, |groups|)
    ensures AreComponents(s, groups + [Canonical(merged)])
    ensures forall i :: 0 <= i < |groups + [Canonical(merged)]| ==> Ordered((groups + [Canonical(merged)])[i])
  {
    CanonicalRows(merged);
    var last := Canonical(merged);
    var all := groups + [last];
    assert merged[0] in Rows(last);
    assert Members(all) == s by {
      assert all[|groups|] == last;
      assert forall i :: 0 <= i < |groups| ==> all[i] == groups[i];
    }
    forall i | 0 <= i < |groups|
      ensures Apart(Rows(groups[i]), Rows(last)) && Apart(Rows(last), Rows(groups[i]))
    {
      forall a, b | a in groups[i] && b in merged
        ensures a != b && !Related(a, b) && !Related(b, a)
      {
        RelatedSymmetric(a, b);
        assert a in Members(groups);
        assert !Touches(groups[i], merged);
      }
    }
    forall i, j | 0 <= i < |all| && 0 <= j < |all| && i != j
      ensures Apart(Rows(all[i]), Rows(all[j]))
    {
      if i < |groups| && j < |groups| {
        assert Apart(Rows(groups[i]), Rows(groups[j]));
      }
    }
  }

  lemma JoinKeeps(s: set<TraceCase>, groups: seq<seq<TraceCase>>, c: TraceCase)
    requires AreComponents(s, groups) && RefsIdentify(s + {c}) && c !in s
    requires forall i :: 0 <= i < |groups| ==> Ordered(groups[i])
    ensures AreComponents(s + {c}, Join(groups, c))
    ensures forall i :: 0 <= i < |Join(groups, c)| ==> Ordered(Join(groups, c)[i])
  {
    hide Linked, Related, Touches;
    LinkedSelf({c}, c);
    assert Rows([c]) == {c};
    assert Merging(s + {c}, groups, [c], 0);
    AbsorbMerges(s + {c}, groups, [c], 0);
    var (rest, merged) := Absorb(groups, [c], 0);
    MergedCloses(s + {c}, rest, merged);
  }

  lemma {:induction false} GroupsOfAreComponents(rows: seq<TraceCase>)
    requires Ordered(rows)
    ensures AreComponents(Rows(rows), GroupsOf(rows))
    ensures forall i :: 0 <= i < |GroupsOf(rows)| ==> Ordered(GroupsOf(rows)[i])
  {
    if rows != [] {
      var front, last := rows[..|rows| - 1], rows[|rows| - 1];
      GroupsOfAreComponents(front);
      assert rows == front + [last];
      assert Rows(rows) == Rows(front) + {last};
      JoinKeeps(Rows(front), GroupsOf(front), last);
    }
  }

  /** `case_groups` returns exactly the connected components of the corpus, each
      listed in reference order. */
  lemma CaseGroupsAreComponents(cases: seq<TraceCase>)
    ensures AreComponents(Rows(Canonical(cases)), CaseGroups(cases))
    ensures forall i :: 0 <= i < |CaseGroups(cases)| ==> Ordered(CaseGroups(cases)[i])
    ensures DistinctRefs(cases) ==> Rows(Canonical(cases)) == Rows(cases)
  {
    InsertAllContents([], cases);
    GroupsOfAreComponents(Canonical(cases));
    if DistinctRefs(cases) {
      CanonicalRows(cases);
    }
  }

  /** The listing order of a corpus does not show in its groups. */
  lemma GroupsIgnoreOrder(a: seq<TraceCase>, b: seq<TraceCase>)
    requires DistinctRefs(a) && DistinctRefs(b) && Rows(a) == Rows(b)
    ensures CaseGroups(a) == CaseGroups(b)
  {
    CanonicalIgnoresOrder(a, b);
  }

  /** The grouping loop: groups are removed and merged in place. */
  method ComputeGroups(cases: seq<TraceCase>) returns (groups: seq<seq<TraceCase>>)
    ensures groups == CaseGroups(cases)
    ensures AreComponents(Rows(Canonical(cases)), groups)
  {
    var canonical := Canonical(cases);
    groups := [];
    for n := 0 to |canonical|
      invariant groups == GroupsOf(canonical[..n])
    {
      var c := canonical[n];
      ghost var before := groups;
      var merged, index := [c], 0;
      while index < |groups|
        invariant index <= |groups|
        invariant Absorb(groups, merged, index) == Absorb(before, [c], 0)
        decreases |groups|, |groups| - index
      {
        if Touches(groups[index], merged) {
          merged := merged + groups[index];
          groups := groups[..index] + groups[index + 1..];
          index := 0;
        } else {
          index := index + 1;
        }
      }
      groups := groups + [Canonical(merged)];
      assert canonical[..n + 1][..n] == canonical[..n];
    }
    assert canonical[..|canonical|] == canonical;
    CaseGroupsAreComponents(cases);
  }

  /** Rows that share an anchor, their words, a piece of evidence or a reviewed link are
      always in one group. */
  lemma SameProblemSameGroup(cases: seq<TraceCase>, a: TraceCase, b: TraceCase) returns (g: nat)
    requires a in Canonical(cases) && b in Canonical(cases) && SameProblem(a, b)
    ensures g < |CaseGroups(cases)| && a in CaseGroups(cases)[g] && b in CaseGroups(cases)[g]
  {
    var groups := CaseGroups(cases);
    CaseGroupsAreComponents(cases);
    RelatedExactly(a, b);
    hide CaseGroups, SameProblem, Related;
    assert a in Members(groups) && b in Members(groups);
    g :| 0 <= g < |groups| && a in groups[g];
    var k :| 0 <= k < |groups| && b in groups[k];
    assert g != k ==> Apart(Rows(groups[g]), Rows(groups[k]));
    assert a in Rows(groups[g]) && b in Rows(groups[k]);
  }
}
