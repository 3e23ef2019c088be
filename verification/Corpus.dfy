/** Objectives mined from traces: when two of them are the same problem, and how
    a corpus is split into groups of the same problem. */
module Corpus {
  import opened Text
  import opened Suites

  type Ref = string

  datatype Classification = Classification(
    taskType: string, capability: string, structure: string, outcome: string, relatedRefs: seq<Ref>)

  datatype TraceCase = TraceCase(
    episodeRef: Ref, groupRef: Option<Ref>, classification: Option<Classification>,
    evidence: seq<Ref>, input: string, variant: Option<string>, check: Option<Check>, reason: string)

  function RelatedRefs(c: TraceCase): seq<Ref> {
    if c.classification.Some? then c.classification.value.relatedRefs else []
  }

  // ---------------------------------------------------------------- related

  function JoinWords(words: seq<string>): string {
    if words == [] then "" else if |words| == 1 then words[0] else words[0] + " " + JoinWords(words[1..])
  }

  function Normalized(s: string): string {
    JoinWords(Words(s))
  }

  predicate Share(a: seq<Ref>, b: seq<Ref>) {
    exists i :: 0 <= i < |a| && a[i] in b
  }

  /** Related for a reason that does not depend on the stored anchors. */
  predicate RelatedByContent(a: TraceCase, b: TraceCase) {
    || (!Blank(a.input) && Normalized(a.input) == Normalized(b.input))
    || Share(a.evidence, b.evidence)
    || b.episodeRef in RelatedRefs(a)
    || a.episodeRef in RelatedRefs(b)
    || Share(RelatedRefs(a), RelatedRefs(b))
  }

  predicate Related(a: TraceCase, b: TraceCase) {
    || (a.groupRef.Some? && b.groupRef.Some? && a.groupRef == b.groupRef)
    || RelatedByContent(a, b)
  }

  lemma {:induction false} WordsOfBlank(s: string)
    ensures Blank(s) <==> Words(s) == []
    ensures forall i :: 0 <= i < |Words(s)| ==> Words(s)[i] != ""
    decreases |s|
  {
    if s != [] {
      if IsSpace(s[0]) {
        WordsOfBlank(s[1..]);
        assert s == [s[0]] + s[1..];
      } else {
        var n := WordLength(s);
        WordsOfBlank(s[n..]);
      }
    }
  }

  lemma NormalizedOfBlank(s: string)
    ensures Blank(s) <==> Normalized(s) == ""
  {
    WordsOfBlank(s);
  }

  // ------------------------------------------------------- words and spacing

  predicate IsWord(w: string) {
    w != "" && forall i :: 0 <= i < |w| ==> !IsSpace(w[i])
  }

  ghost predicate AllWords(words: seq<string>) {
    forall i :: 0 <= i < |words| ==> IsWord(words[i])
  }

  lemma {:induction false} WordLengthOf(w: string, rest: string)
    requires forall i :: 0 <= i < |w| ==> !IsSpace(w[i])
    requires rest == "" || IsSpace(rest[0])
    ensures WordLength(w + rest) == |w|
  {
    if w == "" {
      assert w + rest == rest;
    } else {
      assert (w + rest)[1..] == w[1..] + rest;
      WordLengthOf(w[1..], rest);
    }
  }

  lemma {:induction false} WordLengthStops(s: string)
    ensures forall i :: 0 <= i < WordLength(s) ==> !IsSpace(s[i])
    ensures WordLength(s) < |s| ==> IsSpace(s[WordLength(s)])
  {
    if s != [] && !IsSpace(s[0]) {
      WordLengthStops(s[1..]);
      assert forall i :: 0 < i < |s| ==> s[i] == s[1..][i - 1];
    }
  }

  lemma {:induction false} WordsAreWords(s: string)
    ensures AllWords(Words(s))
    decreases |s|
  {
    if s != [] {
      if IsSpace(s[0]) {
        WordsAreWords(s[1..]);
      } else {
        var n := WordLength(s);
        WordLengthStops(s);
        WordsAreWords(s[n..]);
      }
    }
  }

  /** Splitting a text at any white space splits its words. */
  lemma {:induction false} WordsSplit(a: string, gap: char, b: string)
    requires IsSpace(gap)
    ensures Words(a + [gap] + b) == Words(a) + Words(b)
    decreases |a|
  {
    var s := a + [gap] + b;
    if a == "" {
      assert s[1..] == b;
    } else if IsSpace(a[0]) {
      assert s[1..] == a[1..] + [gap] + b;
      WordsSplit(a[1..], gap, b);
    } else {
      var n := WordLength(a);
      WordLengthStops(a);
      WordLengthOf(a[..n], a[n..] + [gap] + b);
      assert a[..n] + (a[n..] + [gap] + b) == s;
      assert s[n..] == a[n..] + [gap] + b;
      WordsSplit(a[n..], gap, b);
      assert [a[..n]] + (Words(a[n..]) + Words(b)) == [a[..n]] + Words(a[n..]) + Words(b);
    }
  }

  lemma WordsOfWord(w: string)
    requires IsWord(w)
    ensures Words(w) == [w]
  {
    WordLengthOf(w, "");
    assert w + "" == w && w[|w|..] == "";
  }

  lemma {:induction false} WordsOfJoin(words: seq<string>)
    requires AllWords(words)
    ensures Words(JoinWords(words)) == words
  {
    if |words| == 1 {
      WordsOfWord(words[0]);
    } else if |words| > 1 {
      WordsOfWord(words[0]);
      WordsOfJoin(words[1..]);
      WordsSplit(words[0], ' ', JoinWords(words[1..]));
      assert words == [words[0]] + words[1..];
    }
  }

  /** Normalization keeps the words and forgets only the spacing. */
  lemma NormalizedExactly(s: string, t: string)
    ensures Normalized(s) == Normalized(t) <==> Words(s) == Words(t)
  {
    WordsAreWords(s);
    WordsAreWords(t);
    WordsOfJoin(Words(s));
    WordsOfJoin(Words(t));
  }

  /** The reasons for two rows to be the same problem. */
  ghost predicate SameProblem(a: TraceCase, b: TraceCase) {
    || (a.groupRef.Some? && a.groupRef == b.groupRef)
    || (Words(a.input) != [] && Words(a.input) == Words(b.input))
    || (exists r :: r in a.evidence && r in b.evidence)
    || b.episodeRef in RelatedRefs(a) || a.episodeRef in RelatedRefs(b)
    || (exists r :: r in RelatedRefs(a) && r in RelatedRefs(b))
  }

  lemma ShareExactly(a: seq<Ref>, b: seq<Ref>)
    ensures Share(a, b) <==> exists r :: r in a && r in b
  {
  }

  lemma RelatedExactly(a: TraceCase, b: TraceCase)
    ensures Related(a, b) <==> SameProblem(a, b)
  {
    NormalizedExactly(a.input, b.input);
    WordsOfBlank(a.input);
    ShareExactly(a.evidence, b.evidence);
    ShareExactly(RelatedRefs(a), RelatedRefs(b));
    hide Normalized, Words, Share, RelatedRefs, Blank;
  }

  lemma RelatedSymmetric(a: TraceCase, b: TraceCase)
    ensures RelatedByContent(a, b) == RelatedByContent(b, a)
    ensures Related(a, b) == Related(b, a)
  {
    NormalizedOfBlank(a.input);
    NormalizedOfBlank(b.input);
    ShareSymmetric(a.evidence, b.evidence);
    ShareSymmetric(RelatedRefs(a), RelatedRefs(b));
  }

  lemma ShareSymmetric(a: seq<Ref>, b: seq<Ref>)
    ensures Share(a, b) == Share(b, a)
  {
    if Share(a, b) {
      var i :| 0 <= i < |a| && a[i] in b;
      var j :| 0 <= j < |b| && b[j] == a[i];
      assert b[j] in a;
    }
    if Share(b, a) {
      var i :| 0 <= i < |b| && b[i] in a;
      var j :| 0 <= j < |a| && a[j] == b[i];
      assert a[j] in b;
    }
  }

  // --------------------------------------------------------- ordered corpora

  /** Strictly ascending references, as an ordered map keeps its rows. */
  ghost predicate Ordered(rows: seq<TraceCase>) {
    forall i, j :: 0 <= i < j < |rows| ==> Less(rows[i].episodeRef, rows[j].episodeRef)
  }

  function Find(rows: seq<TraceCase>, ref: Ref): (r: Option<TraceCase>)
    ensures r.Some? ==> r.value in rows && r.value.episodeRef == ref
    ensures r.None? ==> forall c :: c in rows ==> c.episodeRef != ref
  {
    if rows == [] then None
    else if rows[0].episodeRef == ref then Some(rows[0])
    else Find(rows[1..], ref)
  }

  /** Insert a row, replacing the one with the same reference. */
  function Insert(rows: seq<TraceCase>, c: TraceCase): seq<TraceCase> {
    if rows == [] then [c]
    else if rows[0].episodeRef == c.episodeRef then [c] + rows[1..]
    else if Leq(c.episodeRef, rows[0].episodeRef) then [c] + rows
    else [rows[0]] + Insert(rows[1..], c)
  }

  function InsertAll(rows: seq<TraceCase>, more: seq<TraceCase>): seq<TraceCase>
    decreases |more|
  {
    if more == [] then rows else InsertAll(Insert(rows, more[0]), more[1..])
  }

  /** The corpus keyed by reference; the last row of a reference stands. */
  function Canonical(rows: seq<TraceCase>): seq<TraceCase> {
    InsertAll([], rows)
  }

  lemma {:induction false} InsertContents(rows: seq<TraceCase>, c: TraceCase)
    requires Ordered(rows)
    ensures Ordered(Insert(rows, c))
    ensures forall x :: x in Insert(rows, c) <==> x == c || (x in rows && x.episodeRef != c.episodeRef)
  {
    if rows != [] {
      var head, tail := rows[0], rows[1..];
      assert rows == [head] + tail;
      assert forall x :: x in tail ==> Less(head.episodeRef, x.episodeRef);
      if head.episodeRef != c.episodeRef {
        if Leq(c.episodeRef, head.episodeRef) {
          forall x | x in tail
            ensures Less(c.episodeRef, x.episodeRef)
          {
            LeqTransitive(c.episodeRef, head.episodeRef, x.episodeRef);
            if c.episodeRef == x.episodeRef {
              LeqAntisymmetric(head.episodeRef, x.episodeRef);
            }
          }
        } else {
          LeqTotal(c.episodeRef, head.episodeRef);
          InsertContents(tail, c);
          var rest := Insert(tail, c);
          assert forall i :: 0 <= i < |rest| ==> rest[i] in rest;
        }
      }
    }
  }

  lemma {:induction false} InsertAllContents(rows: seq<TraceCase>, more: seq<TraceCase>)
    requires Ordered(rows)
    ensures Ordered(InsertAll(rows, more))
    ensures forall x :: x in InsertAll(rows, more) ==> x in rows || x in more
    ensures forall x :: x in rows && Find(more, x.episodeRef).None? ==> x in InsertAll(rows, more)
    ensures forall x :: x in more ==> Find(InsertAll(rows, more), x.episodeRef).Some?
    ensures forall x :: x in rows ==> Find(InsertAll(rows, more), x.episodeRef).Some?
    decreases |more|
  {
    if more != [] {
      InsertContents(rows, more[0]);
      InsertAllContents(Insert(rows, more[0]), more[1..]);
      assert more == [more[0]] + more[1..];
      var result := InsertAll(rows, more);
      forall x | x in rows
        ensures Find(result, x.episodeRef).Some?
      {
        if x.episodeRef == more[0].episodeRef {
          assert more[0] in Insert(rows, more[0]);
          assert Find(result, more[0].episodeRef).Some?;
        } else {
          assert x in Insert(rows, more[0]);
        }
      }
    }
  }

  ghost predicate DistinctRefs(rows: seq<TraceCase>) {
    forall i, j :: 0 <= i < j < |rows| ==> rows[i].episodeRef != rows[j].episodeRef
  }

  /** Storing rows of distinct references keeps each of them. */
  lemma {:induction false} InsertAllKeeps(rows: seq<TraceCase>, more: seq<TraceCase>)
    requires Ordered(rows) && DistinctRefs(more)
    ensures forall x :: x in more ==> x in InsertAll(rows, more)
    decreases |more|
  {
    if more != [] {
      InsertContents(rows, more[0]);
      InsertAllKeeps(Insert(rows, more[0]), more[1..]);
      InsertAllContents(Insert(rows, more[0]), more[1..]);
      assert Find(more[1..], more[0].episodeRef).None?;
      assert more == [more[0]] + more[1..];
    }
  }

  ghost function Rows(rows: seq<TraceCase>): set<TraceCase> {
    set c | c in rows
  }

  lemma {:induction false} OrderedUnique(a: seq<TraceCase>, b: seq<TraceCase>)
    requires Ordered(a) && Ordered(b) && Rows(a) == Rows(b)
    ensures a == b
  {
    if a == [] {
      assert forall i :: 0 <= i < |b| ==> b[i] in Rows(b);
    } else {
      assert a[0] in Rows(a);
      var j :| 0 <= j < |b| && b[j] == a[0];
      assert b[0] in Rows(b) && b[0] in Rows(a);
      var i :| 0 <= i < |a| && a[i] == b[0];
      if j > 0 {
        assert Less(b[0].episodeRef, a[0].episodeRef);
        assert i == 0 || Less(a[0].episodeRef, b[0].episodeRef);
        LeqAntisymmetric(a[0].episodeRef, b[0].episodeRef);
      }
      assert a[0] == b[0];
      assert forall x :: x in a[1..] <==> x in Rows(a) && x != a[0];
      assert forall x :: x in b[1..] <==> x in Rows(b) && x != b[0];
      OrderedUnique(a[1..], b[1..]);
      assert a == [a[0]] + a[1..] && b == [b[0]] + b[1..];
    }
  }

  /** With distinct references the order in which a corpus is listed is immaterial. */
  lemma CanonicalIgnoresOrder(a: seq<TraceCase>, b: seq<TraceCase>)
    requires DistinctRefs(a) && DistinctRefs(b) && Rows(a) == Rows(b)
    ensures Canonical(a) == Canonical(b) && Rows(Canonical(a)) == Rows(a)
  {
    CanonicalRows(a);
    CanonicalRows(b);
    OrderedUnique(Canonical(a), Canonical(b));
  }

  lemma CanonicalRows(a: seq<TraceCase>)
    requires DistinctRefs(a)
    ensures Ordered(Canonical(a)) && Rows(Canonical(a)) == Rows(a)
  {
    InsertAllContents([], a);
    InsertAllKeeps([], a);
  }
}
