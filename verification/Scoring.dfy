/** What has been observed of each candidate, and the two ways candidates are
    compared: the Pareto frontier over validation scores and the best mean. */
module Scoring {
  import opened Text

  datatype Rollout = Rollout(candidate: nat, task: nat)

  datatype Observation = Observation(rollout: Rollout, score: real, output: string, preflight: string)

  /** The most recent observation of a rollout. */
  function Latest(obs: seq<Observation>, r: Rollout): (o: Option<Observation>)
    ensures o.Some? ==> o.value in obs && o.value.rollout == r
    ensures o.None? ==> forall x :: x in obs ==> x.rollout != r
  {
    if obs == [] then None
    else if obs[|obs| - 1].rollout == r then Some(obs[|obs| - 1])
    else Latest(obs[..|obs| - 1], r)
  }

  predicate Observed(obs: seq<Observation>, r: Rollout) {
    Latest(obs, r).Some?
  }

  predicate Measured(obs: seq<Observation>, candidate: nat, tasks: seq<nat>) {
    forall i :: 0 <= i < |tasks| ==> Observed(obs, Rollout(candidate, tasks[i]))
  }

  function ScoreList(obs: seq<Observation>, candidate: nat, tasks: seq<nat>): (r: seq<real>)
    requires Measured(obs, candidate, tasks)
    ensures |r| == |tasks|
    ensures forall i :: 0 <= i < |tasks| ==> r[i] == Latest(obs, Rollout(candidate, tasks[i])).value.score
  {
    seq(|tasks|, i requires 0 <= i < |tasks| && Measured(obs, candidate, tasks) =>
      Latest(obs, Rollout(candidate, tasks[i])).value.score)
  }

  /** Absent as soon as one case has no observation. */
  function Scores(obs: seq<Observation>, candidate: nat, tasks: seq<nat>): Option<seq<real>> {
    if Measured(obs, candidate, tasks) then Some(ScoreList(obs, candidate, tasks)) else None
  }

  function Sum(s: seq<real>): real {
    if s == [] then 0.0 else s[0] + Sum(s[1..])
  }

  function Mean(obs: seq<Observation>, candidate: nat, tasks: seq<nat>): Option<real>
    requires tasks != []
  {
    match Scores(obs, candidate, tasks)
    case Some(scores) => Some(Sum(scores) / |tasks| as real)
    case None => None
  }

  // ------------------------------------------------------------- frontier

  predicate AtLeast(a: seq<real>, b: seq<real>)
    requires |a| == |b|
  {
    forall k :: 0 <= k < |a| ==> a[k] >= b[k]
  }

  predicate Exceeds(a: seq<real>, b: seq<real>)
    requires |a| == |b|
  {
    exists k :: 0 <= k < |a| && a[k] > b[k]
  }

  /** Candidate `j` displaces candidate `i`: better somewhere and worse nowhere,
      or the same everywhere and older. */
  predicate Displaces(obs: seq<Observation>, tasks: seq<nat>, j: nat, i: nat)
    requires Measured(obs, i, tasks)
  {
    && j != i
    && Measured(obs, j, tasks)
    && var a, b := ScoreList(obs, j, tasks), ScoreList(obs, i, tasks);
    && AtLeast(a, b)
    && (Exceeds(a, b) || (a == b && j < i))
  }

  predicate OnFrontier(obs: seq<Observation>, count: nat, tasks: seq<nat>, i: nat) {
    && i < count
    && Measured(obs, i, tasks)
    && !exists j :: 0 <= j < count && Displaces(obs, tasks, j, i)
  }

  predicate Ascending(xs: seq<nat>) {
    forall a, b :: 0 <= a < b < |xs| ==> xs[a] < xs[b]
  }

  function FrontierUpto(obs: seq<Observation>, count: nat, tasks: seq<nat>, n: nat): (r: seq<nat>)
    ensures forall i: nat :: i in r <==> i < n && OnFrontier(obs, count, tasks, i)
    ensures Ascending(r)
  {
    if n == 0 then []
    else
      var rest := FrontierUpto(obs, count, tasks, n - 1);
      assert forall a :: 0 <= a < |rest| ==> rest[a] in rest;
      if OnFrontier(obs, count, tasks, n - 1) then rest + [n - 1] else rest
  }

  function Frontier(obs: seq<Observation>, count: nat, tasks: seq<nat>): (r: seq<nat>)
    ensures forall i: nat :: i in r <==> OnFrontier(obs, count, tasks, i)
    ensures Ascending(r)
  {
    FrontierUpto(obs, count, tasks, count)
  }

  lemma DisplacesTransitive(obs: seq<Observation>, tasks: seq<nat>, k: nat, j: nat, i: nat)
    requires Measured(obs, i, tasks) && Measured(obs, j, tasks)
    requires Displaces(obs, tasks, k, j) && Displaces(obs, tasks, j, i)
    ensures Displaces(obs, tasks, k, i)
  {
    var a, b, c := ScoreList(obs, k, tasks), ScoreList(obs, j, tasks), ScoreList(obs, i, tasks);
    if Exceeds(a, b) {
      var x :| 0 <= x < |a| && a[x] > b[x];
      assert a[x] > c[x];
    } else if Exceeds(b, c) {
      var x :| 0 <= x < |a| && b[x] > c[x];
      assert a[x] > c[x];
    }
  }

  ghost function Displacers(obs: seq<Observation>, count: nat, tasks: seq<nat>, i: nat): set<nat>
    requires Measured(obs, i, tasks)
  {
    set j | 0 <= j < count && Displaces(obs, tasks, j, i)
  }

  /** Every measured candidate is matched or beaten everywhere by a member of the
      frontier; in particular the frontier is empty only if nothing is measured. */
  lemma {:induction false} FrontierCovers(obs: seq<Observation>, count: nat, tasks: seq<nat>, i: nat) returns (m: nat)
    requires i < count && Measured(obs, i, tasks)
    ensures m in Frontier(obs, count, tasks)
    ensures Measured(obs, m, tasks) && AtLeast(ScoreList(obs, m, tasks), ScoreList(obs, i, tasks))
    decreases Displacers(obs, count, tasks, i)
  {
    if OnFrontier(obs, count, tasks, i) {
      m := i;
    } else {
      var j :| 0 <= j < count && Displaces(obs, tasks, j, i);
      forall k | k in Displacers(obs, count, tasks, j)
        ensures k in Displacers(obs, count, tasks, i)
      {
        DisplacesTransitive(obs, tasks, k, j, i);
      }
      assert j in Displacers(obs, count, tasks, i) && j !in Displacers(obs, count, tasks, j);
      m := FrontierCovers(obs, count, tasks, j);
    }
  }

  // --------------------------------------------------------------- winner

  ghost predicate IsBest(obs: seq<Observation>, count: nat, tasks: seq<nat>, w: nat)
    requires tasks != []
  {
    && w < count
    && Measured(obs, w, tasks)
    && forall j :: 0 <= j < count && Measured(obs, j, tasks) ==>
         && Mean(obs, j, tasks).value <= Mean(obs, w, tasks).value
         && (j < w ==> Mean(obs, j, tasks).value < Mean(obs, w, tasks).value)
  }

  /** The oldest of the measured candidates with the highest mean. */
  function Best(obs: seq<Observation>, count: nat, tasks: seq<nat>): (w: Option<nat>)
    requires tasks != []
    ensures w.Some? ==> IsBest(obs, count, tasks, w.value)
    ensures w.None? ==> forall j :: 0 <= j < count ==> !Measured(obs, j, tasks)
  {
    if count == 0 then None
    else
      var rest := Best(obs, count - 1, tasks);
      if !Measured(obs, count - 1, tasks) then rest
      else if rest.None? || Mean(obs, count - 1, tasks).value > Mean(obs, rest.value, tasks).value then Some(count - 1)
      else rest
  }

  lemma {:induction false} SumAtLeast(a: seq<real>, b: seq<real>)
    requires |a| == |b| && AtLeast(a, b)
    ensures Sum(a) >= Sum(b)
    ensures Exceeds(a, b) ==> Sum(a) > Sum(b)
  {
    if a != [] {
      assert AtLeast(a[1..], b[1..]);
      SumAtLeast(a[1..], b[1..]);
      if Exceeds(a, b) && !(a[0] > b[0]) {
        var k :| 0 <= k < |a| && a[k] > b[k];
        assert a[1..][k - 1] > b[1..][k - 1];
      }
    }
  }

  lemma QuotientMonotone(x: real, y: real, n: real)
    requires n > 0.0
    ensures x >= y ==> x / n >= y / n
    ensures x > y ==> x / n > y / n
  {
    assert x / n - y / n == (x - y) / n;
  }

  /** The candidate chosen by its mean is never displaced. */
  lemma BestIsOnFrontier(obs: seq<Observation>, count: nat, tasks: seq<nat>, w: nat)
    requires tasks != [] && IsBest(obs, count, tasks, w)
    ensures w in Frontier(obs, count, tasks)
  {
    if exists j :: 0 <= j < count && Displaces(obs, tasks, j, w) {
      var j :| 0 <= j < count && Displaces(obs, tasks, j, w);
      var a, b := ScoreList(obs, j, tasks), ScoreList(obs, w, tasks);
      SumAtLeast(a, b);
      QuotientMonotone(Sum(a), Sum(b), |tasks| as real);
      assert false;
    }
  }

  // ------------------------------------------------------ scores in [0, 1]

  ghost predicate InUnit(obs: seq<Observation>) {
    forall o :: o in obs ==> 0.0 <= o.score <= 1.0
  }

  lemma {:induction false} SumInUnit(s: seq<real>)
    requires forall i :: 0 <= i < |s| ==> 0.0 <= s[i] <= 1.0
    ensures 0.0 <= Sum(s) <= |s| as real
    ensures Sum(s) == |s| as real <==> forall i :: 0 <= i < |s| ==> s[i] == 1.0
  {
    if s != [] {
      SumInUnit(s[1..]);
      assert forall i :: 0 < i < |s| ==> s[i] == s[1..][i - 1];
    }
  }

  lemma QuotientInUnit(x: real, n: real)
    requires n > 0.0 && 0.0 <= x <= n
    ensures 0.0 <= x / n <= 1.0 && (x / n == 1.0 <==> x == n)
  {
  }

  /** Means lie in [0, 1], and a mean of 1 means a full score on every case. */
  lemma MeanInUnit(obs: seq<Observation>, candidate: nat, tasks: seq<nat>)
    requires InUnit(obs) && tasks != []
    ensures var m := Mean(obs, candidate, tasks);
            && (m.Some? ==> 0.0 <= m.value <= 1.0)
            && (m == Some(1.0) <==>
                  && Measured(obs, candidate, tasks)
                  && forall i :: 0 <= i < |tasks| ==> Latest(obs, Rollout(candidate, tasks[i])).value.score == 1.0)
  {
    if Measured(obs, candidate, tasks) {
      var scores := ScoreList(obs, candidate, tasks);
      forall i | 0 <= i < |tasks|
        ensures 0.0 <= scores[i] <= 1.0 && scores[i] == Latest(obs, Rollout(candidate, tasks[i])).value.score
      {
        assert Observed(obs, Rollout(candidate, tasks[i]));
      }
      SumInUnit(scores);
      QuotientInUnit(Sum(scores), |tasks| as real);
    }
  }

  // ------------------------------------------------- growing observations

  /** Two logs agree on a list of cases for one candidate. */
  ghost predicate Agree(a: seq<Observation>, b: seq<Observation>, candidate: nat, tasks: seq<nat>) {
    forall i :: 0 <= i < |tasks| ==>
      var r := Rollout(candidate, tasks[i]);
      && Latest(a, r).Some? == Latest(b, r).Some?
      && (Latest(a, r).Some? ==> Latest(a, r).value.score == Latest(b, r).value.score)
  }

  lemma AgreeScores(a: seq<Observation>, b: seq<Observation>, candidate: nat, tasks: seq<nat>)
    requires Agree(a, b, candidate, tasks)
    ensures Scores(a, candidate, tasks) == Scores(b, candidate, tasks)
    ensures Measured(a, candidate, tasks) == Measured(b, candidate, tasks)
    ensures tasks != [] ==> Mean(a, candidate, tasks) == Mean(b, candidate, tasks)
  {
    if Measured(a, candidate, tasks) {
      assert ScoreList(a, candidate, tasks) == ScoreList(b, candidate, tasks);
    }
  }

  ghost predicate AgreeOn(a: seq<Observation>, b: seq<Observation>, count: nat, tasks: seq<nat>) {
    forall c :: 0 <= c < count ==> Agree(a, b, c, tasks)
  }

  lemma AgreeBest(a: seq<Observation>, b: seq<Observation>, count: nat, tasks: seq<nat>)
    requires tasks != [] && AgreeOn(a, b, count, tasks)
    ensures Best(a, count, tasks) == Best(b, count, tasks)
  {
    forall c: nat | c < count
      ensures Measured(a, c, tasks) == Measured(b, c, tasks)
      ensures Mean(a, c, tasks) == Mean(b, c, tasks)
    {
      AgreeScores(a, b, c, tasks);
    }
    var u, v := Best(a, count, tasks), Best(b, count, tasks);
    if u.Some? {
      assert Measured(b, u.value, tasks);
      assert IsBest(b, count, tasks, u.value);
      assert v.value < u.value || u.value <= v.value;
    }
  }

  lemma AgreeOnFrontier(a: seq<Observation>, b: seq<Observation>, count: nat, tasks: seq<nat>, i: nat)
    requires AgreeOn(a, b, count, tasks) && i < count
    ensures OnFrontier(a, count, tasks, i) == OnFrontier(b, count, tasks, i)
  {
    AgreeScores(a, b, i, tasks);
    if Measured(a, i, tasks) {
      forall j | 0 <= j < count
        ensures Displaces(a, tasks, j, i) == Displaces(b, tasks, j, i)
      {
        AgreeScores(a, b, j, tasks);
      }
    }
  }

  lemma {:induction false} AgreeFrontierUpto(a: seq<Observation>, b: seq<Observation>, count: nat, tasks: seq<nat>, n: nat)
    requires AgreeOn(a, b, count, tasks) && n <= count
    ensures FrontierUpto(a, count, tasks, n) == FrontierUpto(b, count, tasks, n)
  {
    hide OnFrontier, Ascending;
    if n > 0 {
      AgreeFrontierUpto(a, b, count, tasks, n - 1);
      AgreeOnFrontier(a, b, count, tasks, n - 1);
    }
  }

  lemma LatestAppend(obs: seq<Observation>, o: Observation, r: Rollout)
    ensures Latest(obs + [o], r) == if o.rollout == r then Some(o) else Latest(obs, r)
  {
    assert (obs + [o])[..|obs|] == obs;
  }
}
