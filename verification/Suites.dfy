/** Fixed evaluation tasks and the collaborators a candidate may bring. */
module Suites {
  import opened Text

  datatype Split = Train | Validation | Test

  datatype Check =
    | Exact(expected: string)
    | Json(expected: string)
    | Judge(expected: string, rubric: string)
  {
    predicate Valid() {
      Judge? ==>
        && !Blank(expected) && |expected| <= 8000
        && !Blank(rubric) && |rubric| <= 4000
    }

    /** An open-ended answer costs one further call to an independent judge. */
    function ModelCalls(): nat {
      if Judge? then 1 else 0
    }
  }

  /** `maxSteps` is present when the case replays in a pinned environment. */
  datatype Case = Case(id: string, split: Split, input: string, check: Check, maxSteps: Option<nat>)
  {
    predicate Valid() {
      && check.Valid()
      && (maxSteps.Some? ==> 1 <= maxSteps.value <= 8)
      && 1 <= |id| <= 80
      && !Blank(input) && |input| <= 16_000
    }

    function ModelCalls(): nat {
      (if maxSteps.Some? then maxSteps.value else 1) + check.ModelCalls()
    }
  }

  datatype Suite = Suite(name: string, cases: seq<Case>)

  predicate ValidSuite(suite: Suite) {
    && !Blank(suite.name) && |suite.name| <= 120
    && 3 <= |suite.cases| <= 64
    && (forall i :: 0 <= i < |suite.cases| ==> suite.cases[i].Valid())
    && (forall i, j :: 0 <= i < j < |suite.cases| ==>
          && suite.cases[i].id != suite.cases[j].id
          && Trim(suite.cases[i].input) != Trim(suite.cases[j].input))
    && (forall split: Split :: HasSplit(suite, split))
  }

  predicate HasSplit(suite: Suite, split: Split) {
    exists i :: 0 <= i < |suite.cases| && suite.cases[i].split == split
  }

  method ValidateSuite(suite: Suite) returns (ok: bool)
    ensures ok <==> ValidSuite(suite)
  {
    hide Trim, Blank, Case.Valid;
    var cases := suite.cases;
    if Blank(suite.name) || |suite.name| > 120 || |cases| < 3 || |cases| > 64 {
      return false;
    }
    var ids, inputs := {}, {};
    for n := 0 to |cases|
      invariant forall i :: 0 <= i < n ==> cases[i].Valid()
      invariant forall i, j :: 0 <= i < j < n ==>
                  cases[i].id != cases[j].id && Trim(cases[i].input) != Trim(cases[j].input)
      invariant ids == set i | 0 <= i < n :: cases[i].id
      invariant inputs == set i | 0 <= i < n :: Trim(cases[i].input)
    {
      if !cases[n].Valid() || cases[n].id in ids || Trim(cases[n].input) in inputs {
        return false;
      }
      ids := ids + {cases[n].id};
      inputs := inputs + {Trim(cases[n].input)};
    }
    ok := HasSplit(suite, Train) && HasSplit(suite, Validation) && HasSplit(suite, Test);
  }

  /** The first `n` cases' indices that fall in `split`, in suite order. */
  function CasesUpto(suite: Suite, split: Split, n: nat): (r: seq<nat>)
    requires n <= |suite.cases|
    ensures forall i :: i in r <==> 0 <= i < n && suite.cases[i].split == split
    ensures forall a, b :: 0 <= a < b < |r| ==> r[a] < r[b]
    ensures forall a :: 0 <= a < |r| ==> r[a] < n
    ensures |r| <= n
  {
    if n == 0 then []
    else if suite.cases[n - 1].split == split then CasesUpto(suite, split, n - 1) + [n - 1]
    else CasesUpto(suite, split, n - 1)
  }

  function Cases(suite: Suite, split: Split): (r: seq<nat>)
    ensures forall i :: i in r <==> 0 <= i < |suite.cases| && suite.cases[i].split == split
    ensures forall a, b :: 0 <= a < b < |r| ==> r[a] < r[b]
    ensures ValidSuite(suite) ==> r != []
  {
    assert ValidSuite(suite) ==> HasSplit(suite, split);
    CasesUpto(suite, split, |suite.cases|)
  }

  // ---------------------------------------------------------------- teams

  datatype Order = Serial | Parallel

  datatype Member = Member(name: string, prompt: string)
  {
    predicate Valid() {
      && 1 <= |name| <= 40
      && (forall i :: 0 <= i < |name| ==>
            'a' <= name[i] <= 'z' || 'A' <= name[i] <= 'Z' || '0' <= name[i] <= '9'
            || name[i] == '-' || name[i] == '_')
      && !Blank(prompt) && |prompt| <= 4000
    }
  }

  datatype Team = Team(order: Order, members: seq<Member>)
  {
    /** The total-agent limit counts the executor as well as the members. */
    predicate Valid(maxAgents: nat) {
      && 1 <= maxAgents <= 4 && |members| + 1 <= maxAgents
      && (forall i :: 0 <= i < |members| ==> members[i].Valid())
      && (forall i, j :: 0 <= i < j < |members| ==> members[i].name != members[j].name)
    }
  }

  method ValidateTeam(team: Team, maxAgents: nat) returns (ok: bool)
    ensures ok <==> team.Valid(maxAgents)
  {
    if maxAgents < 1 || maxAgents > 4 || |team.members| + 1 > maxAgents {
      return false;
    }
    var names := {};
    for n := 0 to |team.members|
      invariant forall i :: 0 <= i < n ==> team.members[i].Valid()
      invariant forall i, j :: 0 <= i < j < n ==> team.members[i].name != team.members[j].name
      invariant names == set i | 0 <= i < n :: team.members[i].name
    {
      if !team.members[n].Valid() || team.members[n].name in names {
        return false;
      }
      names := names + {team.members[n].name};
    }
    ok := true;
  }

  datatype Guidance = Guidance(revision: Option<string>, instruction: string, team: Option<Team>)
  {
    predicate Valid(maxAgents: nat) {
      team.Some? ==> team.value.Valid(maxAgents)
    }

    function Members(): nat {
      if team.Some? then |team.value.members| else 0
    }
  }
}
