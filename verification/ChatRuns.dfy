/** Every state that the conversation operations can reach, whatever is moved or
    erased on the way: who stays a member, and what the index of direct
    conversations is worth. */
module ChatRuns {
  import opened Text
  import opened Conversations
  import opened ChatOps

  ghost function Run(dir: Directory, b: Book, ops: seq<Op>): Book {
    if ops == [] then b else Apply(dir, Run(dir, b, ops[..|ops| - 1]), ops[|ops| - 1]).0
  }

  /** New identifiers are really new: unused at the start and never drawn twice. */
  ghost predicate FreshIds(b: Book, ops: seq<Op>) {
    && (forall i :: 0 <= i < |ops| && ops[i].Creates() ==> ops[i].id !in Named(b))
    && (forall i, j :: 0 <= i < j < |ops| && ops[i].Creates() && ops[j].Creates() ==> ops[i].id != ops[j].id)
  }

  ghost predicate Drawn(ops: seq<Op>, id: Id) {
    exists i :: 0 <= i < |ops| && ops[i].Creates() && ops[i].id == id
  }

  // -------------------------------------------------------------- membership

  /** In every reachable state each conversation has its creator and a human. No
      assumption about the index or about identifiers is needed. */
  lemma {:induction false} AlwaysStaffed(dir: Directory, b: Book, ops: seq<Op>)
    requires Staffed(dir, b)
    ensures Staffed(dir, Run(dir, b, ops))
  {
    hide Staffed, Apply;
    if ops != [] {
      AlwaysStaffed(dir, b, ops[..|ops| - 1]);
      ApplyStaffed(dir, Run(dir, b, ops[..|ops| - 1]), ops[|ops| - 1]);
    }
  }

  lemma ContinuesOn(dir: Directory, c: Conversation, d: Conversation, e: Conversation)
    requires Continues(dir, c, d) && Continues(dir, d, e)
    ensures Continues(dir, c, e)
  {
  }

  lemma ErasedStaysOut(dir: Directory, b: Book, op: Op, id: Id)
    requires id !in b.conversations && !(op.Creates() && op.id == id)
    ensures id !in Apply(dir, b, op).0.conversations
  {
    hide EntryOf, Joining, DirectMembers, GroupMembers, KeyFor;
  }

  /** From any reachable state on, a conversation that still exists has the type,
      creator, human members and, if it is direct, exactly the members it had. */
  lemma {:induction false} MembersAreKept(dir: Directory, b: Book, ops: seq<Op>, id: Id)
    requires Staffed(dir, b) && FreshIds(b, ops) && id in b.conversations
    ensures var after := Run(dir, b, ops);
            id in after.conversations ==> Continues(dir, b.conversations[id], after.conversations[id])
  {
    hide Apply, Staffed, Continues;
    if ops == [] {
      SelfContinues(dir, b.conversations[id]);
    } else {
      var front, op := ops[..|ops| - 1], ops[|ops| - 1];
      var before := Run(dir, b, front);
      MembersAreKept(dir, b, front, id);
      AlwaysStaffed(dir, b, front);
      assert op.Creates() ==> op.id != id;
      if id in before.conversations {
        ApplyContinues(dir, before, op, id);
        if id in Run(dir, b, ops).conversations {
          ContinuesOn(dir, b.conversations[id], before.conversations[id], Run(dir, b, ops).conversations[id]);
        }
      } else {
        ErasedStaysOut(dir, before, op, id);
      }
    }
  }

  lemma SelfContinues(dir: Directory, c: Conversation)
    ensures Continues(dir, c, c)
  {
  }

  /** The members of a direct conversation never change. */
  lemma DirectMembersAreFixed(dir: Directory, b: Book, first: seq<Op>, more: seq<Op>, id: Id)
    requires Staffed(dir, b) && FreshIds(b, first + more)
    requires Run(dir, b, first).IsDirect(id) && id in Run(dir, b, first + more).conversations
    ensures var c, d := Run(dir, b, first).conversations[id], Run(dir, b, first + more).conversations[id];
            d == c.(workspace := d.workspace)
  {
    var mid := Run(dir, b, first);
    AlwaysStaffed(dir, b, first);
    FreshLater(dir, b, first, more);
    RunSplits(dir, b, first, more);
    MembersAreKept(dir, mid, more, id);
  }

  lemma {:induction false} RunSplits(dir: Directory, b: Book, first: seq<Op>, more: seq<Op>)
    ensures Run(dir, b, first + more) == Run(dir, Run(dir, b, first), more)
  {
    hide Apply;
    if more == [] {
      assert first + more == first;
    } else {
      RunSplits(dir, b, first, more[..|more| - 1]);
      assert (first + more)[..|first + more| - 1] == first + more[..|more| - 1];
    }
  }

  // -------------------------------------------------------- fresh identifiers

  lemma ApplyNames(dir: Directory, b: Book, op: Op)
    ensures Named(Apply(dir, b, op).0) <= Named(b) + if op.Creates() then {op.id} else {}
  {
    hide Joining, DirectMembers, GroupMembers, KeyFor;
    var after := Apply(dir, b, op).0;
    forall id | id in Named(after)
      ensures id in Named(b) || (op.Creates() && op.id == id)
    {
      if id in after.index.Values {
        var k :| k in after.index && after.index[k] == id;
        if k in b.index {
          assert b.index[k] in b.index.Values;
        }
      }
    }
  }

  /** Identifiers in use were there at the start or drawn on the way. */
  lemma {:induction false} NamesAreDrawn(dir: Directory, b: Book, ops: seq<Op>, id: Id)
    ensures id in Named(Run(dir, b, ops)) ==> id in Named(b) || Drawn(ops, id)
  {
    hide Apply, Named;
    if ops != [] {
      var front, op := ops[..|ops| - 1], ops[|ops| - 1];
      ApplyNames(dir, Run(dir, b, front), op);
      if op.Creates() && op.id == id {
        assert ops[|ops| - 1].id == id;
      } else {
        NamesAreDrawn(dir, b, front, id);
        if Drawn(front, id) {
          var i :| 0 <= i < |front| && front[i].Creates() && front[i].id == id;
          assert ops[i] == front[i];
        }
      }
    }
  }

  lemma FreshNow(dir: Directory, b: Book, ops: seq<Op>, k: nat)
    requires FreshIds(b, ops) && k < |ops| && ops[k].Creates()
    ensures ops[k].id !in Named(Run(dir, b, ops[..k]))
  {
    hide Named, Run;
    NamesAreDrawn(dir, b, ops[..k], ops[k].id);
  }

  lemma FreshLater(dir: Directory, b: Book, first: seq<Op>, more: seq<Op>)
    requires FreshIds(b, first + more)
    ensures FreshIds(b, first) && FreshIds(Run(dir, b, first), more)
  {
    hide Named, Run;
    var ops := first + more;
    assert forall i :: 0 <= i < |first| ==> ops[i] == first[i];
    assert forall i :: 0 <= i < |more| ==> ops[|first| + i] == more[i];
    forall i | 0 <= i < |more| && more[i].Creates()
      ensures more[i].id !in Named(Run(dir, b, first))
    {
      NamesAreDrawn(dir, b, first, more[i].id);
      assert ops[|first| + i] == more[i];
    }
  }

  // --------------------------------------------------------------- the index

  lemma ApplyIndexed(dir: Directory, b: Book, op: Op)
    requires Indexed(dir, b) && (op.Creates() ==> op.id !in Named(b))
    ensures Indexed(dir, Apply(dir, b, op).0)
  {
    hide Indexed, Named, Move, EntryOf, Found, KeyFor, Joining, DirectMembers, GroupMembers, HasKey, Between;
    var after := Apply(dir, b, op).0;
    if after != b {
      match op
      case OpenDirect(_, actor, peer, _, id) =>
        NewDirectIsBetween(dir, after.conversations[id], actor, peer);
        AddDirectIndexed(dir, b, after.conversations[id], KeyFor(after.conversations[id].workspace, actor, peer));
      case Erase(_, id) => DeleteIndexed(dir, b, id);
      case Migrate(_, id, workspace) => MoveIndexed(dir, b, id, workspace, EntryOf(b, id));
      case OpenGroup(_, _, _, _, _, id) => PutGroupIndexed(dir, b, after.conversations[id]);
      case _ =>
        IndexedIds(dir, b, op.id);
        PutGroupIndexed(dir, b, after.conversations[op.id]);
    }
  }

  lemma IndexedIds(dir: Directory, b: Book, id: Id)
    requires Indexed(dir, b) && id in b.conversations
    ensures b.conversations[id].id == id
  {
  }

  /** In every reachable state the index never misleads: what an entry names, if it is
      stored, is the direct conversation of that pair, and none has two entries. */
  lemma {:induction false} AlwaysIndexed(dir: Directory, b: Book, ops: seq<Op>)
    requires Indexed(dir, b) && FreshIds(b, ops)
    ensures Indexed(dir, Run(dir, b, ops))
  {
    hide Apply, Indexed, Named;
    if ops != [] {
      var n := |ops| - 1;
      FreshLater(dir, b, ops[..n], ops[n..]);
      assert ops[..n] + ops[n..] == ops;
      AlwaysIndexed(dir, b, ops[..n]);
      if ops[n].Creates() {
        FreshNow(dir, b, ops, n);
      }
      ApplyIndexed(dir, Run(dir, b, ops[..n]), ops[n]);
    }
  }

  /** Opening a direct conversation in any reachable state yields one between the two
      parties in the chosen workspace, unless the pair's entry dangles. */
  lemma OpenYieldsPair(dir: Directory, b: Book, op: Op)
    requires Indexed(dir, b) && op.OpenDirect? && op.id !in Named(b) && Apply(dir, b, op).1.Ok?
    ensures var (after, reply) := Apply(dir, b, op);
            && op.actor in dir.principals
            && var c := reply.conversation;
            && after.IsDirect(c.id) && after.conversations[c.id] == c
            && c.workspace == WorkspaceFor(dir, op.actor, op.chosen) && Between(dir, c) == {op.actor, op.peer}
            && (after != b ==> c.id == op.id && c.creator == op.actor)
  {
    hide KeyFor, HasKey, Between, DirectMembers, Indexed;
    var (after, reply) := Apply(dir, b, op);
    var ws := WorkspaceFor(dir, op.actor, op.chosen);
    var key := KeyFor(ws, op.actor, op.peer);
    if Lookup(b, key).Some? {
      LookupIsTrue(dir, b, key);
      KeyNamesPair(dir, reply.conversation, ws, op.actor, op.peer);
    } else {
      NewDirectIsBetween(dir, reply.conversation, op.actor, op.peer);
    }
  }

  // --------------------------------------------------------- when it agrees

  /** Neither a move onto an occupied pair nor the erasure of a direct conversation. */
  ghost predicate Quiet(dir: Directory, b: Book, op: Op) {
    && (op.Migrate? && MayMove(dir, b.conversations, op.actor, op.id, op.workspace) ==>
          !Occupied(dir, b, op.id, op.workspace))
    && (op.Erase? && MayDelete(dir, b.conversations, op.actor, op.id) ==> !b.IsDirect(op.id))
  }

  lemma ApplyAgreesExactly(dir: Directory, b: Book, op: Op)
    requires Agrees(dir, b) && (op.Creates() ==> op.id !in Named(b))
    ensures Agrees(dir, Apply(dir, b, op).0) <==> Quiet(dir, b, op)
  {
    hide Agrees, Indexed, Move, EntryOf, Found, KeyFor, Joining, DirectMembers, GroupMembers, HasKey, Between, Occupied;
    var after := Apply(dir, b, op).0;
    AgreesExactly(dir, b);
    if after != b {
      match op
      case OpenDirect(_, actor, peer, _, id) =>
        NewDirectIsBetween(dir, after.conversations[id], actor, peer);
        AddDirectAgrees(dir, b, after.conversations[id], KeyFor(after.conversations[id].workspace, actor, peer));
      case Erase(_, id) => DeleteAgreesExactly(dir, b, id);
      case Migrate(_, id, workspace) => MoveAgreesExactly(dir, b, id, workspace, EntryOf(b, id));
      case OpenGroup(_, _, _, _, _, id) => PutGroupAgrees(dir, b, after.conversations[id]);
      case _ =>
        IndexedIds(dir, b, op.id);
        PutGroupAgrees(dir, b, after.conversations[op.id]);
    } else {
      UnmovedIsFree(dir, b, op);
    }
  }

  lemma UnmovedIsFree(dir: Directory, b: Book, op: Op)
    requires Agrees(dir, b) && Apply(dir, b, op).0 == b
    ensures Quiet(dir, b, op)
  {
    hide EntryOf, KeyFor, HasKey, Between, Joining, DirectMembers, GroupMembers;
    if op.Migrate? && MayMove(dir, b.conversations, op.actor, op.id, op.workspace) {
      MoveAgreesExactly(dir, b, op.id, op.workspace, EntryOf(b, op.id));
    }
  }

  ghost predicate QuietAt(dir: Directory, b: Book, ops: seq<Op>, k: nat)
    requires k < |ops|
  {
    Quiet(dir, Run(dir, b, ops[..k]), ops[k])
  }

  ghost predicate AgreesAt(dir: Directory, b: Book, ops: seq<Op>, k: nat)
    requires k <= |ops|
  {
    Agrees(dir, Run(dir, b, ops[..k]))
  }

  /** The index agrees all along a run exactly when no step of it moves a direct
      conversation onto an occupied pair or erases one. */
  lemma {:induction false} AgreesThroughoutExactly(dir: Directory, b: Book, ops: seq<Op>)
    requires Agrees(dir, b) && FreshIds(b, ops)
    ensures (forall k :: 0 <= k <= |ops| ==> AgreesAt(dir, b, ops, k))
            <==> (forall k :: 0 <= k < |ops| ==> QuietAt(dir, b, ops, k))
  {
    hide Agrees, Quiet, Apply, Named;
    assert AgreesAt(dir, b, ops, 0) by { assert ops[..0] == []; }
    if forall k :: 0 <= k < |ops| ==> QuietAt(dir, b, ops, k) {
      for k := 0 to |ops|
        invariant forall j :: 0 <= j <= k ==> AgreesAt(dir, b, ops, j)
      {
        AgreesNext(dir, b, ops, k);
      }
    }
    if forall k :: 0 <= k <= |ops| ==> AgreesAt(dir, b, ops, k) {
      forall k | 0 <= k < |ops|
        ensures QuietAt(dir, b, ops, k)
      {
        assert AgreesAt(dir, b, ops, k) && AgreesAt(dir, b, ops, k + 1);
        AgreesNext(dir, b, ops, k);
      }
    }
  }

  lemma AgreesNext(dir: Directory, b: Book, ops: seq<Op>, k: nat)
    requires FreshIds(b, ops) && k < |ops| && AgreesAt(dir, b, ops, k)
    ensures AgreesAt(dir, b, ops, k + 1) <==> QuietAt(dir, b, ops, k)
  {
    hide Agrees, Quiet, Apply, Named;
    if ops[k].Creates() {
      FreshNow(dir, b, ops, k);
    }
    assert ops[..k + 1][..k] == ops[..k];
    ApplyAgreesExactly(dir, Run(dir, b, ops[..k]), ops[k]);
  }

  // -------------------------------------------------- when nothing dangles

  /** The erased conversation, if any, has no index entry. */
  ghost predicate Tidy(dir: Directory, b: Book, op: Op) {
    op.Erase? && MayDelete(dir, b.conversations, op.actor, op.id) ==> Found(b, op.id, None)
  }

  /** Only an erasure can leave a dangling entry; an occupied move never does. */
  lemma ApplyResolvedExactly(dir: Directory, b: Book, op: Op)
    requires Resolved(b)
    ensures Resolved(Apply(dir, b, op).0) <==> Tidy(dir, b, op)
  {
    hide EntryOf, KeyFor, Joining, DirectMembers, GroupMembers, MayMove;
    if op.Erase? {
      DeleteResolvedExactly(b, op.id);
    }
  }

  /** The internal error is never answered in a run that erases no indexed
      conversation, occupied moves or not. */
  lemma {:induction false} NeverInconsistent(dir: Directory, b: Book, ops: seq<Op>)
    requires Resolved(b)
    requires forall k :: 0 <= k < |ops| ==> Tidy(dir, Run(dir, b, ops[..k]), ops[k])
    ensures Resolved(Run(dir, b, ops))
    ensures forall k :: 0 <= k < |ops| ==> !Apply(dir, Run(dir, b, ops[..k]), ops[k]).1.Inconsistent?
  {
    hide Apply, Tidy, Resolved;
    if ops != [] {
      var n := |ops| - 1;
      assert forall k :: 0 <= k < n ==> ops[..n][..k] == ops[..k];
      NeverInconsistent(dir, b, ops[..n]);
      ApplyResolvedExactly(dir, Run(dir, b, ops[..n]), ops[n]);
      ResolvedAnswers(dir, Run(dir, b, ops[..n]), ops[n]);
      forall k | 0 <= k < |ops|
        ensures !Apply(dir, Run(dir, b, ops[..k]), ops[k]).1.Inconsistent?
      {
        if k < n {
          assert ops[..n][..k] == ops[..k] && ops[..n][k] == ops[k];
        }
      }
    }
  }

  lemma ResolvedAnswers(dir: Directory, b: Book, op: Op)
    requires Resolved(b)
    ensures !Apply(dir, b, op).1.Inconsistent?
  {
    hide EntryOf, Joining, DirectMembers, GroupMembers, MayMove, KeyFor;
  }

  // ------------------------------------------------------------ it does happen

  const EMPTY := Book(map[], map[])

  /** A human and an agent who both reach the workspaces "v" and "w". */
  function Office(): Directory {
    Directory(map["a" := Principal(Human, "v", true), "b" := Principal(Agent, "v", true)],
              map["v" := Company("a", false), "w" := Company("a", false)],
              map["v" := {"a", "b"}, "w" := {"a", "b"}])
  }

  function Opening(ws: Id, id: Id): Op {
    OpenDirect(true, "a", "b", Some(ws), id)
  }

  function Talk(ws: Id, id: Id): Conversation {
    Conversation(id, ws, Direct, None, "a", {"a", "b"})
  }

  lemma EmptyAgrees()
    ensures Agrees(Office(), EMPTY) && Staffed(Office(), EMPTY) && Named(EMPTY) == {}
  {
  }

  lemma OpeningOpens(b: Book, ws: Id, id: Id)
    requires ws == "v" || ws == "w"
    ensures var key := DirectKey(ws, "a", "b");
            Apply(Office(), b, Opening(ws, id)) ==
            if key !in b.index then (AddDirect(b, Talk(ws, id), key), Ok(Talk(ws, id)))
            else (b, Lookup(b, key).value)
  {
    assert "a"[0] != "b"[0] && !IsSpace(ws[0]);
    assert KeyFor(ws, "a", "b") == DirectKey(ws, "a", "b");
    assert MayOpen(Office(), "a", "b", Some(ws));
  }

  const FIRST := AddDirect(EMPTY, Talk("v", "x"), DirectKey("v", "a", "b"))
  const BOTH := AddDirect(FIRST, Talk("w", "y"), DirectKey("w", "a", "b"))

  lemma RunNext(dir: Directory, b: Book, ops: seq<Op>, op: Op)
    ensures Run(dir, b, ops + [op]) == Apply(dir, Run(dir, b, ops), op).0
  {
    hide Apply;
    assert (ops + [op])[..|ops|] == ops;
  }

  lemma FirstTalk()
    ensures Run(Office(), EMPTY, [Opening("v", "x")]) == FIRST
  {
    OpeningOpens(EMPTY, "v", "x");
    hide Apply;
    RunNext(Office(), EMPTY, [], Opening("v", "x"));
    assert [] + [Opening("v", "x")] == [Opening("v", "x")];
  }

  lemma BothTalks()
    ensures Run(Office(), EMPTY, [Opening("v", "x"), Opening("w", "y")]) == BOTH
  {
    FirstTalk();
    OpeningOpens(FIRST, "w", "y");
    assert DirectKey("w", "a", "b") !in FIRST.index by { assert "v"[0] != "w"[0]; }
    hide Apply, Run;
    RunNext(Office(), EMPTY, [Opening("v", "x")], Opening("w", "y"));
    assert [Opening("v", "x")] + [Opening("w", "y")] == [Opening("v", "x"), Opening("w", "y")];
  }

  lemma BothOccupied()
    ensures BOTH.IsDirect("x") && Occupied(Office(), BOTH, "x", "w")
    ensures MayMove(Office(), BOTH.conversations, "a", "x", "w")
  {
    assert "x"[0] != "y"[0] && !IsSpace("w"[0]);
    assert BOTH.conversations["y"] == Talk("w", "y") && BOTH.conversations["x"] == Talk("v", "x");
    assert "y" != "x" && BOTH.IsDirect("y") && BOTH.IsDirect("x");
  }

  function Moving(): (ops: seq<Op>)
    ensures |ops| == 3
  {
    [Opening("v", "x"), Opening("w", "y"), Migrate("a", "x", "w")]
  }

  lemma MovingIsFresh()
    ensures FreshIds(EMPTY, Moving()) && !Moving()[0].Migrate? && !Moving()[1].Migrate? && Moving()[0].Creates() && Moving()[1].Creates()
    ensures Run(Office(), EMPTY, Moving()[..0]) == EMPTY && Moving()[..3] == Moving()
  {
    EmptyAgrees();
    assert Moving()[0].id == "x" && Moving()[1].id == "y" && "x"[0] != "y"[0];
    hide Apply, Named;
    assert Moving()[..0] == [];
  }

  lemma MovingAgrees()
    ensures FreshIds(EMPTY, Moving()) && AgreesAt(Office(), EMPTY, Moving(), 2)
  {
    EmptyAgrees();
    MovingIsFresh();
    hide Agrees, Run, Office, Moving, FreshIds;
    AgreesNext(Office(), EMPTY, Moving(), 0);
    AgreesNext(Office(), EMPTY, Moving(), 1);
  }

  lemma MovingIsLoud()
    ensures !QuietAt(Office(), EMPTY, Moving(), 2)
  {
    BothTalks();
    BothOccupied();
    assert Moving()[..2] == [Opening("v", "x"), Opening("w", "y")] && Moving()[2] == Migrate("a", "x", "w");
    hide Run, Occupied, MayMove, Office, Moving, Opening, BOTH;
  }

  /** A run in which a permitted move breaks the agreement: the pair talks in both
      workspaces, and one conversation is moved into the other's. */
  lemma OccupiedMoveHappens() returns (ops: seq<Op>)
    ensures FreshIds(EMPTY, ops) && |ops| == 3
    ensures AgreesAt(Office(), EMPTY, ops, 2) && !QuietAt(Office(), EMPTY, ops, 2)
    ensures !Agrees(Office(), Run(Office(), EMPTY, ops))
  {
    ops := Moving();
    MovingIsFresh();
    MovingAgrees();
    MovingIsLoud();
    hide Agrees, Run, Office, FreshIds, Quiet;
    AgreesNext(Office(), EMPTY, ops, 2);
  }

  /** A run that ends in the internal error: a direct conversation is opened, erased
      and opened again. */
  lemma ErasureDangles() returns (ops: seq<Op>, again: Op)
    ensures FreshIds(EMPTY, ops + [again]) && again.OpenDirect?
    ensures !Resolved(Run(Office(), EMPTY, ops))
    ensures Apply(Office(), Run(Office(), EMPTY, ops), again).1.Inconsistent?
  {
    ops, again := [Opening("v", "x"), Erase("a", "x")], Opening("v", "z");
    assert "x"[0] != "z"[0];
    EmptyAgrees();
    FirstTalk();
    assert FIRST.conversations["x"] == Talk("v", "x");
    assert Apply(Office(), FIRST, Erase("a", "x")).0 == Delete(FIRST, "x");
    OpeningOpens(Delete(FIRST, "x"), "v", "z");
    var key := DirectKey("v", "a", "b");
    assert key in FIRST.index && FIRST.index[key] == "x";
    hide Apply, Run;
    RunNext(Office(), EMPTY, [Opening("v", "x")], Erase("a", "x"));
    assert [Opening("v", "x")] + [Erase("a", "x")] == ops;
  }
}
