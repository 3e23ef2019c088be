/** The operations on conversations, as functions of what is stored. */
module ChatOps {
  import opened Text
  import opened Conversations

  datatype Reply = Ok(conversation: Conversation) | Done | Denied | Inconsistent

  // -------------------------------------------------------------- membership

  /** A conversation always includes its creator and some human. */
  ghost predicate Peopled(dir: Directory, c: Conversation) {
    c.creator in c.members && exists m :: m in c.members && dir.IsKind(m, Human)
  }

  ghost predicate Staffed(dir: Directory, b: Book) {
    forall id :: id in b.conversations ==> b.conversations[id].id == id && Peopled(dir, b.conversations[id])
  }

  /** What a conversation keeps for as long as it exists: type and creator, the humans
      and the creator among its members, and all members of a direct one. */
  ghost predicate Continues(dir: Directory, c: Conversation, d: Conversation) {
    && d.id == c.id && d.ctype == c.ctype && d.creator == c.creator
    && (c.ctype.Direct? ==> d.members == c.members && d.name == c.name)
    && (forall m :: m in c.members && (m == c.creator || dir.IsKind(m, Human)) ==> m in d.members)
  }

  // -------------------------------------------------------------- the pair's entry

  /** What the index says about a key; an entry without its conversation is the
      internal error. */
  function Lookup(b: Book, key: DirectKey): Option<Reply> {
    if key !in b.index then None
    else if b.index[key] in b.conversations then Some(Ok(b.conversations[b.index[key]]))
    else Some(Inconsistent)
  }

  /** While the index never misleads, what a key finds is its pair's conversation. */
  lemma LookupIsTrue(dir: Directory, b: Book, key: DirectKey)
    requires Indexed(dir, b) && Lookup(b, key).Some? && Lookup(b, key).value.Ok?
    ensures var c := Lookup(b, key).value.conversation; b.IsDirect(c.id) && b.conversations[c.id] == c && HasKey(dir, c, key)
  {
  }

  /** The internal error is out of reach exactly while every entry resolves. */
  lemma ConsistentExactly(b: Book)
    ensures Resolved(b) <==> forall key :: Lookup(b, key) != Some(Inconsistent)
  {
    if !Resolved(b) {
      var k :| k in b.index && b.index[k] !in b.conversations;
      assert Lookup(b, k) == Some(Inconsistent);
    }
  }

  /** With an agreeing index every entry leads to its pair's conversation. */
  lemma LookupIsConsistent(dir: Directory, b: Book, key: DirectKey)
    requires Agrees(dir, b) && Lookup(b, key).Some?
    ensures Lookup(b, key).value.Ok?
    ensures var c := Lookup(b, key).value.conversation; b.IsDirect(c.id) && b.conversations[c.id] == c && HasKey(dir, c, key)
  {
    AgreesExactly(dir, b);
    ConsistentExactly(b);
    LookupIsTrue(dir, b, key);
  }

  /** After an indexed conversation is deleted, its pair meets the internal error. */
  lemma DeletedPairIsInconsistent(dir: Directory, b: Book, id: Id) returns (key: DirectKey)
    requires Agrees(dir, b) && b.IsDirect(id)
    ensures HasKey(dir, b.conversations[id], key) && Lookup(Delete(b, id), key) == Some(Inconsistent)
  {
    key := DirectHasKey(dir, b, id);
  }

  lemma KeyNamesPair(dir: Directory, c: Conversation, workspace: Id, a: Id, b: Id)
    requires HasKey(dir, c, KeyFor(workspace, a, b))
    ensures c.workspace == workspace && Between(dir, c) == {a, b}
  {
    var x, y :| x != y && Between(dir, c) == {x, y} && KeyFor(workspace, a, b) == KeyFor(c.workspace, x, y);
    var k := KeyFor(workspace, a, b);
    assert {k.left, k.right} == {a, b} && {k.left, k.right} == {x, y};
  }

  // --------------------------------------------------------- who may do what

  function WorkspaceFor(dir: Directory, actor: Id, chosen: Option<Id>): Id
    requires actor in dir.principals
  {
    if chosen.Some? && !Blank(chosen.value) then chosen.value else dir.principals[actor].workspace
  }

  /** The members a new direct conversation gets: a human is added to two agents. */
  function DirectMembers(dir: Directory, actor: Id, peer: Id, ws: Id): Option<set<Id>> {
    if dir.IsKind(actor, Human) || dir.IsKind(peer, Human) then Some({actor, peer})
    else match dir.HumanFor(ws)
      case Some(h) => Some({actor, peer, h})
      case None => None
  }

  lemma NewDirectIsBetween(dir: Directory, c: Conversation, actor: Id, peer: Id)
    requires actor != peer && c.ctype.Direct? && c.creator == actor
    requires actor in dir.principals && peer in dir.principals
    requires DirectMembers(dir, actor, peer, c.workspace) == Some(c.members)
    ensures Between(dir, c) == {actor, peer} && |Between(dir, c)| == 2
    ensures HasKey(dir, c, KeyFor(c.workspace, actor, peer)) && Peopled(dir, c)
  {
    if dir.IsKind(actor, Human) || dir.IsKind(peer, Human) {
      assert |c.members| == 2;
    } else {
      var h := dir.HumanFor(c.workspace).value;
      assert h in c.members && |c.members| == 3;
      assert (set m | m in c.members && dir.IsKind(m, Agent)) == {actor, peer};
    }
  }

  /** Both parties are active, distinct and reach the workspace. */
  predicate MayOpen(dir: Directory, actor: Id, peer: Id, chosen: Option<Id>) {
    && actor != peer && dir.Active(actor) && dir.Active(peer)
    && dir.CanAccess(actor, WorkspaceFor(dir, actor, chosen)) && dir.CanAccess(peer, WorkspaceFor(dir, actor, chosen))
  }

  predicate MayFound(dir: Directory, actor: Id, name: string, chosen: Option<Id>) {
    !Blank(name) && dir.Active(actor) && dir.CanAccess(actor, WorkspaceFor(dir, actor, chosen))
  }

  /** An active member of a group whose workspace they reach. */
  predicate Participates(dir: Directory, conversations: map<Id, Conversation>, actor: Id, id: Id) {
    && dir.Active(actor) && id in conversations
    && conversations[id].ctype.Group? && actor in conversations[id].members
    && dir.CanAccess(actor, conversations[id].workspace)
  }

  predicate MayLeave(dir: Directory, c: Conversation, target: Id) {
    dir.Active(target) && dir.IsKind(target, Agent) && target in c.members && target != c.creator
  }

  predicate MayDelete(dir: Directory, conversations: map<Id, Conversation>, actor: Id, id: Id) {
    dir.Active(actor) && dir.IsKind(actor, Human) && id in conversations && actor in conversations[id].members
  }

  predicate MayMove(dir: Directory, conversations: map<Id, Conversation>, actor: Id, id: Id, workspace: Id) {
    && dir.Active(actor) && dir.IsKind(actor, Human) && !Blank(workspace) && id in conversations
    && dir.CanAccess(actor, conversations[id].workspace) && dir.CanAccess(actor, workspace)
  }

  ghost predicate HasHuman(dir: Directory, members: set<Id>) {
    exists m :: m in members && dir.IsKind(m, Human)
  }

  ghost predicate MayGather(dir: Directory, actor: Id, ids: seq<Id>, ws: Id) {
    forall m :: m in ids && m != actor ==> dir.MayJoin(m, ws)
  }

  /** The members a new group gets, if every invited one may join and a human is
      among them or can be added. */
  ghost function GroupMembers(dir: Directory, actor: Id, ids: seq<Id>, ws: Id): (r: Option<set<Id>>)
    ensures r.Some? ==> actor in r.value && HasHuman(dir, r.value)
  {
    var all := {actor} + set m | m in ids;
    if !MayGather(dir, actor, ids, ws) then None
    else if HasHuman(dir, all) then Some(all)
    else if dir.HumanFor(ws).Some? then
      assert dir.HumanFor(ws).value in all + {dir.HumanFor(ws).value};
      Some(all + {dir.HumanFor(ws).value})
    else None
  }

  /** How many of the invited come before the first who may not join. */
  function Joining(dir: Directory, c: Conversation, ids: seq<Id>): (n: nat)
    ensures n <= |ids|
    ensures forall i :: 0 <= i < n ==> ids[i] in c.members || dir.MayJoin(ids[i], c.workspace)
    ensures n < |ids| ==> ids[n] !in c.members && !dir.MayJoin(ids[n], c.workspace)
  {
    if ids == [] then 0
    else
      var front, m := ids[..|ids| - 1], ids[|ids| - 1];
      var n := Joining(dir, c, front);
      if n == |front| && (m in c.members || dir.MayJoin(m, c.workspace)) then |ids| else n
  }

  function Grown(c: Conversation, ids: seq<Id>): Conversation {
    c.(members := c.members + set m | m in ids)
  }

  // --------------------------------------------------------------- operations

  /** `admitted`: the rate limit let the call through; `id` is a new identifier. */
  datatype Op =
    | OpenDirect(admitted: bool, actor: Id, peer: Id, chosen: Option<Id>, id: Id)
    | OpenGroup(admitted: bool, actor: Id, name: string, invited: seq<Id>, chosen: Option<Id>, id: Id)
    | Invite(admitted: bool, actor: Id, id: Id, invited: seq<Id>)
    | Expel(admitted: bool, actor: Id, id: Id, target: Id)
    | Rename(admitted: bool, actor: Id, id: Id, newName: Option<string>)
    | Erase(actor: Id, id: Id)
    | Migrate(actor: Id, id: Id, workspace: Id)
  {
    predicate Creates() {
      OpenDirect? || OpenGroup?
    }
  }

  function NewDirect(dir: Directory, b: Book, actor: Id, peer: Id, ws: Id, id: Id): (Book, Reply) {
    var known, members := Lookup(b, KeyFor(ws, actor, peer)), DirectMembers(dir, actor, peer, ws);
    if known.Some? then (b, known.value)
    else if members.None? then (b, Denied)
    else
      var c := Conversation(id, ws, Direct, None, actor, members.value);
      (AddDirect(b, c, KeyFor(ws, actor, peer)), Ok(c))
  }

  ghost function NewGroup(dir: Directory, b: Book, actor: Id, name: string, invited: seq<Id>, ws: Id, id: Id): (Book, Reply) {
    var members := GroupMembers(dir, actor, invited, ws);
    if members.None? then (b, Denied)
    else
      var c := Conversation(id, ws, Group, Some(name), actor, members.value);
      (Add(b, c), Ok(c))
  }

  /** Replace a stored conversation. */
  function Put(b: Book, id: Id, c: Conversation): Book {
    b.(conversations := b.conversations[id := c])
  }

  /** Members are inserted one by one, so those before a refused one stay. */
  function Invited(dir: Directory, b: Book, id: Id, ids: seq<Id>): (Book, Reply)
    requires id in b.conversations
  {
    var c := b.conversations[id];
    var n := Joining(dir, c, ids);
    (Put(b, id, Grown(c, ids[..n])), if n == |ids| then Ok(Grown(c, ids)) else Denied)
  }

  /** What each operation stores and answers, in any state. */
  ghost function Apply(dir: Directory, b: Book, op: Op): (Book, Reply) {
    match op
    case OpenDirect(admitted, actor, peer, chosen, id) =>
      if admitted && MayOpen(dir, actor, peer, chosen)
      then NewDirect(dir, b, actor, peer, WorkspaceFor(dir, actor, chosen), id) else (b, Denied)
    case OpenGroup(admitted, actor, name, invited, chosen, id) =>
      if admitted && MayFound(dir, actor, name, chosen)
      then NewGroup(dir, b, actor, name, invited, WorkspaceFor(dir, actor, chosen), id) else (b, Denied)
    case Invite(admitted, actor, id, invited) =>
      if admitted && Participates(dir, b.conversations, actor, id) then Invited(dir, b, id, invited) else (b, Denied)
    case Expel(admitted, actor, id, target) =>
      if admitted && Participates(dir, b.conversations, actor, id) && MayLeave(dir, b.conversations[id], target) then
        var c := b.conversations[id].(members := b.conversations[id].members - {target});
        (Put(b, id, c), Ok(c))
      else (b, Denied)
    case Rename(admitted, actor, id, newName) =>
      if admitted && Participates(dir, b.conversations, actor, id) then
        var c := b.conversations[id].(name := if newName.Some? then newName else b.conversations[id].name);
        (Put(b, id, c), Ok(c))
      else (b, Denied)
    case Erase(actor, id) =>
      if MayDelete(dir, b.conversations, actor, id) then (Delete(b, id), Done) else (b, Denied)
    case Migrate(actor, id, workspace) =>
      if MayMove(dir, b.conversations, actor, id, workspace) then
        (Move(b, id, workspace, EntryOf(b, id)), Ok(b.conversations[id].(workspace := workspace)))
      else (b, Denied)
  }

  // ------------------------------------------------------- what each one keeps

  /** A stored conversation goes on as itself, unless it is erased or its identifier
      is given away again. */
  lemma ApplyContinues(dir: Directory, b: Book, op: Op, id: Id)
    requires Staffed(dir, b) && id in b.conversations && !(op.Creates() && op.id == id)
    ensures var after := Apply(dir, b, op).0;
            id in after.conversations ==> Continues(dir, b.conversations[id], after.conversations[id])
  {
    hide EntryOf, Joining, MayMove, DirectMembers, GroupMembers, KeyFor;
  }

  lemma ApplyStaffed(dir: Directory, b: Book, op: Op)
    requires Staffed(dir, b)
    ensures Staffed(dir, Apply(dir, b, op).0)
  {
    var after := Apply(dir, b, op).0;
    forall id | id in after.conversations
      ensures after.conversations[id].id == id && Peopled(dir, after.conversations[id])
    {
      if op.Creates() && op.id == id {
        CreatedPeopled(dir, b, op);
      } else {
        ApplyContinues(dir, b, op, id);
        hide Apply;
        ContinuesPeopled(dir, b, op, id);
      }
    }
  }

  lemma ContinuesPeopled(dir: Directory, b: Book, op: Op, id: Id)
    requires Staffed(dir, b) && id in b.conversations
    requires id in Apply(dir, b, op).0.conversations
    requires Continues(dir, b.conversations[id], Apply(dir, b, op).0.conversations[id])
    ensures Peopled(dir, Apply(dir, b, op).0.conversations[id])
  {
    hide Apply;
    var m :| m in b.conversations[id].members && dir.IsKind(m, Human);
  }

  lemma CreatedPeopled(dir: Directory, b: Book, op: Op)
    requires Staffed(dir, b) && op.Creates() && op.id in Apply(dir, b, op).0.conversations
    ensures var c := Apply(dir, b, op).0.conversations[op.id]; c.id == op.id && Peopled(dir, c)
  {
    hide KeyFor, GroupMembers, DirectMembers;
    var c := Apply(dir, b, op).0.conversations[op.id];
    if op.OpenDirect? && Apply(dir, b, op).0 != b {
      NewDirectIsBetween(dir, c, op.actor, op.peer);
    }
  }
}
