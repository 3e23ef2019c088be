/** When each conversation operation succeeds and what it then changes, in terms of who
    asks and who is concerned. */
module ChatAnswers {
  import opened Text
  import opened Conversations
  import opened ChatOps

  // ------------------------------------------------------------------- access

  /** Active, and at home in the workspace or enrolled in its company, which must not
      be deleted. */
  ghost predicate Reaches(dir: Directory, p: Id, ws: Id) {
    && p in dir.principals && dir.principals[p].active
    && (ws in dir.companies ==> !dir.companies[ws].deleted)
    && (dir.principals[p].workspace == ws
        || (ws in dir.companies && ws in dir.companyMembers && p in dir.companyMembers[ws]))
  }

  lemma ReachesExactly(dir: Directory, p: Id, ws: Id)
    ensures Reaches(dir, p, ws) <==> dir.MayJoin(p, ws)
  {
  }

  ghost predicate ReachingHuman(dir: Directory, p: Id, ws: Id) {
    Reaches(dir, p, ws) && dir.principals[p].kind.Human?
  }

  ghost predicate OwnerReaches(dir: Directory, ws: Id) {
    ws in dir.companies && ReachingHuman(dir, dir.companies[ws].owner, ws)
  }

  /** The human added to a conversation of agents: the owner of the workspace if a human
      who reaches it, else the only human who does. */
  lemma HumanForExactly(dir: Directory, ws: Id, h: Id)
    ensures dir.HumanFor(ws) == Some(h) <==>
            if OwnerReaches(dir, ws) then h == dir.companies[ws].owner
            else ReachingHuman(dir, h, ws) && forall p :: ReachingHuman(dir, p, ws) ==> p == h
  {
    HumansReach(dir, ws);
    var humans := dir.Humans(ws);
    hide Directory.Humans, ReachingHuman;
    if h in humans && forall p :: p in humans ==> p == h {
      assert humans == {h};
    }
  }

  lemma HumansReach(dir: Directory, ws: Id)
    ensures forall p :: p in dir.Humans(ws) <==> ReachingHuman(dir, p, ws)
  {
  }

  function Chosen(dir: Directory, actor: Id, chosen: Option<Id>): Id
    requires actor in dir.principals
  {
    match chosen
    case Some(ws) => if Blank(ws) then dir.principals[actor].workspace else ws
    case None => dir.principals[actor].workspace
  }

  // ------------------------------------------------------------------ creating

  ghost predicate IsHuman(dir: Directory, p: Id) {
    p in dir.principals && dir.principals[p].kind.Human?
  }

  ghost predicate OnlyNew(b: Book, t: Book, id: Id, c: Conversation) {
    t.conversations == b.conversations[id := c] && c.id == id
  }

  ghost predicate MayOpenDirect(dir: Directory, op: Op)
    requires op.OpenDirect?
  {
    && op.admitted && op.actor != op.peer && op.actor in dir.principals
    && Reaches(dir, op.actor, Chosen(dir, op.actor, op.chosen)) && Reaches(dir, op.peer, Chosen(dir, op.actor, op.chosen))
  }

  /** A pair without an entry gets a conversation of the two, with the workspace's human
      if neither is one, and its entry; a pair with an entry gets what that names. */
  lemma OpenDirectMeans(dir: Directory, b: Book, op: Op)
    requires op.OpenDirect?
    ensures var (t, reply) := Apply(dir, b, op);
            if !MayOpenDirect(dir, op) then t == b && reply == Denied
            else
              var ws := Chosen(dir, op.actor, op.chosen);
              var key := KeyFor(ws, op.actor, op.peer);
              if key in b.index then
                t == b && reply == if b.index[key] in b.conversations then Ok(b.conversations[b.index[key]]) else Inconsistent
              else if !IsHuman(dir, op.actor) && !IsHuman(dir, op.peer) && dir.HumanFor(ws).None? then
                t == b && reply == Denied
              else
                && reply.Ok? && OnlyNew(b, t, op.id, reply.conversation) && t.index == b.index[key := op.id]
                && reply.conversation.ctype.Direct? && reply.conversation.workspace == ws
                && reply.conversation.creator == op.actor && reply.conversation.name.None?
                && reply.conversation.members ==
                   {op.actor, op.peer} + (if IsHuman(dir, op.actor) || IsHuman(dir, op.peer) then {} else {dir.HumanFor(ws).value})
  {
    if op.actor in dir.principals {
      ReachesExactly(dir, op.actor, Chosen(dir, op.actor, op.chosen));
      ReachesExactly(dir, op.peer, Chosen(dir, op.actor, op.chosen));
    }
    hide KeyFor, Reaches, Directory.HumanFor, Directory.CanAccess;
  }

  ghost predicate MayOpenGroup(dir: Directory, op: Op)
    requires op.OpenGroup?
  {
    && op.admitted && !Blank(op.name) && op.actor in dir.principals
    && var ws := Chosen(dir, op.actor, op.chosen);
    && Reaches(dir, op.actor, ws) && (forall m :: m in op.invited && m != op.actor ==> Reaches(dir, m, ws))
    && ((exists m :: m in [op.actor] + op.invited && IsHuman(dir, m)) || dir.HumanFor(ws).Some?)
  }

  lemma OpenGroupMeans(dir: Directory, b: Book, op: Op)
    requires op.OpenGroup?
    ensures var (t, reply) := Apply(dir, b, op);
            if !MayOpenGroup(dir, op) then t == b && reply == Denied
            else
              var ws := Chosen(dir, op.actor, op.chosen);
              && reply.Ok? && OnlyNew(b, t, op.id, reply.conversation) && t.index == b.index
              && reply.conversation.ctype.Group? && reply.conversation.workspace == ws
              && reply.conversation.creator == op.actor && reply.conversation.name == Some(op.name)
              && (forall m :: m in [op.actor] + op.invited ==> m in reply.conversation.members)
              && (forall m :: m in reply.conversation.members && m !in [op.actor] + op.invited ==>
                    dir.HumanFor(ws) == Some(m) && forall o :: o in [op.actor] + op.invited ==> !IsHuman(dir, o))
  {
    if op.actor in dir.principals {
      var ws := Chosen(dir, op.actor, op.chosen);
      ReachesExactly(dir, op.actor, ws);
      GatherMeans(dir, op.actor, op.invited, ws);
    }
    hide Reaches, Directory.HumanFor, Directory.CanAccess, MayGather, HasHuman;
  }

  lemma GatherMeans(dir: Directory, actor: Id, invited: seq<Id>, ws: Id)
    ensures MayGather(dir, actor, invited, ws) <==> forall m :: m in invited && m != actor ==> Reaches(dir, m, ws)
    ensures HasHuman(dir, {actor} + set m | m in invited) <==> exists m :: m in [actor] + invited && IsHuman(dir, m)
  {
    forall m
      ensures Reaches(dir, m, ws) <==> dir.MayJoin(m, ws)
    {
      ReachesExactly(dir, m, ws);
    }
    hide Reaches, Directory.MayJoin;
    assert forall m :: m in [actor] + invited <==> m in {actor} + set m | m in invited;
    if exists m :: m in [actor] + invited && IsHuman(dir, m) {
      var m :| m in [actor] + invited && IsHuman(dir, m);
      assert m in {actor} + set m | m in invited;
    }
    if HasHuman(dir, {actor} + set m | m in invited) {
      var m :| m in {actor} + (set m | m in invited) && dir.IsKind(m, Human);
      assert m in [actor] + invited && IsHuman(dir, m);
    }
  }

  // ------------------------------------------------------------------ changing

  /** An active member of the group who reaches its workspace. */
  ghost predicate Takes(dir: Directory, b: Book, actor: Id, id: Id) {
    && id in b.conversations && b.conversations[id].ctype.Group?
    && actor in b.conversations[id].members && Reaches(dir, actor, b.conversations[id].workspace)
  }

  ghost predicate OnlyChanged(b: Book, t: Book, id: Id, c: Conversation) {
    t.index == b.index && t.conversations == b.conversations[id := c]
  }

  /** Inviting adds everyone invited, if all of them are members or reach the workspace;
      if not, it fails, yet those before the first who does not are added. */
  lemma InviteMeans(dir: Directory, b: Book, op: Op)
    requires op.Invite?
    ensures var (t, reply) := Apply(dir, b, op);
            if !(op.admitted && Takes(dir, b, op.actor, op.id)) then t == b && reply == Denied
            else
              var c := b.conversations[op.id];
              && op.id in t.conversations && var d := t.conversations[op.id];
              && OnlyChanged(b, t, op.id, d) && d == c.(members := d.members)
              && (reply == Ok(d) || reply == Denied)
              && (reply == Ok(d) <==> forall m :: m in op.invited ==> m in c.members || Reaches(dir, m, c.workspace))
              && (reply == Ok(d) ==> forall m :: m in d.members <==> m in c.members || m in op.invited)
              && (reply == Denied ==>
                    exists n: nat :: n < |op.invited|
                      && op.invited[n] !in c.members && !Reaches(dir, op.invited[n], c.workspace)
                      && (forall i :: 0 <= i < n ==> op.invited[i] in c.members || Reaches(dir, op.invited[i], c.workspace))
                      && forall m :: m in d.members <==> m in c.members || m in op.invited[..n])
  {
    if op.id in b.conversations {
      var c := b.conversations[op.id];
      ReachesExactly(dir, op.actor, c.workspace);
      forall m
        ensures Reaches(dir, m, c.workspace) <==> dir.MayJoin(m, c.workspace)
      {
        ReachesExactly(dir, m, c.workspace);
      }
      var n := Joining(dir, c, op.invited);
      hide Reaches, Joining, Directory.MayJoin;
      if n < |op.invited| {
        assert op.invited[n] in op.invited;
      } else {
        assert op.invited[..n] == op.invited;
      }
    }
  }

  /** An active agent other than the creator is gone, everyone else stays. */
  lemma ExpelMeans(dir: Directory, b: Book, op: Op)
    requires op.Expel?
    ensures var (t, reply) := Apply(dir, b, op);
            if !(op.admitted && Takes(dir, b, op.actor, op.id) && op.target in b.conversations[op.id].members
                 && op.target != b.conversations[op.id].creator && op.target in dir.principals
                 && dir.principals[op.target].active && dir.principals[op.target].kind.Agent?)
            then t == b && reply == Denied
            else
              && op.id in t.conversations && var c, d := b.conversations[op.id], t.conversations[op.id];
              && OnlyChanged(b, t, op.id, d) && reply == Ok(d) && d == c.(members := d.members)
              && forall m :: m in d.members <==> m in c.members && m != op.target
  {
    if op.id in b.conversations {
      ReachesExactly(dir, op.actor, b.conversations[op.id].workspace);
    }
    hide Reaches, Directory.CanAccess;
  }

  /** The group has the new name, if one is given. */
  lemma RenameMeans(dir: Directory, b: Book, op: Op)
    requires op.Rename?
    ensures var (t, reply) := Apply(dir, b, op);
            if !(op.admitted && Takes(dir, b, op.actor, op.id)) then t == b && reply == Denied
            else
              && op.id in t.conversations && var c, d := b.conversations[op.id], t.conversations[op.id];
              && OnlyChanged(b, t, op.id, d) && reply == Ok(d) && d == c.(name := d.name)
              && (op.newName.Some? ==> d.name == op.newName) && (op.newName.None? ==> d.name == c.name)
  {
    if op.id in b.conversations {
      ReachesExactly(dir, op.actor, b.conversations[op.id].workspace);
    }
    hide Reaches, Directory.CanAccess;
  }

  /** An active human member deletes; only that conversation goes. */
  lemma EraseMeans(dir: Directory, b: Book, op: Op)
    requires op.Erase?
    ensures var (t, reply) := Apply(dir, b, op);
            if !(op.id in b.conversations && op.actor in b.conversations[op.id].members
                 && IsHuman(dir, op.actor) && dir.principals[op.actor].active)
            then t == b && reply == Denied
            else
              && reply == Done && t.index == b.index && op.id !in t.conversations
              && forall o :: o != op.id ==>
                   (o in t.conversations <==> o in b.conversations)
                   && (o in b.conversations ==> t.conversations[o] == b.conversations[o])
  {
  }

  /** A human who reaches both workspaces moves; the entry of a direct conversation
      moves along to the same pair in the new workspace. */
  lemma MigrateMeans(dir: Directory, b: Book, op: Op)
    requires op.Migrate? && OneKeyEach(b)
    ensures var (t, reply) := Apply(dir, b, op);
            if !(op.id in b.conversations && !Blank(op.workspace) && IsHuman(dir, op.actor)
                 && Reaches(dir, op.actor, b.conversations[op.id].workspace) && Reaches(dir, op.actor, op.workspace))
            then t == b && reply == Denied
            else
              && op.id in t.conversations && var c, d := b.conversations[op.id], t.conversations[op.id];
              && d == c.(workspace := op.workspace) && reply == Ok(d)
              && t.conversations == b.conversations[op.id := d]
              && (c.ctype.Group? || (forall k :: k in b.index ==> b.index[k] != op.id) ==> t.index == b.index)
              && (forall k :: c.ctype.Direct? && k in b.index && b.index[k] == op.id ==>
                    t.index == (b.index - {k})[KeyFor(op.workspace, k.left, k.right) := op.id])
  {
    if op.id in b.conversations {
      ReachesExactly(dir, op.actor, b.conversations[op.id].workspace);
      ReachesExactly(dir, op.actor, op.workspace);
    }
    hide Reaches, Directory.CanAccess, KeyFor, EntryOf;
  }

  // ---------------------------------------------------------- deleted companies

  ghost predicate InDeleted(dir: Directory, ws: Id) {
    ws in dir.companies && dir.companies[ws].deleted
  }

  lemma NobodyReachesDeleted(dir: Directory, p: Id, ws: Id)
    requires InDeleted(dir, ws)
    ensures !Reaches(dir, p, ws) && !dir.MayJoin(p, ws)
  {
  }

  /** A conversation in a deleted company cannot be changed, only erased, and none gets
      into one. */
  lemma DeletedCompanyIsFrozen(dir: Directory, b: Book, op: Op, id: Id)
    requires !(op.Creates() && op.id == id)
    ensures var t := Apply(dir, b, op).0;
            && (id in b.conversations && InDeleted(dir, b.conversations[id].workspace) && id in t.conversations ==>
                  t.conversations[id] == b.conversations[id])
            && (id in b.conversations && InDeleted(dir, b.conversations[id].workspace) && id !in t.conversations ==>
                  op == Erase(op.actor, id))
            && (id in t.conversations && InDeleted(dir, t.conversations[id].workspace) ==>
                  id in b.conversations && b.conversations[id].workspace == t.conversations[id].workspace)
  {
    hide KeyFor, EntryOf, Joining, DirectMembers, GroupMembers, Lookup;
  }

  lemma NothingOpensInDeleted(dir: Directory, b: Book, op: Op)
    requires op.Creates() && Apply(dir, b, op).0 != b
    ensures op.id in Apply(dir, b, op).0.conversations
            && !InDeleted(dir, Apply(dir, b, op).0.conversations[op.id].workspace)
  {
    hide KeyFor, DirectMembers, GroupMembers;
  }
}
