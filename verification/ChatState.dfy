/** The conversations in memory and the methods that edit them in place. */
module ChatState {
  import opened Text
  import opened Conversations
  import opened ChatOps

  class Chat {
    const dir: Directory
    var conversations: map<Id, Conversation>
    var index: map<DirectKey, Id>

    function Contents(): Book
      reads this
    {
      Book(conversations, index)
    }

    constructor (dir: Directory)
      ensures this.dir == dir && Contents() == Book(map[], map[])
    {
      this.dir := dir;
      conversations, index := map[], map[];
    }

    /** Opening a direct conversation again returns the one there is. */
    method CreateDirect(admitted: bool, actor: Id, peer: Id, chosen: Option<Id>, id: Id) returns (reply: Reply)
      modifies this
      ensures (Contents(), reply) == Apply(dir, old(Contents()), OpenDirect(admitted, actor, peer, chosen, id))
    {
      hide KeyFor;
      if !admitted || actor == peer || !dir.Active(actor) || !dir.Active(peer) {
        return Denied;
      }
      var ws := WorkspaceFor(dir, actor, chosen);
      if !dir.CanAccess(actor, ws) || !dir.CanAccess(peer, ws) {
        return Denied;
      }
      var key := KeyFor(ws, actor, peer);
      if key in index {
        if index[key] !in conversations {
          return Inconsistent;
        }
        return Ok(conversations[index[key]]);
      }
      var members := {actor, peer};
      if !dir.IsKind(actor, Human) && !dir.IsKind(peer, Human) {
        var human := dir.HumanFor(ws);
        if human.None? {
          return Denied;
        }
        members := members + {human.value};
        assert members == {actor, peer, human.value};
      }
      var c := Conversation(id, ws, Direct, None, actor, members);
      index := index[key := id];
      conversations := conversations[id := c];
      reply := Ok(c);
    }

    /** Collect the members of a new group; refused if one of them may not join. */
    method CollectMembers(actor: Id, ids: seq<Id>, ws: Id) returns (members: Option<set<Id>>, hasHuman: bool)
      ensures members.Some? <==> MayGather(dir, actor, ids, ws)
      ensures members.Some? ==> members.value == {actor} + set m | m in ids
      ensures members.Some? ==> (hasHuman <==> HasHuman(dir, members.value))
    {
      var all := {actor};
      hasHuman := dir.IsKind(actor, Human);
      for i := 0 to |ids|
        invariant all == {actor} + set m | m in ids[..i]
        invariant forall m :: m in all && m != actor ==> dir.MayJoin(m, ws)
        invariant hasHuman <==> exists m :: m in all && dir.IsKind(m, Human)
      {
        var m := ids[i];
        assert ids[..i + 1] == ids[..i] + [m];
        if m !in all {
          if !dir.MayJoin(m, ws) {
            return None, hasHuman;
          }
          hasHuman := hasHuman || dir.IsKind(m, Human);
          all := all + {m};
        }
      }
      assert ids[..|ids|] == ids;
      members := Some(all);
    }

    method CreateGroup(admitted: bool, actor: Id, name: string, ids: seq<Id>, chosen: Option<Id>, id: Id) returns (reply: Reply)
      modifies `conversations
      ensures (Contents(), reply) == Apply(dir, old(Contents()), OpenGroup(admitted, actor, name, ids, chosen, id))
    {
      if Blank(name) || !admitted || !dir.Active(actor) {
        return Denied;
      }
      var ws := WorkspaceFor(dir, actor, chosen);
      if !dir.CanAccess(actor, ws) {
        return Denied;
      }
      var members, hasHuman := CollectMembers(actor, ids, ws);
      if members.None? {
        return Denied;
      }
      hide MayGather, HasHuman;
      var all := members.value;
      if !hasHuman {
        var human := dir.HumanFor(ws);
        if human.None? {
          return Denied;
        }
        all := all + {human.value};
      }
      var c := Conversation(id, ws, Group, Some(name), actor, all);
      conversations := conversations[id := c];
      reply := Ok(c);
    }

    method AddGroupMembers(admitted: bool, actor: Id, id: Id, ids: seq<Id>) returns (reply: Reply)
      modifies `conversations
      ensures (Contents(), reply) == Apply(dir, old(Contents()), Invite(admitted, actor, id, ids))
    {
      if !admitted || !dir.Active(actor) || id !in conversations {
        return Denied;
      }
      var existing := conversations[id];
      if !existing.ctype.Group? || actor !in existing.members || !dir.CanAccess(actor, existing.workspace) {
        return Denied;
      }
      assert Grown(existing, []) == existing;
      ghost var n := Joining(dir, existing, ids);
      for i := 0 to |ids|
        invariant i <= n
        invariant conversations == old(conversations)[id := Grown(existing, ids[..i])]
      {
        var m := ids[i];
        GrownStep(existing, ids, i);
        if m !in existing.members {
          if !dir.MayJoin(m, existing.workspace) {
            return Denied;
          }
          var c := conversations[id];
          conversations := conversations[id := c.(members := c.members + {m})];
        }
      }
      assert ids[..|ids|] == ids;
      reply := Ok(conversations[id]);
    }

    method RemoveGroupMember(admitted: bool, actor: Id, id: Id, target: Id) returns (reply: Reply)
      modifies `conversations
      ensures (Contents(), reply) == Apply(dir, old(Contents()), Expel(admitted, actor, id, target))
    {
      if !admitted || !dir.Active(actor) || !dir.Active(target) || dir.IsKind(target, Human) || id !in conversations {
        return Denied;
      }
      var c := conversations[id];
      if !c.ctype.Group? || !dir.CanAccess(actor, c.workspace) || actor !in c.members || target !in c.members
         || target == c.creator {
        return Denied;
      }
      var less := c.(members := c.members - {target});
      conversations := conversations[id := less];
      reply := Ok(less);
    }

    method UpdateGroup(admitted: bool, actor: Id, id: Id, name: Option<string>) returns (reply: Reply)
      modifies `conversations
      ensures (Contents(), reply) == Apply(dir, old(Contents()), Rename(admitted, actor, id, name))
    {
      if !admitted || !dir.Active(actor) || id !in conversations {
        return Denied;
      }
      var c := conversations[id];
      if !c.ctype.Group? || actor !in c.members || !dir.CanAccess(actor, c.workspace) {
        return Denied;
      }
      if name.Some? {
        c := c.(name := name);
      }
      conversations := conversations[id := c];
      reply := Ok(c);
    }

    /** The index is left alone. */
    method DeleteConversation(actor: Id, id: Id) returns (reply: Reply)
      modifies `conversations
      ensures (Contents(), reply) == Apply(dir, old(Contents()), Erase(actor, id))
    {
      if !dir.Active(actor) || !dir.IsKind(actor, Human) || id !in conversations || actor !in conversations[id].members {
        return Denied;
      }
      conversations := conversations - {id};
      reply := Done;
    }

    /** An index entry of a conversation, scanning in any order. */
    method FindKey(id: Id) returns (found: Option<DirectKey>)
      ensures Found(Contents(), id, found)
    {
      var left := index.Keys;
      while left != {}
        invariant left <= index.Keys
        invariant forall k :: k in index && k !in left ==> index[k] != id
      {
        var k :| k in left;
        if index[k] == id {
          return Some(k);
        }
        left := left - {k};
      }
      found := None;
    }

    /** `found` is the entry that the scan happened on. It is the only one whenever no
        identifier has two, which holds in every reachable state. */
    method MigrateWorkspace(actor: Id, id: Id, workspace: Id) returns (reply: Reply, ghost found: Option<DirectKey>)
      modifies this
      ensures Found(old(Contents()), id, found)
      ensures if MayMove(dir, old(conversations), actor, id, workspace)
              then Contents() == Move(old(Contents()), id, workspace, found)
                   && reply == Ok(old(conversations)[id].(workspace := workspace))
              else Contents() == old(Contents()) && reply == Denied
      ensures OneKeyEach(old(Contents())) ==> (Contents(), reply) == Apply(dir, old(Contents()), Migrate(actor, id, workspace))
    {
      hide KeyFor;
      var entry := FindKey(id);
      found := entry;
      if OneKeyEach(Contents()) {
        FoundIsUnique(Contents(), id, found, EntryOf(Contents(), id));
      }
      hide Found, EntryOf, OneKeyEach;
      if !dir.Active(actor) || !dir.IsKind(actor, Human) || Blank(workspace) || id !in conversations {
        return Denied, found;
      }
      var c := conversations[id];
      if !dir.CanAccess(actor, c.workspace) || !dir.CanAccess(actor, workspace) {
        return Denied, found;
      }
      c := c.(workspace := workspace);
      conversations := conversations[id := c];
      if c.ctype.Direct? && entry.Some? {
        index := (index - {entry.value})[KeyFor(workspace, entry.value.left, entry.value.right) := id];
      }
      reply := Ok(c);
    }
  }

  lemma GrownStep(c: Conversation, ids: seq<Id>, i: nat)
    requires i < |ids|
    ensures Grown(c, ids[..i + 1]) == Grown(c, ids[..i]).(members := Grown(c, ids[..i]).members + {ids[i]})
    ensures ids[i] in c.members ==> Grown(c, ids[..i + 1]) == Grown(c, ids[..i])
  {
    assert ids[..i + 1] == ids[..i] + [ids[i]];
    assert Grown(c, ids[..i + 1]).members == Grown(c, ids[..i]).members + {ids[i]};
  }
}
