/** Conversations in memory: the index of direct conversations against its rebuild,
    and what every conversation keeps of its membership. */
module Conversations {
  import opened Text

  type Id = string

  datatype Kind = Human | Agent

  /** `active`: neither disabled nor deleted. */
  datatype Principal = Principal(kind: Kind, workspace: Id, active: bool)

  datatype Company = Company(owner: Id, deleted: bool)

  /** Who exists and which workspaces they reach; not changed by these operations. */
  datatype Directory = Directory(
    principals: map<Id, Principal>, companies: map<Id, Company>, companyMembers: map<Id, set<Id>>)
  {
    predicate IsKind(p: Id, kind: Kind) {
      p in principals && principals[p].kind == kind
    }

    predicate Active(p: Id) {
      p in principals && principals[p].active
    }

    predicate CanAccess(p: Id, workspace: Id)
      requires p in principals
    {
      if workspace !in companies then principals[p].workspace == workspace
      else
        && !companies[workspace].deleted
        && (principals[p].workspace == workspace
            || (workspace in companyMembers && p in companyMembers[workspace]))
    }

    predicate MayJoin(p: Id, workspace: Id) {
      Active(p) && CanAccess(p, workspace)
    }

    function Humans(workspace: Id): set<Id> {
      set p | p in principals && principals[p].kind == Human && MayJoin(p, workspace)
    }

    /** The workspace owner if that is a reachable human, else the only such human. */
    function HumanFor(workspace: Id): (h: Option<Id>)
      ensures h.Some? ==> IsKind(h.value, Human) && MayJoin(h.value, workspace)
    {
      if workspace in companies && companies[workspace].owner in Humans(workspace) then Some(companies[workspace].owner)
      else if |Humans(workspace)| == 1 then Some(Only(Humans(workspace)))
      else None
    }
  }

  lemma Singleton(s: set<Id>, a: Id)
    requires |s| == 1 && a in s
    ensures s == {a}
  {
    assert |s - {a}| == 0;
  }

  /** The element of a one-element set. */
  function Only(s: set<Id>): (x: Id)
    requires |s| == 1
    ensures s == {x}
  {
    assert forall a | a in s :: s == {a} by {
      forall a | a in s
        ensures s == {a}
      {
        Singleton(s, a);
      }
    }
    var x :| x in s;
    x
  }

  datatype Type = Direct | Group

  datatype Conversation = Conversation(
    id: Id, workspace: Id, ctype: Type, name: Option<string>, creator: Id, members: set<Id>)

  datatype DirectKey = DirectKey(workspace: Id, left: Id, right: Id)

  function KeyFor(workspace: Id, a: Id, b: Id): DirectKey {
    if Leq(a, b) then DirectKey(workspace, a, b) else DirectKey(workspace, b, a)
  }

  lemma KeySymmetric(workspace: Id, a: Id, b: Id)
    ensures KeyFor(workspace, a, b) == KeyFor(workspace, b, a)
  {
    LeqTotal(a, b);
    if Leq(a, b) && Leq(b, a) {
      LeqAntisymmetric(a, b);
    }
  }

  // ------------------------------------------------------------ the direct index

  /** The two principals a direct conversation is between: both members, or the two
      agents when a human was added. */
  function Between(dir: Directory, c: Conversation): set<Id> {
    if |c.members| == 2 then c.members else set m | m in c.members && dir.IsKind(m, Agent)
  }

  ghost predicate HasKey(dir: Directory, c: Conversation, k: DirectKey) {
    exists a, b :: a != b && Between(dir, c) == {a, b} && k == KeyFor(c.workspace, a, b)
  }

  lemma KeyIsUnique(dir: Directory, c: Conversation, k: DirectKey, l: DirectKey)
    requires HasKey(dir, c, k) && HasKey(dir, c, l)
    ensures k == l
  {
    var a, b :| a != b && Between(dir, c) == {a, b} && k == KeyFor(c.workspace, a, b);
    var x, y :| x != y && Between(dir, c) == {x, y} && l == KeyFor(c.workspace, x, y);
    assert x in {a, b} && y in {a, b} && a in {x, y};
    KeySymmetric(c.workspace, a, b);
  }

  datatype Book = Book(conversations: map<Id, Conversation>, index: map<DirectKey, Id>)
  {
    predicate IsDirect(id: Id) {
      id in conversations && conversations[id].ctype.Direct?
    }
  }

  /** Every direct conversation is between two principals and indexed under them, and
      the index holds nothing else: so a rebuild gives the same index, and no pair
      has two conversations in one workspace. */
  ghost predicate Agrees(dir: Directory, b: Book) {
    && (forall id :: id in b.conversations ==> b.conversations[id].id == id)
    && (forall id :: b.IsDirect(id) ==> |Between(dir, b.conversations[id])| == 2)
    && (forall k :: k in b.index ==> b.IsDirect(b.index[k]) && HasKey(dir, b.conversations[b.index[k]], k))
    && (forall id, k :: b.IsDirect(id) && HasKey(dir, b.conversations[id], k) ==> k in b.index && b.index[k] == id)
  }

  lemma TwoElements(s: set<Id>) returns (a: Id, b: Id)
    requires |s| == 2
    ensures a != b && s == {a, b}
  {
    a :| a in s;
    b := Only(s - {a});
    assert s == {a} + (s - {a});
  }

  lemma DirectHasKey(dir: Directory, b: Book, id: Id) returns (k: DirectKey)
    requires Agrees(dir, b) && b.IsDirect(id)
    ensures HasKey(dir, b.conversations[id], k) && k in b.index && b.index[k] == id
  {
    var c := b.conversations[id];
    var x, y := TwoElements(Between(dir, c));
    k := KeyFor(c.workspace, x, y);
  }

  /** Each workspace and unordered pair has at most one direct conversation. */
  lemma OnePerPair(dir: Directory, b: Book, i: Id, j: Id)
    requires Agrees(dir, b) && b.IsDirect(i) && b.IsDirect(j)
    requires b.conversations[i].workspace == b.conversations[j].workspace
    requires Between(dir, b.conversations[i]) == Between(dir, b.conversations[j])
    ensures i == j
  {
    var k := DirectHasKey(dir, b, i);
    assert HasKey(dir, b.conversations[j], k);
  }

  // ---------------------------------------------------------- without agreement

  ghost predicate IdsMatch(b: Book) {
    forall id :: id in b.conversations ==> b.conversations[id].id == id
  }

  ghost predicate EachBetweenTwo(dir: Directory, b: Book) {
    forall id :: b.IsDirect(id) ==> |Between(dir, b.conversations[id])| == 2
  }

  /** An entry that names a stored conversation names the one of its own pair. */
  ghost predicate EntriesTrue(dir: Directory, b: Book) {
    forall k :: k in b.index && b.index[k] in b.conversations ==>
      b.IsDirect(b.index[k]) && HasKey(dir, b.conversations[b.index[k]], k)
  }

  ghost predicate OneKeyEach(b: Book) {
    forall k, l :: k in b.index && l in b.index && b.index[k] == b.index[l] ==> k == l
  }

  /** What the index keeps even when it no longer agrees: it never misleads. */
  ghost predicate Indexed(dir: Directory, b: Book) {
    IdsMatch(b) && EachBetweenTwo(dir, b) && EntriesTrue(dir, b) && OneKeyEach(b)
  }

  /** Every entry names a stored conversation. */
  ghost predicate Resolved(b: Book) {
    forall k :: k in b.index ==> b.index[k] in b.conversations
  }

  /** Every direct conversation is the one its pair is indexed to. */
  ghost predicate Complete(dir: Directory, b: Book) {
    forall id, k :: b.IsDirect(id) && HasKey(dir, b.conversations[id], k) ==> k in b.index && b.index[k] == id
  }

  lemma AgreesExactly(dir: Directory, b: Book)
    ensures Agrees(dir, b) <==> Indexed(dir, b) && Resolved(b) && Complete(dir, b)
  {
    hide HasKey, Between;
    if Agrees(dir, b) {
      forall k, l | k in b.index && l in b.index && b.index[k] == b.index[l]
        ensures k == l
      {
        KeyIsUnique(dir, b.conversations[b.index[k]], k, l);
      }
    }
  }

  // --------------------------------------------------------------------- rebuild

  /** Each entry names a direct conversation of its pair, and each pair that has one
      has an entry. */
  ghost predicate Rebuilt(dir: Directory, b: Book) {
    && (forall k :: k in b.index ==> b.IsDirect(b.index[k]) && HasKey(dir, b.conversations[b.index[k]], k))
    && (forall id, k :: b.IsDirect(id) && HasKey(dir, b.conversations[id], k) ==> k in b.index)
  }

  /** The index that `rebuild_indices` computes, visiting conversations in any order. */
  method Rebuild(dir: Directory, conversations: map<Id, Conversation>) returns (index: map<DirectKey, Id>)
    ensures IdsMatch(Book(conversations, index)) ==> Rebuilt(dir, Book(conversations, index))
  {
    hide HasKey, Between;
    index := map[];
    ghost var keyed := IdsMatch(Book(conversations, map[]));
    var left := conversations.Keys;
    while left != {}
      invariant left <= conversations.Keys
      invariant keyed ==> forall k :: k in index ==>
                  Book(conversations, map[]).IsDirect(index[k]) && HasKey(dir, conversations[index[k]], k)
      invariant forall id, k ::
                  id !in left && Book(conversations, map[]).IsDirect(id) && HasKey(dir, conversations[id], k) ==> k in index
    {
      var id :| id in left;
      left := left - {id};
      var c := conversations[id];
      if c.ctype.Direct? {
        var pair := Between(dir, c);
        if |pair| == 2 {
          var x :| x in pair;
          var y := Only(pair - {x});
          assert pair == {x} + (pair - {x});
          var key := KeyFor(c.workspace, x, y);
          OnlyKey(dir, c, x, y);
          index := index[key := c.id];
        } else {
          KeyNeedsTwo(dir, c);
        }
      }
    }
  }

  lemma OnlyKey(dir: Directory, c: Conversation, x: Id, y: Id)
    requires x != y && Between(dir, c) == {x, y}
    ensures forall k :: HasKey(dir, c, k) <==> k == KeyFor(c.workspace, x, y)
  {
    var key := KeyFor(c.workspace, x, y);
    assert HasKey(dir, c, key);
    forall k | HasKey(dir, c, k)
      ensures k == key
    {
      KeyIsUnique(dir, c, k, key);
    }
  }

  lemma KeyNeedsTwo(dir: Directory, c: Conversation)
    requires |Between(dir, c)| != 2
    ensures forall k :: !HasKey(dir, c, k)
  {
    hide Between;
    assert forall a: Id, b: Id :: a != b ==> |{a, b}| == 2;
  }

  /** Between the same two in the same workspace. */
  predicate SamePair(dir: Directory, c: Conversation, d: Conversation) {
    c.workspace == d.workspace && Between(dir, c) == Between(dir, d)
  }

  /** A rebuilt index is the agreeing one, if there is one. */
  lemma RebuildRestores(dir: Directory, b: Book, index: map<DirectKey, Id>)
    requires Agrees(dir, b) && Rebuilt(dir, b.(index := index))
    ensures index == b.index
  {
    hide HasKey, Between;
    var r := b.(index := index);
    assert forall id :: r.IsDirect(id) == b.IsDirect(id);
    assert forall k :: k in index <==> k in b.index;
  }

  /** After a rebuild nothing dangles and every indexed pair is found; it agrees
      exactly when no pair has two direct conversations in one workspace. */
  lemma RebuildAgreesExactly(dir: Directory, b: Book)
    requires IdsMatch(b) && EachBetweenTwo(dir, b) && Rebuilt(dir, b)
    ensures Indexed(dir, b) && Resolved(b)
    ensures Agrees(dir, b) <==>
            forall i, j :: b.IsDirect(i) && b.IsDirect(j) && SamePair(dir, b.conversations[i], b.conversations[j]) ==> i == j
  {
    hide HasKey, Between;
    forall k, l | k in b.index && l in b.index && b.index[k] == b.index[l]
      ensures k == l
    {
      KeyIsUnique(dir, b.conversations[b.index[k]], k, l);
    }
    AgreesExactly(dir, b);
    if Agrees(dir, b) {
      forall i, j | b.IsDirect(i) && b.IsDirect(j) && SamePair(dir, b.conversations[i], b.conversations[j])
        ensures i == j
      {
        OnePerPair(dir, b, i, j);
      }
    } else {
      var id, k :| b.IsDirect(id) && HasKey(dir, b.conversations[id], k) && b.index[k] != id;
      SameKey(dir, b.conversations[id], b.conversations[b.index[k]], k);
    }
  }

  // ----------------------------------------------------------------- transitions

  function Add(b: Book, c: Conversation): Book {
    b.(conversations := b.conversations[c.id := c])
  }

  function AddDirect(b: Book, c: Conversation, key: DirectKey): Book {
    Book(b.conversations[c.id := c], b.index[key := c.id])
  }

  lemma AddDirectAgrees(dir: Directory, b: Book, c: Conversation, key: DirectKey)
    requires Agrees(dir, b) && c.id !in b.conversations && c.ctype.Direct? && key !in b.index
    requires |Between(dir, c)| == 2 && HasKey(dir, c, key)
    ensures Agrees(dir, AddDirect(b, c, key))
  {
    hide HasKey, Between;
    var after := AddDirect(b, c, key);
    forall k | k in after.index
      ensures after.IsDirect(after.index[k]) && HasKey(dir, after.conversations[after.index[k]], k)
    {
      if k != key {
        assert b.IsDirect(b.index[k]);
      }
    }
    forall id, k | after.IsDirect(id) && HasKey(dir, after.conversations[id], k)
      ensures k in after.index && after.index[k] == id
    {
      if id == c.id {
        KeyIsUnique(dir, c, k, key);
      } else {
        assert b.IsDirect(id);
      }
    }
  }

  /** Replacing a group by a group, or adding one, leaves the index alone. */
  lemma PutGroupAgrees(dir: Directory, b: Book, c: Conversation)
    requires Agrees(dir, b) && c.ctype.Group? && !b.IsDirect(c.id)
    ensures Agrees(dir, Add(b, c))
  {
    hide HasKey, Between;
    var after := Add(b, c);
    assert forall id :: after.IsDirect(id) == b.IsDirect(id);
    assert forall id :: after.IsDirect(id) ==> after.conversations[id] == b.conversations[id];
  }

  /** The identifiers in use, also those that only the index still mentions. */
  function Named(b: Book): set<Id> {
    b.conversations.Keys + b.index.Values
  }

  lemma AddDirectIndexed(dir: Directory, b: Book, c: Conversation, key: DirectKey)
    requires Indexed(dir, b) && c.id !in Named(b) && c.ctype.Direct? && key !in b.index
    requires |Between(dir, c)| == 2 && HasKey(dir, c, key)
    ensures Indexed(dir, AddDirect(b, c, key))
  {
    hide HasKey, Between;
    assert forall k :: k in b.index ==> b.index[k] in b.index.Values;
  }

  lemma PutGroupIndexed(dir: Directory, b: Book, c: Conversation)
    requires Indexed(dir, b) && c.ctype.Group?
    requires c.id !in Named(b) || (c.id in b.conversations && b.conversations[c.id].ctype.Group?)
    ensures Indexed(dir, Add(b, c))
  {
    hide HasKey, Between;
    assert forall k :: k in b.index ==> b.index[k] in b.index.Values;
  }

  ghost predicate Found(b: Book, id: Id, key: Option<DirectKey>) {
    if key.Some? then key.value in b.index && b.index[key.value] == id
    else forall k :: k in b.index ==> b.index[k] != id
  }

  /** Move a conversation; a direct one takes its index entry along. */
  function Move(b: Book, id: Id, workspace: Id, found: Option<DirectKey>): Book
    requires id in b.conversations
  {
    var c := b.conversations[id].(workspace := workspace);
    Book(b.conversations[id := c],
         if c.ctype.Direct? && found.Some?
         then (b.index - {found.value})[KeyFor(workspace, found.value.left, found.value.right) := id]
         else b.index)
  }

  /** Another direct conversation between the same two is already there. */
  ghost predicate Occupied(dir: Directory, b: Book, id: Id, workspace: Id)
    requires id in b.conversations
  {
    exists o :: o != id && b.IsDirect(o) && b.IsDirect(id) && b.conversations[o].workspace == workspace
                && Between(dir, b.conversations[o]) == Between(dir, b.conversations[id])
  }

  lemma SortedKey(workspace: Id, other: Id, a: Id, b: Id)
    ensures var k := KeyFor(other, a, b); KeyFor(workspace, k.left, k.right) == KeyFor(workspace, a, b)
  {
    LeqTotal(a, b);
  }

  lemma MovedKey(dir: Directory, b: Book, id: Id, workspace: Id, was: DirectKey)
    requires b.IsDirect(id) && HasKey(dir, b.conversations[id], was)
    ensures HasKey(dir, b.conversations[id].(workspace := workspace), KeyFor(workspace, was.left, was.right))
  {
    var c := b.conversations[id];
    var x, y :| x != y && Between(dir, c) == {x, y} && was == KeyFor(c.workspace, x, y);
    SortedKey(workspace, c.workspace, x, y);
  }

  /** Sharing a key is being between the same two in the same workspace. */
  lemma SameKey(dir: Directory, c: Conversation, d: Conversation, k: DirectKey)
    requires HasKey(dir, c, k) && HasKey(dir, d, k)
    ensures c.workspace == d.workspace && Between(dir, c) == Between(dir, d)
  {
    var a, b :| a != b && Between(dir, c) == {a, b} && k == KeyFor(c.workspace, a, b);
    var x, y :| x != y && Between(dir, d) == {x, y} && k == KeyFor(d.workspace, x, y);
    assert {k.left, k.right} == {a, b} && {k.left, k.right} == {x, y};
  }

  function Remove(b: Book, id: Id, key: DirectKey): Book {
    Book(b.conversations - {id}, b.index - {key})
  }

  lemma RemoveAgrees(dir: Directory, b: Book, id: Id, key: DirectKey)
    requires Agrees(dir, b) && b.IsDirect(id) && Found(b, id, Some(key))
    ensures Agrees(dir, Remove(b, id, key))
    ensures forall k :: k in Remove(b, id, key).index ==> b.index[k] != id
  {
    hide HasKey, Between;
    forall k | k in b.index && b.index[k] == id
      ensures k == key
    {
      KeyIsUnique(dir, b.conversations[id], k, key);
    }
    assert forall o :: Remove(b, id, key).IsDirect(o) <==> o != id && b.IsDirect(o);
  }

  /** Moving is taking the conversation out and putting it back elsewhere. */
  lemma MoveAgrees(dir: Directory, b: Book, id: Id, workspace: Id, was: DirectKey)
    requires Agrees(dir, b) && b.IsDirect(id) && Found(b, id, Some(was))
    requires forall o :: o != id && b.IsDirect(o) ==> !HasKey(dir, b.conversations[o], KeyFor(workspace, was.left, was.right))
    ensures Agrees(dir, Move(b, id, workspace, Some(was)))
  {
    var moved, key := b.conversations[id].(workspace := workspace), KeyFor(workspace, was.left, was.right);
    MovedKey(dir, b, id, workspace, was);
    RemoveAgrees(dir, b, id, was);
    var rest := Remove(b, id, was);
    assert |Between(dir, moved)| == 2;
    assert key !in rest.index;
    AddDirectAgrees(dir, rest, moved, key);
    hide HasKey, Between, KeyFor, Agrees;
    assert rest.conversations[id := moved] == b.conversations[id := moved];
    assert Move(b, id, workspace, Some(was)) == AddDirect(rest, moved, key);
  }

  lemma KeyCarriesOver(dir: Directory, c: Conversation, d: Conversation, k: DirectKey)
    requires HasKey(dir, c, k) && c.workspace == d.workspace && Between(dir, c) == Between(dir, d)
    ensures HasKey(dir, d, k)
  {
  }

  lemma OccupiedBreaks(dir: Directory, b: Book, id: Id, workspace: Id, was: DirectKey)
    requires Agrees(dir, b) && b.IsDirect(id) && Found(b, id, Some(was)) && Occupied(dir, b, id, workspace)
    ensures !Agrees(dir, Move(b, id, workspace, Some(was)))
  {
    var o :| o != id && b.IsDirect(o) && b.conversations[o].workspace == workspace
             && Between(dir, b.conversations[o]) == Between(dir, b.conversations[id]);
    var moved, key := b.conversations[id].(workspace := workspace), KeyFor(workspace, was.left, was.right);
    MovedKey(dir, b, id, workspace, was);
    assert Between(dir, moved) == Between(dir, b.conversations[id]);
    hide Between, KeyFor;
    KeyCarriesOver(dir, moved, b.conversations[o], key);
    var after := Move(b, id, workspace, Some(was));
    assert after.IsDirect(o) && HasKey(dir, after.conversations[o], key) && after.index[key] == id;
  }

  lemma FreeAgrees(dir: Directory, b: Book, id: Id, workspace: Id, was: DirectKey)
    requires Agrees(dir, b) && b.IsDirect(id) && Found(b, id, Some(was)) && !Occupied(dir, b, id, workspace)
    ensures Agrees(dir, Move(b, id, workspace, Some(was)))
  {
    var moved, key := b.conversations[id].(workspace := workspace), KeyFor(workspace, was.left, was.right);
    MovedKey(dir, b, id, workspace, was);
    assert Between(dir, moved) == Between(dir, b.conversations[id]);
    hide Between, KeyFor, HasKey;
    forall o | o != id && b.IsDirect(o)
      ensures !HasKey(dir, b.conversations[o], key)
    {
      if HasKey(dir, b.conversations[o], key) {
        SameKey(dir, b.conversations[o], moved, key);
      }
    }
    MoveAgrees(dir, b, id, workspace, was);
  }

  /** A workspace migration keeps the index in agreement exactly when it does not
      land on a pair that already has a direct conversation there. */
  lemma MoveAgreesExactly(dir: Directory, b: Book, id: Id, workspace: Id, found: Option<DirectKey>)
    requires Agrees(dir, b) && id in b.conversations && Found(b, id, found)
    ensures Agrees(dir, Move(b, id, workspace, found)) <==> !Occupied(dir, b, id, workspace)
  {
    if b.IsDirect(id) {
      var k := DirectHasKey(dir, b, id);
      hide Agrees, Move, Occupied;
      if Occupied(dir, b, id, workspace) {
        OccupiedBreaks(dir, b, id, workspace, found.value);
      } else {
        FreeAgrees(dir, b, id, workspace, found.value);
      }
    } else {
      PutGroupAgrees(dir, b, b.conversations[id].(workspace := workspace));
    }
  }

  lemma MoveIndexed(dir: Directory, b: Book, id: Id, workspace: Id, found: Option<DirectKey>)
    requires Indexed(dir, b) && id in b.conversations && Found(b, id, found)
    ensures Indexed(dir, Move(b, id, workspace, found))
  {
    var c, after := b.conversations[id], Move(b, id, workspace, found);
    assert Between(dir, c.(workspace := workspace)) == Between(dir, c);
    if b.IsDirect(id) && found.Some? {
      MovedKey(dir, b, id, workspace, found.value);
    }
    hide HasKey, Between, KeyFor;
    assert forall o :: after.IsDirect(o) == b.IsDirect(o);
  }

  /** An identifier has one entry at most, so every scan finds the same. */
  lemma FoundIsUnique(b: Book, id: Id, f: Option<DirectKey>, g: Option<DirectKey>)
    requires OneKeyEach(b) && Found(b, id, f) && Found(b, id, g)
    ensures f == g
  {
  }

  /** Some entry of an identifier, if it has any. */
  ghost function EntryOf(b: Book, id: Id): (found: Option<DirectKey>)
    ensures Found(b, id, found)
  {
    if exists k :: k in b.index && b.index[k] == id then
      var k :| k in b.index && b.index[k] == id;
      Some(k)
    else None
  }

  function Delete(b: Book, id: Id): Book {
    b.(conversations := b.conversations - {id})
  }

  /** Deletion does not touch the index, so it keeps agreement exactly for groups. */
  lemma DeleteAgreesExactly(dir: Directory, b: Book, id: Id)
    requires Agrees(dir, b)
    ensures Agrees(dir, Delete(b, id)) <==> !b.IsDirect(id)
  {
    if b.IsDirect(id) {
      var k := DirectHasKey(dir, b, id);
      assert k in Delete(b, id).index;
    }
  }

  /** A deletion leaves a dangling entry exactly when some entry names what goes. */
  lemma DeleteResolvedExactly(b: Book, id: Id)
    requires Resolved(b)
    ensures Resolved(Delete(b, id)) <==> Found(b, id, None)
  {
  }

  lemma DeleteIndexed(dir: Directory, b: Book, id: Id)
    requires Indexed(dir, b)
    ensures Indexed(dir, Delete(b, id))
  {
    hide HasKey, Between;
    assert forall o :: Delete(b, id).IsDirect(o) ==> b.IsDirect(o);
  }
}
