/** The bounded dedupe window over mirrored message ids, and the announcements
    it lets through. */
module RecentIds {
  import opened Text
  import opened EventLog

  const CAPACITY := 10_000

  ghost predicate Distinct(ids: seq<Id>) {
    forall i, j :: 0 <= i < j < |ids| ==> ids[i] != ids[j]
  }

  /** The simple form: accept an id unless it is among the last accepted ones. */
  function Accept(accepted: seq<Id>, id: Id): seq<Id> {
    if id in Newest(accepted, CAPACITY) then accepted else accepted + [id]
  }

  function AcceptAll(ids: seq<Id>): seq<Id> {
    if ids == [] then [] else Accept(AcceptAll(ids[..|ids| - 1]), ids[|ids| - 1])
  }

  /** Equal ids lie more than a window apart. */
  ghost predicate Spread(accepted: seq<Id>) {
    forall i, j :: 0 <= i < j < |accepted| && accepted[i] == accepted[j] ==> j - i > CAPACITY
  }

  lemma AcceptSpreads(accepted: seq<Id>, id: Id)
    requires Spread(accepted)
    ensures Spread(Accept(accepted, id))
  {
    var last := Newest(accepted, CAPACITY);
    var start := |accepted| - |last|;
    assert forall i :: start <= i < |accepted| ==> accepted[i] == last[i - start];
  }

  lemma {:induction false} AcceptedAreSpread(ids: seq<Id>)
    ensures Spread(AcceptAll(ids))
  {
    if ids != [] {
      AcceptedAreSpread(ids[..|ids| - 1]);
      AcceptSpreads(AcceptAll(ids[..|ids| - 1]), ids[|ids| - 1]);
    }
  }

  /** An id is announced twice only after ten thousand other ids, all different from
      it and from one another, were announced in between. */
  /** Whatever came before, an id just seen is among the recent ones, so an immediate
      repeat is suppressed; and only ids that were seen are. */
  lemma JustSeen(ids: seq<Id>, id: Id)
    ensures id in Newest(AcceptAll(ids + [id]), CAPACITY)
  {
    assert (ids + [id])[..|ids|] == ids;
    var before := AcceptAll(ids);
    if id !in Newest(before, CAPACITY) {
      var after := before + [id];
      assert Newest(after, CAPACITY)[|Newest(after, CAPACITY)| - 1] == id;
    }
  }

  lemma {:induction false} AcceptedWereSeen(ids: seq<Id>, id: Id)
    requires id in AcceptAll(ids)
    ensures id in ids
  {
    if id != ids[|ids| - 1] {
      AcceptedWereSeen(ids[..|ids| - 1], id);
    }
  }

  lemma RepeatNeedsWindow(ids: seq<Id>, i: nat, j: nat)
    requires i < j < |AcceptAll(ids)| && AcceptAll(ids)[i] == AcceptAll(ids)[j]
    ensures j - i > CAPACITY
    ensures Distinct(AcceptAll(ids)[i + 1..i + 1 + CAPACITY])
    ensures AcceptAll(ids)[i] !in AcceptAll(ids)[i + 1..i + 1 + CAPACITY]
  {
    AcceptedAreSpread(ids);
    hide AcceptAll;
    var accepted := AcceptAll(ids);
    var between := accepted[i + 1..i + 1 + CAPACITY];
    assert forall a :: 0 <= a < |between| ==> between[a] == accepted[i + 1 + a];
  }

  lemma {:induction false} WindowDistinct(accepted: seq<Id>)
    requires Spread(accepted)
    ensures Distinct(Newest(accepted, CAPACITY))
  {
    var last := Newest(accepted, CAPACITY);
    var start := |accepted| - |last|;
    assert forall i :: 0 <= i < |last| ==> last[i] == accepted[start + i];
  }

  /** The fast form: a set for lookup and a queue for eviction. */
  class RecentMessageIds {
    var seen: set<Id>
    var order: seq<Id>
    ghost var accepted: seq<Id>

    ghost predicate Valid()
      reads this
    {
      Spread(accepted) && order == Newest(accepted, CAPACITY) && seen == set id | id in order
    }

    constructor ()
      ensures Valid() && accepted == []
    {
      seen, order, accepted := {}, [], [];
    }

    method Insert(id: Id) returns (isNew: bool)
      requires Valid()
      modifies this
      ensures Valid()
      ensures isNew == (id !in Newest(old(accepted), CAPACITY))
      ensures accepted == Accept(old(accepted), id)
    {
      if id in seen {
        return false;
      }
      AcceptSpreads(accepted, id);
      WindowDistinct(accepted);
      ghost var before := order;
      seen := seen + {id};
      order := order + [id];
      accepted := accepted + [id];
      if |order| > CAPACITY {
        var evicted := order[0];
        order := order[1..];
        seen := seen - {evicted};
        EvictedOnly(before, id);
      }
      isNew := true;
    }
  }

  lemma EvictedOnly(before: seq<Id>, id: Id)
    requires Distinct(before) && before != [] && id !in before
    ensures var order := before + [id];
            (set x | x in before) + {id} - {order[0]} == set x | x in order[1..]
  {
    var order := before + [id];
    assert order[1..] == before[1..] + [id];
    assert forall x :: x in before <==> x == before[0] || x in before[1..];
    assert before[0] !in before[1..];
  }

  /** A mirrored message is announced to the members of its conversation once per
      acceptance; a suppressed repeat changes nothing. */
  method InjectMessageWithEvent(recent: RecentMessageIds, service: EventService, id: Id, members: seq<Id>, payload: string)
    returns (announced: bool)
    requires recent.Valid()
    modifies recent, service`events, service`nextSeq
    ensures recent.Valid() && recent.accepted == Accept(old(recent.accepted), id)
    ensures announced == (id !in Newest(old(recent.accepted), CAPACITY))
    ensures forall p: Id :: service.LogOf(p) ==
              if announced then Pushes(old(service.LogOf(p)), members, p, "message.created", payload)
              else old(service.LogOf(p))
  {
    announced := recent.Insert(id);
    if announced {
      hide Pushes;
      service.PushEvent(members, "message.created", payload);
    }
  }
}
