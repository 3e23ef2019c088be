/** Per-principal event logs with two consumers, polling and webhook: what may be
    discarded, and what each consumer is still shown. */
module EventLog {
  import opened Text

  const HARD_CAP := 50_000

  datatype Event = Event(deliverySeq: nat, kind: string, payload: string)

  /** One principal's log: `hook` is the webhook's cursor once one is configured. */
  datatype Log = Log(events: seq<Event>, ack: nat, hook: Option<nat>, next: nat)

  const EMPTY := Log([], 0, None, 0)

  function Max(a: nat, b: nat): nat {
    if a < b then b else a
  }

  /** What every consumer has processed. */
  function SafeCursor(log: Log): nat {
    if log.hook.Some? && log.hook.value < log.ack then log.hook.value else log.ack
  }

  function Retain(events: seq<Event>, cursor: nat): seq<Event> {
    if events == [] then []
    else
      var rest, e := Retain(events[..|events| - 1], cursor), events[|events| - 1];
      if e.deliverySeq > cursor then rest + [e] else rest
  }

  // --------------------------------------------------------------- operations

  function Push(log: Log, kind: string, payload: string): Log {
    var e := Event(log.next + 1, kind, payload);
    log.(next := log.next + 1, events := Newest(Retain(log.events + [e], SafeCursor(log)), HARD_CAP))
  }

  function Ack(log: Log, upto: nat): Log {
    var acked := log.(ack := Max(log.ack, upto));
    acked.(events := Retain(log.events, SafeCursor(acked)))
  }

  /** A new webhook starts where polling stands. */
  function SetHook(log: Log): Log {
    log.(hook := Some(log.ack))
  }

  function MarkDelivered(log: Log, upto: nat): Log {
    if log.hook.None? then log else log.(hook := Some(Max(log.hook.value, upto)))
  }

  function EnsureSeq(log: Log, atLeast: nat): Log {
    log.(next := Max(log.next, atLeast))
  }

  function Listed(log: Log, cursor: Option<nat>): seq<Event> {
    Retain(log.events, if cursor.Some? then cursor.value else log.ack)
  }

  // --------------------------------------------------------------------- runs

  datatype Op =
    | DoPush(kind: string, payload: string)
    | DoAck(upto: nat)
    | DoSetHook
    | DoMark(upto: nat)
    | DoEnsure(atLeast: nat)

  function Apply(log: Log, op: Op): Log {
    match op
    case DoPush(kind, payload) => Push(log, kind, payload)
    case DoAck(upto) => Ack(log, upto)
    case DoSetHook => SetHook(log)
    case DoMark(upto) => MarkDelivered(log, upto)
    case DoEnsure(atLeast) => EnsureSeq(log, atLeast)
  }

  function Run(ops: seq<Op>): Log {
    if ops == [] then EMPTY else Apply(Run(ops[..|ops| - 1]), ops[|ops| - 1])
  }

  /** Every event ever pushed, in order, with the number it was given. */
  function History(ops: seq<Op>): seq<Event> {
    if ops == [] then []
    else
      var front, op := ops[..|ops| - 1], ops[|ops| - 1];
      if op.DoPush? then History(front) + [Event(Run(front).next + 1, op.kind, op.payload)] else History(front)
  }

  // ---------------------------------------------------------------- retention

  ghost predicate Numbered(events: seq<Event>, next: nat) {
    && (forall i, j :: 0 <= i < j < |events| ==> events[i].deliverySeq < events[j].deliverySeq)
    && (forall i :: 0 <= i < |events| ==> 0 < events[i].deliverySeq <= next)
  }

  /** The log holds the history from position `k` on; what is missing was processed
      by every consumer or displaced by fifty thousand newer events. */
  ghost predicate Retained(log: Log, history: seq<Event>, k: nat) {
    && k <= |history| && log.events == history[k..]
    && forall i :: 0 <= i < k ==> history[i].deliverySeq <= SafeCursor(log) || i + HARD_CAP < |history|
  }

  ghost predicate Faithful(log: Log, history: seq<Event>) {
    && Numbered(history, log.next)
    && |log.events| <= HARD_CAP
    && Kept(log, history)
  }

  ghost predicate Kept(log: Log, history: seq<Event>) {
    exists k: nat :: Retained(log, history, k)
  }

  lemma {:induction false} RetainNone(events: seq<Event>, cursor: nat)
    requires forall i :: 0 <= i < |events| ==> events[i].deliverySeq <= cursor
    ensures Retain(events, cursor) == []
  {
    if events != [] {
      RetainNone(events[..|events| - 1], cursor);
    }
  }

  lemma LastIsHighest(events: seq<Event>, next: nat)
    requires Numbered(events, next) && events != []
    ensures Numbered(events[..|events| - 1], next)
    ensures forall i :: 0 <= i < |events| ==> events[i].deliverySeq <= events[|events| - 1].deliverySeq
  {
  }

  /** Discarding processed events of a numbered list drops a prefix. */
  lemma {:induction false} RetainSuffix(events: seq<Event>, cursor: nat, next: nat) returns (k: nat)
    requires Numbered(events, next)
    ensures k <= |events| && Retain(events, cursor) == events[k..]
    ensures forall i :: 0 <= i < k ==> events[i].deliverySeq <= cursor
  {
    hide Numbered;
    if events == [] {
      k := 0;
    } else {
      var front, e := events[..|events| - 1], events[|events| - 1];
      LastIsHighest(events, next);
      if e.deliverySeq <= cursor {
        k := |events|;
        RetainNone(events, cursor);
      } else {
        k := RetainSuffix(front, cursor, next);
        assert events[k..] == front[k..] + [e];
      }
    }
  }

  lemma SuffixNumbered(events: seq<Event>, k: nat, next: nat)
    requires Numbered(events, next) && k <= |events|
    ensures Numbered(events[k..], next)
  {
  }

  /** Retaining above a cursor that only grows keeps a log faithful. */
  lemma RetainKeeps(log: Log, log': Log, history: seq<Event>)
    requires Numbered(history, log'.next) && Kept(log, history)
    requires SafeCursor(log) <= SafeCursor(log')
    requires log'.events == Retain(log.events, SafeCursor(log'))
    ensures Kept(log', history) && |log'.events| <= |log.events|
  {
    var k: nat :| Retained(log, history, k);
    SuffixNumbered(history, k, log'.next);
    hide Numbered, SafeCursor;
    var d := RetainSuffix(log.events, SafeCursor(log'), log'.next);
    hide Retain;
    assert history[k..][d..] == history[k + d..];
    forall i | 0 <= i < k + d
      ensures history[i].deliverySeq <= SafeCursor(log') || i + HARD_CAP < |history|
    {
      if i >= k {
        assert history[i] == log.events[i - k];
      }
    }
    assert Retained(log', history, k + d);
  }

  lemma CapKeeps(log: Log, log': Log, history: seq<Event>)
    requires Kept(log, history) && log' == log.(events := Newest(log.events, HARD_CAP))
    ensures Kept(log', history) && |log'.events| <= HARD_CAP
  {
    var k: nat :| Retained(log, history, k);
    if |log.events| > HARD_CAP {
      var d := |log.events| - HARD_CAP;
      assert history[k..][d..] == history[k + d..];
      assert Retained(log', history, k + d);
    } else {
      assert Retained(log', history, k);
    }
  }

  lemma AddKeeps(log: Log, history: seq<Event>, e: Event)
    requires Kept(log, history)
    ensures Kept(log.(next := log.next + 1, events := log.events + [e]), history + [e])
  {
    var k: nat :| Retained(log, history, k);
    var grown := history + [e];
    assert grown[k..] == history[k..] + [e];
    assert forall i :: 0 <= i < k ==> grown[i] == history[i];
    assert Retained(log.(next := log.next + 1, events := log.events + [e]), grown, k);
  }

  lemma AddNumbered(history: seq<Event>, next: nat, e: Event)
    requires Numbered(history, next) && e.deliverySeq == next + 1
    ensures Numbered(history + [e], next + 1)
  {
  }

  lemma PushFaithful(log: Log, history: seq<Event>, kind: string, payload: string)
    requires Faithful(log, history)
    ensures Faithful(Push(log, kind, payload), history + [Event(log.next + 1, kind, payload)])
  {
    hide Kept, Numbered, Retain, Newest;
    var e := Event(log.next + 1, kind, payload);
    var added := log.(next := log.next + 1, events := log.events + [e]);
    AddKeeps(log, history, e);
    AddNumbered(history, log.next, e);
    var kept := added.(events := Retain(added.events, SafeCursor(log)));
    RetainKeeps(added, kept, history + [e]);
    CapKeeps(kept, Push(log, kind, payload), history + [e]);
  }

  lemma NumberedLater(history: seq<Event>, next: nat, later: nat)
    requires Numbered(history, next) && next <= later
    ensures Numbered(history, later)
  {
  }

  lemma ApplyFaithful(log: Log, history: seq<Event>, op: Op)
    requires Faithful(log, history) && !op.DoPush?
    ensures Faithful(Apply(log, op), history)
  {
    hide Numbered, Retain;
    var after := Apply(log, op);
    NumberedLater(history, log.next, after.next);
    if op.DoAck? {
      RetainKeeps(log, after, history);
    } else {
      var k: nat :| Retained(log, history, k);
      assert Retained(after, history, k);
    }
  }

  lemma EmptyFaithful()
    ensures Faithful(EMPTY, [])
  {
    assert Retained(EMPTY, [], 0);
  }

  /** For every interleaving of pushes, acknowledgements, webhook changes, delivery
      marks and renumberings, the log is a suffix of its history, the numbers are
      strictly increasing and never reused, and only processed or displaced events
      are missing. */
  lemma {:induction false} RunFaithful(ops: seq<Op>)
    ensures Faithful(Run(ops), History(ops))
  {
    hide Faithful, Push, Ack;
    if ops == [] {
      EmptyFaithful();
    } else {
      var front, op := ops[..|ops| - 1], ops[|ops| - 1];
      RunFaithful(front);
      if op.DoPush? {
        PushFaithful(Run(front), History(front), op.kind, op.payload);
      } else {
        ApplyFaithful(Run(front), History(front), op);
      }
    }
  }

  /** Listing above any cursor that polling or the webhook has not passed shows every
      pushed event above it, except those displaced by the cap. */
  lemma ConsumersSeeEverything(ops: seq<Op>, cursor: nat, i: nat)
    requires i < |History(ops)| && History(ops)[i].deliverySeq > cursor >= SafeCursor(Run(ops))
    ensures History(ops)[i] in Listed(Run(ops), Some(cursor)) || i + HARD_CAP < |History(ops)|
  {
    RunFaithful(ops);
    var log, history := Run(ops), History(ops);
    var k: nat :| Retained(log, history, k);
    SuffixNumbered(history, k, log.next);
    var d := RetainSuffix(log.events, cursor, log.next);
    hide Numbered, Retain, Run, History;
    if i >= k {
      assert log.events[i - k] == history[i];
      assert log.events[d..][i - k - d] == history[i];
    }
  }

  // -------------------------------------------------------------- the service

  type Id = string

  datatype Webhook = Webhook(url: string, eventTypes: seq<string>, cursor: nat, secret: string)

  datatype Delivery = Delivery(principal: Id, url: string, event: Event, secret: string)

  function Pushes(log: Log, ids: seq<Id>, p: Id, kind: string, payload: string): Log {
    if ids == [] then log
    else
      var before := Pushes(log, ids[..|ids| - 1], p, kind, payload);
      if ids[|ids| - 1] == p then Push(before, kind, payload) else before
  }

  predicate WebAddress(url: string) {
    !Blank(url) && ("http://" <= url || "https://" <= url)
  }

  /** Unread, and of a kind the webhook asked for; an empty list asks for all. */
  predicate Wanted(hook: Webhook, e: Event) {
    e.deliverySeq > hook.cursor && (hook.eventTypes == [] || e.kind in hook.eventTypes)
  }

  function Due(p: Id, hook: Webhook, events: seq<Event>): (r: seq<Delivery>)
    ensures forall d :: d in r <==> d.event in events && Wanted(hook, d.event) && d == Delivery(p, hook.url, d.event, hook.secret)
  {
    if events == [] then []
    else
      var rest, e := Due(p, hook, events[..|events| - 1]), events[|events| - 1];
      assert events == events[..|events| - 1] + [e];
      if Wanted(hook, e) then rest + [Delivery(p, hook.url, e, hook.secret)] else rest
  }

  lemma {:induction false} RetainedAreLogged(events: seq<Event>, cursor: nat, e: Event)
    requires e in Retain(events, cursor)
    ensures e in events
  {
    if events[|events| - 1] != e {
      RetainedAreLogged(events[..|events| - 1], cursor, e);
    }
  }

  /** Whatever happened before, every event ever pushed that the webhook wants and has
      not passed is due to it, except those displaced by the cap. */
  lemma WebhooksMissNothing(ops: seq<Op>, p: Id, hook: Webhook, i: nat)
    requires Run(ops).hook == Some(hook.cursor) && i < |History(ops)|
    requires History(ops)[i].deliverySeq > hook.cursor
    requires hook.eventTypes == [] || History(ops)[i].kind in hook.eventTypes
    ensures Delivery(p, hook.url, History(ops)[i], hook.secret) in Due(p, hook, Run(ops).events)
            || i + HARD_CAP < |History(ops)|
  {
    ConsumersSeeEverything(ops, hook.cursor, i);
    hide Run, History;
    if History(ops)[i] in Listed(Run(ops), Some(hook.cursor)) {
      RetainedAreLogged(Run(ops).events, hook.cursor, History(ops)[i]);
    }
  }

  /** A due event is in the log, unread and of a kind asked for. */
  lemma DueOnlyWanted(p: Id, hook: Webhook, events: seq<Event>, d: Delivery)
    requires d in Due(p, hook, events)
    ensures d.principal == p && d.url == hook.url && d.secret == hook.secret && d.event in events
    ensures d.event.deliverySeq > hook.cursor && (hook.eventTypes != [] ==> d.event.kind in hook.eventTypes)
  {
  }

  class EventService {
    var events: map<Id, seq<Event>>
    var ackCursor: map<Id, nat>
    var webhooks: map<Id, Webhook>
    var nextSeq: map<Id, nat>

    constructor ()
      ensures forall p: Id :: LogOf(p) == EMPTY
    {
      events, ackCursor, webhooks, nextSeq := map[], map[], map[], map[];
    }

    /** A principal's log, with the defaults of absent entries. */
    function LogOf(p: Id): Log
      reads this
    {
      Log(if p in events then events[p] else [],
          if p in ackCursor then ackCursor[p] else 0,
          if p in webhooks then Some(webhooks[p].cursor) else None,
          if p in nextSeq then nextSeq[p] else 0)
    }

    method PushOne(p: Id, kind: string, payload: string)
      modifies `events, `nextSeq
      ensures LogOf(p) == Push(old(LogOf(p)), kind, payload)
      ensures forall q: Id :: q != p ==> LogOf(q) == old(LogOf(q))
    {
      hide Retain;
      nextSeq := nextSeq[p := if p in nextSeq then nextSeq[p] + 1 else 1];
      var list := (if p in events then events[p] else []) + [Event(nextSeq[p], kind, payload)];
      var ackSeq := if p in ackCursor then ackCursor[p] else 0;
      var safe := if p in webhooks && webhooks[p].cursor < ackSeq then webhooks[p].cursor else ackSeq;
      list := Retain(list, safe);
      if |list| > HARD_CAP {
        list := list[|list| - HARD_CAP..];
      }
      events := events[p := list];
    }

    method PushEvent(ids: seq<Id>, kind: string, payload: string)
      modifies `events, `nextSeq
      ensures forall p: Id :: LogOf(p) == Pushes(old(LogOf(p)), ids, p, kind, payload)
    {
      for i := 0 to |ids|
        invariant forall p: Id :: LogOf(p) == Pushes(old(LogOf(p)), ids[..i], p, kind, payload)
        invariant ackCursor == old(ackCursor) && webhooks == old(webhooks)
      {
        hide Push;
        assert ids[..i + 1][..i] == ids[..i];
        PushOne(ids[i], kind, payload);
      }
      assert ids[..|ids|] == ids;
    }

    /** `active`: the principal exists and is not disabled. */
    method AckEvents(active: bool, p: Id, upto: nat) returns (cursor: Option<nat>)
      modifies `ackCursor, `events
      ensures !active ==> cursor.None? && forall q: Id :: LogOf(q) == old(LogOf(q))
      ensures active ==> LogOf(p) == Ack(old(LogOf(p)), upto) && cursor == Some(LogOf(p).ack)
      ensures active ==> forall q: Id :: q != p ==> LogOf(q) == old(LogOf(q))
    {
      if !active {
        return None;
      }
      ackCursor := ackCursor[p := Max(if p in ackCursor then ackCursor[p] else 0, upto)];
      var acked := ackCursor[p];
      var min := if p in webhooks && webhooks[p].cursor < acked then webhooks[p].cursor else acked;
      if p in events {
        events := events[p := Retain(events[p], min)];
      }
      cursor := Some(acked);
    }

    /** `allowed`: the rate and authority checks passed; `generated` is a fresh secret,
        used unless the caller supplies one that is not blank. */
    method SetEventWebhook(allowed: bool, p: Id, url: string, eventTypes: seq<string>, secret: Option<string>, generated: string)
      returns (config: Option<Webhook>)
      modifies `webhooks
      ensures config.Some? <==> allowed && WebAddress(url)
      ensures config.Some? ==>
                && config.value.url == url && config.value.eventTypes == eventTypes
                && config.value.secret == (if secret.Some? && !Blank(secret.value) then Trim(secret.value) else generated)
                && webhooks == old(webhooks)[p := config.value] && LogOf(p) == SetHook(old(LogOf(p)))
      ensures config.None? ==> webhooks == old(webhooks)
      ensures forall q: Id :: q != p ==> LogOf(q) == old(LogOf(q))
    {
      if !allowed || !WebAddress(url) {
        return None;
      }
      var key := generated;
      if secret.Some? {
        TrimBlank(secret.value);
        if Trim(secret.value) != "" {
          key := Trim(secret.value);
        }
      }
      var hook := Webhook(url, eventTypes, if p in ackCursor then ackCursor[p] else 0, key);
      webhooks := webhooks[p := hook];
      config := Some(hook);
    }

    method MarkWebhookDelivered(p: Id, upto: nat) returns (cursor: Option<nat>)
      modifies `webhooks
      ensures LogOf(p) == MarkDelivered(old(LogOf(p)), upto) && cursor == LogOf(p).hook
      ensures webhooks == if cursor.None? then old(webhooks)
                          else old(webhooks)[p := old(webhooks)[p].(cursor := cursor.value)]
      ensures forall q: Id :: q != p ==> LogOf(q) == old(LogOf(q))
    {
      if p !in webhooks {
        return None;
      }
      webhooks := webhooks[p := webhooks[p].(cursor := Max(webhooks[p].cursor, upto))];
      cursor := Some(webhooks[p].cursor);
    }

    method EnsureEventSeqAtLeast(p: Id, atLeast: nat)
      modifies `nextSeq
      ensures LogOf(p) == EnsureSeq(old(LogOf(p)), atLeast)
      ensures forall q: Id :: q != p ==> LogOf(q) == old(LogOf(q))
    {
      var current := if p in nextSeq then nextSeq[p] else 0;
      nextSeq := nextSeq[p := if current < atLeast then atLeast else current];
    }

    /** `allowed`: the principal is active and may read events. */
    method ListEvents(allowed: bool, p: Id, cursor: Option<nat>) returns (listed: Option<seq<Event>>)
      ensures listed == if allowed then Some(Listed(LogOf(p), cursor)) else None
    {
      if !allowed {
        return None;
      }
      var from := if cursor.Some? then cursor.value else if p in ackCursor then ackCursor[p] else 0;
      var list := [];
      var all := if p in events then events[p] else [];
      for i := 0 to |all|
        invariant list == Retain(all[..i], from)
      {
        assert all[..i + 1][..i] == all[..i];
        if all[i].deliverySeq > from {
          list := list + [all[i]];
        }
      }
      assert all[..|all|] == all;
      listed := Some(list);
    }

    /** Deliveries due to one webhook, oldest first. */
    method PendingDeliveries(p: Id) returns (due: seq<Delivery>)
      ensures due == if p in webhooks then Due(p, webhooks[p], LogOf(p).events) else []
    {
      due := [];
      if p in webhooks {
        var hook := webhooks[p];
        var all := if p in events then events[p] else [];
        for i := 0 to |all|
          invariant due == Due(p, hook, all[..i])
        {
          assert all[..i + 1][..i] == all[..i];
          if Wanted(hook, all[i]) {
            due := due + [Delivery(p, hook.url, all[i], hook.secret)];
          }
        }
        assert all[..|all|] == all;
      }
    }
  }
}
