/** What the cursors and the numbering of an event log are after any run: the
    acknowledgements, delivery marks and floors themselves, not the steps that apply
    them. */
module EventCursors {
  import opened Text
  import opened EventLog

  // ------------------------------------------------------------ acknowledging

  /** `cursor` is the largest number acknowledged by the run, zero if none was. */
  ghost predicate Acknowledged(ops: seq<Op>, cursor: nat) {
    && (forall i :: 0 <= i < |ops| && ops[i].DoAck? ==> ops[i].upto <= cursor)
    && (cursor == 0 || exists i :: 0 <= i < |ops| && ops[i].DoAck? && ops[i].upto == cursor)
  }

  /** Acknowledging acknowledges, and nothing else does. */
  lemma {:induction false} AckIsLargest(ops: seq<Op>)
    ensures Acknowledged(ops, Run(ops).ack)
  {
    hide Retain, Newest;
    if ops != [] {
      var n := |ops| - 1;
      AckIsLargest(ops[..n]);
      assert forall i :: 0 <= i < n ==> ops[i] == ops[..n][i];
      if ops[n].DoAck? && Run(ops).ack == ops[n].upto {
        assert ops[n].upto == Run(ops).ack;
      } else if Run(ops).ack != 0 {
        var i :| 0 <= i < n && ops[..n][i].DoAck? && ops[..n][i].upto == Run(ops[..n]).ack;
        assert ops[i].upto == Run(ops).ack;
      }
    }
  }

  lemma {:induction false} RetainIsAbove(events: seq<Event>, cursor: nat, e: Event)
    ensures e in Retain(events, cursor) <==> e in events && e.deliverySeq > cursor
  {
    if events != [] {
      RetainIsAbove(events[..|events| - 1], cursor, e);
      assert events == events[..|events| - 1] + [events[|events| - 1]];
    }
  }

  /** Right after a push or an acknowledgement the log holds nothing that both
      consumers have passed. */
  lemma ProcessedAreDropped(ops: seq<Op>, e: Event)
    requires ops != [] && (ops[|ops| - 1].DoPush? || ops[|ops| - 1].DoAck?) && e in Run(ops).events
    ensures e.deliverySeq > Run(ops).ack || (Run(ops).hook.Some? && e.deliverySeq > Run(ops).hook.value)
  {
    var before, op := Run(ops[..|ops| - 1]), ops[|ops| - 1];
    if op.DoPush? {
      RetainIsAbove(before.events + [Event(before.next + 1, op.kind, op.payload)], SafeCursor(before), e);
    } else {
      RetainIsAbove(before.events, SafeCursor(Run(ops)), e);
    }
    hide Retain;
  }

  /** Polling without a cursor never shows an acknowledged event again. */
  lemma AckedAreNotListed(ops: seq<Op>, e: Event, i: nat)
    requires e in Listed(Run(ops), None) && i < |ops| && ops[i].DoAck?
    ensures e.deliverySeq > ops[i].upto
  {
    AckIsLargest(ops);
    RetainIsAbove(Run(ops).events, Run(ops).ack, e);
    hide Run, Retain;
  }

  /** And it shows every other event ever pushed, except those the cap displaced. */
  lemma UnackedAreListed(ops: seq<Op>, k: nat)
    requires k < |History(ops)|
    requires forall i :: 0 <= i < |ops| && ops[i].DoAck? ==> History(ops)[k].deliverySeq > ops[i].upto
    ensures History(ops)[k] in Listed(Run(ops), None) || k + HARD_CAP < |History(ops)|
  {
    AckIsLargest(ops);
    RunFaithful(ops);
    assert History(ops)[k].deliverySeq > 0;
    ConsumersSeeEverything(ops, Run(ops).ack, k);
    hide Run, History, Retain, Faithful;
  }

  // --------------------------------------------------------------- delivering

  /** Step `j` is the last to configure the webhook. */
  ghost predicate Configured(ops: seq<Op>, j: nat) {
    j < |ops| && ops[j].DoSetHook? && forall i :: j < i < |ops| ==> !ops[i].DoSetHook?
  }

  /** `cursor` is the largest of where polling stood at step `j` and what was marked as
      delivered since. */
  ghost predicate Delivered(ops: seq<Op>, j: nat, cursor: nat)
    requires j < |ops|
  {
    && Run(ops[..j]).ack <= cursor
    && (forall i :: j < i < |ops| && ops[i].DoMark? ==> ops[i].upto <= cursor)
    && (cursor == Run(ops[..j]).ack || exists i :: j < i < |ops| && ops[i].DoMark? && ops[i].upto == cursor)
  }

  lemma {:induction false} HookIsLargest(ops: seq<Op>, j: nat)
    requires Configured(ops, j)
    ensures Run(ops).hook.Some? && Delivered(ops, j, Run(ops).hook.value)
  {
    hide Retain, Newest;
    var n := |ops| - 1;
    if j < n {
      assert forall i :: 0 <= i < n ==> ops[i] == ops[..n][i];
      HookIsLargest(ops[..n], j);
      assert ops[..n][..j] == ops[..j];
      var was, now := Run(ops[..n]).hook.value, Run(ops).hook.value;
      if ops[n].DoMark? && now == ops[n].upto {
        assert ops[n].upto == now;
      } else if now != Run(ops[..j]).ack {
        var i :| j < i < n && ops[..n][i].DoMark? && ops[..n][i].upto == was;
        assert ops[i].upto == now;
      }
    }
  }

  lemma {:induction false} NoHookUnlessConfigured(ops: seq<Op>)
    ensures Run(ops).hook.Some? <==> exists j :: 0 <= j < |ops| && ops[j].DoSetHook?
  {
    hide Retain, Newest;
    if ops != [] {
      var n := |ops| - 1;
      NoHookUnlessConfigured(ops[..n]);
      assert forall i :: 0 <= i < n ==> ops[i] == ops[..n][i];
      if ops[n].DoSetHook? {
        assert ops[n].DoSetHook?;
      } else if Run(ops).hook.Some? {
        var j :| 0 <= j < n && ops[..n][j].DoSetHook?;
        assert ops[j].DoSetHook?;
      }
    }
  }

  // ---------------------------------------------------------------- numbering

  /** The last number in use: the largest pushed number or floor, zero at first. */
  ghost predicate NumberedUpTo(ops: seq<Op>, next: nat) {
    && (forall i :: 0 <= i < |ops| && ops[i].DoEnsure? ==> ops[i].atLeast <= next)
    && (forall k :: 0 <= k < |History(ops)| ==> History(ops)[k].deliverySeq <= next)
    && (next == 0 || (exists i :: 0 <= i < |ops| && ops[i].DoEnsure? && ops[i].atLeast == next)
        || (exists k :: 0 <= k < |History(ops)| && History(ops)[k].deliverySeq == next))
  }

  lemma {:induction false} NumberingIsTight(ops: seq<Op>)
    ensures NumberedUpTo(ops, Run(ops).next)
  {
    hide Retain, Newest;
    if ops != [] {
      var n := |ops| - 1;
      var front := ops[..n];
      NumberingIsTight(front);
      assert forall i :: 0 <= i < n ==> ops[i] == front[i];
      assert History(front) <= History(ops);
      var next := Run(ops).next;
      if ops[n].DoPush? {
        assert History(ops)[|History(front)|].deliverySeq == next;
      } else if ops[n].DoEnsure? && ops[n].atLeast == next {
        assert ops[n].atLeast == next;
      } else if next != 0 {
        if exists i :: 0 <= i < n && front[i].DoEnsure? && front[i].atLeast == next {
          var i :| 0 <= i < n && front[i].DoEnsure? && front[i].atLeast == next;
          assert ops[i].atLeast == next;
        }
      }
    }
  }

  /** A pushed event is numbered one above everything pushed and every floor set before. */
  lemma PushIsNumberedNext(ops: seq<Op>, kind: string, payload: string)
    ensures var n := |History(ops)|;
            var all := History(ops + [DoPush(kind, payload)]);
            && |all| == n + 1 && History(ops) <= all
            && all[n].kind == kind && all[n].payload == payload
            && all[n].deliverySeq > 0 && NumberedUpTo(ops, all[n].deliverySeq - 1)
  {
    NumberingIsTight(ops);
    hide NumberedUpTo, Run;
    assert (ops + [DoPush(kind, payload)])[..|ops|] == ops;
  }

  // ------------------------------------------------------------ many receivers

  /** Pushing to a list of principals gives each one event per mention. */
  lemma {:induction false} OnePerMention(log: Log, ids: seq<Id>, p: Id, kind: string, payload: string)
    ensures Pushes(log, ids, p, kind, payload).next == log.next + multiset(ids)[p]
    ensures p !in ids ==> Pushes(log, ids, p, kind, payload) == log
  {
    hide Retain, Newest;
    if ids != [] {
      var front, last := ids[..|ids| - 1], ids[|ids| - 1];
      OnePerMention(log, front, p, kind, payload);
      assert ids == front + [last];
    }
  }
}
