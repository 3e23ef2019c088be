/** The sliding-window limiter, over times in nanoseconds. */
module RateLimit {

  const WINDOW := 60_000_000_000
  const MILLI := 1_000_000

  datatype Answer = Admitted | Limited(retryAfterMs: nat)

  function Retain(entries: seq<int>, after: int): (r: seq<int>)
    ensures forall x :: x in r <==> x in entries && x > after
  {
    if entries == [] then []
    else
      var rest, x := Retain(entries[..|entries| - 1], after), entries[|entries| - 1];
      assert entries == entries[..|entries| - 1] + [x];
      if x > after then rest + [x] else rest
  }

  function Min(entries: seq<int>): (m: int)
    requires entries != []
    ensures m in entries && forall x :: x in entries ==> m <= x
  {
    if |entries| == 1 then entries[0]
    else
      var m := Min(entries[1..]);
      assert entries == [entries[0]] + entries[1..];
      if entries[0] < m then entries[0] else m
  }

  function CeilDiv(a: nat, b: nat): nat
    requires b > 0
  {
    (a + b - 1) / b
  }

  function AtLeastZero(x: int): nat {
    if x < 0 then 0 else x
  }

  /** Time until the oldest entry leaves the window. */
  function Remaining(entries: seq<int>, at: int): int {
    (if entries == [] then at else Min(entries)) + WINDOW - at
  }

  function Check(entries: seq<int>, limit: nat, at: int): (seq<int>, Answer) {
    var kept := Retain(entries, at - WINDOW);
    if |kept| >= limit then
      var remaining := Remaining(kept, at);
      (kept, Limited(CeilDiv(AtLeastZero(remaining), MILLI)))
    else (kept + [at], Admitted)
  }

  class Window {
    var entries: seq<int>

    constructor ()
      ensures entries == []
    {
      entries := [];
    }

    method CheckWindow(limit: nat, at: int) returns (answer: Answer)
      modifies this
      ensures (entries, answer) == Check(old(entries), limit, at)
    {
      var kept := [];
      for i := 0 to |entries|
        invariant kept == Retain(entries[..i], at - WINDOW)
        invariant entries == old(entries)
      {
        assert entries[..i + 1][..i] == entries[..i];
        if entries[i] > at - WINDOW {
          kept := kept + [entries[i]];
        }
      }
      assert entries[..|entries|] == entries;
      entries := kept;
      if |entries| >= limit {
        var remaining := Remaining(entries, at);
        return Limited(CeilDiv(AtLeastZero(remaining), MILLI));
      }
      entries := entries + [at];
      answer := Admitted;
    }
  }

  // --------------------------------------------------------------------- runs

  /** The stored entries and all admissions after a sequence of calls. */
  function Run(calls: seq<int>, limit: nat): (r: (seq<int>, seq<int>)) {
    if calls == [] then ([], [])
    else
      var (entries, admitted) := Run(calls[..|calls| - 1], limit);
      var at := calls[|calls| - 1];
      var (next, answer) := Check(entries, limit, at);
      (next, if answer.Admitted? then admitted + [at] else admitted)
  }

  ghost predicate Ascending(times: seq<int>) {
    forall i, j :: 0 <= i <= j < |times| ==> times[i] <= times[j]
  }

  lemma {:induction false} RetainNone(entries: seq<int>, after: int)
    requires forall i :: 0 <= i < |entries| ==> entries[i] <= after
    ensures Retain(entries, after) == []
  {
    if entries != [] {
      RetainNone(entries[..|entries| - 1], after);
    }
  }

  /** Of ascending entries, what is retained is a tail. */
  lemma {:induction false} RetainSuffix(entries: seq<int>, after: int) returns (k: nat)
    requires Ascending(entries)
    ensures k <= |entries| && Retain(entries, after) == entries[k..]
    ensures forall i :: 0 <= i < k ==> entries[i] <= after
  {
    if entries == [] {
      k := 0;
    } else {
      var front, x := entries[..|entries| - 1], entries[|entries| - 1];
      if x <= after {
        k := |entries|;
        RetainNone(entries, after);
      } else {
        k := RetainSuffix(front, after);
        assert entries[k..] == front[k..] + [x];
      }
    }
  }

  /** The entries are the admissions that may still matter: the rest are at least
      a window old, and at most `limit` are kept. */
  ghost predicate Kept(entries: seq<int>, admitted: seq<int>, limit: nat, now: int) {
    && Ascending(admitted)
    && |entries| <= |admitted| && |entries| <= limit
    && entries == admitted[|admitted| - |entries|..]
    && (forall i :: 0 <= i < |admitted| - |entries| ==> admitted[i] <= now - WINDOW)
    && (forall i :: 0 <= i < |admitted| ==> admitted[i] <= now)
  }

  /** Any `limit + 1` consecutive admissions span at least a window. */
  ghost predicate Spaced(admitted: seq<int>, limit: nat) {
    forall i :: 0 <= i && i + limit < |admitted| ==> admitted[i + limit] - admitted[i] >= WINDOW
  }

  lemma RetainKept(entries: seq<int>, admitted: seq<int>, limit: nat, now: int, at: int)
    requires Kept(entries, admitted, limit, now) && now <= at
    ensures Kept(Retain(entries, at - WINDOW), admitted, limit, at)
  {
    var k := RetainSuffix(entries, at - WINDOW);
    var kept, gone := Retain(entries, at - WINDOW), |admitted| - |entries|;
    hide Retain;
    assert forall i :: 0 <= i < |entries| ==> entries[i] == admitted[gone + i];
    assert kept == admitted[|admitted| - |kept|..];
    forall i | 0 <= i < |admitted| - |kept|
      ensures admitted[i] <= at - WINDOW
    {
      if i >= gone {
        assert admitted[i] == entries[i - gone];
      }
    }
  }

  lemma AdmitKeeps(kept: seq<int>, admitted: seq<int>, limit: nat, at: int)
    requires Kept(kept, admitted, limit, at) && Spaced(admitted, limit) && |kept| < limit
    ensures Kept(kept + [at], admitted + [at], limit, at) && Spaced(admitted + [at], limit)
  {
    var all := admitted + [at];
    assert kept + [at] == all[|all| - |kept + [at]|..];
    forall i | 0 <= i && i + limit < |all|
      ensures all[i + limit] - all[i] >= WINDOW
    {
      if i + limit < |admitted| {
        assert admitted[i + limit] - admitted[i] >= WINDOW;
      } else {
        assert i < |admitted| - |kept| && all[i] == admitted[i];
      }
    }
  }

  lemma CheckKeeps(entries: seq<int>, admitted: seq<int>, limit: nat, now: int, at: int)
    requires Kept(entries, admitted, limit, now) && Spaced(admitted, limit) && now <= at
    ensures var (next, answer) := Check(entries, limit, at);
            var all := if answer.Admitted? then admitted + [at] else admitted;
            Kept(next, all, limit, at) && Spaced(all, limit)
  {
    hide Kept, Spaced, Retain;
    RetainKept(entries, admitted, limit, now, at);
    var kept := Retain(entries, at - WINDOW);
    if |kept| < limit {
      AdmitKeeps(kept, admitted, limit, at);
    }
  }

  lemma {:induction false} RunSpaced(calls: seq<int>, limit: nat, now: int)
    requires Ascending(calls) && (calls != [] ==> calls[|calls| - 1] <= now)
    ensures var (entries, admitted) := Run(calls, limit);
            Kept(entries, admitted, limit, now) && Spaced(admitted, limit)
  {
    hide Kept, Spaced, Check;
    if calls == [] {
      NothingKept(limit, now);
    } else {
      var front, at := calls[..|calls| - 1], calls[|calls| - 1];
      RunSpaced(front, limit, at);
      var (entries, admitted) := Run(front, limit);
      CheckKeeps(entries, admitted, limit, at, at);
      KeptLater(Run(calls, limit).0, Run(calls, limit).1, limit, at, now);
    }
  }

  lemma NothingKept(limit: nat, now: int)
    ensures Kept([], [], limit, now) && Spaced([], limit)
  {
  }

  lemma KeptLater(entries: seq<int>, admitted: seq<int>, limit: nat, now: int, later: int)
    requires Kept(entries, admitted, limit, now) && now <= later
    ensures Kept(entries, admitted, limit, later)
  {
  }

  function CountIn(times: seq<int>, from: int, to: int): nat {
    if times == [] then 0
    else CountIn(times[..|times| - 1], from, to) + (if from < times[|times| - 1] <= to then 1 else 0)
  }

  lemma {:induction false} CountBounded(times: seq<int>, limit: nat, from: int)
    requires Ascending(times) && Spaced(times, limit)
    ensures CountIn(times, from, from + WINDOW) <= limit
    decreases |times|
  {
    if times != [] {
      var n := |times|;
      var front := times[..n - 1];
      assert Spaced(front, limit);
      CountBounded(front, limit, from);
      if limit < n {
        var i := n - 1 - limit;
        assert times[i + limit] - times[i] >= WINDOW;
      }
      if from < times[n - 1] <= from + WINDOW {
        CountOfRange(front, from, from + WINDOW);
      }
    }
  }

  /** The counted times are the tail after the last one that is too old. */
  lemma {:induction false} CountOfRange(times: seq<int>, from: int, to: int)
    requires Ascending(times) && forall i :: 0 <= i < |times| ==> times[i] <= to
    ensures CountIn(times, from, to) <= |times|
    ensures forall i :: |times| - CountIn(times, from, to) <= i < |times| ==> times[i] > from
    ensures forall i :: 0 <= i < |times| - CountIn(times, from, to) ==> times[i] <= from
  {
    if times != [] {
      CountOfRange(times[..|times| - 1], from, to);
    }
  }

  /** For nondecreasing call times every one-minute window holds at most `limit`
      admissions. */
  lemma WindowsAreLimited(calls: seq<int>, limit: nat, from: int)
    requires Ascending(calls)
    ensures CountIn(Run(calls, limit).1, from, from + WINDOW) <= limit
  {
    var now := if calls == [] then 0 else calls[|calls| - 1];
    RunSpaced(calls, limit, now);
    CountBounded(Run(calls, limit).1, limit, from);
  }

  // --------------------------------------------------------------- rejections

  lemma {:induction false} RetainTwice(entries: seq<int>, a: int, b: int)
    requires a <= b
    ensures Retain(Retain(entries, a), b) == Retain(entries, b)
  {
    if entries != [] {
      var front, x := entries[..|entries| - 1], entries[|entries| - 1];
      RetainTwice(front, a, b);
      var kept := Retain(front, a);
      if x > a {
        assert (kept + [x])[..|kept|] == kept;
      }
    }
  }

  lemma ReplayStep(entries: seq<int>, replayed: seq<int>, limit: nat, at: int)
    requires Retain(entries, at - WINDOW) == Retain(replayed, at - WINDOW)
    ensures var (next, answer) := Check(entries, limit, at);
            var (next', answer') := Check(replayed, limit, at);
            && answer == answer'
            && next == Retain(if answer.Admitted? then next' else replayed, at - WINDOW)
  {
    hide CeilDiv, Remaining;
    var kept := Retain(entries, at - WINDOW);
    RetainTwice(entries, at - WINDOW, at - WINDOW);
    assert (kept + [at])[..|kept|] == kept;
  }

  lemma EmptyRun(limit: nat)
    ensures Run([], limit) == ([], [])
  {
  }

  lemma RunAppend(calls: seq<int>, limit: nat, at: int)
    ensures var (entries, admitted) := Run(calls, limit);
            var (next, answer) := Check(entries, limit, at);
            Run(calls + [at], limit) == (next, if answer.Admitted? then admitted + [at] else admitted)
  {
    assert (calls + [at])[..|calls|] == calls;
  }

  /** Rejected calls might as well not have happened: replaying only the admitted
      ones admits all of them again. */
  lemma {:induction false} RejectionsNeverDelay(calls: seq<int>, limit: nat)
    requires Ascending(calls)
    ensures var (entries, admitted) := Run(calls, limit);
            var (replayed, again) := Run(admitted, limit);
            && again == admitted
            && (calls == [] ==> entries == [] && replayed == [])
            && (calls != [] ==> entries == Retain(replayed, calls[|calls| - 1] - WINDOW))
  {
    hide Retain, Check, Run;
    if calls == [] {
      EmptyRun(limit);
    } else {
      var front, at := calls[..|calls| - 1], calls[|calls| - 1];
      assert calls == front + [at];
      RejectionsNeverDelay(front, limit);
      RunAppend(front, limit, at);
      var (entries, admitted) := Run(front, limit);
      var (replayed, again) := Run(admitted, limit);
      if front != [] {
        RetainTwice(replayed, front[|front| - 1] - WINDOW, at - WINDOW);
      }
      ReplayStep(entries, replayed, limit, at);
      RunAppend(admitted, limit, at);
    }
  }

  // ---------------------------------------------------------------- retry hint

  lemma CeilCovers(a: nat)
    ensures a <= CeilDiv(a, MILLI) * MILLI < a + MILLI
  {
  }

  lemma {:induction false} RetainOfOlder(entries: seq<int>, after: int)
    ensures |Retain(entries, after)| <= |entries|
    ensures (exists x :: x in entries && x <= after) ==> |Retain(entries, after)| < |entries|
    ensures (forall x :: x in entries ==> x > after) ==> Retain(entries, after) == entries
  {
    if entries != [] {
      var front, x := entries[..|entries| - 1], entries[|entries| - 1];
      RetainOfOlder(front, after);
      assert entries == front + [x];
      assert x in entries && forall y :: y in front ==> y in entries;
    }
  }

  lemma HintCoversOldest(kept: seq<int>, limit: nat, at: int)
    requires kept != [] && forall x :: x in kept ==> x > at - WINDOW
    ensures var wait := CeilDiv(AtLeastZero(Remaining(kept, at)), MILLI) * MILLI;
            at + wait - MILLI < Min(kept) + WINDOW <= at + wait
  {
    CeilCovers(AtLeastZero(Remaining(kept, at)));
  }

  lemma AdmitsOnceOldestExpires(kept: seq<int>, limit: nat, later: int)
    requires kept != [] && |kept| == limit
    ensures Check(kept, limit, later).1.Admitted? <==> later >= Min(kept) + WINDOW
  {
    hide CeilDiv, Remaining;
    RetainOfOlder(kept, later - WINDOW);
    hide Retain;
    if later < Min(kept) + WINDOW {
      assert forall x :: x in kept ==> x > later - WINDOW;
    }
  }

  /** The hint is tight: a later call alone is admitted exactly when the oldest entry
      has expired, and the hint overshoots that moment by less than a millisecond. */
  lemma RetryIsTight(entries: seq<int>, limit: nat, at: int, later: int)
    requires limit > 0 && |entries| <= limit && at <= later
    requires Check(entries, limit, at).1.Limited?
    ensures var (kept, answer) := Check(entries, limit, at);
            var wait := answer.retryAfterMs * MILLI;
            && kept != []
            && at + wait - MILLI < Min(kept) + WINDOW <= at + wait
            && (Check(kept, limit, later).1.Admitted? <==> later >= Min(kept) + WINDOW)
  {
    RetainOfOlder(entries, at - WINDOW);
    hide CeilDiv, Remaining, Retain, Min;
    var kept := Retain(entries, at - WINDOW);
    HintCoversOldest(kept, limit, at);
    AdmitsOnceOldestExpires(kept, limit, later);
  }

  lemma KeptIsCount(kept: seq<int>, admitted: seq<int>, limit: nat, at: int)
    requires Kept(kept, admitted, limit, at) && forall x :: x in kept ==> x > at - WINDOW
    ensures |kept| == CountIn(admitted, at - WINDOW, at)
  {
    CountOfRange(admitted, at - WINDOW, at);
    var n, first := CountIn(admitted, at - WINDOW, at), |admitted| - |kept|;
    hide CountIn, Ascending;
    assert kept != [] ==> kept[0] in kept && admitted[first] == kept[0];
    assert first > 0 ==> admitted[first - 1] <= at - WINDOW;
  }

  lemma CheckAdmits(entries: seq<int>, limit: nat, at: int)
    ensures Check(entries, limit, at).1.Admitted? <==> |Retain(entries, at - WINDOW)| < limit
  {
  }

  /** A call is admitted exactly when fewer than `limit` calls were admitted in the
      minute before it. */
  lemma AdmittedExactly(calls: seq<int>, limit: nat, at: int)
    requires Ascending(calls) && (calls != [] ==> calls[|calls| - 1] <= at)
    ensures var (entries, admitted) := Run(calls, limit);
            Check(entries, limit, at).1.Admitted? <==> CountIn(admitted, at - WINDOW, at) < limit
  {
    var (entries, admitted) := Run(calls, limit);
    RunSpaced(calls, limit, at);
    hide Run, Retain, CountIn, Check, Kept, Spaced, Ascending;
    RetainKept(entries, admitted, limit, at, at);
    KeptIsCount(Retain(entries, at - WINDOW), admitted, limit, at);
    CheckAdmits(entries, limit, at);
  }
}
