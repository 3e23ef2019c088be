/** Jobs enter and leave a scope, a retirement closes it for good, and a drain waits
    for the last job. Every
    locked section and every notifier call is one atomic step; runs are arbitrary
    interleavings of the steps of any number of callers. */
module ProcessScope {

  /** The mutex-protected fields. */
  datatype Counter = Counter(closed: bool, jobs: nat)
  {
    function Admit(): Counter {
      if closed then this else this.(jobs := jobs + 1)
    }

    function Release(): Counter
      requires jobs > 0
    {
      this.(jobs := jobs - 1)
    }

    function Close(): Counter {
      this.(closed := true)
    }
  }

  class Scope {
    var closed: bool
    var jobs: nat

    function State(): Counter
      reads this
    {
      Counter(closed, jobs)
    }

    constructor ()
      ensures State() == Counter(false, 0)
    {
      closed, jobs := false, 0;
    }

    method Begin() returns (admitted: bool)
      modifies this
      ensures State() == old(State()).Admit() && admitted == !old(closed)
      ensures closed == old(closed) && jobs == old(jobs) + (if admitted then 1 else 0)
    {
      if closed {
        return false;
      }
      jobs := jobs + 1;
      return true;
    }

    /** Dropping a job; the caller notifies idle waiters while it holds the lock. */
    method Drop() returns (notifyIdle: bool)
      requires jobs > 0
      modifies this
      ensures State() == old(State()).Release() && notifyIdle == (jobs == 0)
      ensures closed == old(closed) && jobs == old(jobs) - 1
    {
      jobs := jobs - 1;
      notifyIdle := jobs == 0;
    }

    method Retire()
      modifies this
      ensures State() == old(State()).Close()
      ensures closed && jobs == old(jobs)
    {
      closed := true;
    }
  }

  // ------------------------------------------------------------------ waiters

  /** Where a waiting task is: before registering with the notifier, registered
      but not yet looking at the state, suspended, or returned. A registered or
      suspended task may already have been notified. */
  datatype Waiter = Starting | Enabled(notified: bool) | Parked(notified: bool) | Done
  {
    function Notify(): Waiter {
      match this
      case Enabled(_) => Enabled(true)
      case Parked(_) => Parked(true)
      case _ => this
    }

    /** Notified or returned. */
    predicate Awake() {
      this == Enabled(true) || this == Parked(true) || this == Done
    }

    predicate Stuck() {
      this == Parked(false)
    }
  }

  type Id = nat

  function NotifyAll(waiters: map<Id, Waiter>): (r: map<Id, Waiter>)
    ensures r.Keys == waiters.Keys
    ensures forall w :: w in waiters ==> r[w] == waiters[w].Notify()
  {
    map w | w in waiters :: waiters[w].Notify()
  }

  /** One scope with everyone who deals with it. `live` are the jobs whose guard
      exists; `retiring` have closed the scope and not yet notified; `retired`
      have returned their drain. */
  datatype World = World(
    counter: Counter, live: set<Id>, retiring: set<Id>, retired: set<Id>,
    cancels: map<Id, Waiter>, drains: map<Id, Waiter>)

  const EMPTY := World(Counter(false, 0), {}, {}, {}, map[], map[])

  datatype Step =
    | Begin(job: Id)
    | Drop(job: Id)
    | Close(call: Id)
    | Announce(call: Id)
    | Cancelled(waiter: Id, job: Id)
    | PollCancel(waiter: Id)
    | Wait(waiter: Id)
    | PollDrain(waiter: Id)

  /** `cancelled`: register, look, suspend unless closed, return when notified. */
  function NextCancel(w: Waiter, closed: bool): Waiter {
    match w
    case Starting => Enabled(false)
    case Enabled(notified) => if closed then Done else Parked(notified)
    case Parked(notified) => if notified then Done else w
    case Done => w
  }

  /** `Drain::wait`: like that, but a notified waiter starts over and looks again. */
  function NextDrain(w: Waiter, jobs: nat): Waiter {
    match w
    case Starting => Enabled(false)
    case Enabled(notified) => if jobs == 0 then Done else Parked(notified)
    case Parked(notified) => if notified then Starting else w
    case Done => w
  }

  /** A step that is not possible in the current state changes nothing. */
  function Take(s: World, e: Step): World {
    match e
    case Begin(job) =>
      if job in s.live then s
      else s.(counter := s.counter.Admit(), live := if s.counter.closed then s.live else s.live + {job})
    case Drop(job) =>
      if job !in s.live || s.counter.jobs == 0 then s
      else
        var counter := s.counter.Release();
        s.(counter := counter, live := s.live - {job},
           drains := if counter.jobs == 0 then NotifyAll(s.drains) else s.drains)
    case Close(call) => s.(counter := s.counter.Close(), retiring := s.retiring + {call})
    case Announce(call) =>
      if call !in s.retiring then s
      else s.(retiring := s.retiring - {call}, retired := s.retired + {call}, cancels := NotifyAll(s.cancels))
    case Cancelled(w, job) =>
      if job !in s.live || w in s.cancels then s else s.(cancels := s.cancels[w := Starting])
    case PollCancel(w) =>
      if w !in s.cancels then s else s.(cancels := s.cancels[w := NextCancel(s.cancels[w], s.counter.closed)])
    case Wait(w) =>
      if s.retired == {} || w in s.drains then s else s.(drains := s.drains[w := Starting])
    case PollDrain(w) =>
      if w !in s.drains then s else s.(drains := s.drains[w := NextDrain(s.drains[w], s.counter.jobs)])
  }

  function Run(s: World, steps: seq<Step>): World {
    if steps == [] then s else Take(Run(s, steps[..|steps| - 1]), steps[|steps| - 1])
  }

  /** Every call takes effect: an open scope admits, a live job is released, a
      retirement closes and then wakes whoever waits for cancellation. */
  lemma StepsTakeEffect(s: World, id: Id)
    ensures id !in s.live && !s.counter.closed ==>
              var t := Take(s, Begin(id)); t.live == s.live + {id} && t.counter == Counter(false, s.counter.jobs + 1)
    ensures id in s.live && s.counter.jobs > 0 ==>
              var t := Take(s, Drop(id)); t.live == s.live - {id} && t.counter == Counter(s.counter.closed, s.counter.jobs - 1)
    ensures var t := Take(s, Close(id)); t.counter == Counter(true, s.counter.jobs) && t.live == s.live && id in t.retiring
    ensures id in s.retiring ==>
              var t := Take(s, Announce(id)); id in t.retired && forall w :: w in t.cancels ==> !t.cancels[w].Stuck()
    ensures id in s.cancels ==> id in Take(s, PollCancel(id)).cancels
    ensures s.retired != {} && id !in s.drains ==> Take(s, Wait(id)).drains == s.drains[id := Starting]
  {
  }

  // ---------------------------------------------------------------- invariant

  ghost predicate Counted(s: World) {
    && s.counter.jobs == |s.live|
    && (s.counter.closed <==> s.retiring != {} || s.retired != {})
  }

  /** A suspended drain was notified or has a job to wait for. */
  ghost predicate DrainsFair(s: World) {
    && (s.drains.Keys != {} ==> s.retired != {})
    && (forall w :: w in s.drains && s.drains[w].Stuck() ==> s.counter.jobs > 0)
    && (forall w :: w in s.drains && s.drains[w].Done? ==> s.counter.jobs == 0)
  }

  /** A suspended `cancelled` was notified or no retirement has returned. */
  ghost predicate CancelsFair(s: World) {
    && (forall w :: w in s.cancels && s.cancels[w].Stuck() ==> s.retired == {})
    && (forall w :: w in s.cancels && s.cancels[w].Awake() ==> s.counter.closed)
  }

  ghost predicate Inv(s: World) {
    Counted(s) && DrainsFair(s) && CancelsFair(s)
  }

  lemma TakeCounts(s: World, e: Step)
    requires Counted(s)
    ensures Counted(Take(s, e))
  {
    hide NotifyAll;
  }

  lemma TakeDrains(s: World, e: Step)
    requires Counted(s) && DrainsFair(s)
    ensures DrainsFair(Take(s, e))
  {
    if e.Drop? {
      TakeCounts(s, e);
    }
  }

  lemma TakeCancels(s: World, e: Step)
    requires Counted(s) && CancelsFair(s)
    ensures CancelsFair(Take(s, e))
  {
    hide NextDrain;
  }

  lemma TakeKeeps(s: World, e: Step)
    requires Inv(s)
    ensures Inv(Take(s, e))
  {
    hide Take, Counted, DrainsFair, CancelsFair;
    TakeCounts(s, e);
    TakeDrains(s, e);
    TakeCancels(s, e);
  }

  /** Over every interleaving: the count is the number of live jobs, a suspended
      drain that was not notified still has a job to wait for, a drain returns only
      when none is left, and a suspended `cancelled` that was not notified has no
      completed retirement behind it. */
  lemma {:induction false} RunKeeps(steps: seq<Step>)
    ensures Inv(Run(EMPTY, steps))
  {
    if steps != [] {
      RunKeeps(steps[..|steps| - 1]);
      TakeKeeps(Run(EMPTY, steps[..|steps| - 1]), steps[|steps| - 1]);
    }
  }

  // -------------------------------------------------------------- after closing

  lemma TakeFences(s: World, e: Step)
    requires Inv(s) && s.counter.closed
    ensures var t := Take(s, e); t.counter.closed && t.live <= s.live && t.counter.jobs <= s.counter.jobs
    ensures s.retired <= Take(s, e).retired
  {
    TakeKeeps(s, e);
  }

  /** Once closed, a scope admits nobody, whatever happens afterwards. */
  lemma {:induction false} ClosedForGood(s: World, steps: seq<Step>)
    requires Inv(s) && s.counter.closed
    ensures var t := Run(s, steps); Inv(t) && t.counter.closed && t.live <= s.live && t.counter.jobs <= s.counter.jobs
    ensures s.retired <= Run(s, steps).retired
  {
    if steps != [] {
      ClosedForGood(s, steps[..|steps| - 1]);
      TakeFences(Run(s, steps[..|steps| - 1]), steps[|steps| - 1]);
      TakeKeeps(Run(s, steps[..|steps| - 1]), steps[|steps| - 1]);
    }
  }

  /** A returned drain means no live job, then and ever after. */
  lemma DrainMeansEmpty(s: World, w: Id, steps: seq<Step>)
    requires Inv(s) && w in s.drains && s.drains[w].Done?
    ensures Run(s, steps).counter.jobs == 0 && Run(s, steps).live == {}
  {
    ClosedForGood(s, steps);
  }

  // ----------------------------------------------------------------- progress

  function Polls(steps: seq<Step>, e: Step): nat {
    if steps == [] then 0
    else Polls(steps[..|steps| - 1], e) + (if steps[|steps| - 1] == e then 1 else 0)
  }

  /** How many of its own polls a drain still needs once no job is left. */
  function DrainLeft(w: Waiter): nat {
    match w
    case Done => 0
    case Enabled(_) => 1
    case Starting => 2
    case Parked(_) => 3
  }

  function CancelLeft(w: Waiter): nat {
    match w
    case Done => 0
    case Enabled(_) => 1
    case Parked(_) => 1
    case Starting => 2
  }

  lemma DrainStep(s: World, e: Step, w: Id)
    requires Inv(s) && s.counter.closed && s.counter.jobs == 0 && w in s.drains
    ensures var t := Take(s, e);
            && w in t.drains && t.counter.jobs == 0
            && DrainLeft(t.drains[w]) <= DrainLeft(s.drains[w])
            && (e == PollDrain(w) && DrainLeft(s.drains[w]) > 0 ==> DrainLeft(t.drains[w]) < DrainLeft(s.drains[w]))
  {
    TakeFences(s, e);
  }

  /** No lost wakeup: once the last job is gone, three polls bring any drain home,
      however the rest of the system is interleaved. */
  lemma {:induction false} DrainReturns(s: World, w: Id, steps: seq<Step>)
    requires Inv(s) && s.counter.closed && s.counter.jobs == 0 && w in s.drains
    ensures var t := Run(s, steps);
            && w in t.drains && t.counter.jobs == 0 && t.counter.closed && Inv(t)
            && (DrainLeft(t.drains[w]) == 0 || DrainLeft(t.drains[w]) + Polls(steps, PollDrain(w)) <= DrainLeft(s.drains[w]))
    ensures Polls(steps, PollDrain(w)) >= 3 ==> Run(s, steps).drains[w].Done?
  {
    if steps != [] {
      var front, e := steps[..|steps| - 1], steps[|steps| - 1];
      DrainReturns(s, w, front);
      ClosedForGood(s, steps);
      DrainStep(Run(s, front), e, w);
    }
  }

  lemma CancelStep(s: World, e: Step, w: Id)
    requires Inv(s) && s.retired != {} && w in s.cancels
    ensures var t := Take(s, e);
            && w in t.cancels && t.retired != {}
            && CancelLeft(t.cancels[w]) <= CancelLeft(s.cancels[w])
            && (e == PollCancel(w) && CancelLeft(s.cancels[w]) > 0 ==> CancelLeft(t.cancels[w]) < CancelLeft(s.cancels[w]))
  {
    TakeFences(s, e);
  }

  /** Likewise `cancelled` returns within two polls once any retirement returned. */
  lemma {:induction false} CancelReturns(s: World, w: Id, steps: seq<Step>)
    requires Inv(s) && s.retired != {} && w in s.cancels
    ensures var t := Run(s, steps);
            && w in t.cancels && t.retired != {} && Inv(t)
            && (CancelLeft(t.cancels[w]) == 0 || CancelLeft(t.cancels[w]) + Polls(steps, PollCancel(w)) <= CancelLeft(s.cancels[w]))
    ensures Polls(steps, PollCancel(w)) >= 2 ==> Run(s, steps).cancels[w].Done?
  {
    if steps != [] {
      var front, e := steps[..|steps| - 1], steps[|steps| - 1];
      CancelReturns(s, w, front);
      CancelStep(Run(s, front), e, w);
      TakeKeeps(Run(s, front), e);
    }
  }

  // -------------------------------------------------------------- the registry

  type Key = string

  datatype Keyed = Keyed(key: Key, step: Step)

  function At(scopes: map<Key, World>, key: Key): World {
    if key in scopes then scopes[key] else EMPTY
  }

  function RunAll(scopes: map<Key, World>, steps: seq<Keyed>): map<Key, World> {
    if steps == [] then scopes
    else
      var before, e := RunAll(scopes, steps[..|steps| - 1]), steps[|steps| - 1];
      before[e.key := Take(At(before, e.key), e.step)]
  }

  function ForKey(steps: seq<Keyed>, key: Key): seq<Step> {
    if steps == [] then []
    else
      var rest, e := ForKey(steps[..|steps| - 1], key), steps[|steps| - 1];
      if e.key == key then rest + [e.step] else rest
  }

  /** Scopes of different keys do not affect one another: each behaves as if only
      its own steps had happened. */
  lemma {:induction false} KeysAreIndependent(scopes: map<Key, World>, steps: seq<Keyed>, key: Key)
    ensures At(RunAll(scopes, steps), key) == Run(At(scopes, key), ForKey(steps, key))
  {
    if steps != [] {
      var front, e := steps[..|steps| - 1], steps[|steps| - 1];
      KeysAreIndependent(scopes, front, key);
      var rest := ForKey(front, key);
      assert (rest + [e.step])[..|rest|] == rest;
    }
  }
}
