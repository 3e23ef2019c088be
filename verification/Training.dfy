/** The reproducible order in which training cases are shown: a xorshift
    generator, a Fisher-Yates shuffle and a minibatch drawn from a cursor. */
module Training {

  /** The 64-bit generator state. */
  datatype Generator = Generator(bits: bv64)
  {
    predicate Live() {
      bits != 0
    }
  }

  function Left13(x: bv64): bv64 {
    x ^ (x << 13)
  }

  function Right7(x: bv64): bv64 {
    x ^ (x >> 7)
  }

  function Left17(x: bv64): bv64 {
    x ^ (x << 17)
  }

  function Next(rng: Generator): Generator {
    Generator(Left17(Right7(Left13(rng.bits))))
  }

  function Remainder(value: nat, n: nat): (i: nat)
    requires n > 0
    ensures i < n
  {
    value % n
  }

  function Index(random: Generator, n: nat): (i: nat)
    requires n > 0
    ensures i < n
  {
    Remainder(random.bits as nat, n)
  }

  function Seed(seed: bv64): (rng: Generator)
    ensures rng.Live() && (seed != 0 ==> rng.bits == seed)
    ensures seed == 0 ==> rng.bits == 1
  {
    Generator(if seed < 1 then 1 else seed)
  }

  // --------------------------------------------------- the generator, backwards

  function Undo13(a: bv64): bv64 {
    a ^ (a << 13) ^ (a << 26) ^ (a << 39) ^ (a << 52)
  }

  function Undo7(a: bv64): bv64 {
    a ^ (a >> 7) ^ (a >> 14) ^ (a >> 21) ^ (a >> 28) ^ (a >> 35) ^ (a >> 42) ^ (a >> 49) ^ (a >> 56) ^ (a >> 63)
  }

  function Undo17(a: bv64): bv64 {
    a ^ (a << 17) ^ (a << 34) ^ (a << 51)
  }

  function Previous(rng: Generator): Generator {
    Generator(Undo13(Undo7(Undo17(rng.bits))))
  }

  lemma Left13Is(x: bv64)
    ensures Left13(x) == x ^ (x << 13)
    ensures Undo13(x ^ (x << 13)) == x
  {
  }

  lemma Left13Undone(x: bv64)
    ensures Undo13(Left13(x)) == x
  {
    hide Undo13, Left13;
    Left13Is(x);
  }

  lemma Right7Is(x: bv64)
    ensures Right7(x) == x ^ (x >> 7)
    ensures Undo7(x ^ (x >> 7)) == x
  {
  }

  lemma Right7Undone(x: bv64)
    ensures Undo7(Right7(x)) == x
  {
    hide Undo7, Right7;
    Right7Is(x);
  }

  lemma Left17Is(x: bv64)
    ensures Left17(x) == x ^ (x << 17)
    ensures Undo17(x ^ (x << 17)) == x
  {
  }

  lemma Left17Undone(x: bv64)
    ensures Undo17(Left17(x)) == x
  {
    hide Undo17, Left17;
    Left17Is(x);
  }

  /** Every step of the generator can be taken back. */
  lemma NextUndone(rng: Generator)
    ensures Previous(Next(rng)) == rng
  {
    hide Left13, Right7, Left17, Undo13, Undo7, Undo17;
    Left13Undone(rng.bits);
    Right7Undone(Left13(rng.bits));
    Left17Undone(Right7(Left13(rng.bits)));
  }

  /** The generator loses no information: different states have different successors. */
  lemma NextIsInjective(a: Generator, b: Generator)
    requires a != b
    ensures Next(a) != Next(b)
  {
    hide Next, Previous;
    NextUndone(a);
    NextUndone(b);
  }

  lemma ZeroIsFixed()
    ensures Next(Generator(0)) == Generator(0)
  {
  }

  /** A nonzero generator state never reaches the fixed point zero. */
  lemma NextNonzero(rng: Generator)
    requires rng.Live()
    ensures Next(rng).Live()
  {
    hide Next;
    ZeroIsFixed();
    NextIsInjective(rng, Generator(0));
  }

  // -------------------------------------------------------------- shuffle

  function Swap(order: seq<nat>, i: nat, j: nat): seq<nat>
    requires i < |order| && j < |order|
  {
    order[i := order[j]][j := order[i]]
  }

  datatype Shuffled = Shuffled(order: seq<nat>, rng: Generator)

  /** Positions `i, i - 1, ..., 1` are settled in turn. */
  function ShuffleFrom(order: seq<nat>, rng: Generator, i: nat): (r: Shuffled)
    requires i == 0 || i < |order|
    ensures |r.order| == |order|
    decreases i
  {
    if i == 0 then Shuffled(order, rng)
    else
      var random := Next(rng);
      ShuffleFrom(Swap(order, i, Index(random, i + 1)), random, i - 1)
  }

  function Shuffle(order: seq<nat>, rng: Generator): (r: Shuffled)
    ensures |r.order| == |order|
  {
    ShuffleFrom(order, rng, if order == [] then 0 else |order| - 1)
  }

  lemma {:induction false} ShuffleFromPermutes(order: seq<nat>, rng: Generator, i: nat)
    requires i == 0 || i < |order|
    requires rng.Live()
    ensures multiset(ShuffleFrom(order, rng, i).order) == multiset(order)
    ensures ShuffleFrom(order, rng, i).rng.Live()
    decreases i
  {
    if i != 0 {
      var random := Next(rng);
      NextNonzero(rng);
      ShuffleFromPermutes(Swap(order, i, Index(random, i + 1)), random, i - 1);
    }
  }

  /** Position `i` receives the element drawn for it, and no later draw moves it. */
  lemma {:induction false} ShuffleSettles(order: seq<nat>, rng: Generator, i: nat)
    requires i < |order|
    ensures var r := ShuffleFrom(order, rng, i).order;
            && (forall k :: i < k < |order| ==> r[k] == order[k])
            && (i > 0 ==> r[i] == order[Index(Next(rng), i + 1)])
    decreases i
  {
    if i > 0 {
      ShuffleSettles(Swap(order, i, Index(Next(rng), i + 1)), Next(rng), i - 1);
    }
  }

  // ---------------------------------------------------------------- batch

  ghost predicate Distinct(s: seq<nat>) {
    forall i, j :: 0 <= i < j < |s| ==> s[i] != s[j]
  }

  ghost function Elements(s: seq<nat>): set<nat> {
    set x | x in s
  }

  /** Walk `order` from `at`, keeping what the batch lacks, until it is full. */
  function TakeFresh(order: seq<nat>, at: nat, batch: seq<nat>, size: nat): (r: (seq<nat>, nat))
    requires at <= |order|
    ensures r.1 <= |order|
    decreases |order| - at
  {
    if |batch| >= size || at == |order| then (batch, at)
    else if order[at] in batch then TakeFresh(order, at + 1, batch, size)
    else TakeFresh(order, at + 1, batch + [order[at]], size)
  }

  datatype Drawn = Drawn(batch: seq<nat>, order: seq<nat>, cursor: nat, rng: Generator)

  /** One pass over what is left of the order and, only if that is not enough,
      one pass over a reshuffled order. */
  function Draw(order: seq<nat>, cursor: nat, rng: Generator, size: nat): Drawn
    requires cursor <= |order|
  {
    var (batch, at) := TakeFresh(order, cursor, [], size);
    if |batch| >= size then Drawn(batch, order, at, rng)
    else
      var again := Shuffle(order, rng);
      var (batch', at') := TakeFresh(again.order, 0, batch, size);
      Drawn(batch', again.order, at', again.rng)
  }

  lemma {:induction false} TakeFreshKeeps(order: seq<nat>, at: nat, batch: seq<nat>, size: nat)
    requires at <= |order| && |batch| <= size && Distinct(batch)
    ensures var (b, end) := TakeFresh(order, at, batch, size);
            && batch <= b && |b| <= size && Distinct(b)
            && (forall x :: x in b ==> x in batch || x in order)
            && (|b| == size || (end == |order| && forall i :: at <= i < |order| ==> order[i] in b))
    decreases |order| - at
  {
    if |batch| < size && at < |order| {
      if order[at] in batch {
        TakeFreshKeeps(order, at + 1, batch, size);
      } else {
        TakeFreshKeeps(order, at + 1, batch + [order[at]], size);
        assert order[at] in batch + [order[at]];
      }
    }
  }

  /** With no repeats ahead of the cursor, the pass is a plain window. */
  lemma {:induction false} TakeFreshWindow(order: seq<nat>, from: nat, at: nat, size: nat)
    requires from <= at <= |order| && Distinct(order) && at - from <= size
    ensures var end := if from + size <= |order| then from + size else |order|;
            TakeFresh(order, at, order[from..at], size) == (order[from..end], end)
    decreases |order| - at
  {
    if at - from < size && at < |order| {
      TakeFreshWindow(order, from, at + 1, size);
      assert order[from..at] + [order[at]] == order[from..at + 1];
    }
  }

  lemma {:induction false} DistinctCount(s: seq<nat>)
    requires Distinct(s)
    ensures |Elements(s)| == |s|
  {
    if s != [] {
      DistinctCount(s[1..]);
      assert Elements(s) == {s[0]} + Elements(s[1..]);
    }
  }

  lemma {:induction false} SubsetCount(a: set<nat>, b: set<nat>)
    requires a <= b
    ensures |a| <= |b|
  {
    if a != {} {
      var x :| x in a;
      SubsetCount(a - {x}, b - {x});
    }
  }

  /** A distinct batch that holds every training case is at least as long. */
  lemma CoveringBatchIsLong(order: seq<nat>, batch: seq<nat>)
    requires Distinct(order) && Distinct(batch)
    requires forall i :: 0 <= i < |order| ==> order[i] in batch
    ensures |batch| >= |order|
  {
    DistinctCount(order);
    DistinctCount(batch);
    SubsetCount(Elements(order), Elements(batch));
  }

  lemma PermutationDistinct(a: seq<nat>, b: seq<nat>)
    requires multiset(a) == multiset(b) && Distinct(a)
    ensures Distinct(b) && |a| == |b|
    ensures forall x :: x in a <==> x in b
  {
    assert |a| == |multiset(a)| == |multiset(b)| == |b|;
    forall x
      ensures x in a <==> x in b
    {
      assert x in multiset(a) <==> x in multiset(b);
    }
    DistinctCount(a);
    assert Elements(a) == Elements(b);
    DistinctIfCounted(b);
  }

  lemma {:induction false} DistinctIfCounted(s: seq<nat>)
    requires |Elements(s)| >= |s|
    ensures Distinct(s)
  {
    if s != [] {
      assert Elements(s) == {s[0]} + Elements(s[1..]);
      ElementsAtMost(s[1..]);
      DistinctIfCounted(s[1..]);
      assert s[0] !in Elements(s[1..]);
    }
  }

  lemma {:induction false} ElementsAtMost(s: seq<nat>)
    ensures |Elements(s)| <= |s|
  {
    if s != [] {
      ElementsAtMost(s[1..]);
      assert Elements(s) == {s[0]} + Elements(s[1..]);
    }
  }

  /** A full pass over a complete order always fills the batch. */
  lemma FullPassFills(order: seq<nat>, batch: seq<nat>, size: nat)
    requires |batch| <= size <= |order| && Distinct(order) && Distinct(batch)
    ensures var b := TakeFresh(order, 0, batch, size).0;
            && |b| == size && Distinct(b) && batch <= b
            && forall x :: x in b ==> x in batch || x in order
  {
    TakeFreshKeeps(order, 0, batch, size);
    var b := TakeFresh(order, 0, batch, size).0;
    if |b| < size {
      CoveringBatchIsLong(order, b);
    }
  }

  lemma ShuffleIsFair(order: seq<nat>, rng: Generator)
    requires Distinct(order) && rng.Live()
    ensures var r := Shuffle(order, rng);
            && multiset(r.order) == multiset(order) && r.rng.Live()
            && Distinct(r.order) && forall x :: x in r.order <==> x in order
  {
    ShuffleFromPermutes(order, rng, if order == [] then 0 else |order| - 1);
    PermutationDistinct(order, Shuffle(order, rng).order);
  }

  /** A draw yields exactly `size` distinct training cases, keeps the order a
      permutation and reshuffles only when the rest of the order is too short. */
  lemma DrawIsFair(order: seq<nat>, cursor: nat, rng: Generator, size: nat)
    requires cursor <= |order| && size <= |order| && Distinct(order) && rng.Live()
    ensures var d := Draw(order, cursor, rng, size);
            && |d.batch| == size && Distinct(d.batch)
            && (forall x :: x in d.batch ==> x in order)
            && multiset(d.order) == multiset(order)
            && d.cursor <= |d.order| && d.rng.Live()
            && (cursor + size <= |order| ==>
                  d == Drawn(order[cursor..cursor + size], order, cursor + size, rng))
            && (cursor + size > |order| ==>
                  order[cursor..] <= d.batch && d.order == Shuffle(order, rng).order)
  {
    assert order[cursor..cursor] == [];
    TakeFreshWindow(order, cursor, cursor, size);
    if cursor + size > |order| {
      assert order[cursor..|order|] == order[cursor..];
      ShuffleIsFair(order, rng);
      FullPassFills(Shuffle(order, rng).order, order[cursor..], size);
    }
  }

  /** Across an epoch the batch is the remainder of the old order and then, in their new
      order and up to the new cursor, the cases not among it. */
  lemma DrawCrosses(order: seq<nat>, cursor: nat, rng: Generator, size: nat)
    requires cursor <= |order| && size <= |order| && Distinct(order) && rng.Live() && cursor + size > |order|
    ensures var d := Draw(order, cursor, rng, size);
            var rest := order[cursor..];
            && Shuffled(d.order, d.rng) == Shuffle(order, rng)
            && d.cursor <= |d.order| && d.batch == rest + Fresh(d.order[..d.cursor], rest)
            && (d.cursor > 0 ==> d.order[d.cursor - 1] !in rest)
  {
    hide Shuffle, TakeFresh, Fresh, Distinct;
    var rest := order[cursor..];
    assert TakeFresh(order, cursor, [], size) == (rest, |order|) by {
      assert order[cursor..cursor] == [] && order[cursor..|order|] == rest;
      TakeFreshWindow(order, cursor, cursor, size);
    }
    var again := Shuffle(order, rng);
    ShuffleIsFair(order, rng);
    RestIsDistinct(order, cursor);
    FullPassFills(again.order, rest, size);
    assert again.order[..0] == [] && Fresh([], rest) == [] by { NothingFresh(rest); }
    assert rest + [] == rest;
    TakeFreshTakes(again.order, 0, rest, size);
  }

  lemma RestIsDistinct(order: seq<nat>, cursor: nat)
    requires Distinct(order) && cursor <= |order|
    ensures Distinct(order[cursor..])
  {
  }

  lemma NothingFresh(taken: seq<nat>)
    ensures Fresh([], taken) == []
  {
  }

  /** The elements that are not among the given ones, in order. */
  function Fresh(order: seq<nat>, taken: seq<nat>): seq<nat> {
    if order == [] then []
    else
      var front, x := Fresh(order[..|order| - 1], taken), order[|order| - 1];
      if x in taken then front else front + [x]
  }

  lemma {:induction false} FreshMembers(order: seq<nat>, taken: seq<nat>, x: nat)
    ensures x in Fresh(order, taken) <==> x in order && x !in taken
  {
    if order != [] {
      FreshMembers(order[..|order| - 1], taken, x);
      assert order == order[..|order| - 1] + [order[|order| - 1]];
    }
  }

  lemma {:induction false} TakeFreshTakes(order: seq<nat>, at: nat, taken: seq<nat>, size: nat)
    requires at <= |order| && Distinct(order) && |taken| + |Fresh(order[..at], taken)| <= size
    requires at > 0 && |taken| + |Fresh(order[..at], taken)| == size ==> order[at - 1] !in taken
    ensures var (b, end) := TakeFresh(order, at, taken + Fresh(order[..at], taken), size);
            && b == taken + Fresh(order[..end], taken)
            && (end > 0 && |b| == size ==> order[end - 1] !in taken)
    decreases |order| - at
  {
    var batch := taken + Fresh(order[..at], taken);
    if |batch| < size && at < |order| {
      assert order[..at + 1][..at] == order[..at];
      FreshMembers(order[..at], taken, order[at]);
      assert order[at] in batch <==> order[at] in taken;
      assert order[at] !in taken ==> batch + [order[at]] == taken + Fresh(order[..at + 1], taken);
      TakeFreshTakes(order, at + 1, taken, size);
    }
  }

  /** The stage order of the generator, on its smallest state. */
  lemma NextOfOne()
    ensures Next(Generator(1)) == Generator(0x4082_2041)
  {
  }
}
