/** A bounded pool of items. Taking one suspends the coroutine while none is free; giving one back wakes the longest waiter. */
module AsyncPool {
  import opened Wrappers

  type Item = nat
  type Handle = nat

  /** `H` says what an item that is out of the pool is used for. */
  datatype Pool<H> = Pool(
    available: seq<Item>,
    waiters: seq<Handle>,
    /** Items written to a waiter's slot, its coroutine posted but not yet resumed. */
    handed: map<Handle, Item>,
    held: map<Item, H>,
    /** Coroutines that had to wait, and those of them that have been given an item, in the order of each. */
    arrivals: seq<Handle>,
    served: seq<Handle>)

  predicate Distinct<T(==)>(xs: seq<T>) { forall i, j :: 0 <= i < j < |xs| ==> xs[i] != xs[j] }

  /** Neither waiting nor about to be resumed with an item. */
  predicate Idle<H>(p: Pool<H>, h: Handle) { h !in p.waiters && h !in p.handed }

  function HandedOut(m: map<Handle, Item>, item: Item): set<Handle> { set h | h in m && m[h] == item }

  /** How many times an item is in the pool or out of it. */
  function Copies<H>(p: Pool<H>, item: Item): nat {
    multiset(p.available)[item] + |HandedOut(p.handed, item)| + if item in p.held then 1 else 0
  }

  predicate Queues<H>(p: Pool<H>) {
    && (p.waiters != [] ==> p.available == [])
    && p.arrivals == p.served + p.waiters
    && Distinct(p.waiters)
    && (forall h <- p.handed :: h !in p.waiters)
  }

  /** Every item is in exactly one place. */
  ghost predicate Conserved<H>(p: Pool<H>, items: set<Item>) {
    forall item :: Copies(p, item) == if item in items then 1 else 0
  }

  // ---------------------------------------------------------------- steps

  function Acquires<H>(p: Pool<H>, h: Handle, use: H): Pool<H> {
    if p.available != [] then
      p.(available := p.available[..|p.available| - 1], held := p.held[p.available[|p.available| - 1] := use])
    else p.(waiters := p.waiters + [h], arrivals := p.arrivals + [h])
  }

  function Releases<H>(p: Pool<H>, item: Item): Pool<H> {
    var q := p.(held := p.held - {item});
    if p.waiters != [] then
      q.(waiters := p.waiters[1..], handed := p.handed[p.waiters[0] := item], served := p.served + [p.waiters[0]])
    else q.(available := p.available + [item])
  }

  /** A woken waiter goes on with the item in its slot. */
  function Takes<H>(p: Pool<H>, h: Handle, use: H): Pool<H>
    requires h in p.handed
  {
    p.(handed := p.handed - {h}, held := p.held[p.handed[h] := use])
  }

  /** What an item that is out is used for can change hands without the pool. */
  function Reassigns<H>(p: Pool<H>, item: Item, use: H): Pool<H> { p.(held := p.held[item := use]) }

  // ---------------------------------------------------------------- properties

  lemma HandedChange(m: map<Handle, Item>, h: Handle, item: Item, other: Item)
    requires h !in m
    ensures |HandedOut(m[h := item], other)| == |HandedOut(m, other)| + if item == other then 1 else 0
  {
    var out := HandedOut(m, other);
    if item == other {
      assert HandedOut(m[h := item], other) == out + {h};
    } else {
      assert HandedOut(m[h := item], other) == out;
    }
  }

  lemma AcquiresConserves<H>(p: Pool<H>, h: Handle, use: H, items: set<Item>)
    requires Conserved(p, items)
    ensures Conserved(Acquires(p, h, use), items)
  {
    var q := Acquires(p, h, use);
    forall item ensures Copies(q, item) == if item in items then 1 else 0 {
      if p.available != [] {
        var last := p.available[|p.available| - 1];
        assert p.available == q.available + [last];
        assert Copies(p, last) == 1;
        assert Copies(p, item) == Copies(q, item);
      }
    }
  }

  lemma ReleasesConserves<H>(p: Pool<H>, item: Item, items: set<Item>)
    requires Conserved(p, items) && Queues(p) && item in p.held
    ensures Conserved(Releases(p, item), items)
  {
    var q := Releases(p, item);
    forall other ensures Copies(q, other) == if other in items then 1 else 0 {
      assert Copies(p, other) == if other in items then 1 else 0;
      if p.waiters != [] { HandedChange(p.handed, p.waiters[0], item, other); }
    }
  }

  lemma TakesConserves<H>(p: Pool<H>, h: Handle, use: H, items: set<Item>)
    requires Conserved(p, items) && h in p.handed
    ensures Conserved(Takes(p, h, use), items)
  {
    var item, q := p.handed[h], Takes(p, h, use);
    assert p.handed == q.handed[h := item];
    HandedChange(q.handed, h, item, item);
    assert Copies(p, item) == 1;
    forall other ensures Copies(q, other) == if other in items then 1 else 0 {
      assert Copies(p, other) == if other in items then 1 else 0;
      HandedChange(q.handed, h, item, other);
    }
  }

  /** With nobody holding it, an item that is given back is in the pool twice. */
  lemma ReleaseOfAnItemNotHeld<H>(p: Pool<H>, item: Item, items: set<Item>)
    requires Conserved(p, items) && Queues(p) && item in items && item !in p.held
    ensures Copies(Releases(p, item), item) == 2
  {
    assert Copies(p, item) == 1;
    if p.waiters != [] { HandedChange(p.handed, p.waiters[0], item, item); }
  }

  lemma QueuesKept<H>(p: Pool<H>, h: Handle, item: Item, use: H)
    requires Queues(p)
    ensures Idle(p, h) ==> Queues(Acquires(p, h, use))
    ensures Queues(Releases(p, item))
    ensures h in p.handed ==> Queues(Takes(p, h, use))
  {
    if p.waiters != [] {
      assert p.waiters == [p.waiters[0]] + p.waiters[1..];
      assert p.arrivals == p.served + [p.waiters[0]] + p.waiters[1..];
    }
    assert p.arrivals + [h] == p.served + (p.waiters + [h]);
  }

  datatype Step<H> = Acquire(h: Handle, use: H) | Release(item: Item) | Take(h: Handle, use: H)

  predicate Enabled<H>(p: Pool<H>, step: Step<H>) {
    match step
    case Acquire(h, _) => Idle(p, h)
    case Release(item) => item in p.held
    case Take(h, _) => h in p.handed
  }

  function Next<H>(p: Pool<H>, step: Step<H>): Pool<H>
    requires Enabled(p, step)
  {
    match step
    case Acquire(h, use) => Acquires(p, h, use)
    case Release(item) => Releases(p, item)
    case Take(h, use) => Takes(p, h, use)
  }

  function Initial<H>(items: seq<Item>): Pool<H> { Pool(items, [], map[], map[], [], []) }

  ghost predicate Trace<H(!new)>(items: seq<Item>, states: seq<Pool<H>>, steps: seq<Step<H>>) {
    && |states| == |steps| + 1 && states[0] == Initial(items)
    && forall i :: 0 <= i < |steps| ==> Enabled(states[i], steps[i]) && states[i + 1] == Next(states[i], steps[i])
  }

  lemma {:induction false} DistinctOnce(xs: seq<Item>, x: Item)
    requires Distinct(xs)
    ensures multiset(xs)[x] == if x in xs then 1 else 0
  {
    if xs != [] {
      assert xs == xs[..|xs| - 1] + [xs[|xs| - 1]];
      DistinctOnce(xs[..|xs| - 1], x);
    }
  }

  /**
   * Under any interleaving of acquires and of releases by holders: every item is in exactly one place and so has at
   * most one holder, nobody waits while an item is free, and waiters get their items in the order they came.
   */
  lemma {:induction false} EveryRun<H(!new)>(items: seq<Item>, states: seq<Pool<H>>, steps: seq<Step<H>>)
    requires Distinct(items) && Trace(items, states, steps)
    ensures var p := states[|steps|];
      && Conserved(p, set i | i in items) && Queues(p)
      && (p.waiters != [] ==> p.available == [])
      && p.served <= p.arrivals
  {
    if steps == [] {
      forall item ensures Copies(states[0], item) == if item in items then 1 else 0 {
        DistinctOnce(items, item);
        assert HandedOut(states[0].handed, item) == {};
      }
    } else {
      var n := |steps| - 1;
      assert forall i :: 0 <= i < n ==> steps[..n][i] == steps[i] && states[..n + 1][i] == states[i];
      EveryRun(items, states[..n + 1], steps[..n]);
      var p := states[n];
      match steps[n]
      case Acquire(h, use) =>
        AcquiresConserves(p, h, use, set i | i in items);
        QueuesKept(p, h, 0, use);
      case Release(item) =>
        ReleasesConserves(p, item, set i | i in items);
        QueuesKept(p, 0, item, p.held[item]);
      case Take(h, use) =>
        TakesConserves(p, h, use, set i | i in items);
        QueuesKept(p, h, 0, use);
    }
  }

  // ---------------------------------------------------------------- the class

  class AsyncPool<H(!new)> {
    var available: seq<Item>
    var waiters: seq<Handle>
    /** What waiters' slots hold; each was filled just before its coroutine was posted. */
    var slots: map<Handle, Item>
    ghost var pool: Pool<H>
    ghost var items: set<Item>

    ghost predicate Valid() reads this {
      && available == pool.available && waiters == pool.waiters && slots == pool.handed
      && Conserved(pool, items) && Queues(pool)
    }

    constructor (all: seq<Item>)
      requires Distinct(all)
      ensures Valid() && pool == Initial(all) && items == set i | i in all
    {
      available, waiters, slots := all, [], map[];
      pool, items := Initial(all), set i | i in all;
      new;
      EveryRun(all, [pool], []);
    }

    /** An item at once, the one given back last, or a place at the end of the queue. */
    method Acquire(h: Handle, ghost use: H) returns (item: Option<Item>)
      requires Valid() && Idle(pool, h)
      modifies this`available, this`waiters, this`pool
      ensures Valid() && pool == Acquires(old(pool), h, use)
      ensures item == if old(available) == [] then None else Some(old(available)[|old(available)| - 1])
    {
      AcquiresConserves(pool, h, use, items);
      QueuesKept(pool, h, 0, use);
      pool := Acquires(pool, h, use);
      if available != [] {
        item := Some(available[|available| - 1]);
        available := available[..|available| - 1];
        return;
      }
      // The lock is still held, so what await_suspend checks again has not changed.
      if available != [] { assert false; }
      waiters := waiters + [h];
      return None;
    }

    /** The longest waiter, if any, gets the item in its slot and is to be posted. */
    method Release(item: Item) returns (post: Option<Handle>)
      requires Valid() && item in pool.held
      modifies this`available, this`waiters, this`slots, this`pool
      ensures Valid() && pool == Releases(old(pool), item)
      ensures post == if old(waiters) == [] then None else Some(old(waiters)[0])
      ensures post.Some? ==> post.value in slots && slots[post.value] == item
    {
      ReleasesConserves(pool, item, items);
      QueuesKept(pool, 0, item, pool.held[item]);
      pool := Releases(pool, item);
      if waiters != [] {
        var w := waiters[0];
        waiters := waiters[1..];
        slots := slots[w := item];
        return Some(w);
      }
      available := available + [item];
      return None;
    }

    /** `await_resume` of a posted waiter. */
    method Resume(h: Handle, ghost use: H) returns (item: Item)
      requires Valid() && h in pool.handed
      modifies this`slots, this`pool
      ensures Valid() && pool == Takes(old(pool), h, use) && item == old(slots)[h] && item in pool.held
    {
      TakesConserves(pool, h, use, items);
      QueuesKept(pool, h, 0, use);
      pool := Takes(pool, h, use);
      item := slots[h];
      slots := slots - {h};
    }
  }
}
