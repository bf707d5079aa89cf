/**
 The bounded cache of recent log entries in `WalRaftStorage`: entries by index and
 the order of their last use (crates/chirps-raft-storage/src/wal_storage.rs).
 */
module LogCache {
  import opened Prelude
  import opened RaftLog

  datatype Cache = Cache(entries: Log, order: seq<nat>)

  const EMPTY := Cache(map[], [])

  ghost predicate Distinct(s: seq<nat>) {
    forall i, j | 0 <= i < j < |s| :: s[i] != s[j]
  }

  /** The order is a permutation of the cached indices. */
  ghost predicate Valid(c: Cache) {
    && Distinct(c.order)
    && forall k :: k in c.order <==> k in c.entries
  }

  /** `VecDeque::retain`. */
  function Retain(s: seq<nat>, keep: nat -> bool): (r: seq<nat>)
    ensures forall k :: k in r <==> k in s && keep(k)
    ensures Distinct(s) ==> Distinct(r)
  {
    if s == [] then []
    else
      var init, last := s[..|s| - 1], s[|s| - 1];
      assert s == init + [last];
      if keep(last) then Retain(init, keep) + [last] else Retain(init, keep)
  }

  function Touch(c: Cache, index: nat): Cache {
    c.(order := Retain(c.order, k => k != index) + if index in c.entries then [index] else [])
  }

  function Pop(c: Cache): Cache
    requires c.order != []
  {
    Cache(c.entries - {c.order[0]}, c.order[1..])
  }

  /** The oldest entry goes until the cache fits. */
  function Evict(c: Cache, capacity: nat): Cache
    decreases |c.order|
  {
    if |c.entries| <= capacity || c.order == [] then c
    else Evict(Pop(c), capacity)
  }

  function Insert(c: Cache, e: Entry, capacity: nat): Cache {
    Evict(Touch(c.(entries := c.entries[e.id.index := e]), e.id.index), capacity)
  }

  function TruncateAfter(c: Cache, index: nat): Cache {
    Cache(UpTo(c.entries, index), Retain(c.order, k => k <= index))
  }

  function PurgeUpTo(c: Cache, index: nat): Cache {
    Cache(After(c.entries, index), Retain(c.order, k => k > index))
  }

  function InsertAll(c: Cache, entries: seq<Entry>, capacity: nat): Cache {
    if entries == [] then c
    else Insert(InsertAll(c, entries[..|entries| - 1], capacity), entries[|entries| - 1], capacity)
  }

  function TouchAll(c: Cache, entries: seq<Entry>): Cache {
    if entries == [] then c
    else Touch(TouchAll(c, entries[..|entries| - 1]), entries[|entries| - 1].id.index)
  }

  // ------------------------------------------------------------------ invariants

  lemma TouchKeepsValid(c: Cache, index: nat)
    requires Distinct(c.order) && forall k | k != index :: k in c.order <==> k in c.entries
    ensures Valid(Touch(c, index))
  {
    var others := Retain(c.order, k => k != index);
    var order := Touch(c, index).order;
    assert order == others || order == others + [index];
    assert index !in others;
    SnocDistinct(others, index);
    forall k
      ensures k in order <==> k in c.entries
    {
      assert k in order <==> k in others || (k == index && index in c.entries);
    }
  }

  lemma SnocDistinct(s: seq<nat>, x: nat)
    requires Distinct(s) && x !in s
    ensures Distinct(s + [x])
  {
  }

  lemma PopFront(c: Cache)
    requires Valid(c) && c.order != []
    ensures Valid(Pop(c))
  {
    var head, tail := c.order[0], c.order[1..];
    forall k
      ensures k in tail <==> k in c.entries - {head}
    {
      assert c.order == [head] + tail;
    }
  }

  /** Order and entries have the same length, and keep it as the oldest go. */
  ghost predicate Sized(c: Cache)
    decreases |c.order|
  {
    |c.order| == |c.entries| && (c.order != [] ==> Sized(Pop(c)))
  }

  lemma {:induction false} ValidIsSized(c: Cache)
    requires Valid(c)
    ensures Sized(c)
    decreases |c.order|
  {
    if c.order == [] {
      assert c.entries == map[] by {
        assert forall k :: k !in c.entries;
      }
    } else {
      PopFront(c);
      ValidIsSized(Pop(c));
      assert c.order[0] in c.entries && Pop(c).entries.Keys == c.entries.Keys - {c.order[0]};
      assert |Pop(c).entries.Keys| == |Pop(c).entries| && |c.entries.Keys| == |c.entries|;
    }
  }

  lemma {:induction false} EvictKeepsValid(c: Cache, capacity: nat)
    requires Valid(c)
    ensures Valid(Evict(c, capacity)) && |Evict(c, capacity).entries| <= capacity
    ensures Sub(Evict(c, capacity).entries, c.entries)
    decreases |c.order|
  {
    if |c.entries| > capacity {
      ValidIsSized(c);
      PopFront(c);
      EvictKeepsValid(Pop(c), capacity);
    }
  }

  /** Eviction keeps exactly the `capacity` most recently used entries. */
  lemma {:induction false} EvictKeepsRecent(c: Cache, capacity: nat)
    requires Sized(c)
    ensures Evict(c, capacity).order == c.order[SatSub(|c.order|, capacity)..]
    decreases |c.order|
  {
    if |c.entries| > capacity {
      EvictKeepsRecent(Pop(c), capacity);
      var n := |c.order| - capacity;
      assert c.order[1..][n - 1..] == c.order[n..];
    }
  }

  lemma InsertKeepsValid(c: Cache, e: Entry, capacity: nat)
    requires Valid(c)
    ensures Valid(Insert(c, e, capacity)) && |Insert(c, e, capacity).entries| <= capacity
    ensures Sub(Insert(c, e, capacity).entries, c.entries[e.id.index := e])
  {
    var added := c.(entries := c.entries[e.id.index := e]);
    TouchKeepsValid(added, e.id.index);
    EvictKeepsValid(Touch(added, e.id.index), capacity);
  }

  /** Unless the cache has no room at all, the entry just inserted is its most recent. */
  lemma InsertIsMostRecent(c: Cache, e: Entry, capacity: nat)
    requires Valid(c) && capacity > 0
    ensures var order := Insert(c, e, capacity).order; order != [] && order[|order| - 1] == e.id.index
  {
    var added := c.(entries := c.entries[e.id.index := e]);
    TouchKeepsValid(added, e.id.index);
    ValidIsSized(Touch(added, e.id.index));
    EvictKeepsRecent(Touch(added, e.id.index), capacity);
  }

  lemma {:induction false} InsertAllKeepsValid(c: Cache, entries: seq<Entry>, capacity: nat, log: Log)
    requires Valid(c) && |c.entries| <= capacity && Sub(c.entries, log)
    requires forall i | 0 <= i < |entries| :: entries[i].id.index in log && log[entries[i].id.index] == entries[i]
    ensures Valid(InsertAll(c, entries, capacity)) && |InsertAll(c, entries, capacity).entries| <= capacity
    ensures Sub(InsertAll(c, entries, capacity).entries, log)
  {
    if entries != [] {
      var init, last := entries[..|entries| - 1], entries[|entries| - 1];
      InsertAllKeepsValid(c, init, capacity, log);
      InsertKeepsValid(InsertAll(c, init, capacity), last, capacity);
    }
  }

  lemma {:induction false} TouchAllKeepsValid(c: Cache, entries: seq<Entry>)
    requires Valid(c)
    ensures Valid(TouchAll(c, entries)) && TouchAll(c, entries).entries == c.entries
  {
    if entries != [] {
      TouchAllKeepsValid(c, entries[..|entries| - 1]);
      TouchKeepsValid(TouchAll(c, entries[..|entries| - 1]), entries[|entries| - 1].id.index);
    }
  }

  lemma ShrinkSize(a: Log, b: Log)
    requires Sub(a, b)
    ensures |a| <= |b|
  {
    SubsetSize(a.Keys, b.Keys);
    assert |a.Keys| == |a| && |b.Keys| == |b|;
  }

  lemma {:induction false} SubsetSize(a: set<nat>, b: set<nat>)
    requires a <= b
    ensures |a| <= |b|
    decreases |a|
  {
    if a != {} {
      var x :| x in a;
      SubsetSize(a - {x}, b - {x});
    }
  }

  lemma TruncateKeepsValid(c: Cache, index: nat)
    requires Valid(c)
    ensures Valid(TruncateAfter(c, index)) && |TruncateAfter(c, index).entries| <= |c.entries|
  {
    ShrinkSize(UpTo(c.entries, index), c.entries);
  }

  lemma PurgeKeepsValid(c: Cache, index: nat)
    requires Valid(c)
    ensures Valid(PurgeUpTo(c, index)) && |PurgeUpTo(c, index).entries| <= |c.entries|
  {
    ShrinkSize(After(c.entries, index), c.entries);
  }
}
