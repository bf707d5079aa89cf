/**
 Hybrid logical clocks: the timestamps of crates/chirps-wire/src/hlc.rs and the
 per-node clock of crates/chirps-gossip-swim/src/hlc.rs.  Wall-clock readings are
 arbitrary inputs and may go backward.
 */
module Hlc {
  import opened Prelude

  /** Milliseconds (u64) and a counter within the millisecond (u32). */
  datatype Timestamp = Timestamp(physical: nat, logical: nat) {
    predicate Fits() {
      physical <= U64_MAX && logical <= U32_MAX
    }

    predicate Less(t: Timestamp) {
      physical < t.physical || (physical == t.physical && logical < t.logical)
    }

    predicate AtMost(t: Timestamp) {
      this == t || Less(t)
    }

    /** `next`: a full counter moves on to the next millisecond, and stops at the last. */
    function Next(): Timestamp {
      if logical < U32_MAX then Timestamp(physical, logical + 1)
      else Timestamp(SatAdd(physical, 1), 0)
    }
  }

  /** The last timestamp; nothing follows it. */
  const LIMIT := Timestamp(U64_MAX, U32_MAX)

  function Later(a: Timestamp, b: Timestamp): Timestamp {
    if a.Less(b) then b else a
  }

  function TickFn(current: Timestamp, wall: nat): Timestamp {
    if wall > current.physical then Timestamp(wall, 0) else current.Next()
  }

  /** What a receive sets the clock to, or None when the sender is too far ahead. */
  function ReceiveFn(current: Timestamp, wall: nat, skew: nat, remote: Timestamp): Option<Timestamp> {
    if remote.physical > SatAdd(wall, skew) then None
    else
      var merged := Max(Max(current.physical, wall), remote.physical);
      Some(
        if merged == current.physical && merged == remote.physical then
          Timestamp(merged, Max(current.logical, remote.logical)).Next()
        else if merged == current.physical then current.Next()
        else if merged == remote.physical then remote.Next()
        else Timestamp(merged, 0))
  }

  /** `next` gives a later timestamp except at the limit. */
  lemma NextIsLater(t: Timestamp)
    requires t.Fits()
    ensures t.Next().Fits()
    ensures t.Less(t.Next()) <==> t != LIMIT
    ensures t.physical <= t.Next().physical
  {
  }

  /** A tick moves the clock forward exactly when it is not at the limit. */
  lemma TickIsLater(current: Timestamp, wall: nat)
    requires current.Fits() && wall <= U64_MAX
    ensures TickFn(current, wall).Fits()
    ensures current.Less(TickFn(current, wall)) <==> current != LIMIT
    ensures current.physical <= TickFn(current, wall).physical
  {
  }

  /** An accepted receive is later than the clock and than the message exactly when neither
      is at the limit. */
  lemma ReceiveIsLater(current: Timestamp, wall: nat, skew: nat, remote: Timestamp)
    requires current.Fits() && remote.Fits() && wall <= U64_MAX
    requires ReceiveFn(current, wall, skew, remote).Some?
    ensures var r := ReceiveFn(current, wall, skew, remote).value;
            && r.Fits()
            && (current.Less(r) && remote.Less(r) <==> Later(current, remote) != LIMIT)
            && current.physical <= r.physical && remote.physical <= r.physical
  {
  }

  /** `LocalHlc`. */
  class LocalHlc {
    var current: Timestamp
    const maxSkew: nat

    constructor (wall: nat, maxSkew: nat)
      ensures current == Timestamp(wall, 0) && this.maxSkew == maxSkew
    {
      current := Timestamp(wall, 0);
      this.maxSkew := maxSkew;
    }

    method Tick(wall: nat) returns (t: Timestamp)
      requires current.Fits() && wall <= U64_MAX
      modifies `current
      ensures current == TickFn(old(current), wall) && t == current
      ensures old(current) != LIMIT ==> old(current).Less(t)
    {
      TickIsLater(current, wall);
      current := if wall > current.physical then Timestamp(wall, 0) else current.Next();
      t := current;
    }

    method Receive(wall: nat, remote: Timestamp) returns (r: Option<Timestamp>)
      requires current.Fits() && remote.Fits() && wall <= U64_MAX
      modifies `current
      ensures r == ReceiveFn(old(current), wall, maxSkew, remote)
      ensures current == if r.Some? then r.value else old(current)
      ensures r.Some? && old(current) != LIMIT && remote != LIMIT ==> old(current).Less(current) && remote.Less(current)
    {
      if remote.physical > SatAdd(wall, maxSkew) {
        return None;
      }
      ReceiveIsLater(current, wall, maxSkew, remote);
      var local := current;
      var merged := Max(Max(local.physical, wall), remote.physical);
      if merged == local.physical && merged == remote.physical {
        current := Timestamp(merged, Max(local.logical, remote.logical)).Next();
      } else if merged == local.physical {
        current := local.Next();
      } else if merged == remote.physical {
        current := remote.Next();
      } else {
        current := Timestamp(merged, 0);
      }
      r := Some(current);
    }
  }
}

/** Causality over every run of many nodes that stamp, send and receive. */
module HlcRuns {
  import opened Prelude
  import opened Hlc

  /** What a node does, with the wall clock it reads: stamp something, send a message
      stamped now, or receive the message sent by an earlier event. */
  datatype Event =
    | Local(node: nat, wall: nat)
    | Send(node: nat, wall: nat)
    | Recv(node: nat, wall: nat, sent: nat)

  datatype Run = Run(start: nat -> nat, skew: nat, events: seq<Event>) {
    ghost predicate Valid() {
      && (forall n: nat :: start(n) <= U64_MAX)
      && (forall k | 0 <= k < |events| :: events[k].wall <= U64_MAX)
      && (forall k | 0 <= k < |events| && events[k].Recv? :: events[k].sent < k && events[events[k].sent].Send?)
    }

    /** The clock of `n` before event `k`. */
    ghost function Clock(k: nat, n: nat): Timestamp
      requires Valid() && k <= |events|
      decreases k, 0
    {
      if k == 0 then Timestamp(start(n), 0)
      else if events[k - 1].node == n && Stamp(k - 1).Some? then Stamp(k - 1).value
      else Clock(k - 1, n)
    }

    /** The timestamp of event `k`, or None for a receive that was refused. */
    ghost function Stamp(k: nat): Option<Timestamp>
      requires Valid() && k < |events|
      decreases k, 1
    {
      match events[k]
      case Local(n, wall) => Some(TickFn(Clock(k, n), wall))
      case Send(n, wall) => Some(TickFn(Clock(k, n), wall))
      case Recv(n, wall, sent) =>
        if Stamp(sent).None? then None else ReceiveFn(Clock(k, n), wall, skew, Stamp(sent).value)
    }

    /** No timestamp of the run is the last representable one. */
    ghost predicate BelowLimit()
      requires Valid()
    {
      forall k | 0 <= k < |events| && Stamp(k).Some? :: Stamp(k).value != LIMIT
    }

    /** Event `i` directly precedes event `j`: earlier on the same node, or the send of
        the message that `j` received. */
    ghost predicate Precedes(i: nat, j: nat)
      requires Valid()
    {
      && i < j < |events|
      && Stamp(i).Some? && Stamp(j).Some?
      && (events[i].node == events[j].node || (events[j].Recv? && events[j].sent == i))
    }

    /** A chain of direct precedence. */
    ghost predicate Chain(path: seq<nat>)
      requires Valid()
    {
      |path| >= 2 && forall i | 0 <= i < |path| - 1 :: Precedes(path[i], path[i + 1])
    }
  }

  lemma {:induction false} TimestampsFit(r: Run, k: nat, n: nat)
    requires r.Valid() && k <= |r.events|
    ensures r.Clock(k, n).Fits()
    ensures forall i | 0 <= i < k && r.Stamp(i).Some? :: r.Stamp(i).value.Fits()
    decreases k, 0
  {
    if k > 0 {
      TimestampsFit(r, k - 1, n);
      StampFits(r, k - 1);
    }
  }

  lemma {:induction false} StampFits(r: Run, k: nat)
    requires r.Valid() && k < |r.events|
    ensures r.Stamp(k).Some? ==> r.Stamp(k).value.Fits()
    decreases k, 1
  {
    var e := r.events[k];
    TimestampsFit(r, k, e.node);
    if e.Recv? {
      if r.Stamp(k).Some? {
        ReceiveIsLater(r.Clock(k, e.node), e.wall, r.skew, r.Stamp(e.sent).value);
      }
    } else {
      TickIsLater(r.Clock(k, e.node), e.wall);
    }
  }

  /** A clock below the limit stays so, and is never behind what its node stamped. */
  lemma {:induction false} ClockIsPast(r: Run, k: nat, n: nat, i: nat)
    requires r.Valid() && r.BelowLimit() && i < k <= |r.events| && r.events[i].node == n && r.Stamp(i).Some?
    ensures r.Stamp(i).value.AtMost(r.Clock(k, n))
    decreases k
  {
    if i < k - 1 {
      ClockIsPast(r, k - 1, n, i);
      if r.events[k - 1].node == n && r.Stamp(k - 1).Some? {
        StampIsLater(r, k - 1);
        LessIsTransitiveLeft(r.Stamp(i).value, r.Clock(k - 1, n), r.Stamp(k - 1).value);
      }
    }
  }

  lemma LessIsTransitiveLeft(a: Timestamp, b: Timestamp, c: Timestamp)
    requires a.AtMost(b) && b.Less(c)
    ensures a.Less(c)
  {
  }

  lemma {:induction false} ClockBelowLimit(r: Run, k: nat, n: nat)
    requires r.Valid() && r.BelowLimit() && k <= |r.events|
    ensures r.Clock(k, n) != LIMIT
    decreases k
  {
    if k > 0 && !(r.events[k - 1].node == n && r.Stamp(k - 1).Some?) {
      ClockBelowLimit(r, k - 1, n);
    }
  }

  /** Every stamp is later than its node's clock, and than the message it received. */
  lemma StampIsLater(r: Run, k: nat)
    requires r.Valid() && r.BelowLimit() && k < |r.events| && r.Stamp(k).Some?
    ensures r.Clock(k, r.events[k].node).Less(r.Stamp(k).value)
    ensures r.events[k].Recv? ==>
              r.Stamp(r.events[k].sent).Some? && r.Stamp(r.events[k].sent).value.Less(r.Stamp(k).value)
  {
    var e := r.events[k];
    TimestampsFit(r, k, e.node);
    ClockBelowLimit(r, k, e.node);
    if e.Recv? {
      ReceiveIsLater(r.Clock(k, e.node), e.wall, r.skew, r.Stamp(e.sent).value);
    } else {
      TickIsLater(r.Clock(k, e.node), e.wall);
    }
  }

  lemma PrecedenceOrders(r: Run, i: nat, j: nat)
    requires r.Valid() && r.BelowLimit() && r.Precedes(i, j)
    ensures r.Stamp(i).value.Less(r.Stamp(j).value)
  {
    StampIsLater(r, j);
    if r.events[i].node == r.events[j].node {
      ClockIsPast(r, j, r.events[i].node, i);
      LessIsTransitiveLeft(r.Stamp(i).value, r.Clock(j, r.events[i].node), r.Stamp(j).value);
    }
  }

  /** Happens-before implies a strictly smaller timestamp, over any number of nodes, any
      wall clocks and any refused receives. */
  lemma {:induction false} HappensBeforeOrders(r: Run, path: seq<nat>)
    requires r.Valid() && r.BelowLimit() && r.Chain(path)
    ensures path[0] < path[|path| - 1] < |r.events|
    ensures r.Stamp(path[0]).Some? && r.Stamp(path[|path| - 1]).Some?
    ensures r.Stamp(path[0]).value.Less(r.Stamp(path[|path| - 1]).value)
    decreases |path|
  {
    assert r.Precedes(path[0], path[0 + 1]);
    PrecedenceOrders(r, path[0], path[1]);
    if |path| > 2 {
      var rest := path[1..];
      forall i | 0 <= i < |rest| - 1
        ensures r.Precedes(rest[i], rest[i + 1])
      {
        assert r.Precedes(path[i + 1], path[i + 1 + 1]);
      }
      HappensBeforeOrders(r, rest);
    }
  }
}
