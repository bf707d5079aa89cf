/**
 The sender's retransmission buffer and the receiver's deduplication table
 (crates/chirps-transport-quic/src/retransmit.rs).

 Each class method is tied to a function on the per-peer value it updates; the
 lemmas say what those functions mean.  Sequence numbers are called "numbers"
 because `seq` is a Dafny type.  Clock readings are parameters.
 */
module Retransmit {
  import opened Prelude

  // ---------------------------------------------------------------- receiver

  datatype PeerDedup = PeerDedup(contiguous: nat, outOfOrder: set<nat>) {
    ghost predicate Valid() {
      && contiguous <= U64_MAX
      && forall k | k in outOfOrder :: contiguous + 1 < k <= U64_MAX
    }

    /** `k` has been accepted (returned true) at some point. */
    predicate Accepted(k: nat) {
      1 <= k <= contiguous || k in outOfOrder
    }
  }

  const FRESH_DEDUP := PeerDedup(0, {})

  /** The loop that moves the cumulative boundary over every number already held. */
  function Advance(contiguous: nat, held: set<nat>): PeerDedup
    decreases |held|
  {
    var next := SatAdd(contiguous, 1);
    if next in held then Advance(next, held - {next}) else PeerDedup(contiguous, held)
  }

  predicate Admissible(d: PeerDedup, window: nat, number: nat) {
    && !(number <= d.contiguous || number in d.outOfOrder)
    && number <= SatAdd(d.contiguous, window)
  }

  /** The per-peer state after one `check_and_update`. */
  function Observe(d: PeerDedup, window: nat, number: nat): PeerDedup {
    if Admissible(d, window, number) then Advance(d.contiguous, d.outOfOrder + {number}) else d
  }

  lemma {:induction false} AdvanceMeaning(contiguous: nat, held: set<nat>)
    requires contiguous <= U64_MAX
    requires forall k | k in held :: contiguous < k <= U64_MAX
    ensures var r := Advance(contiguous, held);
            && r.Valid()
            && contiguous <= r.contiguous
            && forall k: nat :: r.Accepted(k) <==> (1 <= k <= contiguous || k in held)
    decreases |held|
  {
    var next := SatAdd(contiguous, 1);
    if next in held {
      AdvanceMeaning(next, held - {next});
      var r := Advance(contiguous, held);
      assert r == Advance(next, held - {next});
      forall k: nat
        ensures r.Accepted(k) <==> (1 <= k <= contiguous || k in held)
      {
        assert r.Accepted(k) <==> (1 <= k <= next || k in held - {next});
      }
    }
  }

  /** What one received number does: it joins the accepted set iff it is new and
      inside the window, and nothing else ever enters or leaves that set. */
  lemma ObserveMeaning(d: PeerDedup, window: nat, number: nat)
    requires d.Valid() && number <= U64_MAX
    ensures var r := Observe(d, window, number);
            && r.Valid()
            && d.contiguous <= r.contiguous
            && (Admissible(d, window, number) <==>
                  1 <= number && !d.Accepted(number) && number <= d.contiguous + window)
            && (forall k: nat :: r.Accepted(k) <==>
                  d.Accepted(k) || (k == number && Admissible(d, window, number)))
  {
    if Admissible(d, window, number) {
      AdvanceMeaning(d.contiguous, d.outOfOrder + {number});
    }
  }

  /** The table entry is a canonical form: it is determined by the accepted set,
      so the cumulative boundary is always as large as it can be. */
  lemma Canonical(d: PeerDedup, e: PeerDedup)
    requires d.Valid() && e.Valid()
    requires forall k: nat :: d.Accepted(k) <==> e.Accepted(k)
    ensures d == e
  {
    assert !d.Accepted(d.contiguous + 1) && !e.Accepted(d.contiguous + 1);
    assert !e.Accepted(e.contiguous + 1) && !d.Accepted(e.contiguous + 1);
    forall k: nat
      ensures k in d.outOfOrder <==> k in e.outOfOrder
    {
      assert d.Accepted(k) <==> e.Accepted(k);
    }
  }

  class DeduplicationTable {
    var peers: map<NodeId, PeerDedup>
    const windowSize: nat

    ghost predicate Valid()
      reads this
    {
      forall p | p in peers :: peers[p].Valid()
    }

    function StateOf(peer: NodeId): PeerDedup
      reads this
    {
      if peer in peers then peers[peer] else FRESH_DEDUP
    }

    constructor ()
      ensures Valid() && peers == map[] && windowSize == 1000
    {
      peers := map[];
      windowSize := 1000;
    }

    constructor WithWindow(window: nat)
      ensures Valid() && peers == map[] && windowSize == Max(window, 1)
    {
      peers := map[];
      windowSize := Max(window, 1);
    }

    method CheckAndUpdate(peer: NodeId, number: nat) returns (isNew: bool)
      requires Valid() && number <= U64_MAX
      modifies this
      ensures Valid()
      ensures isNew == Admissible(old(StateOf(peer)), windowSize, number)
      ensures peers == old(peers)[peer := Observe(old(StateOf(peer)), windowSize, number)]
    {
      ObserveMeaning(StateOf(peer), windowSize, number);
      var state := StateOf(peer);
      if number <= state.contiguous || number in state.outOfOrder {
        peers := peers[peer := state];
        return false;
      }
      var windowEnd := SatAdd(state.contiguous, windowSize);
      if number > windowEnd {
        peers := peers[peer := state];
        return false;
      }
      var contiguous, held := state.contiguous, state.outOfOrder + {number};
      while SatAdd(contiguous, 1) in held
        invariant Advance(contiguous, held) == Advance(state.contiguous, state.outOfOrder + {number})
        decreases |held|
      {
        held := held - {SatAdd(contiguous, 1)};
        contiguous := SatAdd(contiguous, 1);
      }
      peers := peers[peer := PeerDedup(contiguous, held)];
      isNew := true;
    }

    method LastSeen(peer: NodeId) returns (r: nat)
      ensures r == StateOf(peer).contiguous
    {
      r := if peer in peers then peers[peer].contiguous else 0;
    }
  }

  // ------------------------------------------------------------------ sender

  datatype BufferError = SequenceExhausted

  datatype BufferedMessage = BufferedMessage(number: nat, frame: Frame, size: nat, stamp: nat)

  datatype RetransmitConfig = RetransmitConfig(maxBytes: nat, maxMessages: nat, ttl: nat)

  datatype PeerBuffer = PeerBuffer(messages: seq<BufferedMessage>, totalBytes: nat,
                                   nextNumber: nat, acked: nat) {
    /** The buffered numbers are one gap-free increasing run ending at `nextNumber - 1`. */
    ghost predicate Valid() {
      && |messages| < nextNumber <= U64_MAX
      && (forall i | 0 <= i < |messages| :: messages[i].number == nextNumber - |messages| + i)
      && totalBytes <= SumSizes(messages)
    }

    /** The byte counter is the sum of the buffered sizes. */
    ghost predicate Exact() {
      totalBytes == SumSizes(messages)
    }

    /** The smallest buffered number (or `nextNumber` when nothing is buffered). */
    function First(): int {
      nextNumber - |messages|
    }

    predicate Buffered(k: nat) {
      First() <= k < nextNumber
    }
  }

  const FRESH_BUFFER := PeerBuffer([], 0, 1, 0)

  function SumSizes(ms: seq<BufferedMessage>): nat {
    if ms == [] then 0 else ms[0].size + SumSizes(ms[1..])
  }

  lemma {:induction false} SumSizesAppend(ms: seq<BufferedMessage>, m: BufferedMessage)
    ensures SumSizes(ms + [m]) == SumSizes(ms) + m.size
  {
    if ms == [] {
      assert ms + [m] == [m];
    } else {
      assert (ms + [m])[1..] == ms[1..] + [m];
      SumSizesAppend(ms[1..], m);
    }
  }

  function PopFront(b: PeerBuffer): PeerBuffer
    requires b.messages != []
  {
    b.(messages := b.messages[1..], totalBytes := SatSub(b.totalBytes, b.messages[0].size))
  }

  function Push(b: PeerBuffer, frame: Frame, size: nat, stamp: nat): PeerBuffer {
    b.(messages := b.messages + [BufferedMessage(b.nextNumber, frame, size, stamp)],
       totalBytes := SatAdd(b.totalBytes, size),
       nextNumber := b.nextNumber + 1)
  }

  predicate Expired(m: BufferedMessage, now: nat, ttl: nat) {
    SatSub(now, m.stamp) > ttl
  }

  function Expire(b: PeerBuffer, now: nat, ttl: nat): PeerBuffer
    decreases |b.messages|
  {
    if b.messages != [] && Expired(b.messages[0], now, ttl) then Expire(PopFront(b), now, ttl) else b
  }

  predicate OverLimit(b: PeerBuffer, config: RetransmitConfig) {
    b.totalBytes > config.maxBytes || |b.messages| > config.maxMessages
  }

  function Shrink(b: PeerBuffer, config: RetransmitConfig): PeerBuffer
    decreases |b.messages|
  {
    if OverLimit(b, config) && b.messages != [] then Shrink(PopFront(b), config) else b
  }

  /** `handle_overflow` on one peer: expire by age, then drop oldest until within limits. */
  function Trim(b: PeerBuffer, config: RetransmitConfig, now: nat): PeerBuffer {
    Shrink(Expire(b, now, config.ttl), config)
  }

  function DropAcked(b: PeerBuffer, ack: nat): PeerBuffer
    decreases |b.messages|
  {
    if b.messages != [] && b.messages[0].number <= ack then DropAcked(PopFront(b), ack) else b
  }

  /** `process_ack` on one peer. */
  function Acknowledge(b: PeerBuffer, ack: nat): PeerBuffer {
    DropAcked(b.(acked := Max(b.acked, ack)), ack)
  }

  function Unacked(messages: seq<BufferedMessage>, acked: nat): seq<BufferedMessage> {
    if messages == [] then []
    else (if messages[0].number > acked then [messages[0]] else []) + Unacked(messages[1..], acked)
  }

  lemma PopFrontValid(b: PeerBuffer)
    requires b.Valid() && b.messages != []
    ensures PopFront(b).Valid()
  {
  }

  lemma PushValid(b: PeerBuffer, frame: Frame, size: nat, stamp: nat)
    requires b.Valid() && b.nextNumber < U64_MAX
    ensures Push(b, frame, size, stamp).Valid()
  {
    SumSizesAppend(b.messages, BufferedMessage(b.nextNumber, frame, size, stamp));
  }

  /** `later` is `earlier` with some of its oldest messages gone. */
  ghost predicate SuffixOf(later: PeerBuffer, earlier: PeerBuffer) {
    && later.Valid()
    && later.nextNumber == earlier.nextNumber
    && later.acked == earlier.acked
    && |later.messages| <= |earlier.messages|
    && later.messages == earlier.messages[|earlier.messages| - |later.messages|..]
  }

  lemma {:induction false} ExpireMeaning(b: PeerBuffer, now: nat, ttl: nat)
    requires b.Valid()
    ensures var r := Expire(b, now, ttl);
            && SuffixOf(r, b)
            && r == PopMany(b, |b.messages| - |r.messages|)
            && (forall i | 0 <= i < |b.messages| - |r.messages| :: Expired(b.messages[i], now, ttl))
            && (r.messages != [] ==> !Expired(r.messages[0], now, ttl))
    decreases |b.messages|
  {
    if b.messages != [] && Expired(b.messages[0], now, ttl) {
      PopFrontValid(b);
      ExpireMeaning(PopFront(b), now, ttl);
      var r := Expire(b, now, ttl);
      forall i | 0 <= i < |b.messages| - |r.messages|
        ensures Expired(b.messages[i], now, ttl)
      {
        if i > 0 { assert b.messages[i] == PopFront(b).messages[i - 1]; }
      }
    }
  }

  /** The buffer once its `n` oldest messages have been popped. */
  function PopMany(b: PeerBuffer, n: nat): PeerBuffer
    decreases n
  {
    if n == 0 || b.messages == [] then b else PopMany(PopFront(b), n - 1)
  }

  /** Limits hold afterwards unless nothing is left, and a message is dropped only while a
      limit is broken with it still in front: no more goes than the limits need. */
  lemma {:induction false} ShrinkMeaning(b: PeerBuffer, config: RetransmitConfig)
    requires b.Valid()
    ensures var r := Shrink(b, config);
            && SuffixOf(r, b)
            && (r.messages == [] || !OverLimit(r, config))
            && r == PopMany(b, |b.messages| - |r.messages|)
            && (!OverLimit(b, config) ==> r == b)
            && forall i | 0 <= i < |b.messages| - |r.messages| :: OverLimit(PopMany(b, i), config)
    decreases |b.messages|
  {
    if OverLimit(b, config) && b.messages != [] {
      PopFrontValid(b);
      ShrinkMeaning(PopFront(b), config);
      var r := Shrink(b, config);
      forall i | 0 <= i < |b.messages| - |r.messages|
        ensures OverLimit(PopMany(b, i), config)
      {
        if i > 0 {
          assert PopMany(b, i) == PopMany(PopFront(b), i - 1);
        }
      }
    }
  }

  /** The messages up to the one at `i` have all expired. */
  ghost predicate ExpiredThrough(messages: seq<BufferedMessage>, now: nat, ttl: nat, i: nat) {
    i < |messages| && forall j | 0 <= j <= i :: Expired(messages[j], now, ttl)
  }

  lemma {:induction false} LeadingExpiredGo(b: PeerBuffer, now: nat, ttl: nat, i: nat)
    requires ExpiredThrough(b.messages, now, ttl, i)
    ensures i < |b.messages| - |Expire(b, now, ttl).messages|
    decreases i
  {
    assert Expired(b.messages[0], now, ttl);
    var rest := PopFront(b);
    if i > 0 {
      assert forall j | 0 <= j <= i - 1 :: rest.messages[j] == b.messages[j + 1];
      LeadingExpiredGo(rest, now, ttl, i - 1);
    } else {
      ExpireShrinks(rest, now, ttl);
    }
  }

  lemma {:induction false} ExpireShrinks(b: PeerBuffer, now: nat, ttl: nat)
    ensures |Expire(b, now, ttl).messages| <= |b.messages|
    decreases |b.messages|
  {
    if b.messages != [] && Expired(b.messages[0], now, ttl) {
      ExpireShrinks(PopFront(b), now, ttl);
    }
  }

  /** Why the message at `i` went: it had expired, or a limit was broken with it in front. */
  ghost predicate Outdated(b: PeerBuffer, config: RetransmitConfig, now: nat, i: nat)
    requires i < |b.messages|
  {
    Expired(b.messages[i], now, config.ttl) || OverLimit(PopMany(b, i), config)
  }

  /** What is left is a suffix within the limits without the expired messages in front, and
      every dropped message had a reason to go. */
  lemma TrimMeaning(b: PeerBuffer, config: RetransmitConfig, now: nat)
    requires b.Valid()
    ensures var r := Trim(b, config, now);
            && SuffixOf(r, b)
            && (r.messages == [] || !OverLimit(r, config))
            && r == PopMany(b, |b.messages| - |r.messages|)
            && (forall i: nat | ExpiredThrough(b.messages, now, config.ttl, i) :: i < |b.messages| - |r.messages|)
            && forall i | 0 <= i < |b.messages| - |r.messages| :: Outdated(b, config, now, i)
    ensures (forall m | m in b.messages :: !Expired(m, now, config.ttl)) && !OverLimit(b, config)
            ==> Trim(b, config, now) == b
  {
    var e := Expire(b, now, config.ttl);
    ExpireMeaning(b, now, config.ttl);
    ShrinkMeaning(e, config);
    var gone := |b.messages| - |e.messages|;
    var r := Trim(b, config, now);
    PopManyAdds(b, gone, |e.messages| - |r.messages|);
    forall i | 0 <= i < |b.messages| - |r.messages|
      ensures Outdated(b, config, now, i)
    {
      if i >= gone {
        PopManyAdds(b, gone, i - gone);
      }
    }
    forall i: nat | ExpiredThrough(b.messages, now, config.ttl, i)
      ensures i < gone
    {
      LeadingExpiredGo(b, now, config.ttl, i);
    }
  }

  lemma {:induction false} PopManyAdds(b: PeerBuffer, n: nat, k: nat)
    ensures PopMany(PopMany(b, n), k) == PopMany(b, n + k)
    decreases n
  {
    if n > 0 && b.messages != [] {
      PopManyAdds(PopFront(b), n - 1, k);
    } else if b.messages == [] {
      assert PopMany(b, k) == b == PopMany(b, n + k);
    }
  }

  // The byte counter.

  /** A push keeps the counter exact if and only if the addition does not saturate. */
  lemma PushExactIff(b: PeerBuffer, frame: Frame, size: nat, stamp: nat)
    requires b.Exact()
    ensures Push(b, frame, size, stamp).Exact() <==> b.totalBytes + size <= U64_MAX
  {
    SumSizesAppend(b.messages, BufferedMessage(b.nextNumber, frame, size, stamp));
  }

  lemma {:induction false} PopsKeepExact(b: PeerBuffer, n: nat)
    requires b.Exact()
    ensures PopMany(b, n).Exact() && PopMany(b, n).totalBytes <= b.totalBytes
    ensures n <= |b.messages| ==> PopMany(b, n).messages == b.messages[n..]
    decreases n
  {
    if n > 0 && b.messages != [] {
      PopsKeepExact(PopFront(b), n - 1);
    }
  }

  /** The buffered messages themselves break a limit. */
  predicate Overfull(messages: seq<BufferedMessage>, config: RetransmitConfig) {
    SumSizes(messages) > config.maxBytes || |messages| > config.maxMessages
  }

  /** With an exact counter the limits bound the buffered bytes themselves, and trimming
      keeps the longest part of what has not expired that is within them. */
  lemma TrimExact(b: PeerBuffer, config: RetransmitConfig, now: nat)
    requires b.Valid() && b.Exact()
    ensures var r := Trim(b, config, now);
            && r.Exact()
            && r.totalBytes <= b.totalBytes
            && (r.messages == [] || !Overfull(r.messages, config))
            && forall i | 0 <= i < |b.messages| - |r.messages| ::
                 Expired(b.messages[i], now, config.ttl) || Overfull(b.messages[i..], config)
  {
    TrimMeaning(b, config, now);
    var r := Trim(b, config, now);
    PopsKeepExact(b, |b.messages| - |r.messages|);
    forall i | 0 <= i < |b.messages| - |r.messages|
      ensures Expired(b.messages[i], now, config.ttl) || Overfull(b.messages[i..], config)
    {
      assert Outdated(b, config, now, i);
      PopsKeepExact(b, i);
    }
  }

  lemma {:induction false} AckedArePopped(b: PeerBuffer, ack: nat)
    ensures exists n: nat :: n <= |b.messages| && DropAcked(b, ack) == PopMany(b, n)
    decreases |b.messages|
  {
    if b.messages != [] && b.messages[0].number <= ack {
      AckedArePopped(PopFront(b), ack);
      var n: nat :| n <= |PopFront(b).messages| && DropAcked(PopFront(b), ack) == PopMany(PopFront(b), n);
      assert DropAcked(b, ack) == PopMany(b, n + 1);
    } else {
      assert DropAcked(b, ack) == PopMany(b, 0);
    }
  }

  lemma AcknowledgeKeepsExact(b: PeerBuffer, ack: nat)
    requires b.Exact()
    ensures Acknowledge(b, ack).Exact() && Acknowledge(b, ack).totalBytes <= b.totalBytes
  {
    var marked := b.(acked := Max(b.acked, ack));
    AckedArePopped(marked, ack);
    var n: nat :| n <= |marked.messages| && DropAcked(marked, ack) == PopMany(marked, n);
    PopsKeepExact(marked, n);
  }

  lemma {:induction false} DropAckedMeaning(b: PeerBuffer, ack: nat)
    requires b.Valid()
    ensures SuffixOf(DropAcked(b, ack), b)
    ensures forall k: nat :: DropAcked(b, ack).Buffered(k) <==> b.Buffered(k) && k > ack
    decreases |b.messages|
  {
    if b.messages != [] && b.messages[0].number <= ack {
      PopFrontValid(b);
      DropAckedMeaning(PopFront(b), ack);
      forall k: nat
        ensures DropAcked(b, ack).Buffered(k) <==> b.Buffered(k) && k > ack
      {
        assert DropAcked(b, ack).Buffered(k) <==> PopFront(b).Buffered(k) && k > ack;
      }
    }
  }

  /** Because the numbers form a run, popping from the front removes exactly the
      acknowledged numbers. */
  lemma AcknowledgeMeaning(b: PeerBuffer, ack: nat)
    requires b.Valid()
    ensures var r := Acknowledge(b, ack);
            && r.Valid()
            && r.nextNumber == b.nextNumber
            && r.acked == Max(b.acked, ack)
            && |r.messages| <= |b.messages|
            && r.messages == b.messages[|b.messages| - |r.messages|..]
            && (forall k: nat :: r.Buffered(k) <==> b.Buffered(k) && k > ack)
  {
    DropAckedMeaning(b.(acked := Max(b.acked, ack)), ack);
    forall k: nat
      ensures Acknowledge(b, ack).Buffered(k) <==> b.Buffered(k) && k > ack
    {
      assert Acknowledge(b, ack).Buffered(k) <==> b.(acked := Max(b.acked, ack)).Buffered(k) && k > ack;
    }
  }

  /** What a drain returns: the run of buffered messages above the acked boundary. */
  lemma {:induction false} UnackedIsSuffix(b: PeerBuffer)
    requires b.Valid()
    ensures var start := Min(|b.messages|, Max(0, b.acked + 1 - b.First()));
            Unacked(b.messages, b.acked) == b.messages[start..]
    decreases |b.messages|
  {
    if b.messages != [] {
      PopFrontValid(b);
      UnackedIsSuffix(PopFront(b));
      assert Unacked(b.messages[1..], b.acked) == Unacked(PopFront(b).messages, b.acked);
      assert b.messages[0].number == b.First();
      if b.First() > b.acked {
        assert b.messages == [b.messages[0]] + b.messages[1..];
      }
    }
  }

  class RetransmissionBuffer {
    var buffers: map<NodeId, PeerBuffer>
    const config: RetransmitConfig

    constructor (config: RetransmitConfig)
      ensures buffers == map[] && this.config == config
    {
      this.buffers := map[];
      this.config := config;
    }

    function BufferOf(peer: NodeId): PeerBuffer
      reads this
    {
      if peer in buffers then buffers[peer] else FRESH_BUFFER
    }

    /** Two clock readings: one stamps the message, a later one drives the trim. */
    method BufferWithSize(peer: NodeId, frame: Frame, size: nat, stamp: nat, now: nat)
      returns (r: Result<nat, BufferError>)
      modifies this
      ensures var was := old(BufferOf(peer));
              if was.nextNumber >= U64_MAX then
                r == Failure(SequenceExhausted) && buffers == old(buffers)[peer := was]
              else
                && r == Success(was.nextNumber)
                && buffers == old(buffers)[peer := Trim(Push(was, frame, size, stamp), config, now)]
    {
      var b := BufferOf(peer);
      buffers := buffers[peer := b];
      var number := b.nextNumber;
      if number >= U64_MAX {
        return Failure(SequenceExhausted);
      }
      var message := BufferedMessage(number, frame, size, stamp);
      buffers := buffers[peer := PeerBuffer(b.messages + [message], SatAdd(b.totalBytes, size),
                                            number + 1, b.acked)];
      var dropped := HandleOverflow(peer, now);
      r := Success(number);
    }

    method ProcessAck(peer: NodeId, ack: nat) returns (removed: nat)
      modifies this
      ensures peer !in old(buffers) ==> removed == 0 && buffers == old(buffers)
      ensures peer in old(buffers) ==>
                && buffers == old(buffers)[peer := Acknowledge(old(buffers)[peer], ack)]
                && removed == |old(buffers)[peer].messages| - |buffers[peer].messages|
    {
      removed := 0;
      if peer !in buffers { return; }
      var b := buffers[peer].(acked := Max(buffers[peer].acked, ack));
      ghost var start := b;
      while b.messages != [] && b.messages[0].number <= ack
        invariant DropAcked(b, ack) == DropAcked(start, ack)
        invariant removed == |start.messages| - |b.messages|
        decreases |b.messages|
      {
        b := b.(messages := b.messages[1..], totalBytes := SatSub(b.totalBytes, b.messages[0].size));
        removed := removed + 1;
      }
      buffers := buffers[peer := b];
    }

    method HandleOverflow(peer: NodeId, now: nat) returns (dropped: nat)
      modifies this
      ensures peer !in old(buffers) ==> dropped == 0 && buffers == old(buffers)
      ensures peer in old(buffers) ==>
                && buffers == old(buffers)[peer := Trim(old(buffers)[peer], config, now)]
                && dropped == |old(buffers)[peer].messages| - |buffers[peer].messages|
    {
      dropped := 0;
      if peer !in buffers { return; }
      var b := buffers[peer];
      ghost var start := b;
      while b.messages != [] && SatSub(now, b.messages[0].stamp) > config.ttl
        invariant Expire(b, now, config.ttl) == Expire(start, now, config.ttl)
        invariant dropped == |start.messages| - |b.messages|
        decreases |b.messages|
      {
        b := b.(messages := b.messages[1..], totalBytes := SatSub(b.totalBytes, b.messages[0].size));
        dropped := dropped + 1;
      }
      while b.totalBytes > config.maxBytes || |b.messages| > config.maxMessages
        invariant Shrink(b, config) == Trim(start, config, now)
        invariant dropped == |start.messages| - |b.messages|
        decreases |b.messages|
      {
        if b.messages == [] { break; }
        b := b.(messages := b.messages[1..], totalBytes := SatSub(b.totalBytes, b.messages[0].size));
        dropped := dropped + 1;
      }
      buffers := buffers[peer := b];
    }

    method DrainForRetransmit(peer: NodeId, now: nat) returns (messages: seq<BufferedMessage>)
      modifies this
      ensures peer !in old(buffers) ==> messages == [] && buffers == old(buffers)
      ensures peer in old(buffers) ==>
                && buffers == old(buffers)[peer := Trim(old(buffers)[peer], config, now)]
                && messages == Unacked(buffers[peer].messages, buffers[peer].acked)
    {
      var dropped := HandleOverflow(peer, now);
      if peer !in buffers { return []; }
      messages := Unacked(buffers[peer].messages, buffers[peer].acked);
    }
  }
}
