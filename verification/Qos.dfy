/**
 The QoS controller above the scheduler (crates/chirps-transport-quic/src/qos.rs):
 per-kind item and byte counters, a 90% admission limit with hysteresis at 80%,
 and one shared priority scheduler.  Utilization ratios are compared by
 cross-multiplication instead of `f32` division.
 */
module Qos {
  import opened Prelude
  import opened Scheduler

  datatype Kind = Control | Raft | RaftSnapshot | Gossip | User | FileTransfer

  function Priority(k: Kind): Class {
    match k
    case Control | Raft => 0
    case Gossip | RaftSnapshot | FileTransfer => 1
    case User => 2
  }

  datatype QueueLimits = QueueLimits(raftBytes: nat, raftItems: nat, userBytes: nat, userItems: nat,
                                     gossipBytes: nat, gossipItems: nat) {
    /** The limits are machine words. */
    predicate Valid() {
      raftBytes <= U64_MAX && userBytes <= U64_MAX && gossipBytes <= U64_MAX
    }
  }

  /** `queue_limits_for_kind`: (bytes, items). */
  function LimitsFor(limits: QueueLimits, k: Kind): (nat, nat) {
    match k
    case Control | Raft | RaftSnapshot => (limits.raftBytes, limits.raftItems)
    case User => (limits.userBytes, limits.userItems)
    case Gossip | FileTransfer => (limits.gossipBytes, limits.gossipItems)
  }

  datatype StreamQueue = StreamQueue(bytes: nat, items: nat, maxBytes: nat, maxItems: nat, backpressured: bool)

  /** `x / max >= percent / 100` in `f32`: a zero limit gives infinity, or NaN
      (which `max` ignores) when `x` is zero too. */
  predicate RatioAtLeast(x: nat, max: nat, percent: nat) {
    if max == 0 then x > 0 else 100 * x >= percent * max
  }

  /** `utilization_ratio(..) >= percent / 100`. */
  predicate UtilizationAtLeast(bytes: nat, items: nat, q: StreamQueue, percent: nat) {
    RatioAtLeast(bytes, q.maxBytes, percent) || RatioAtLeast(items, q.maxItems, percent)
  }

  datatype QueuedFrame = QueuedFrame(kind: Kind, frame: Frame)

  /** `SchedulerConfig::default()`. */
  const SCHEDULER_CONFIG := Config([4, 2, 1], 1024)

  datatype Outcome = Accepted | QueueFull(size: nat, limit: nat) | ThrottleTimeout

  datatype Qos = Qos(queues: map<Kind, StreamQueue>, scheduler: State<QueuedFrame>)

  ghost predicate AllKinds(queues: map<Kind, StreamQueue>) {
    forall k: Kind :: k in queues
  }

  // ------------------------------------------------------------- one operation

  /** `throttled` says that a snapshot frame ran out of its bandwidth budget. */
  ghost function OfferFn(q: Qos, k: Kind, frame: Frame, size: nat, throttled: bool): (Qos, Outcome)
    requires AllKinds(q.queues) && q.scheduler.Shaped()
  {
    var queue := q.queues[k];
    var bytes := SatAdd(queue.bytes, size);
    var items := queue.items + 1;
    if k == RaftSnapshot && throttled then (q, ThrottleTimeout)
    else if UtilizationAtLeast(bytes, items, queue, 90) || queue.backpressured then
      (q.(queues := q.queues[k := queue.(backpressured := true)]), QueueFull(items, queue.maxItems))
    else
      (Qos(q.queues[k := queue.(bytes := bytes, items := items)],
           EnqueueFn(q.scheduler, Message(Priority(k), size, QueuedFrame(k, frame)), Priority(k))),
       Accepted)
  }

  ghost function Released(queue: StreamQueue, size: nat): StreamQueue {
    var items := SatSub(queue.items, 1);
    var bytes := SatSub(queue.bytes, size);
    queue.(items := items, bytes := bytes,
           backpressured := queue.backpressured && UtilizationAtLeast(bytes, items, queue, 80))
  }

  ghost function PollFn(q: Qos): (Qos, Option<(Kind, Frame)>)
    requires AllKinds(q.queues) && q.scheduler.Shaped()
  {
    var d := TakeFn(SCHEDULER_CONFIG, q.scheduler);
    if d.1.None? then (q.(scheduler := d.0), None)
    else
      var k := d.1.value.payload.kind;
      (Qos(q.queues[k := Released(q.queues[k], d.1.value.size)], d.0),
       Some((k, d.1.value.payload.frame)))
  }

  class QosController {
    var queues: map<Kind, StreamQueue>
    const scheduler: PriorityScheduler<QueuedFrame>

    ghost function View(): Qos
      reads this, scheduler
    {
      Qos(queues, scheduler.View())
    }

    ghost predicate Valid()
      reads this, scheduler
    {
      && scheduler.config == SCHEDULER_CONFIG
      && Consistent(View())
    }

    constructor (limits: QueueLimits)
      requires limits.Valid()
      ensures fresh(scheduler) && Valid()
      ensures forall k: Kind ::
                queues[k] == StreamQueue(0, 0, LimitsFor(limits, k).0, LimitsFor(limits, k).1, false)
      ensures scheduler.View() == Initial()
    {
      queues := map[];
      scheduler := new PriorityScheduler<QueuedFrame>(SCHEDULER_CONFIG);
      new;
      var kinds := [Control, Raft, RaftSnapshot, Gossip, User, FileTransfer];
      for i := 0 to |kinds|
        invariant forall j | 0 <= j < i :: kinds[j] in queues
        invariant forall k | k in queues ::
                    queues[k] == StreamQueue(0, 0, LimitsFor(limits, k).0, LimitsFor(limits, k).1, false)
        invariant scheduler.View() == Initial() && fresh(scheduler)
      {
        var (maxBytes, maxItems) := LimitsFor(limits, kinds[i]);
        queues := queues[kinds[i] := StreamQueue(0, 0, maxBytes, maxItems, false)];
      }
      forall k: Kind ensures k in queues {
        match k {
          case Control => assert k == kinds[0];
          case Raft => assert k == kinds[1];
          case RaftSnapshot => assert k == kinds[2];
          case Gossip => assert k == kinds[3];
          case User => assert k == kinds[4];
          case FileTransfer => assert k == kinds[5];
        }
      }
    }

    method Enqueue(k: Kind, frame: Frame, size: nat, throttled: bool) returns (r: Outcome)
      requires Valid()
      modifies this, scheduler
      ensures Valid() && (View(), r) == OfferFn(old(View()), k, frame, size, throttled)
    {
      OfferKeepsConsistent(View(), k, frame, size, throttled);
      if k == RaftSnapshot && throttled {
        return ThrottleTimeout;
      }
      var queue := queues[k];
      var bytes := SatAdd(queue.bytes, size);
      var items := queue.items + 1;
      if UtilizationAtLeast(bytes, items, queue, 100) {
        queues := queues[k := queue.(backpressured := true)];
        return QueueFull(items, queue.maxItems);
      }
      if UtilizationAtLeast(bytes, items, queue, 90) || queue.backpressured {
        queues := queues[k := queue.(backpressured := true)];
        return QueueFull(items, queue.maxItems);
      }
      queue := queue.(bytes := bytes, items := items);
      scheduler.Enqueue(Message(Priority(k), size, QueuedFrame(k, frame)), Priority(k));
      if !UtilizationAtLeast(bytes, items, queue, 80) {
        queue := queue.(backpressured := false);
      }
      queues := queues[k := queue];
      r := Accepted;
    }

    method Dequeue() returns (r: Option<(Kind, Frame)>)
      requires Valid()
      modifies this, scheduler
      ensures Valid() && (View(), r) == PollFn(old(View()))
    {
      PollKeepsConsistent(View());
      var next := scheduler.Dequeue();
      if next.None? { return None; }
      var k := next.value.payload.kind;
      var queue := queues[k];
      var items := SatSub(queue.items, 1);
      var bytes := SatSub(queue.bytes, next.value.size);
      queue := queue.(items := items, bytes := bytes);
      if !UtilizationAtLeast(bytes, items, queue, 80) {
        queue := queue.(backpressured := false);
      }
      queues := queues[k := queue];
      r := Some((k, next.value.payload.frame));
    }
  }

  // ----------------------------------------------------------------- invariant

  ghost function CountKind(ms: seq<Message<QueuedFrame>>, k: Kind): nat {
    if ms == [] then 0 else (if ms[0].payload.kind == k then 1 else 0) + CountKind(ms[1..], k)
  }

  ghost function BytesOfKind(ms: seq<Message<QueuedFrame>>, k: Kind): nat {
    if ms == [] then 0 else (if ms[0].payload.kind == k then ms[0].size else 0) + BytesOfKind(ms[1..], k)
  }

  ghost function Held(s: State<QueuedFrame>, k: Kind): nat
    requires s.Shaped()
  {
    CountKind(s.queues[0], k) + CountKind(s.queues[1], k) + CountKind(s.queues[2], k)
  }

  ghost function HeldBytes(s: State<QueuedFrame>, k: Kind): nat
    requires s.Shaped()
  {
    BytesOfKind(s.queues[0], k) + BytesOfKind(s.queues[1], k) + BytesOfKind(s.queues[2], k)
  }

  /** Each kind's counters equal what the shared scheduler holds for it and stay
      below 90% of both limits. */
  ghost predicate Consistent(q: Qos) {
    && AllKinds(q.queues)
    && q.scheduler.Valid(SCHEDULER_CONFIG)
    && Labelled(q.scheduler)
    && forall k: Kind :: KindOk(q.queues[k], q.scheduler, k)
  }

  ghost predicate KindOk(queue: StreamQueue, s: State<QueuedFrame>, k: Kind)
    requires s.Shaped()
  {
    && queue.maxBytes <= U64_MAX
    && queue.items == Held(s, k)
    && queue.bytes == HeldBytes(s, k)
    && !UtilizationAtLeast(queue.bytes, queue.items, queue, 90)
  }

  lemma {:induction false} CountAppend(ms: seq<Message<QueuedFrame>>, m: Message<QueuedFrame>, k: Kind)
    ensures CountKind(ms + [m], k) == CountKind(ms, k) + if m.payload.kind == k then 1 else 0
    ensures BytesOfKind(ms + [m], k) == BytesOfKind(ms, k) + if m.payload.kind == k then m.size else 0
  {
    if ms == [] {
      assert ms + [m] == [m] && [m][1..] == [];
    } else {
      assert (ms + [m])[1..] == ms[1..] + [m];
      CountAppend(ms[1..], m, k);
    }
  }

  lemma EnqueueHeld(s: State<QueuedFrame>, m: Message<QueuedFrame>, c: Class, k: Kind)
    requires s.Shaped()
    ensures var s' := EnqueueFn(s, m, c);
            && Held(s', k) == Held(s, k) + (if m.payload.kind == k then 1 else 0)
            && HeldBytes(s', k) == HeldBytes(s, k) + (if m.payload.kind == k then m.size else 0)
  {
    CountAppend(s.queues[c], m.(class_ := c), k);
  }

  lemma TakeHeld(s: State<QueuedFrame>, k: Kind)
    requires s.Valid(SCHEDULER_CONFIG) && Labelled(s)
    ensures var d := TakeFn(SCHEDULER_CONFIG, s);
            && Held(s, k) == Held(d.0, k) + (if d.1.Some? && d.1.value.payload.kind == k then 1 else 0)
            && HeldBytes(s, k) == HeldBytes(d.0, k)
                 + (if d.1.Some? && d.1.value.payload.kind == k then d.1.value.size else 0)
  {
    var d := TakeFn(SCHEDULER_CONFIG, s);
    assert [d.1][1..] == [];
    forall c: Class
      ensures d.1.None? || d.1.value.class_ != c ==> s.queues[c] == d.0.queues[c]
      ensures d.1.Some? && d.1.value.class_ == c ==>
                s.queues[c] == [d.1.value] + d.0.queues[c] && s.queues[c][1..] == d.0.queues[c]
    {
      DequeueTakesHead(SCHEDULER_CONFIG, s, |s.queues|, c);
    }
    assert d.1.Some? ==> d.1.value.class_ == 0 || d.1.value.class_ == 1 || d.1.value.class_ == 2;
  }

  lemma OfferKeepsConsistent(q: Qos, k: Kind, frame: Frame, size: nat, throttled: bool)
    requires Consistent(q)
    ensures Consistent(OfferFn(q, k, frame, size, throttled).0)
  {
    var r := OfferFn(q, k, frame, size, throttled);
    if r.1.Accepted? {
      EnqueueKeeps(SCHEDULER_CONFIG, q.scheduler, Message(Priority(k), size, QueuedFrame(k, frame)), Priority(k), 0);
      forall j: Kind
        ensures KindOk(r.0.queues[j], r.0.scheduler, j)
      {
        assert KindOk(q.queues[j], q.scheduler, j);
        AcceptKeepsKind(q.queues[j], q.scheduler, k, frame, size, j);
      }
    }
  }

  /** The counters of kind `j` after `size` bytes of kind `k` were accepted. */
  lemma AcceptKeepsKind(queue: StreamQueue, s: State<QueuedFrame>, k: Kind, frame: Frame, size: nat, j: Kind)
    requires s.Shaped() && KindOk(queue, s, j)
    requires j == k ==> !UtilizationAtLeast(SatAdd(queue.bytes, size), queue.items + 1, queue, 90)
    ensures var s' := EnqueueFn(s, Message(Priority(k), size, QueuedFrame(k, frame)), Priority(k));
            s'.Shaped() &&
            KindOk(if j == k then queue.(bytes := SatAdd(queue.bytes, size), items := queue.items + 1) else queue, s',
                   j)
  {
    EnqueueHeld(s, Message(Priority(k), size, QueuedFrame(k, frame)), Priority(k), j);
    if j == k {
      AcceptedDoesNotSaturate(queue, size);
    }
  }

  /** A saturated byte count is over any limit, so an accepted one is exact. */
  lemma AcceptedDoesNotSaturate(queue: StreamQueue, size: nat)
    requires queue.maxBytes <= U64_MAX
    requires !RatioAtLeast(SatAdd(queue.bytes, size), queue.maxBytes, 90)
    ensures queue.bytes + size <= U64_MAX
  {
  }

  lemma ReleaseStaysBelow(queue: StreamQueue, size: nat)
    requires !UtilizationAtLeast(queue.bytes, queue.items, queue, 90)
    ensures var r := Released(queue, size); !UtilizationAtLeast(r.bytes, r.items, r, 90)
  {
  }

  lemma PollKeepsConsistent(q: Qos)
    requires Consistent(q)
    ensures Consistent(PollFn(q).0)
  {
    var d := TakeFn(SCHEDULER_CONFIG, q.scheduler);
    DequeueKeepsValid(SCHEDULER_CONFIG, q.scheduler, |q.scheduler.queues|);
    DequeueTakesHead(SCHEDULER_CONFIG, q.scheduler, |q.scheduler.queues|, 0);
    forall j: Kind
      ensures KindOk(PollFn(q).0.queues[j], d.0, j)
    {
      assert KindOk(q.queues[j], q.scheduler, j);
      TakeHeld(q.scheduler, j);
      if d.1.Some? { ReleaseStaysBelow(q.queues[j], d.1.value.size); }
    }
  }

  // ---------------------------------------------------------------------- runs

  datatype Op = Offer(kind: Kind, frame: Frame, size: nat, throttled: bool) | Poll

  datatype Event = Offered(outcome: Outcome) | Polled(result: Option<(Kind, Frame)>)

  ghost predicate Formed(q: Qos) {
    AllKinds(q.queues) && q.scheduler.Shaped()
  }

  ghost function Step(q: Qos, op: Op): (r: (Qos, Event))
    requires Formed(q)
    ensures Formed(r.0)
  {
    match op
    case Offer(k, frame, size, throttled) =>
      var r := OfferFn(q, k, frame, size, throttled);
      (r.0, Offered(r.1))
    case Poll =>
      var r := PollFn(q);
      (r.0, Polled(r.1))
  }

  ghost function Run(q: Qos, ops: seq<Op>): (r: Qos)
    requires Formed(q)
    ensures Formed(r)
    decreases |ops|
  {
    if ops == [] then q else Run(Step(q, ops[0]).0, ops[1..])
  }

  /** In every reachable state the counters are exact and below 90%. */
  lemma {:induction false} CountersStayConsistent(q: Qos, ops: seq<Op>)
    requires Consistent(q)
    ensures Consistent(Run(q, ops))
    decreases |ops|
  {
    if ops != [] {
      match ops[0] {
        case Offer(k, frame, size, throttled) => OfferKeepsConsistent(q, k, frame, size, throttled);
        case Poll => PollKeepsConsistent(q);
      }
      CountersStayConsistent(Step(q, ops[0]).0, ops[1..]);
    }
  }

  /** Some step of the run returns a frame of kind `k` and leaves its utilization under 80%. */
  ghost predicate Recovers(q: Qos, ops: seq<Op>, k: Kind)
    requires Formed(q)
    decreases |ops|
  {
    ops != [] &&
    var r := Step(q, ops[0]);
    || (r.1.Polled? && r.1.result.Some? && r.1.result.value.0 == k
        && !UtilizationAtLeast(r.0.queues[k].bytes, r.0.queues[k].items, r.0.queues[k], 80))
    || Recovers(r.0, ops[1..], k)
  }

  /** Every frame of kind `k` offered during the run is refused. */
  ghost predicate AllRefused(q: Qos, ops: seq<Op>, k: Kind)
    requires Formed(q)
    decreases |ops|
  {
    ops == [] ||
    (var r := Step(q, ops[0]);
     && (ops[0].Offer? && ops[0].kind == k ==> r.1.outcome != Accepted)
     && AllRefused(r.0, ops[1..], k))
  }

  lemma {:induction false} BackpressureHolds(q: Qos, ops: seq<Op>, k: Kind)
    requires Formed(q) && q.queues[k].backpressured
    requires !Recovers(q, ops, k)
    ensures AllRefused(q, ops, k) && Run(q, ops).queues[k].backpressured
    decreases |ops|
  {
    if ops != [] {
      StepHoldsBackpressure(q, ops[0], k);
      BackpressureHolds(Step(q, ops[0]).0, ops[1..], k);
    }
  }

  lemma StepHoldsBackpressure(q: Qos, op: Op, k: Kind)
    requires Formed(q) && q.queues[k].backpressured
    ensures var r := Step(q, op);
            && (op.Offer? && op.kind == k ==> r.1.outcome != Accepted)
            && (r.0.queues[k].backpressured
                || (r.1.Polled? && r.1.result.Some? && r.1.result.value.0 == k
                    && !UtilizationAtLeast(r.0.queues[k].bytes, r.0.queues[k].items, r.0.queues[k], 80)))
  {
  }

  /** Once a frame is refused for lack of room, its kind stays refused until a
      dequeue of that kind leaves utilization under 80%. */
  lemma RefusedUntilRecovery(q: Qos, k: Kind, frame: Frame, size: nat, throttled: bool, ops: seq<Op>)
    requires Formed(q)
    requires OfferFn(q, k, frame, size, throttled).1.QueueFull?
    ensures var q' := Step(q, Offer(k, frame, size, throttled)).0;
            !Recovers(q', ops, k) ==> AllRefused(q', ops, k)
  {
    var q' := Step(q, Offer(k, frame, size, throttled)).0;
    if !Recovers(q', ops, k) {
      BackpressureHolds(q', ops, k);
    }
  }

  /** And a recovering dequeue is enough: afterwards only the 90% limit refuses. */
  lemma RecoveryReadmits(q: Qos, k: Kind, frame: Frame, size: nat)
    requires Formed(q)
    requires PollFn(q).1.Some? && PollFn(q).1.value.0 == k
    requires var u := PollFn(q).0.queues[k]; !UtilizationAtLeast(u.bytes, u.items, u, 80)
    ensures var q' := PollFn(q).0;
            var u := q'.queues[k];
            OfferFn(q', k, frame, size, false).1.Accepted?
            <==> !UtilizationAtLeast(SatAdd(u.bytes, size), u.items + 1, u, 90)
  {
  }

  // ------------------------------------------------------------- per-kind order

  ghost function FramesOf(ms: seq<Message<QueuedFrame>>, k: Kind): seq<Frame> {
    if ms == [] then []
    else (if ms[0].payload.kind == k then [ms[0].payload.frame] else []) + FramesOf(ms[1..], k)
  }

  lemma {:induction false} FramesAppend(ms: seq<Message<QueuedFrame>>, m: Message<QueuedFrame>, k: Kind)
    ensures FramesOf(ms + [m], k) == FramesOf(ms, k) + if m.payload.kind == k then [m.payload.frame] else []
  {
    if ms == [] {
      assert ms + [m] == [m] && [m][1..] == [];
    } else {
      assert (ms + [m])[1..] == ms[1..] + [m];
      FramesAppend(ms[1..], m, k);
    }
  }

  /** Frames sit in the queue of their kind's class. */
  ghost predicate Sorted(s: State<QueuedFrame>) {
    s.Shaped() &&
    forall c, i | 0 <= c < 3 && 0 <= i < |s.queues[c]| :: Priority(s.queues[c][i].payload.kind) == c
  }

  /** The frames of kind `k` waiting in the scheduler, oldest first. */
  ghost function Waiting(q: Qos, k: Kind): seq<Frame>
    requires q.scheduler.Shaped()
  {
    FramesOf(q.scheduler.queues[Priority(k)], k)
  }

  ghost function AcceptedBy(e: Event, op: Op, k: Kind): seq<Frame> {
    if e.Offered? && op.Offer? && op.kind == k && e.outcome == Accepted then [op.frame] else []
  }

  ghost function ReturnedBy(e: Event, k: Kind): seq<Frame> {
    if e.Polled? && e.result.Some? && e.result.value.0 == k then [e.result.value.1] else []
  }

  ghost function AllAccepted(q: Qos, ops: seq<Op>, k: Kind): seq<Frame>
    requires Formed(q)
    decreases |ops|
  {
    if ops == [] then []
    else AcceptedBy(Step(q, ops[0]).1, ops[0], k) + AllAccepted(Step(q, ops[0]).0, ops[1..], k)
  }

  ghost function AllReturned(q: Qos, ops: seq<Op>, k: Kind): seq<Frame>
    requires Formed(q)
    decreases |ops|
  {
    if ops == [] then []
    else ReturnedBy(Step(q, ops[0]).1, k) + AllReturned(Step(q, ops[0]).0, ops[1..], k)
  }

  lemma OfferOrder(q: Qos, k': Kind, frame: Frame, size: nat, throttled: bool, k: Kind)
    requires Formed(q) && Labelled(q.scheduler) && Sorted(q.scheduler)
    ensures var r := OfferFn(q, k', frame, size, throttled);
            && Labelled(r.0.scheduler) && Sorted(r.0.scheduler)
            && Waiting(r.0, k) == Waiting(q, k) + (if r.1.Accepted? && k' == k then [frame] else [])
  {
    if OfferFn(q, k', frame, size, throttled).1.Accepted? {
      FramesAppend(q.scheduler.queues[Priority(k')], Message(Priority(k'), size, QueuedFrame(k', frame)), k);
    }
  }

  /** What a dequeue removes is the head of one class queue. */
  lemma TakeShape(s: State<QueuedFrame>, c: Class)
    requires Labelled(s)
    ensures var d := TakeFn(SCHEDULER_CONFIG, s);
            && Labelled(d.0)
            && s.queues[c] == (if d.1.Some? && d.1.value.class_ == c then [d.1.value] else []) + d.0.queues[c]
  {
    DequeueTakesHead(SCHEDULER_CONFIG, s, |s.queues|, c);
    assert [TakeFn(SCHEDULER_CONFIG, s).1][1..] == [];
  }

  lemma FramesHead(before: seq<Message<QueuedFrame>>, m: Message<QueuedFrame>, after: seq<Message<QueuedFrame>>,
                   k: Kind)
    requires before == [m] + after
    ensures FramesOf(before, k) == (if m.payload.kind == k then [m.payload.frame] else []) + FramesOf(after, k)
  {
    assert before[1..] == after;
  }

  lemma TakeSorted(s: State<QueuedFrame>)
    requires Labelled(s) && Sorted(s)
    ensures Sorted(TakeFn(SCHEDULER_CONFIG, s).0)
  {
    var s' := TakeFn(SCHEDULER_CONFIG, s).0;
    forall c, i | 0 <= c < 3 && 0 <= i < |s'.queues[c]|
      ensures Priority(s'.queues[c][i].payload.kind) == c
    {
      TakeShape(s, c);
      assert s'.queues[c][i] == s.queues[c][|s.queues[c]| - |s'.queues[c]| + i];
    }
  }

  /** A dequeue takes the oldest waiting frame of its kind. */
  lemma TakeOrder(s: State<QueuedFrame>, k: Kind)
    requires Labelled(s) && Sorted(s)
    ensures var d := TakeFn(SCHEDULER_CONFIG, s);
            var taken := if d.1.Some? && d.1.value.payload.kind == k then [d.1.value.payload.frame] else [];
            FramesOf(s.queues[Priority(k)], k) == taken + FramesOf(d.0.queues[Priority(k)], k)
  {
    var d := TakeFn(SCHEDULER_CONFIG, s);
    TakeShape(s, Priority(k));
    if d.1.Some? {
      var c := d.1.value.class_;
      TakeShape(s, c);
      assert s.queues[c][0] == d.1.value;
      if c == Priority(k) {
        FramesHead(s.queues[c], d.1.value, d.0.queues[c], k);
      }
    }
  }

  lemma PollOrder(q: Qos, k: Kind)
    requires Formed(q) && Labelled(q.scheduler) && Sorted(q.scheduler)
    ensures var r := PollFn(q);
            && Labelled(r.0.scheduler) && Sorted(r.0.scheduler)
            && ReturnedBy(Polled(r.1), k) + Waiting(r.0, k) == Waiting(q, k)
  {
    TakeShape(q.scheduler, Priority(k));
    TakeSorted(q.scheduler);
    TakeOrder(q.scheduler, k);
  }

  lemma StepOrder(q: Qos, op: Op, k: Kind)
    requires Formed(q) && Labelled(q.scheduler) && Sorted(q.scheduler)
    ensures var r := Step(q, op);
            && Labelled(r.0.scheduler) && Sorted(r.0.scheduler)
            && ReturnedBy(r.1, k) + Waiting(r.0, k) == Waiting(q, k) + AcceptedBy(r.1, op, k)
  {
    match op
    case Offer(k', frame, size, throttled) => OfferOrder(q, k', frame, size, throttled, k);
    case Poll => PollOrder(q, k);
  }

  lemma Splice<T>(out1: seq<T>, out: seq<T>, waits: seq<T>, waits1: seq<T>, waits0: seq<T>, in1: seq<T>, into: seq<T>)
    requires out1 + waits1 == waits0 + in1
    requires out + waits == waits1 + into
    ensures (out1 + out) + waits == waits0 + (in1 + into)
  {
    assert (out1 + out) + waits == out1 + (out + waits);
    assert out1 + (waits1 + into) == (out1 + waits1) + into;
  }

  /** In every run, the frames of one kind leave in the order they were accepted,
      and none is lost: what came out followed by what waits is what waited
      followed by what was accepted. */
  lemma {:induction false} KindIsFifo(q: Qos, ops: seq<Op>, k: Kind)
    requires Formed(q) && Labelled(q.scheduler) && Sorted(q.scheduler)
    ensures AllReturned(q, ops, k) + Waiting(Run(q, ops), k) == Waiting(q, k) + AllAccepted(q, ops, k)
    decreases |ops|
  {
    if ops != [] {
      var r := Step(q, ops[0]);
      StepOrder(q, ops[0], k);
      KindIsFifo(r.0, ops[1..], k);
      Splice(ReturnedBy(r.1, k), AllReturned(r.0, ops[1..], k), Waiting(Run(r.0, ops[1..]), k),
             Waiting(r.0, k), Waiting(q, k), AcceptedBy(r.1, ops[0], k), AllAccepted(r.0, ops[1..], k));
    }
  }

  // ------------------------------------------------------- whether a kind recovers

  /** A refused kind without a frame held: nothing can ever clear its flag. */
  ghost predicate LockedOut(q: Qos, k: Kind) {
    Consistent(q) && q.queues[k].backpressured && q.queues[k].items == 0
  }

  lemma LockStays(q: Qos, op: Op, k: Kind)
    requires LockedOut(q, k)
    ensures LockedOut(Step(q, op).0, k)
    ensures Step(q, op).1.Polled? && Step(q, op).1.result.Some? ==> Step(q, op).1.result.value.0 != k
  {
    match op {
      case Offer(k', frame, size, throttled) => OfferKeepsConsistent(q, k', frame, size, throttled);
      case Poll => PollKeepsLock(q, k);
    }
  }

  lemma PollKeepsLock(q: Qos, k: Kind)
    requires LockedOut(q, k)
    ensures LockedOut(PollFn(q).0, k) && (PollFn(q).1.Some? ==> PollFn(q).1.value.0 != k)
  {
    PollKeepsConsistent(q);
    NoneToPoll(q, k);
  }

  lemma NoneToPoll(q: Qos, k: Kind)
    requires Consistent(q) && q.queues[k].items == 0
    ensures PollFn(q).1.Some? ==> PollFn(q).1.value.0 != k
  {
    assert KindOk(q.queues[k], q.scheduler, k);
    TakeHeld(q.scheduler, k);
  }

  lemma {:induction false} LockedOutForever(q: Qos, ops: seq<Op>, k: Kind)
    requires LockedOut(q, k)
    ensures !Recovers(q, ops, k)
    decreases |ops|
  {
    if ops != [] {
      LockStays(q, ops[0], k);
      LockedOutForever(Step(q, ops[0]).0, ops[1..], k);
    }
  }

  /** One frame refused while its kind holds nothing, because it alone takes 90% of a limit,
      and every later frame of that kind is refused, of whatever size and whatever is polled. */
  lemma OversizedFrameLocksOut(q: Qos, k: Kind, frame: Frame, size: nat, throttled: bool, ops: seq<Op>)
    requires Consistent(q) && q.queues[k].items == 0
    requires OfferFn(q, k, frame, size, throttled).1.QueueFull?
    ensures AllRefused(Step(q, Offer(k, frame, size, throttled)).0, ops, k)
  {
    var q' := Step(q, Offer(k, frame, size, throttled)).0;
    OfferKeepsConsistent(q, k, frame, size, throttled);
    LockedOutForever(q', ops, k);
    BackpressureHolds(q', ops, k);
  }

  ghost function Polls(ops: seq<Op>): nat {
    if ops == [] then 0 else (if ops[0].Poll? then 1 else 0) + Polls(ops[1..])
  }

  /** The first `m` messages in the queue of its class hold all `n` frames of a kind. */
  ghost predicate Holds(s: State<QueuedFrame>, k: Kind, m: nat, n: nat) {
    && s.Valid(SCHEDULER_CONFIG) && Labelled(s) && Sorted(s)
    && 0 < m <= |s.queues[Priority(k)]|
    && CountKind(s.queues[Priority(k)][..m], k) == n
  }

  /** A refused kind that still holds frames, all among those `m` messages. */
  ghost predicate Draining(q: Qos, k: Kind, m: nat) {
    && k in q.queues && q.queues[k].backpressured && q.queues[k].items > 0
    && Holds(q.scheduler, k, m, q.queues[k].items)
  }

  ghost function PollBudget(s: State<QueuedFrame>, k: Kind, m: nat): nat
    requires s.Valid(SCHEDULER_CONFIG) && 0 < m <= |s.queues[Priority(k)]|
  {
    Budget(SCHEDULER_CONFIG, s, Priority(k), m)
  }

  /** With nothing left to count a kind is under every threshold. */
  lemma EmptyIsBelow(queue: StreamQueue)
    requires queue.items == 0 && queue.bytes == 0
    ensures !UtilizationAtLeast(queue.bytes, queue.items, queue, 80)
  {
  }

  lemma {:induction false} NoneIsEmpty(ms: seq<Message<QueuedFrame>>, k: Kind)
    ensures CountKind(ms, k) == 0 ==> BytesOfKind(ms, k) == 0
  {
    if ms != [] {
      NoneIsEmpty(ms[1..], k);
    }
  }

  lemma EmptyKindIsBelow(q: Qos, k: Kind)
    requires Consistent(q) && q.queues[k].items == 0
    ensures !UtilizationAtLeast(q.queues[k].bytes, q.queues[k].items, q.queues[k], 80)
  {
    assert KindOk(q.queues[k], q.scheduler, k);
    NoneIsEmpty(q.scheduler.queues[0], k);
    NoneIsEmpty(q.scheduler.queues[1], k);
    NoneIsEmpty(q.scheduler.queues[2], k);
    EmptyIsBelow(q.queues[k]);
  }

  lemma EnqueueHolds(s: State<QueuedFrame>, msg: Message<QueuedFrame>, k: Kind, m: nat, n: nat)
    requires Holds(s, k, m, n)
    ensures var s' := EnqueueFn(s, msg, Priority(msg.payload.kind));
            Holds(s', k, m, n) && PollBudget(s', k, m) == PollBudget(s, k, m)
  {
    var c := Priority(msg.payload.kind);
    PutSpendsNothing(SCHEDULER_CONFIG, s, msg, c, Priority(k), m);
    EnqueueKeeps(SCHEDULER_CONFIG, s, msg, c, Priority(k));
    EnqueueSorted(s, msg);
  }

  lemma EnqueueSorted(s: State<QueuedFrame>, msg: Message<QueuedFrame>)
    requires Sorted(s)
    ensures Sorted(EnqueueFn(s, msg, Priority(msg.payload.kind)))
  {
  }

  lemma OfferKeepsDraining(q: Qos, k': Kind, frame: Frame, size: nat, throttled: bool, k: Kind, m: nat)
    requires Formed(q) && Draining(q, k, m)
    ensures var q' := OfferFn(q, k', frame, size, throttled).0;
            Draining(q', k, m) && PollBudget(q'.scheduler, k, m) == PollBudget(q.scheduler, k, m)
  {
    RefusedIsLeftAlone(q, k', frame, size, throttled, k);
    EnqueueHolds(q.scheduler, Message(Priority(k'), size, QueuedFrame(k', frame)), k, m, q.queues[k].items);
  }

  /** An offer leaves the counters of a refused kind as they are. */
  lemma RefusedIsLeftAlone(q: Qos, k': Kind, frame: Frame, size: nat, throttled: bool, k: Kind)
    requires Formed(q) && q.queues[k].backpressured
    ensures var q' := OfferFn(q, k', frame, size, throttled).0;
            && k in q'.queues && q'.queues[k] == q.queues[k]
            && (q'.scheduler == q.scheduler ||
                q'.scheduler ==
                  EnqueueFn(q.scheduler, Message(Priority(k'), size, QueuedFrame(k', frame)), Priority(k')))
  {
  }

  /** A poll that returns a frame of kind `k` and leaves it under 80%. */
  ghost predicate PollRecovers(q: Qos, k: Kind)
    requires Formed(q)
  {
    var r := PollFn(q);
    && r.1.Some? && r.1.value.0 == k
    && !UtilizationAtLeast(r.0.queues[k].bytes, r.0.queues[k].items, r.0.queues[k], 80)
  }

  ghost predicate Brings(d: (State<QueuedFrame>, Option<Message<QueuedFrame>>), k: Kind) {
    d.1.Some? && d.1.value.payload.kind == k
  }

  /** What a dequeue leaves of the first `m` messages: `taken` of them are of kind `k`. */
  lemma TakeHolds(s: State<QueuedFrame>, k: Kind, m: nat, n: nat) returns (m': nat)
    requires Holds(s, k, m, n)
    ensures var d := TakeFn(SCHEDULER_CONFIG, s);
            var taken := if Brings(d, k) then 1 else 0;
            && n >= taken
            && (n > taken ==> Holds(d.0, k, m', n - taken) && PollBudget(d.0, k, m') < PollBudget(s, k, m))
  {
    if Skips(TakeFn(SCHEDULER_CONFIG, s), Priority(k)) {
      m' := m;
      SkipHolds(s, k, m, n);
    } else {
      m' := m - 1;
      HeadHolds(s, k, m, n);
    }
  }

  lemma SkipHolds(s: State<QueuedFrame>, k: Kind, m: nat, n: nat)
    requires Holds(s, k, m, n) && Skips(TakeFn(SCHEDULER_CONFIG, s), Priority(k))
    ensures var d := TakeFn(SCHEDULER_CONFIG, s);
            !Brings(d, k) && Holds(d.0, k, m, n) && PollBudget(d.0, k, m) < PollBudget(s, k, m)
  {
    TakeSpends(SCHEDULER_CONFIG, s, Priority(k), m);
    TakeSorted(s);
    SkippedIsOther(s, k);
  }

  lemma HeadHolds(s: State<QueuedFrame>, k: Kind, m: nat, n: nat)
    requires Holds(s, k, m, n) && !Skips(TakeFn(SCHEDULER_CONFIG, s), Priority(k))
    ensures var d := TakeFn(SCHEDULER_CONFIG, s);
            var taken := if Brings(d, k) then 1 else 0;
            && n >= taken
            && (n > taken ==>
                  m > 1 && Holds(d.0, k, m - 1, n - taken) && PollBudget(d.0, k, m - 1) < PollBudget(s, k, m))
  {
    var c, d := Priority(k), TakeFn(SCHEDULER_CONFIG, s);
    TakeSpends(SCHEDULER_CONFIG, s, c, m);
    TakeSorted(s);
    HeadCounts(s.queues[c], d.1.value, d.0.queues[c], m, k);
  }

  lemma PollCounts(q: Qos, k: Kind)
    requires Formed(q) && q.queues[k].backpressured && q.queues[k].items > 0
    ensures var q', d := PollFn(q).0, TakeFn(SCHEDULER_CONFIG, q.scheduler);
            && k in q'.queues && q'.scheduler == d.0
            && q'.queues[k].items == q.queues[k].items - (if Brings(d, k) then 1 else 0)
            && (q'.queues[k].backpressured || PollRecovers(q, k))
            && (Brings(d, k) <==> PollFn(q).1.Some? && PollFn(q).1.value.0 == k)
  {
  }

  lemma LastOneRecovers(q: Qos, k: Kind)
    requires Consistent(q) && q.queues[k].items > 0 && PollFn(q).0.queues[k].items == 0
    ensures PollRecovers(q, k)
  {
    PollKeepsConsistent(q);
    EmptyKindIsBelow(PollFn(q).0, k);
  }

  lemma PollDrains(q: Qos, k: Kind, m: nat) returns (m': nat)
    requires Formed(q) && Draining(q, k, m)
    requires PollFn(q).0.queues[k].items == 0 ==> PollRecovers(q, k)
    ensures PollRecovers(q, k) ||
            (Draining(PollFn(q).0, k, m') && PollBudget(PollFn(q).0.scheduler, k, m') < PollBudget(q.scheduler, k, m))
  {
    PollCounts(q, k);
    m' := TakeHolds(q.scheduler, k, m, q.queues[k].items);
  }

  lemma SkippedIsOther(s: State<QueuedFrame>, k: Kind)
    requires Labelled(s) && Sorted(s) && Skips(TakeFn(SCHEDULER_CONFIG, s), Priority(k))
    ensures var d := TakeFn(SCHEDULER_CONFIG, s); d.1.Some? ==> d.1.value.payload.kind != k
  {
    var d := TakeFn(SCHEDULER_CONFIG, s);
    if d.1.Some? {
      TakeShape(s, d.1.value.class_);
      assert s.queues[d.1.value.class_][0] == d.1.value;
    }
  }

  lemma HeadCounts(before: seq<Message<QueuedFrame>>, head: Message<QueuedFrame>, after: seq<Message<QueuedFrame>>,
                   m: nat, k: Kind)
    requires before == [head] + after && 0 < m <= |before|
    ensures CountKind(before[..m], k) == (if head.payload.kind == k then 1 else 0) + CountKind(after[..m - 1], k)
  {
    assert before[..m][1..] == after[..m - 1];
  }

  lemma {:induction false} DrainsInTime(q: Qos, ops: seq<Op>, k: Kind, m: nat)
    requires Consistent(q) && Draining(q, k, m) && Polls(ops) > PollBudget(q.scheduler, k, m)
    ensures Recovers(q, ops, k)
    decreases |ops|
  {
    match ops[0] {
      case Offer(k', frame, size, throttled) =>
        OfferKeepsConsistent(q, k', frame, size, throttled);
        OfferKeepsDraining(q, k', frame, size, throttled, k, m);
        DrainsInTime(Step(q, ops[0]).0, ops[1..], k, m);
      case Poll =>
        PollKeepsConsistent(q);
        if PollFn(q).0.queues[k].items == 0 {
          LastOneRecovers(q, k);
        }
        var m' := PollDrains(q, k, m);
        if !PollRecovers(q, k) {
          DrainsInTime(Step(q, ops[0]).0, ops[1..], k, m');
        }
    }
  }

  /** A refused kind with a frame held recovers in every run with enough polls, however many
      frames of any kind are offered meanwhile. */
  lemma RecoveryComes(q: Qos, ops: seq<Op>, k: Kind)
    requires Consistent(q) && Sorted(q.scheduler) && q.queues[k].backpressured && q.queues[k].items > 0
    requires Polls(ops) >= QueueCost(SCHEDULER_CONFIG, Priority(k), q.scheduler.queues[Priority(k)])
    ensures Recovers(q, ops, k)
  {
    var queue := q.scheduler.queues[Priority(k)];
    assert queue[..|queue|] == queue;
    AllInItsClass(q, k);
    BudgetAtMost(SCHEDULER_CONFIG, q.scheduler, Priority(k), |queue|);
    DrainsInTime(q, ops, k, |queue|);
  }

  lemma AllInItsClass(q: Qos, k: Kind)
    requires Consistent(q) && Sorted(q.scheduler)
    ensures CountKind(q.scheduler.queues[Priority(k)], k) == q.queues[k].items
  {
    assert KindOk(q.queues[k], q.scheduler, k);
    forall c: Class | c != Priority(k)
      ensures CountKind(q.scheduler.queues[c], k) == 0
    {
      NoneOfAnotherClass(q.scheduler.queues[c], k);
    }
  }

  lemma {:induction false} NoneOfAnotherClass(ms: seq<Message<QueuedFrame>>, k: Kind)
    requires forall i | 0 <= i < |ms| :: Priority(ms[i].payload.kind) != Priority(k)
    ensures CountKind(ms, k) == 0
  {
    if ms != [] {
      NoneOfAnotherClass(ms[1..], k);
    }
  }

  ghost predicate CanRecover(q: Qos, k: Kind)
    requires Formed(q)
  {
    exists ops :: Recovers(q, ops, k)
  }

  /** Whether a refused kind can ever recover is decided by whether it holds a frame. */
  lemma RecoversIffHeld(q: Qos, k: Kind)
    requires Consistent(q) && Sorted(q.scheduler) && q.queues[k].backpressured
    ensures CanRecover(q, k) <==> q.queues[k].items > 0
  {
    if q.queues[k].items > 0 {
      var ops := ManyPolls(QueueCost(SCHEDULER_CONFIG, Priority(k), q.scheduler.queues[Priority(k)]));
      RecoveryComes(q, ops, k);
    } else if CanRecover(q, k) {
      var ops :| Recovers(q, ops, k);
      LockedOutForever(q, ops, k);
    }
  }

  lemma {:induction false} ManyPolls(n: nat) returns (ops: seq<Op>)
    ensures Polls(ops) == n
  {
    if n == 0 {
      ops := [];
    } else {
      var rest := ManyPolls(n - 1);
      ops := [Poll] + rest;
      assert ops[1..] == rest;
    }
  }
}
