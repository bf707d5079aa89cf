/**
 Two endpoints exchanging numbered frames over a network that may lose,
 duplicate and reorder envelopes (crates/chirps-transport-quic/src/lib.rs,
 receive.rs, retransmit.rs).

 Every lock-protected block of the source is one step.  `Endpoint` is the code
 of one side; `Node` is the same state as a value, extended with the history
 (`issued`, `evicted`, `delivered`) that the guarantees talk about.
 */
module Delivery {
  import opened Prelude
  import opened Retransmit

  datatype Envelope = Envelope(number: nat, ack: nat, frame: Frame)

  datatype Numbered = Numbered(number: nat, frame: Frame)

  datatype Settings = Settings(config: RetransmitConfig, window: nat)

  datatype Node = Node(
    buffer: PeerBuffer,             // retransmission buffer towards the other side
    dedup: PeerDedup,               // deduplication state about the other side
    issued: seq<Frame>,           // issued[k-1] is the frame that got number k
    outbox: set<Numbered>,          // numbered frames that may still be written to the wire
    evicted: set<nat>,              // numbers dropped by age or by the buffer limits
    arriving: map<nat, Envelope>,   // passed deduplication, ack not yet processed
    settled: map<nat, Envelope>,    // ack processed, not yet handed up
    delivered: seq<Envelope>)       // handed up, in order

  const FRESH_NODE := Node(FRESH_BUFFER, FRESH_DEDUP, [], {}, {}, map[], map[], [])

  // ------------------------------------------------------------ node actions

  function Dropped(before: PeerBuffer, after: PeerBuffer): set<nat> {
    set k: nat | k < before.nextNumber && before.Buffered(k) && !after.Buffered(k)
  }

  function Outgoing(messages: seq<BufferedMessage>): set<Numbered> {
    set m | m in messages :: Numbered(m.number, m.frame)
  }

  /** `buffer_with_size` as called by `send_to_peer`: number, buffer, trim. */
  function SendAction(n: Node, config: RetransmitConfig, frame: Frame, size: nat, stamp: nat, now: nat): Node {
    if n.buffer.nextNumber >= U64_MAX then n
    else
      var pushed := Push(n.buffer, frame, size, stamp);
      var trimmed := Trim(pushed, config, now);
      n.(buffer := trimmed,
         issued := n.issued + [frame],
         outbox := n.outbox + {Numbered(n.buffer.nextNumber, frame)},
         evicted := n.evicted + Dropped(pushed, trimmed))
  }

  /** `drain_for_retransmit` on reconnect: trim, then offer every unacked message again. */
  function DrainAction(n: Node, config: RetransmitConfig, now: nat): Node {
    var trimmed := Trim(n.buffer, config, now);
    n.(buffer := trimmed,
       outbox := n.outbox + Outgoing(Unacked(trimmed.messages, trimmed.acked)),
       evicted := n.evicted + Dropped(n.buffer, trimmed))
  }

  /** First block of `process_envelope`. */
  function ReceiveAction(n: Node, window: nat, e: Envelope): Node {
    if Admissible(n.dedup, window, e.number) then
      n.(dedup := Observe(n.dedup, window, e.number), arriving := n.arriving[e.number := e])
    else n
  }

  /** Second block of `process_envelope`. */
  function AckAction(n: Node, k: nat): Node
    requires k in n.arriving
  {
    n.(buffer := Acknowledge(n.buffer, n.arriving[k].ack),
       settled := n.settled[k := n.arriving[k]],
       arriving := n.arriving - {k})
  }

  /** Last block of `process_envelope`: hand the frame to the application. */
  function HandUpAction(n: Node, k: nat): Node
    requires k in n.settled
  {
    n.(delivered := n.delivered + [n.settled[k]], settled := n.settled - {k})
  }

  // ------------------------------------------------------------------- world

  /** `fromA`/`fromB` hold every envelope ever written: an envelope may be
      received at any later time, any number of times, or never. */
  datatype World = World(a: Node, b: Node, fromA: set<Envelope>, fromB: set<Envelope>)

  const START := World(FRESH_NODE, FRESH_NODE, {}, {})

  datatype Action =
    | Send(frame: Frame, size: nat, stamp: nat, now: nat)
    | Drain(now: nat)
    | Emit(item: Numbered, ack: nat)
    | Receive(e: Envelope, knownKind: bool)
    | SettleAck(k: nat)
    | HandUp(k: nat)

  /** One step of side `a`; an action that is not enabled changes nothing.  `Emit`
      may use any boundary that the node's table has reached, because the code
      reads the boundary before it writes the envelope. */
  function ActA(s: Settings, w: World, x: Action): World {
    match x
    case Send(frame, size, stamp, now) => w.(a := SendAction(w.a, s.config, frame, size, stamp, now))
    case Drain(now) => w.(a := DrainAction(w.a, s.config, now))
    case Emit(item, ack) =>
      if item in w.a.outbox && ack <= w.a.dedup.contiguous then
        w.(fromA := w.fromA + {Envelope(item.number, ack, item.frame)})
      else w
    case Receive(e, knownKind) =>
      if e in w.fromB && knownKind then w.(a := ReceiveAction(w.a, s.window, e)) else w
    case SettleAck(k) => if k in w.a.arriving then w.(a := AckAction(w.a, k)) else w
    case HandUp(k) => if k in w.a.settled then w.(a := HandUpAction(w.a, k)) else w
  }

  function Flip(w: World): World {
    World(w.b, w.a, w.fromB, w.fromA)
  }

  datatype Step = ByA(x: Action) | ByB(x: Action)

  function Apply(sa: Settings, sb: Settings, w: World, step: Step): World {
    match step
    case ByA(x) => ActA(sa, w, x)
    case ByB(x) => Flip(ActA(sb, Flip(w), x))
  }

  function Run(sa: Settings, sb: Settings, w: World, steps: seq<Step>): World
    decreases |steps|
  {
    if steps == [] then w else Run(sa, sb, Apply(sa, sb, w, steps[0]), steps[1..])
  }

  // --------------------------------------------------------------- invariant

  ghost predicate Genuine(issued: seq<Frame>, number: nat, frame: Frame) {
    1 <= number <= |issued| && frame == issued[number - 1]
  }

  ghost predicate SenderOk(n: Node) {
    && n.buffer.Valid()
    && |n.issued| == n.buffer.nextNumber - 1
    && (forall m | m in n.buffer.messages :: Genuine(n.issued, m.number, m.frame))
    && (forall o | o in n.outbox :: Genuine(n.issued, o.number, o.frame))
    && (forall k | k in n.evicted :: 1 <= k < n.buffer.First())
  }

  /** Each accepted number is in exactly one of the three stages, exactly once. */
  ghost predicate ReceiverOk(m: Node) {
    && m.dedup.Valid()
    && m.arriving.Keys !! m.settled.Keys
    && (forall k | k in m.arriving :: m.arriving[k].number == k)
    && (forall k | k in m.settled :: m.settled[k].number == k)
    && (forall i | 0 <= i < |m.delivered| ::
          m.delivered[i].number !in m.arriving && m.delivered[i].number !in m.settled)
    && (forall i, j | 0 <= i < j < |m.delivered| :: m.delivered[i].number != m.delivered[j].number)
    && (forall k: nat :: m.dedup.Accepted(k) <==>
          k in m.arriving || k in m.settled || HandedUp(m, k))
  }

  ghost predicate HandedUp(m: Node, k: nat) {
    exists i :: 0 <= i < |m.delivered| && m.delivered[i].number == k
  }

  /** Everything `m` holds from `n` is genuine. */
  ghost predicate HeldGenuine(issued: seq<Frame>, m: Node) {
    && (forall k | k in m.arriving :: Genuine(issued, k, m.arriving[k].frame))
    && (forall k | k in m.settled :: Genuine(issued, k, m.settled[k].frame))
    && (forall e | e in m.delivered :: Genuine(issued, e.number, e.frame))
  }

  /** No number is lost silently. */
  ghost predicate Covered(n: Node, m: Node) {
    forall k | 1 <= k < n.buffer.nextNumber ::
      m.dedup.Accepted(k) || n.buffer.Buffered(k) || k in n.evicted
  }

  /** The direction from `n` to `m`; `back` holds the envelopes from `m` to `n`. */
  ghost predicate Direction(n: Node, m: Node, wire: set<Envelope>, back: set<Envelope>) {
    && SenderOk(n)
    && ReceiverOk(m)
    && (forall e | e in wire :: Genuine(n.issued, e.number, e.frame))
    && HeldGenuine(n.issued, m)
    && (forall e | e in back :: e.ack <= m.dedup.contiguous)
    && (forall k | k in n.arriving :: n.arriving[k].ack <= m.dedup.contiguous)
    && n.buffer.acked <= m.dedup.contiguous
    && Covered(n, m)
  }

  ghost predicate Inv(w: World) {
    Direction(w.a, w.b, w.fromA, w.fromB) && Direction(w.b, w.a, w.fromB, w.fromA)
  }

  // --------------------------------------------- steps keep both directions

  /** Dropping the oldest messages keeps the rest genuine and counts as eviction. */
  lemma ShrunkSender(n: Node, b: PeerBuffer)
    requires SenderOk(n) && SuffixOf(b, n.buffer)
    ensures SenderOk(n.(buffer := b, evicted := n.evicted + Dropped(n.buffer, b)))
  {
    forall x | x in b.messages
      ensures Genuine(n.issued, x.number, x.frame)
    {
      assert x in n.buffer.messages;
    }
  }

  lemma PushedSender(n: Node, frame: Frame, size: nat, stamp: nat)
    requires SenderOk(n) && n.buffer.nextNumber < U64_MAX
    ensures SenderOk(n.(buffer := Push(n.buffer, frame, size, stamp),
                        issued := n.issued + [frame],
                        outbox := n.outbox + {Numbered(n.buffer.nextNumber, frame)}))
  {
    PushValid(n.buffer, frame, size, stamp);
  }

  lemma SendKeepsOwnState(n: Node, config: RetransmitConfig, frame: Frame, size: nat, stamp: nat, now: nat)
    requires SenderOk(n) && n.buffer.nextNumber < U64_MAX
    ensures SenderOk(SendAction(n, config, frame, size, stamp, now))
    ensures SuffixOf(SendAction(n, config, frame, size, stamp, now).buffer, Push(n.buffer, frame, size, stamp))
  {
    var pushed := Push(n.buffer, frame, size, stamp);
    PushedSender(n, frame, size, stamp);
    TrimMeaning(pushed, config, now);
    ShrunkSender(n.(buffer := pushed, issued := n.issued + [frame],
                    outbox := n.outbox + {Numbered(n.buffer.nextNumber, frame)}), Trim(pushed, config, now));
  }

  lemma SendKeepsSender(n: Node, m: Node, wire: set<Envelope>, back: set<Envelope>,
                        config: RetransmitConfig, frame: Frame, size: nat, stamp: nat, now: nat)
    requires Direction(n, m, wire, back)
    ensures Direction(SendAction(n, config, frame, size, stamp, now), m, wire, back)
  {
    if n.buffer.nextNumber < U64_MAX {
      SendKeepsOwnState(n, config, frame, size, stamp, now);
      SendKeepsCovered(n, m, config, frame, size, stamp, now);
    }
  }

  lemma SendKeepsCovered(n: Node, m: Node, config: RetransmitConfig, frame: Frame, size: nat, stamp: nat, now: nat)
    requires Covered(n, m) && n.buffer.Valid() && n.buffer.nextNumber < U64_MAX
    ensures Covered(SendAction(n, config, frame, size, stamp, now), m)
  {
    var pushed := Push(n.buffer, frame, size, stamp);
    var n' := SendAction(n, config, frame, size, stamp, now);
    PushValid(n.buffer, frame, size, stamp);
    TrimMeaning(pushed, config, now);
    forall k | 1 <= k < n'.buffer.nextNumber
      ensures m.dedup.Accepted(k) || n'.buffer.Buffered(k) || k in n'.evicted
    {
      assert k < n.buffer.nextNumber ==> m.dedup.Accepted(k) || n.buffer.Buffered(k) || k in n.evicted;
      assert pushed.Buffered(k) <==> n.buffer.Buffered(k) || k == n.buffer.nextNumber;
    }
  }

  lemma DrainKeepsOwnState(n: Node, config: RetransmitConfig, now: nat)
    requires SenderOk(n)
    ensures SenderOk(DrainAction(n, config, now))
    ensures SuffixOf(DrainAction(n, config, now).buffer, n.buffer)
  {
    var b := Trim(n.buffer, config, now);
    TrimMeaning(n.buffer, config, now);
    ShrunkSender(n, b);
    OfferAgain(n.(buffer := b, evicted := n.evicted + Dropped(n.buffer, b)));
  }

  lemma OfferAgain(n: Node)
    requires SenderOk(n)
    ensures SenderOk(n.(outbox := n.outbox + Outgoing(Unacked(n.buffer.messages, n.buffer.acked))))
  {
    UnackedIsSuffix(n.buffer);
    forall x | x in Unacked(n.buffer.messages, n.buffer.acked)
      ensures Genuine(n.issued, x.number, x.frame)
    {
      assert x in n.buffer.messages;
    }
  }

  lemma DrainKeepsSender(n: Node, m: Node, wire: set<Envelope>, back: set<Envelope>,
                         config: RetransmitConfig, now: nat)
    requires Direction(n, m, wire, back)
    ensures Direction(DrainAction(n, config, now), m, wire, back)
  {
    DrainKeepsOwnState(n, config, now);
    var n' := DrainAction(n, config, now);
    forall k | 1 <= k < n'.buffer.nextNumber
      ensures m.dedup.Accepted(k) || n'.buffer.Buffered(k) || k in n'.evicted
    {
      assert m.dedup.Accepted(k) || n.buffer.Buffered(k) || k in n.evicted;
    }
  }

  lemma ReceiveKeepsReceiver(n: Node, m: Node, wire: set<Envelope>, back: set<Envelope>,
                             window: nat, e: Envelope)
    requires Direction(n, m, wire, back) && e in wire
    ensures Direction(n, ReceiveAction(m, window, e), wire, back)
  {
    ObserveMeaning(m.dedup, window, e.number);
    var m' := ReceiveAction(m, window, e);
    if Admissible(m.dedup, window, e.number) {
      assert !m.dedup.Accepted(e.number);
      assert !HandedUp(m, e.number);
      forall k: nat
        ensures m'.dedup.Accepted(k) <==> k in m'.arriving || k in m'.settled || HandedUp(m', k)
      {
        assert HandedUp(m', k) <==> HandedUp(m, k);
      }
    }
    forall k | 1 <= k < n.buffer.nextNumber
      ensures m'.dedup.Accepted(k) || n.buffer.Buffered(k) || k in n.evicted
    {
      assert m.dedup.Accepted(k) || n.buffer.Buffered(k) || k in n.evicted;
    }
  }

  /** The receiving node is also a sender: its own direction sees only a new pending ack. */
  lemma ReceiveKeepsSender(n: Node, m: Node, wire: set<Envelope>, back: set<Envelope>,
                           window: nat, e: Envelope)
    requires Direction(n, m, wire, back) && e in back
    ensures Direction(ReceiveAction(n, window, e), m, wire, back)
  {
  }

  lemma AckKeepsSender(n: Node, m: Node, wire: set<Envelope>, back: set<Envelope>, k: nat)
    requires Direction(n, m, wire, back) && k in n.arriving
    ensures Direction(AckAction(n, k), m, wire, back)
  {
    var ack := n.arriving[k].ack;
    AcknowledgeMeaning(n.buffer, ack);
    var n' := AckAction(n, k);
    forall j | 1 <= j < n'.buffer.nextNumber
      ensures m.dedup.Accepted(j) || n'.buffer.Buffered(j) || j in n'.evicted
    {
      assert m.dedup.Accepted(j) || n.buffer.Buffered(j) || j in n.evicted;
    }
  }

  lemma AckKeepsReceiver(n: Node, m: Node, wire: set<Envelope>, back: set<Envelope>, k: nat)
    requires Direction(n, m, wire, back) && k in m.arriving
    ensures Direction(n, AckAction(m, k), wire, back)
  {
    var m' := AckAction(m, k);
    forall j: nat
      ensures m'.dedup.Accepted(j) <==> j in m'.arriving || j in m'.settled || HandedUp(m', j)
    {
      assert HandedUp(m', j) <==> HandedUp(m, j);
    }
    assert Covered(n, m');
  }

  lemma HandUpKeepsReceiver(n: Node, m: Node, wire: set<Envelope>, back: set<Envelope>, k: nat)
    requires Direction(n, m, wire, back) && k in m.settled
    ensures Direction(n, HandUpAction(m, k), wire, back)
  {
    var m' := HandUpAction(m, k);
    forall j: nat
      ensures HandedUp(m', j) <==> HandedUp(m, j) || j == k
    {
      if HandedUp(m, j) {
        var i :| 0 <= i < |m.delivered| && m.delivered[i].number == j;
        assert m'.delivered[i].number == j;
      }
      if j == k {
        assert m'.delivered[|m.delivered|].number == j;
      }
    }
    assert Covered(n, m');
  }

  /** Changing only the sending half of a node leaves the direction towards it alone. */
  lemma ReceivingHalf(n: Node, m: Node, m': Node, wire: set<Envelope>, back: set<Envelope>)
    requires Direction(n, m, wire, back)
    requires m'.dedup == m.dedup && m'.arriving == m.arriving && m'.settled == m.settled
    requires m'.delivered == m.delivered
    ensures Direction(n, m', wire, back)
  {
    assert forall k: nat :: HandedUp(m', k) <==> HandedUp(m, k);
    assert Covered(n, m');
  }

  lemma SendingHalf(n: Node, n': Node, m: Node, wire: set<Envelope>, back: set<Envelope>)
    requires Direction(n, m, wire, back)
    requires n'.buffer == n.buffer && n'.issued == n.issued && n'.outbox == n.outbox
    requires n'.evicted == n.evicted && n'.arriving == n.arriving
    ensures Direction(n', m, wire, back)
  {
    assert Covered(n', m);
  }

  lemma EmitKeepsBoth(n: Node, m: Node, wire: set<Envelope>, back: set<Envelope>, item: Numbered, ack: nat)
    requires Direction(n, m, wire, back) && Direction(m, n, back, wire)
    requires item in n.outbox && ack <= n.dedup.contiguous
    ensures var wire' := wire + {Envelope(item.number, ack, item.frame)};
            Direction(n, m, wire', back) && Direction(m, n, back, wire')
  {
  }

  lemma SendSideKeepsInv(s: Settings, w: World, x: Action)
    requires Inv(w) && (x.Send? || x.Drain?)
    ensures Inv(ActA(s, w, x))
  {
    var w' := ActA(s, w, x);
    if x.Send? {
      SendKeepsSender(w.a, w.b, w.fromA, w.fromB, s.config, x.frame, x.size, x.stamp, x.now);
    } else {
      DrainKeepsSender(w.a, w.b, w.fromA, w.fromB, s.config, x.now);
    }
    ReceivingHalf(w.b, w.a, w'.a, w.fromB, w.fromA);
  }

  lemma ReceiveSideKeepsInv(s: Settings, w: World, x: Action)
    requires Inv(w) && (x.SettleAck? || x.HandUp?)
    ensures Inv(ActA(s, w, x))
  {
    var w' := ActA(s, w, x);
    if x.SettleAck? && x.k in w.a.arriving {
      AckKeepsSender(w.a, w.b, w.fromA, w.fromB, x.k);
      AckKeepsReceiver(w.b, w.a, w.fromB, w.fromA, x.k);
    } else if x.HandUp? && x.k in w.a.settled {
      SendingHalf(w.a, w'.a, w.b, w.fromA, w.fromB);
      HandUpKeepsReceiver(w.b, w.a, w.fromB, w.fromA, x.k);
    }
  }

  lemma ActAKeepsInv(s: Settings, w: World, x: Action)
    requires Inv(w)
    ensures Inv(ActA(s, w, x))
  {
    match x
    case Send(_, _, _, _) => SendSideKeepsInv(s, w, x);
    case Drain(_) => SendSideKeepsInv(s, w, x);
    case Emit(item, ack) =>
      if item in w.a.outbox && ack <= w.a.dedup.contiguous {
        EmitKeepsBoth(w.a, w.b, w.fromA, w.fromB, item, ack);
      }
    case Receive(e, knownKind) =>
      if e in w.fromB && knownKind {
        ReceiveKeepsSender(w.a, w.b, w.fromA, w.fromB, s.window, e);
        ReceiveKeepsReceiver(w.b, w.a, w.fromB, w.fromA, s.window, e);
      }
    case SettleAck(_) => ReceiveSideKeepsInv(s, w, x);
    case HandUp(_) => ReceiveSideKeepsInv(s, w, x);
  }

  lemma StepKeepsInv(sa: Settings, sb: Settings, w: World, step: Step)
    requires Inv(w)
    ensures Inv(Apply(sa, sb, w, step)) && Inv(Flip(w))
  {
    match step {
      case ByA(x) => ActAKeepsInv(sa, w, x);
      case ByB(x) => ActAKeepsInv(sb, Flip(w), x);
    }
  }

  lemma {:induction false} RunKeepsInv(sa: Settings, sb: Settings, w: World, steps: seq<Step>)
    requires Inv(w)
    ensures Inv(Run(sa, sb, w, steps))
    decreases |steps|
  {
    if steps != [] {
      StepKeepsInv(sa, sb, w, steps[0]);
      RunKeepsInv(sa, sb, Apply(sa, sb, w, steps[0]), steps[1..]);
    }
  }

  lemma StartInv()
    ensures Inv(START)
  {
    assert forall k: nat :: !HandedUp(FRESH_NODE, k);
  }

  // -------------------------------------------------------------- guarantees

  /** What the transport promises in the direction from `n` to `m`. */
  ghost predicate Guarantees(n: Node, m: Node) {
    // the acked boundary never passes the receiver's contiguous boundary
    && n.buffer.acked <= m.dedup.contiguous
    // every number ever issued is accepted, still buffered, or was evicted
    && (forall k | 1 <= k <= |n.issued| ::
          m.dedup.Accepted(k) || n.buffer.Buffered(k) || k in n.evicted)
    // nothing is handed up twice
    && (forall i, j | 0 <= i < j < |m.delivered| :: m.delivered[i].number != m.delivered[j].number)
    // what is handed up under a number is the frame that was buffered under it
    && (forall i | 0 <= i < |m.delivered| ::
          && 1 <= m.delivered[i].number <= |n.issued|
          && m.delivered[i].frame == n.issued[m.delivered[i].number - 1])
    // an accepted number is handed up, or one of the two remaining blocks still holds it
    && (forall k: nat :: m.dedup.Accepted(k) <==>
          k in m.arriving || k in m.settled || HandedUp(m, k))
  }

  /** In every run, under every interleaving, loss, duplication and reordering. */
  lemma TwoPartyDelivery(sa: Settings, sb: Settings, steps: seq<Step>)
    ensures var w := Run(sa, sb, START, steps);
            Guarantees(w.a, w.b) && Guarantees(w.b, w.a)
  {
    StartInv();
    RunKeepsInv(sa, sb, START, steps);
  }

  // ------------------------------------------------------------ evictions

  /** Number `k` is buffered and has a reason to be dropped by a trim at `now`. */
  ghost predicate DroppedFor(b: PeerBuffer, config: RetransmitConfig, now: nat, k: nat) {
    b.Buffered(k) && Outdated(b, config, now, k - b.First())
  }

  /** The action trims a buffer in which `k` has a reason to go. */
  ghost predicate Evicts(n: Node, config: RetransmitConfig, x: Action, k: nat) {
    match x
    case Send(frame, size, stamp, now) => DroppedFor(Push(n.buffer, frame, size, stamp), config, now, k)
    case Drain(now) => DroppedFor(n.buffer, config, now, k)
    case _ => false
  }

  lemma TrimDropsFor(b: PeerBuffer, config: RetransmitConfig, now: nat, k: nat)
    requires b.Valid() && k in Dropped(b, Trim(b, config, now))
    ensures DroppedFor(b, config, now, k)
  {
    TrimMeaning(b, config, now);
  }

  /** Only sends and drains evict, and never without a reason. */
  lemma ActEvicts(s: Settings, w: World, x: Action, k: nat)
    requires Inv(w)
    ensures ActA(s, w, x).b == w.b
    ensures k in ActA(s, w, x).a.evicted ==> k in w.a.evicted || Evicts(w.a, s.config, x, k)
  {
    match x
    case Send(frame, size, stamp, now) =>
      if w.a.buffer.nextNumber < U64_MAX {
        var pushed := Push(w.a.buffer, frame, size, stamp);
        PushValid(w.a.buffer, frame, size, stamp);
        if k in Dropped(pushed, Trim(pushed, s.config, now)) {
          TrimDropsFor(pushed, s.config, now, k);
        }
      }
    case Drain(now) =>
      if k in Dropped(w.a.buffer, Trim(w.a.buffer, s.config, now)) {
        TrimDropsFor(w.a.buffer, s.config, now, k);
      }
    case _ =>
  }

  /** Step `i` of the run is where `k` leaves the buffer of side `a`, for a reason. */
  ghost predicate EvictsAt(sa: Settings, sb: Settings, w: World, steps: seq<Step>, i: nat, k: nat) {
    && i < |steps| && steps[i].ByA?
    && k !in Run(sa, sb, w, steps[..i]).a.evicted && k in Run(sa, sb, w, steps[..i + 1]).a.evicted
    && Evicts(Run(sa, sb, w, steps[..i]).a, sa.config, steps[i].x, k)
  }

  /** The same schedule with the two sides exchanged. */
  function Mirror(steps: seq<Step>): seq<Step> {
    if steps == [] then []
    else [if steps[0].ByA? then ByB(steps[0].x) else ByA(steps[0].x)] + Mirror(steps[1..])
  }

  /** Runs are symmetric, so what holds of side `a` in every run holds of side `b`. */
  lemma {:induction false} RunsMirror(sa: Settings, sb: Settings, w: World, steps: seq<Step>)
    ensures Run(sb, sa, Flip(w), Mirror(steps)) == Flip(Run(sa, sb, w, steps))
    decreases |steps|
  {
    if steps != [] {
      RunsMirror(sa, sb, Apply(sa, sb, w, steps[0]), steps[1..]);
      assert Mirror(steps)[1..] == Mirror(steps[1..]);
    }
  }

  lemma OneStepRun(sa: Settings, sb: Settings, w: World, steps: seq<Step>)
    requires steps != []
    ensures Run(sa, sb, w, steps[..0]) == w && Run(sa, sb, w, steps[..1]) == Apply(sa, sb, w, steps[0])
  {
    assert steps[..1][1..] == [];
  }

  lemma RunUnfolds(sa: Settings, sb: Settings, w: World, steps: seq<Step>, i: nat)
    requires i < |steps|
    ensures Run(sa, sb, w, steps[..i + 1]) == Run(sa, sb, Apply(sa, sb, w, steps[0]), steps[1..][..i])
  {
    assert steps[..i + 1][0] == steps[0] && steps[..i + 1][1..] == steps[1..][..i];
  }

  /** Every evicted number went at some step because its message had expired then, or because
      a limit was broken with it still in front. */
  lemma {:induction false} EvictionsHaveReasons(sa: Settings, sb: Settings, w: World, steps: seq<Step>, k: nat)
    requires Inv(w) && k !in w.a.evicted && k in Run(sa, sb, w, steps).a.evicted
    ensures exists i: nat :: EvictsAt(sa, sb, w, steps, i, k)
    decreases |steps|
  {
    if steps != [] {
      var w' := Apply(sa, sb, w, steps[0]);
      match steps[0] {
        case ByA(x) => ActEvicts(sa, w, x, k);
        case ByB(x) => ActEvicts(sb, Flip(w), x, k);
      }
      StepKeepsInv(sa, sb, w, steps[0]);
      if k in w'.a.evicted {
        OneStepRun(sa, sb, w, steps);
        assert EvictsAt(sa, sb, w, steps, 0, k);
      } else {
        EvictionsHaveReasons(sa, sb, w', steps[1..], k);
        var i: nat :| EvictsAt(sa, sb, w', steps[1..], i, k);
        RunUnfolds(sa, sb, w, steps, i);
        RunUnfolds(sa, sb, w, steps, i + 1);
        assert EvictsAt(sa, sb, w, steps, i + 1, k);
      }
    }
  }

  /** Both sides, from the start: the escape clause of `TwoPartyDelivery` explained. */
  lemma EvictedForAReason(sa: Settings, sb: Settings, steps: seq<Step>, k: nat)
    ensures var w := Run(sa, sb, START, steps);
            && (k in w.a.evicted ==> exists i: nat :: EvictsAt(sa, sb, START, steps, i, k))
            && (k in w.b.evicted ==> exists i: nat :: EvictsAt(sb, sa, START, Mirror(steps), i, k))
  {
    StartInv();
    if k in Run(sa, sb, START, steps).a.evicted {
      EvictionsHaveReasons(sa, sb, START, steps, k);
    }
    RunsMirror(sa, sb, START, steps);
    assert Flip(START) == START;
    if k in Run(sa, sb, START, steps).b.evicted {
      EvictionsHaveReasons(sb, sa, START, Mirror(steps), k);
    }
  }

  // ------------------------------------------------------------ byte counters

  /** Every send of the run is small enough for the counter of a buffer within its limits. */
  ghost predicate SmallSends(sa: Settings, sb: Settings, steps: seq<Step>) {
    forall i | 0 <= i < |steps| && steps[i].x.Send? ::
      steps[i].x.size + (if steps[i].ByA? then sa.config.maxBytes else sb.config.maxBytes) <= U64_MAX
  }

  ghost predicate CountsBytes(n: Node, config: RetransmitConfig) {
    n.buffer.Exact() && n.buffer.totalBytes <= config.maxBytes
  }

  lemma ActCountsBytes(s: Settings, w: World, x: Action)
    requires Inv(w) && CountsBytes(w.a, s.config)
    requires x.Send? ==> x.size + s.config.maxBytes <= U64_MAX
    ensures CountsBytes(ActA(s, w, x).a, s.config)
  {
    match x
    case Send(frame, size, stamp, now) =>
      if w.a.buffer.nextNumber < U64_MAX {
        var pushed := Push(w.a.buffer, frame, size, stamp);
        PushValid(w.a.buffer, frame, size, stamp);
        PushExactIff(w.a.buffer, frame, size, stamp);
        TrimExact(pushed, s.config, now);
      }
    case Drain(now) => TrimExact(w.a.buffer, s.config, now);
    case SettleAck(k) =>
      if k in w.a.arriving {
        AcknowledgeKeepsExact(w.a.buffer, w.a.arriving[k].ack);
      }
    case _ =>
  }

  /** In every run whose sends fit, both byte counters are exact and the buffered bytes within
      the limit, between any two steps. */
  lemma {:induction false} BytesStayExact(sa: Settings, sb: Settings, w: World, steps: seq<Step>)
    requires Inv(w) && CountsBytes(w.a, sa.config) && CountsBytes(w.b, sb.config) && SmallSends(sa, sb, steps)
    ensures CountsBytes(Run(sa, sb, w, steps).a, sa.config) && CountsBytes(Run(sa, sb, w, steps).b, sb.config)
    decreases |steps|
  {
    if steps != [] {
      match steps[0] {
        case ByA(x) =>
          ActCountsBytes(sa, w, x);
          ActEvicts(sa, w, x, 0);
        case ByB(x) =>
          ActCountsBytes(sb, Flip(w), x);
          ActEvicts(sb, Flip(w), x, 0);
      }
      StepKeepsInv(sa, sb, w, steps[0]);
      BytesStayExact(sa, sb, Apply(sa, sb, w, steps[0]), steps[1..]);
    }
  }

  // ------------------------------------------------------- replay on reconnect

  /** The receiver's table after the messages arrive in the given order. */
  function Replay(d: PeerDedup, window: nat, messages: seq<BufferedMessage>): PeerDedup
    decreases |messages|
  {
    if messages == [] then d else Replay(Observe(d, window, messages[0].number), window, messages[1..])
  }

  /** A gap-free run that starts at or below the boundary carries it to the run's end. */
  lemma {:induction false} ReplayRun(d: PeerDedup, window: nat, messages: seq<BufferedMessage>, first: nat)
    requires d.Valid() && window >= 1 && first >= 1
    requires forall i | 0 <= i < |messages| :: messages[i].number == first + i
    requires first <= d.contiguous + 1
    requires first + |messages| <= U64_MAX + 1
    ensures first + |messages| - 1 <= Replay(d, window, messages).contiguous
    decreases |messages|
  {
    if messages != [] {
      ObserveMeaning(d, window, first);
      var d' := Observe(d, window, first);
      assert d'.Accepted(first);
      assert d'.contiguous >= first by {
        assert d.contiguous >= first || (d'.contiguous >= d.contiguous == first - 1);
      }
      ReplayRun(d', window, messages[1..], first + 1);
    }
  }

  /** Replaying accepts nothing but the replayed numbers. */
  lemma {:induction false} ReplayAccepts(d: PeerDedup, window: nat, messages: seq<BufferedMessage>)
    requires d.Valid()
    requires forall m | m in messages :: m.number <= U64_MAX
    ensures Replay(d, window, messages).Valid()
    ensures forall k: nat | Replay(d, window, messages).Accepted(k) ::
              d.Accepted(k) || exists m :: m in messages && m.number == k
    decreases |messages|
  {
    if messages != [] {
      var d' := Observe(d, window, messages[0].number);
      assert messages[0] in messages;
      ObserveMeaning(d, window, messages[0].number);
      ReplayAccepts(d', window, messages[1..]);
      forall k: nat | Replay(d, window, messages).Accepted(k)
        ensures d.Accepted(k) || exists m :: m in messages && m.number == k
      {
        if !d'.Accepted(k) {
          var m :| m in messages[1..] && m.number == k;
          assert m in messages;
        }
      }
    }
  }

  /** A drain replayed in order brings the receiver's boundary to the last
      issued number exactly when everything evicted had been accepted, whatever
      the (non-zero) window and whatever had been accepted out of order. */
  lemma ReconnectCatchesUp(sa: Settings, sb: Settings, steps: seq<Step>, now: nat)
    requires sb.window >= 1
    ensures var w := Run(sa, sb, START, steps);
            var n := DrainAction(w.a, sa.config, now);
            var drained := Unacked(n.buffer.messages, n.buffer.acked);
            Replay(w.b.dedup, sb.window, drained).contiguous == n.buffer.nextNumber - 1
            <==> forall k | k in n.evicted :: w.b.dedup.Accepted(k)
  {
    StartInv();
    RunKeepsInv(sa, sb, START, steps);
    var w := Run(sa, sb, START, steps);
    DrainKeepsSender(w.a, w.b, w.fromA, w.fromB, sa.config, now);
    CatchUp(DrainAction(w.a, sa.config, now), w.b, w.fromA, w.fromB, sb.window);
  }

  lemma CatchUp(n: Node, m: Node, wire: set<Envelope>, back: set<Envelope>, window: nat)
    requires Direction(n, m, wire, back) && window >= 1
    ensures Replay(m.dedup, window, Unacked(n.buffer.messages, n.buffer.acked)).contiguous
              == n.buffer.nextNumber - 1
            <==> forall k | k in n.evicted :: m.dedup.Accepted(k)
  {
    var b := n.buffer;
    var drained := Unacked(b.messages, b.acked);
    UnackedIsSuffix(b);
    var start := Min(|b.messages|, Max(0, b.acked + 1 - b.First()));
    assert drained == b.messages[start..];
    forall x | x in drained
      ensures b.First() <= x.number < b.nextNumber <= U64_MAX
    {
      assert x in b.messages;
    }
    ReplayAccepts(m.dedup, window, drained);
    var r := Replay(m.dedup, window, drained);
    AcceptedBelowNext(n, m, wire, back);
    if r.contiguous == b.nextNumber - 1 {
      forall k | k in n.evicted
        ensures m.dedup.Accepted(k)
      {
        assert r.Accepted(k);
      }
    }
    if forall k | k in n.evicted :: m.dedup.Accepted(k) {
      AllBelowFirstAccepted(n, m);
      ReplayRun(m.dedup, window, drained, b.First() + start);
      assert r.Accepted(r.contiguous) || r.contiguous == 0;
    }
  }

  lemma AcceptedBelowNext(n: Node, m: Node, wire: set<Envelope>, back: set<Envelope>)
    requires Direction(n, m, wire, back)
    ensures forall k: nat | m.dedup.Accepted(k) :: k < n.buffer.nextNumber
  {
    forall k: nat | m.dedup.Accepted(k)
      ensures k < n.buffer.nextNumber
    {
      if k !in m.arriving && k !in m.settled {
        var i :| 0 <= i < |m.delivered| && m.delivered[i].number == k;
        assert m.delivered[i] in m.delivered;
      }
    }
  }

  lemma AllBelowFirstAccepted(n: Node, m: Node)
    requires SenderOk(n) && m.dedup.Valid() && Covered(n, m)
    requires forall k | k in n.evicted :: m.dedup.Accepted(k)
    ensures n.buffer.First() <= m.dedup.contiguous + 1
  {
    var k := m.dedup.contiguous + 1;
    assert !m.dedup.Accepted(k);
    assert k < n.buffer.nextNumber ==> n.buffer.Buffered(k);
  }

  /** A zero window (only `DeduplicationTable::default()` has one) never accepts. */
  lemma {:induction false} ZeroWindowNeverCatchesUp(d: PeerDedup, messages: seq<BufferedMessage>)
    requires d.Valid()
    ensures Replay(d, 0, messages) == d
    decreases |messages|
  {
    if messages != [] {
      ZeroWindowNeverCatchesUp(d, messages[1..]);
    }
  }

  // ---------------------------------------------------------------- the code

  /** One side's objects: what `send_to_peer`, `process_envelope` and the
      reconnect block of `handle_connection` share. */
  class Endpoint {
    const buffer: RetransmissionBuffer
    const dedup: DeduplicationTable
    var incoming: seq<(NodeId, Frame)>

    constructor (config: RetransmitConfig)
      ensures fresh(buffer) && fresh(dedup) && dedup.Valid()
      ensures buffer.config == config && buffer.buffers == map[]
      ensures dedup.peers == map[] && dedup.windowSize == 1000
      ensures incoming == []
    {
      buffer := new RetransmissionBuffer(config);
      dedup := new DeduplicationTable();
      incoming := [];
    }

    /** Lines 1675-1696 of lib.rs: number and buffer the frame, then read the
        boundary, then build the envelope. */
    method SendToPeer(target: NodeId, frame: Frame, size: nat, stamp: nat, now: nat)
      returns (r: Result<Envelope, BufferError>)
      modifies buffer
      ensures var was := old(buffer.BufferOf(target));
              if was.nextNumber >= U64_MAX then
                r == Failure(SequenceExhausted) && buffer.BufferOf(target) == was
              else
                && r == Success(Envelope(was.nextNumber, dedup.StateOf(target).contiguous, frame))
                && buffer.BufferOf(target) == Trim(Push(was, frame, size, stamp), buffer.config, now)
      ensures forall p | p != target :: buffer.BufferOf(p) == old(buffer.BufferOf(p))
    {
      var numbered := buffer.BufferWithSize(target, frame, size, stamp, now);
      if numbered.Failure? {
        return Failure(numbered.error);
      }
      var ack := dedup.LastSeen(target);
      r := Success(Envelope(numbered.value, ack, frame));
    }

    /** `process_envelope`: unknown kinds are refused before the table is touched,
        duplicates neither acknowledge nor deliver. */
    method ProcessEnvelope(peer: NodeId, e: Envelope, knownKind: bool) returns (ok: bool)
      requires dedup.Valid() && e.number <= U64_MAX
      modifies this, buffer, dedup
      ensures dedup.Valid() && ok == knownKind
      ensures !knownKind ==>
                dedup.peers == old(dedup.peers) && buffer.buffers == old(buffer.buffers) && incoming == old(incoming)
      ensures knownKind ==> dedup.StateOf(peer) == Observe(old(dedup.StateOf(peer)), dedup.windowSize, e.number)
      ensures var isNew := knownKind && Admissible(old(dedup.StateOf(peer)), dedup.windowSize, e.number);
              && incoming == old(incoming) + (if isNew then [(peer, e.frame)] else [])
              && buffer.buffers == (if isNew && peer in old(buffer.buffers)
                                    then old(buffer.buffers)[peer := Acknowledge(old(buffer.buffers)[peer], e.ack)]
                                    else old(buffer.buffers))
    {
      if !knownKind { return false; }
      var isNew := dedup.CheckAndUpdate(peer, e.number);
      if !isNew { return true; }
      var removed := buffer.ProcessAck(peer, e.ack);
      incoming := incoming + [(peer, e.frame)];
      ok := true;
    }

    /** Lines 788-828 of lib.rs: one boundary reading, one envelope per unacked message. */
    method ReplayOnReconnect(peer: NodeId, now: nat) returns (envelopes: seq<Envelope>)
      modifies buffer
      ensures peer !in old(buffer.buffers) ==> envelopes == [] && buffer.buffers == old(buffer.buffers)
      ensures peer in old(buffer.buffers) ==>
                var b := Trim(old(buffer.buffers)[peer], buffer.config, now);
                var unacked := Unacked(b.messages, b.acked);
                && buffer.buffers == old(buffer.buffers)[peer := b]
                && |envelopes| == |unacked|
                && forall i | 0 <= i < |unacked| ::
                     envelopes[i] == Envelope(unacked[i].number, dedup.StateOf(peer).contiguous, unacked[i].frame)
    {
      var messages := buffer.DrainForRetransmit(peer, now);
      envelopes := [];
      var ack := dedup.LastSeen(peer);
      for i := 0 to |messages|
        invariant |envelopes| == i
        invariant forall j | 0 <= j < i ::
                    envelopes[j] == Envelope(messages[j].number, ack, messages[j].frame)
      {
        envelopes := envelopes + [Envelope(messages[i].number, ack, messages[i].frame)];
      }
    }
  }
}
