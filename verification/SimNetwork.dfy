/**
 The seeded, single-step network simulator
 (crates/chirps-mock/src/deterministic.rs): a virtual-time packet queue with
 scheduled faults, directed partitions and node generations.

 `Net` is `NetworkState` as a value.  Its `events` are the source's event log; a
 copy whose channel was full or closed leaves no event there, so `failed`
 remembers it.
 */
module SimNetwork {
  import opened Prelude
  import opened Faults

  /** `mpsc::channel(1024)`. */
  const CHANNEL_CAPACITY: nat := 1024

  datatype Key = Key(due: nat, ordinal: nat, packet: nat, copy: nat)

  /** The derived lexicographic order of `QueueKey`. */
  predicate Less(a: Key, b: Key) {
    || a.due < b.due
    || (a.due == b.due && (
          || a.ordinal < b.ordinal
          || (a.ordinal == b.ordinal && (
                || a.packet < b.packet
                || (a.packet == b.packet && a.copy < b.copy)))))
  }

  datatype Packet = Packet(link: Link, sourceGeneration: nat, targetGeneration: nat, frame: Frame)

  /** `open` is false once the receiving half of the channel is gone. */
  datatype Peer = Peer(generation: nat, inbox: seq<(NodeId, Frame)>, open: bool)

  datatype Event =
    | Scheduled(key: Key, packet: Packet)
    | Delivered(key: Key, packet: Packet)
    | DroppedCopy(key: Key, packet: Packet)
    | StaleGeneration(key: Key, packet: Packet)
    | DroppedPacket(id: nat, link: Link)
    | Partitioned(link: Link)
    | Healed(link: Link)
    | Reconnected(node: NodeId, generation: nat)

  datatype EventRecord = EventRecord(time: nat, event: Event)

  datatype Net = Net(
    now: nat,
    peers: map<NodeId, Peer>,
    generations: map<NodeId, nat>,
    occurrences: map<Link, nat>,
    partitions: set<Link>,
    queue: map<Key, Packet>,
    events: seq<EventRecord>,
    nextPacket: nat,
    failed: set<Key>)

  const EMPTY_NET := Net(0, map[], map[], map[], {}, map[], [], 0, {})

  function Record(s: Net, e: Event): Net {
    s.(events := s.events + [EventRecord(s.now, e)])
  }

  // ------------------------------------------------------------ queue-key order

  lemma LessIsStrictOrder(a: Key, b: Key, c: Key)
    ensures !Less(a, a)
    ensures a != b ==> Less(a, b) || Less(b, a)
    ensures Less(a, b) && Less(b, c) ==> Less(a, c)
    ensures Less(a, b) ==> !Less(b, a)
  {
  }

  ghost predicate IsLeast(k: Key, ks: set<Key>) {
    k in ks && forall k' | k' in ks && k' != k :: Less(k, k')
  }

  lemma {:induction false} LeastExists(ks: set<Key>) returns (least: Key)
    requires ks != {}
    ensures IsLeast(least, ks)
    decreases |ks|
  {
    var k :| k in ks;
    if ks == {k} {
      return k;
    }
    var rest := ks - {k};
    assert rest != {};
    var l := LeastExists(rest);
    least := if Less(k, l) then k else l;
    forall k' | k' in ks && k' != least
      ensures Less(least, k')
    {
      LessIsStrictOrder(k, l, k');
    }
  }

  /** The first key in queue order. */
  ghost function Least(ks: set<Key>): (k: Key)
    requires ks != {}
    ensures IsLeast(k, ks)
  {
    LeastWitness(ks);
    var k :| IsLeast(k, ks);
    k
  }

  lemma LeastWitness(ks: set<Key>)
    requires ks != {}
    ensures exists k :: IsLeast(k, ks)
  {
    var k := LeastExists(ks);
  }

  lemma LeastUnique(ks: set<Key>, k: Key)
    requires IsLeast(k, ks)
    ensures k == Least(ks)
  {
    LessIsStrictOrder(k, Least(ks), k);
  }

  /** The keys in the iteration order of the `BTreeMap`. */
  ghost function Ordered(ks: set<Key>): seq<Key>
    decreases |ks|
  {
    if ks == {} then [] else [Least(ks)] + Ordered(ks - {Least(ks)})
  }

  lemma OrderedFirst(ks: set<Key>, k: Key)
    requires IsLeast(k, ks)
    ensures Ordered(ks) == [k] + Ordered(ks - {k})
  {
    LeastUnique(ks, k);
  }

  ghost predicate Increasing(keys: seq<Key>) {
    forall i, j | 0 <= i < j < |keys| :: Less(keys[i], keys[j])
  }

  lemma {:induction false} OrderedMeaning(ks: set<Key>)
    ensures Increasing(Ordered(ks))
    ensures forall k :: k in Ordered(ks) <==> k in ks
    decreases |ks|
  {
    if ks != {} {
      var least := Least(ks);
      OrderedMeaning(ks - {least});
      LeastInFront(ks, least, Ordered(ks - {least}));
    }
  }

  lemma LeastInFront(ks: set<Key>, least: Key, rest: seq<Key>)
    requires IsLeast(least, ks) && Increasing(rest) && forall k :: k in rest <==> k in ks - {least}
    ensures Increasing([least] + rest) && forall k :: k in [least] + rest <==> k in ks
  {
    var keys := [least] + rest;
    forall i, j | 0 <= i < j < |keys|
      ensures Less(keys[i], keys[j])
    {
      assert keys[j] == rest[j - 1] && rest[j - 1] in rest;
      if i > 0 {
        assert keys[i] == rest[i - 1];
      }
    }
  }

  // ---------------------------------------------------------------- operations

  /** `deliver_key`: resolve one copy.  False means the channel refused it. */
  ghost function Resolve(s: Net, key: Key): (Net, bool)
    requires key in s.queue
  {
    var p := s.queue[key];
    var rest := s.(queue := s.queue - {key});
    if p.link in s.partitions then (s, true)
    else if p.link.target !in s.peers then (Record(rest, DroppedCopy(key, p)), true)
    else if !EndpointsCurrent(s, p) then (Record(rest, StaleGeneration(key, p)), true)
    else
      var peer := s.peers[p.link.target];
      if Accepts(peer) then
        (Record(rest.(peers := s.peers[p.link.target :=
                        peer.(inbox := peer.inbox + [(p.link.source, p.frame)])]),
                Delivered(key, p)), true)
      else (rest.(failed := s.failed + {key}), false)
  }

  /** Both endpoints are connected with the generations the packet was sent under. */
  predicate EndpointsCurrent(s: Net, p: Packet) {
    && p.link.source in s.peers && s.peers[p.link.source].generation == p.sourceGeneration
    && p.link.target in s.peers && s.peers[p.link.target].generation == p.targetGeneration
  }

  /** `try_send` succeeds. */
  predicate Accepts(peer: Peer) {
    peer.open && |peer.inbox| < CHANNEL_CAPACITY
  }

  /** `drain_due` over keys already collected. */
  ghost function ResolveAll(s: Net, keys: seq<Key>): (Net, bool)
    decreases |keys|
  {
    if keys == [] then (s, true)
    else if keys[0] !in s.queue then (s, true)
    else
      var r := Resolve(s, keys[0]);
      if r.1 then ResolveAll(r.0, keys[1..]) else r
  }

  ghost function DueKeys(s: Net): set<Key> {
    set k | k in s.queue && k.due <= s.now
  }

  ghost function AdvanceFn(s: Net, ticks: nat): (Net, bool) {
    var s' := s.(now := SatAdd(s.now, ticks));
    ResolveAll(s', Ordered(DueKeys(s')))
  }

  ghost function Deliverable(s: Net): set<Key> {
    set k | k in s.queue && s.queue[k].link !in s.partitions
  }

  /** `deliver_next`: `None` for an idle network, otherwise whether the send worked. */
  ghost function DeliverNextFn(s: Net): (Net, Option<bool>) {
    if Deliverable(s) == {} then (s, None)
    else
      var key := Least(Deliverable(s));
      var r := Resolve(s.(now := Max(s.now, key.due)), key);
      (r.0, Some(r.1))
  }

  /** The effects of the rule for this occurrence on the link, if there is one. */
  function EffectsFor(rules: seq<FaultRule>, link: Link, occurrence: nat): seq<FaultEffect> {
    if rules == [] then []
    else if rules[0].link == link && rules[0].occurrence == occurrence then rules[0].effects
    else EffectsFor(rules[1..], link, occurrence)
  }

  datatype Plan = Plan(due: nat, copies: nat, drop: bool)

  function WithEffect(plan: Plan, e: FaultEffect): Plan {
    match e
    case Delay(ticks) => plan.(due := SatAdd(plan.due, ticks))
    case Drop => plan.(drop := true)
    case Duplicate(copies) => plan.(copies := Max(copies, 1))
    case Reorder(extraTicks) => plan.(due := SatAdd(plan.due, extraTicks))
  }

  function WithEffects(plan: Plan, effects: seq<FaultEffect>): Plan
    decreases |effects|
  {
    if effects == [] then plan else WithEffects(WithEffect(plan, effects[0]), effects[1..])
  }

  function CopyKey(due: nat, packet: nat, copy: nat): Key {
    Key(due, packet * U16_MAX + copy, packet, copy)
  }

  ghost function AddCopies(s: Net, due: nat, id: nat, p: Packet, copy: nat, copies: nat): Net
    decreases copies - copy
  {
    if copy >= copies then s
    else
      var key := CopyKey(due, id, copy);
      AddCopies(Record(s.(queue := s.queue[key := p]), Scheduled(key, p)), due, id, p, copy + 1, copies)
  }

  function Occurrence(s: Net, link: Link): nat {
    if link in s.occurrences then s.occurrences[link] else 0
  }

  /** `enqueue`: refused (unchanged) when the sender is stale or the target is gone. */
  ghost function SendFn(rules: seq<FaultRule>, s: Net, source: NodeId, generation: nat, target: NodeId,
                        frame: Frame): (Net, bool) {
    if source !in s.peers || s.peers[source].generation != generation || target !in s.peers then (s, false)
    else
      var link := Link(source, target);
      var p := Packet(link, generation, s.peers[target].generation, frame);
      var plan := WithEffects(Plan(s.now, 1, link in s.partitions),
                              EffectsFor(rules, link, Occurrence(s, link)));
      var s' := s.(occurrences := s.occurrences[link := Occurrence(s, link) + 1],
                   nextPacket := s.nextPacket + 1);
      if plan.drop then (Record(s', DroppedPacket(s.nextPacket, link)), true)
      else (AddCopies(s', plan.due, s.nextPacket, p, 0, plan.copies), true)
  }

  ghost function AddNodeFn(s: Net, node: NodeId): Net {
    var again := node in s.generations;
    var generation := if again then s.generations[node] + 1 else 0;
    var s' := Register(s, node, generation);
    if again then Record(s', Reconnected(node, generation)) else s'
  }

  /** The node gets a fresh, empty channel under the new generation. */
  ghost function Register(s: Net, node: NodeId, generation: nat): Net {
    s.(generations := s.generations[node := generation],
       peers := s.peers[node := Peer(generation, [], true)])
  }

  /** A backend's `close`: only the current registration disconnects the node. */
  ghost function CloseFn(s: Net, node: NodeId, generation: nat): Net {
    if node in s.peers && s.peers[node].generation == generation then s.(peers := s.peers - {node}) else s
  }

  ghost function PartitionFn(s: Net, link: Link): Net {
    if link in s.partitions then s else Record(s.(partitions := s.partitions + {link}), Partitioned(link))
  }

  ghost function HealFn(s: Net, link: Link): Net {
    if link in s.partitions then Record(s.(partitions := s.partitions - {link}), Healed(link)) else s
  }

  // ---------------------------------------------------------------------- runs

  /** `Read` and `Hangup` are the receiving application: it takes a frame from its
      channel, or drops the channel. */
  datatype Op =
    | AddNode(node: NodeId)
    | Close(node: NodeId, generation: nat)
    | Partition(link: Link)
    | Heal(link: Link)
    | Send(source: NodeId, generation: nat, target: NodeId, frame: Frame)
    | Advance(ticks: nat)
    | DeliverNext
    | Read(node: NodeId)
    | Hangup(node: NodeId)

  ghost function Apply(rules: seq<FaultRule>, s: Net, op: Op): Net {
    match op
    case AddNode(node) => AddNodeFn(s, node)
    case Close(node, generation) => CloseFn(s, node, generation)
    case Partition(link) => PartitionFn(s, link)
    case Heal(link) => HealFn(s, link)
    case Send(source, generation, target, frame) => SendFn(rules, s, source, generation, target, frame).0
    case Advance(ticks) => AdvanceFn(s, ticks).0
    case DeliverNext => DeliverNextFn(s).0
    case Read(node) =>
      if node in s.peers && s.peers[node].inbox != [] then
        s.(peers := s.peers[node := s.peers[node].(inbox := s.peers[node].inbox[1..])])
      else s
    case Hangup(node) =>
      if node in s.peers then s.(peers := s.peers[node := s.peers[node].(open := false)]) else s
  }

  ghost function Run(rules: seq<FaultRule>, s: Net, ops: seq<Op>): Net
    decreases |ops|
  {
    if ops == [] then s else Run(rules, Apply(rules, s, ops[0]), ops[1..])
  }

  // ----------------------------------------------------------------- invariant

  /** Events that say where copy `k` came from, or what became of it. */
  ghost function Births(events: seq<EventRecord>, k: Key): nat {
    if events == [] then 0
    else
      var e := events[|events| - 1].event;
      Births(events[..|events| - 1], k) + if e.Scheduled? && e.key == k then 1 else 0
  }

  predicate Resolves(e: Event, k: Key) {
    (e.Delivered? || e.DroppedCopy? || e.StaleGeneration?) && e.key == k
  }

  ghost function Ends(events: seq<EventRecord>, k: Key): nat {
    if events == [] then 0
    else Ends(events[..|events| - 1], k) + if Resolves(events[|events| - 1].event, k) then 1 else 0
  }

  /** Every scheduled copy is in exactly one place: queued, resolved by exactly one
      delivered/dropped/stale event, or failed on its channel. */
  ghost predicate Accounted(s: Net) {
    forall k ::
      && Births(s.events, k) <= 1
      && Births(s.events, k) == (if k in s.queue then 1 else 0) + Ends(s.events, k) + (if k in s.failed then 1 else 0)
  }

  ghost predicate WasScheduled(events: seq<EventRecord>, k: Key, p: Packet) {
    exists i :: 0 <= i < |events| && events[i].event == Scheduled(k, p)
  }

  /** What is queued or delivered under a key is what was scheduled under it. */
  ghost predicate Traced(s: Net) {
    && (forall k | k in s.queue :: WasScheduled(s.events, k, s.queue[k]))
    && (forall i | 0 <= i < |s.events| && s.events[i].event.Delivered? ::
          WasScheduled(s.events, s.events[i].event.key, s.events[i].event.packet))
  }

  ghost predicate KeysFormed(s: Net) {
    forall i | 0 <= i < |s.events| && s.events[i].event.Scheduled? ::
      var k := s.events[i].event.key;
      k.packet < s.nextPacket && k.copy < U16_MAX && k.due <= U64_MAX && k == CopyKey(k.due, k.packet, k.copy)
  }

  /** Nothing is delivered before its due time, and the log's clock never runs ahead. */
  ghost predicate OnTime(s: Net) {
    s.now <= U64_MAX &&
    forall i | 0 <= i < |s.events| ::
      && s.events[i].time <= s.now
      && (s.events[i].event.Delivered? ==> s.events[i].event.key.due <= s.events[i].time)
  }

  /** On each link, deliveries follow queue-key order, and what is still queued comes later. */
  ghost predicate LinkOrdered(s: Net) {
    && (forall i, j | 0 <= i < j < |s.events| && s.events[i].event.Delivered? && s.events[j].event.Delivered?
                      && s.events[i].event.packet.link == s.events[j].event.packet.link ::
          Less(s.events[i].event.key, s.events[j].event.key))
    && (forall i, k | 0 <= i < |s.events| && s.events[i].event.Delivered? && k in s.queue
                      && s.events[i].event.packet.link == s.queue[k].link ::
          Less(s.events[i].event.key, k))
  }

  ghost predicate Inv(s: Net) {
    Accounted(s) && Traced(s) && KeysFormed(s) && OnTime(s) && LinkOrdered(s)
  }

  // ----------------------------------------------------- steps keep the invariant

  lemma EventsAppend(events: seq<EventRecord>, e: EventRecord, k: Key)
    ensures Births(events + [e], k) == Births(events, k) + (if e.event.Scheduled? && e.event.key == k then 1 else 0)
    ensures Ends(events + [e], k) == Ends(events, k) + (if Resolves(e.event, k) then 1 else 0)
  {
    assert (events + [e])[..|events + [e]| - 1] == events;
  }

  lemma {:induction false} ScheduledIsBirth(events: seq<EventRecord>, k: Key, p: Packet)
    requires WasScheduled(events, k, p)
    ensures Births(events, k) >= 1
    decreases |events|
  {
    var i :| 0 <= i < |events| && events[i].event == Scheduled(k, p);
    if i < |events| - 1 {
      var prefix := events[..|events| - 1];
      assert prefix[i].event == Scheduled(k, p);
      ScheduledIsBirth(prefix, k, p);
    }
  }

  lemma {:induction false} BirthIsScheduled(events: seq<EventRecord>, k: Key)
    requires Births(events, k) >= 1
    ensures exists i :: 0 <= i < |events| && events[i].event.Scheduled? && events[i].event.key == k
    decreases |events|
  {
    var last := events[|events| - 1].event;
    if !(last.Scheduled? && last.key == k) {
      BirthIsScheduled(events[..|events| - 1], k);
      var i :| 0 <= i < |events| - 1 && events[..|events| - 1][i].event.Scheduled?
               && events[..|events| - 1][i].event.key == k;
      assert events[i].event.Scheduled? && events[i].event.key == k;
    }
  }

  lemma ScheduledGrows(events: seq<EventRecord>, e: EventRecord, k: Key, p: Packet)
    requires WasScheduled(events, k, p)
    ensures WasScheduled(events + [e], k, p)
  {
    var i :| 0 <= i < |events| && events[i].event == Scheduled(k, p);
    assert (events + [e])[i].event == Scheduled(k, p);
  }

  lemma ScheduledFormed(s: Net, k: Key, p: Packet)
    requires KeysFormed(s) && WasScheduled(s.events, k, p)
    ensures k.packet < s.nextPacket && k.copy < U16_MAX && k.due <= U64_MAX && k == CopyKey(k.due, k.packet, k.copy)
  {
    var i :| 0 <= i < |s.events| && s.events[i].event == Scheduled(k, p);
  }

  /** No other queued copy on the same link comes before `key`. */
  ghost predicate FirstOnLink(s: Net, key: Key)
    requires key in s.queue
  {
    forall k | k in s.queue && k != key && s.queue[k].link == s.queue[key].link :: Less(key, k)
  }

  /** One queued copy leaves the queue with one event. */
  ghost predicate Leaves(s: Net, s': Net, key: Key, e: EventRecord) {
    && key in s.queue
    && s'.queue == s.queue - {key} && s'.failed == s.failed && s'.events == s.events + [e]
    && s'.now == s.now == e.time && s'.nextPacket == s.nextPacket
    && Resolves(e.event, key) && e.event.packet == s.queue[key]
  }

  lemma LeavesAccounted(s: Net, s': Net, key: Key, e: EventRecord)
    requires Leaves(s, s', key, e) && Accounted(s)
    ensures Accounted(s')
  {
    forall k
      ensures Births(s'.events, k) <= 1
      ensures Births(s'.events, k) ==
              (if k in s'.queue then 1 else 0) + Ends(s'.events, k) + (if k in s'.failed then 1 else 0)
    {
      EventsAppend(s.events, e, k);
    }
  }

  lemma LeavesTraced(s: Net, s': Net, key: Key, e: EventRecord)
    requires Leaves(s, s', key, e) && Traced(s)
    ensures Traced(s')
  {
    forall k | k in s'.queue
      ensures WasScheduled(s'.events, k, s'.queue[k])
    {
      ScheduledGrows(s.events, e, k, s.queue[k]);
    }
    forall i | 0 <= i < |s'.events| && s'.events[i].event.Delivered?
      ensures WasScheduled(s'.events, s'.events[i].event.key, s'.events[i].event.packet)
    {
      ScheduledGrows(s.events, e, s'.events[i].event.key, s'.events[i].event.packet);
    }
  }

  lemma LeavesOrdered(s: Net, s': Net, key: Key, e: EventRecord)
    requires Leaves(s, s', key, e) && LinkOrdered(s) && FirstOnLink(s, key)
    ensures LinkOrdered(s')
  {
  }

  lemma LeavesKeepsInv(s: Net, s': Net, key: Key, e: EventRecord)
    requires Leaves(s, s', key, e) && Inv(s) && FirstOnLink(s, key) && key.due <= s.now
    ensures Inv(s')
  {
    LeavesAccounted(s, s', key, e);
    LeavesTraced(s, s', key, e);
    LeavesOrdered(s, s', key, e);
  }

  lemma FailureKeepsInv(s: Net, s': Net, key: Key)
    requires Inv(s) && key in s.queue
    requires s' == s.(queue := s.queue - {key}, failed := s.failed + {key})
    ensures Inv(s')
  {
    assert Accounted(s');
    assert Traced(s');
  }

  /** A change that does not touch queue, failures, clock or log. */
  ghost predicate Unrelated(s: Net, s': Net) {
    && s'.queue == s.queue && s'.failed == s.failed && s'.now == s.now
    && s'.nextPacket == s.nextPacket && s'.events == s.events
  }

  lemma UnrelatedKeepsInv(s: Net, s': Net)
    requires Inv(s) && Unrelated(s, s')
    ensures Inv(s')
  {
    assert Accounted(s');
    assert Traced(s');
  }

  /** An event that is not about a copy. */
  predicate Note(e: Event) {
    e.DroppedPacket? || e.Partitioned? || e.Healed? || e.Reconnected?
  }

  lemma NoteCountsNothing(events: seq<EventRecord>, r: EventRecord, k: Key)
    requires Note(r.event)
    ensures Births(events + [r], k) == Births(events, k) && Ends(events + [r], k) == Ends(events, k)
  {
    EventsAppend(events, r, k);
  }

  lemma NoteAccounted(s: Net, e: Event)
    requires Accounted(s) && Note(e)
    ensures Accounted(Record(s, e))
  {
    var s' := Record(s, e);
    forall k
      ensures Births(s'.events, k) == Births(s.events, k) && Ends(s'.events, k) == Ends(s.events, k)
    {
      NoteCountsNothing(s.events, EventRecord(s.now, e), k);
    }
  }

  lemma NoteTraced(s: Net, e: Event)
    requires Traced(s) && Note(e)
    ensures Traced(Record(s, e))
  {
    var s' := Record(s, e);
    forall k | k in s'.queue
      ensures WasScheduled(s'.events, k, s'.queue[k])
    {
      ScheduledGrows(s.events, EventRecord(s.now, e), k, s.queue[k]);
    }
    forall i | 0 <= i < |s'.events| && s'.events[i].event.Delivered?
      ensures WasScheduled(s'.events, s'.events[i].event.key, s'.events[i].event.packet)
    {
      ScheduledGrows(s.events, EventRecord(s.now, e), s'.events[i].event.key, s'.events[i].event.packet);
    }
  }

  lemma NoteOrdered(s: Net, e: Event)
    requires LinkOrdered(s) && Note(e)
    ensures LinkOrdered(Record(s, e))
  {
  }

  lemma NoteKeepsInv(s: Net, e: Event)
    requires Inv(s) && Note(e)
    ensures Inv(Record(s, e))
  {
    NoteAccounted(s, e);
    NoteTraced(s, e);
    NoteOrdered(s, e);
  }

  lemma ResolveKeepsInv(s: Net, key: Key)
    requires Inv(s) && key in s.queue && FirstOnLink(s, key) && key.due <= s.now
    ensures Inv(Resolve(s, key).0)
  {
    var p := s.queue[key];
    var s' := Resolve(s, key).0;
    if p.link in s.partitions {
    } else if !Resolve(s, key).1 {
      FailureKeepsInv(s, s', key);
    } else {
      LeavesKeepsInv(s, s', key, s'.events[|s.events|]);
    }
  }

  /** Draining collected keys: whatever precedes the rest of them is blocked. */
  ghost predicate Draining(s: Net, keys: seq<Key>) {
    && Increasing(keys)
    && (forall i | 0 <= i < |keys| :: keys[i] in s.queue && keys[i].due <= s.now)
    && (forall k, i | k in s.queue && 0 <= i < |keys| && Less(k, keys[i]) ::
          k in keys || s.queue[k].link in s.partitions)
  }

  lemma DrainingFirst(s: Net, keys: seq<Key>)
    requires Draining(s, keys) && keys != []
    requires s.queue[keys[0]].link !in s.partitions
    ensures FirstOnLink(s, keys[0])
  {
    forall k | k in s.queue && k != keys[0] && s.queue[k].link == s.queue[keys[0]].link
      ensures Less(keys[0], k)
    {
      LessIsStrictOrder(k, keys[0], k);
    }
  }

  lemma DrainingNext(s: Net, keys: seq<Key>)
    requires Draining(s, keys) && keys != []
    ensures Draining(Resolve(s, keys[0]).0, keys[1..])
  {
    var s' := Resolve(s, keys[0]).0;
    var rest := keys[1..];
    forall i | 0 <= i < |rest|
      ensures rest[i] in s'.queue && rest[i].due <= s'.now
    {
      LessIsStrictOrder(keys[0], keys[i + 1], keys[0]);
    }
    forall k, i | k in s'.queue && 0 <= i < |rest| && Less(k, rest[i])
      ensures k in rest || s'.queue[k].link in s'.partitions
    {
      assert Less(k, keys[i + 1]);
    }
  }

  /** What a step may deliver: only copies on links that are not partitioned, whose
      endpoints still have the generations the copy was sent under, and only when due. */
  ghost predicate LegalDeliveries(s: Net, s': Net) {
    && |s.events| <= |s'.events|
    && s'.events[..|s.events|] == s.events
    && s.now <= s'.now
    && forall i | |s.events| <= i < |s'.events| && s'.events[i].event.Delivered? ::
         && s'.events[i].event.packet.link !in s.partitions
         && EndpointsCurrent(s, s'.events[i].event.packet)
         && s'.events[i].event.key.due <= s'.now
  }

  ghost predicate SameRegistrations(s: Net, s': Net) {
    && s'.partitions == s.partitions
    && s'.peers.Keys == s.peers.Keys
    && forall n | n in s.peers :: s'.peers[n].generation == s.peers[n].generation
  }

  lemma ResolveLegal(s: Net, key: Key)
    requires key in s.queue && key.due <= s.now
    ensures var s' := Resolve(s, key).0; LegalDeliveries(s, s') && SameRegistrations(s, s') && s'.now == s.now
  {
  }

  lemma LegalTransitive(a: Net, b: Net, c: Net)
    requires LegalDeliveries(a, b) && SameRegistrations(a, b) && b.now == a.now
    requires LegalDeliveries(b, c)
    ensures LegalDeliveries(a, c)
  {
    assert c.events[..|a.events|] == c.events[..|b.events|][..|a.events|] == a.events;
    forall i | |a.events| <= i < |c.events| && c.events[i].event.Delivered?
      ensures && c.events[i].event.packet.link !in a.partitions
              && EndpointsCurrent(a, c.events[i].event.packet)
              && c.events[i].event.key.due <= c.now
    {
      if i < |b.events| { assert c.events[i] == c.events[..|b.events|][i] == b.events[i]; }
    }
  }

  lemma {:induction false} ResolveAllKeepsInv(s: Net, keys: seq<Key>)
    requires Inv(s) && Draining(s, keys)
    ensures Inv(ResolveAll(s, keys).0) && LegalDeliveries(s, ResolveAll(s, keys).0)
    decreases |keys|
  {
    if keys != [] {
      var r := Resolve(s, keys[0]);
      assert Inv(r.0) by {
        if s.queue[keys[0]].link !in s.partitions {
          DrainingFirst(s, keys);
          ResolveKeepsInv(s, keys[0]);
        }
      }
      ResolveLegal(s, keys[0]);
      if r.1 {
        DrainingNext(s, keys);
        ResolveAllKeepsInv(r.0, keys[1..]);
        LegalTransitive(s, r.0, ResolveAll(s, keys).0);
      }
    }
  }

  lemma ClockKeepsInv(s: Net, now: nat)
    requires Inv(s) && s.now <= now <= U64_MAX
    ensures Inv(s.(now := now))
  {
    assert Accounted(s.(now := now));
    assert Traced(s.(now := now));
  }

  lemma AdvanceKeepsInv(s: Net, ticks: nat)
    requires Inv(s)
    ensures Inv(AdvanceFn(s, ticks).0) && LegalDeliveries(s, AdvanceFn(s, ticks).0)
  {
    var s' := s.(now := SatAdd(s.now, ticks));
    ClockKeepsInv(s, s'.now);
    DueKeysDrain(s');
    ResolveAllKeepsInv(s', Ordered(DueKeys(s')));
  }

  lemma DueKeysDrain(s: Net)
    ensures Draining(s, Ordered(DueKeys(s)))
  {
    var keys := Ordered(DueKeys(s));
    OrderedMeaning(DueKeys(s));
    assert forall i | 0 <= i < |keys| :: keys[i] in DueKeys(s);
  }

  lemma DeliverNextKeepsInv(s: Net)
    requires Inv(s)
    ensures Inv(DeliverNextFn(s).0) && LegalDeliveries(s, DeliverNextFn(s).0)
  {
    if Deliverable(s) != {} {
      var key := Least(Deliverable(s));
      var s' := s.(now := Max(s.now, key.due));
      ScheduledFormed(s, key, s.queue[key]);
      ClockKeepsInv(s, s'.now);
      assert FirstOnLink(s', key);
      ResolveKeepsInv(s', key);
      ResolveLegal(s', key);
    }
  }

  // ------------------------------------------------------------------- sending

  /** Copies below `copy` are all that packet `id`, the newest one, has so far. */
  ghost predicate Adding(s: Net, due: nat, id: nat, copy: nat) {
    && s.now <= due <= U64_MAX && id < s.nextPacket
    && (forall i | 0 <= i < |s.events| && s.events[i].event.Scheduled? ::
          var k := s.events[i].event.key; k.packet < id || (k.packet == id && k.copy < copy))
    && (forall i | 0 <= i < |s.events| && s.events[i].event.Delivered? :: s.events[i].event.key.packet < id)
  }

  ghost predicate ScheduledAs(e: Event, due: nat, id: nat, p: Packet) {
    e.Scheduled? && e.key.due == due && e.key.packet == id && e.packet == p
  }

  ghost function AddCopy(s: Net, due: nat, id: nat, p: Packet, copy: nat): Net {
    var key := CopyKey(due, id, copy);
    Record(s.(queue := s.queue[key := p]), Scheduled(key, p))
  }

  lemma AddCopyAccounted(s: Net, due: nat, id: nat, p: Packet, copy: nat)
    requires Accounted(s) && Adding(s, due, id, copy)
    ensures Accounted(AddCopy(s, due, id, p, copy))
  {
    var key := CopyKey(due, id, copy);
    var s' := AddCopy(s, due, id, p, copy);
    assert Births(s.events, key) == 0 by {
      if Births(s.events, key) >= 1 { BirthIsScheduled(s.events, key); }
    }
    forall k
      ensures Births(s'.events, k) <= 1
      ensures Births(s'.events, k) ==
              (if k in s'.queue then 1 else 0) + Ends(s'.events, k) + (if k in s'.failed then 1 else 0)
    {
      EventsAppend(s.events, EventRecord(s.now, Scheduled(key, p)), k);
    }
  }

  lemma AddCopyTraced(s: Net, due: nat, id: nat, p: Packet, copy: nat)
    requires Traced(s)
    ensures Traced(AddCopy(s, due, id, p, copy))
  {
    var key := CopyKey(due, id, copy);
    var s' := AddCopy(s, due, id, p, copy);
    var r := EventRecord(s.now, Scheduled(key, p));
    assert s'.events[|s.events|].event == Scheduled(key, p);
    forall k | k in s'.queue
      ensures WasScheduled(s'.events, k, s'.queue[k])
    {
      if k != key { ScheduledGrows(s.events, r, k, s.queue[k]); }
    }
    forall i | 0 <= i < |s'.events| && s'.events[i].event.Delivered?
      ensures WasScheduled(s'.events, s'.events[i].event.key, s'.events[i].event.packet)
    {
      ScheduledGrows(s.events, r, s'.events[i].event.key, s'.events[i].event.packet);
    }
  }

  /** A new copy is due no earlier and numbered later than anything delivered. */
  lemma AddCopyOrdered(s: Net, due: nat, id: nat, p: Packet, copy: nat)
    requires Inv(s) && Adding(s, due, id, copy)
    ensures LinkOrdered(AddCopy(s, due, id, p, copy))
  {
    var key := CopyKey(due, id, copy);
    forall i | 0 <= i < |s.events| && s.events[i].event.Delivered?
      ensures Less(s.events[i].event.key, key)
    {
      ScheduledFormed(s, s.events[i].event.key, s.events[i].event.packet);
    }
  }

  lemma AddCopyKeepsInv(s: Net, due: nat, id: nat, p: Packet, copy: nat)
    requires Inv(s) && Adding(s, due, id, copy) && copy < U16_MAX
    ensures Inv(AddCopy(s, due, id, p, copy)) && Adding(AddCopy(s, due, id, p, copy), due, id, copy + 1)
  {
    AddCopyAccounted(s, due, id, p, copy);
    AddCopyTraced(s, due, id, p, copy);
    AddCopyOrdered(s, due, id, p, copy);
  }

  lemma {:induction false} AddCopiesKeepsInv(s: Net, due: nat, id: nat, p: Packet, copy: nat, copies: nat)
    requires Inv(s) && Adding(s, due, id, copy) && copies <= U16_MAX
    ensures var s' := AddCopies(s, due, id, p, copy, copies);
            && Inv(s')
            && |s.events| <= |s'.events| && s'.events[..|s.events|] == s.events
            && (forall i | |s.events| <= i < |s'.events| :: ScheduledAs(s'.events[i].event, due, id, p))
            && s'.now == s.now
    decreases copies - copy
  {
    if copy < copies {
      AddCopyKeepsInv(s, due, id, p, copy);
      var s1 := AddCopy(s, due, id, p, copy);
      AddCopiesKeepsInv(s1, due, id, p, copy + 1, copies);
      var s' := AddCopies(s, due, id, p, copy, copies);
      CopiesExtend(s.events, s1.events, s'.events, due, id, p);
    }
  }

  lemma CopiesExtend(a: seq<EventRecord>, b: seq<EventRecord>, c: seq<EventRecord>, due: nat, id: nat, p: Packet)
    requires |b| == |a| + 1 && b[..|a|] == a && ScheduledAs(b[|a|].event, due, id, p)
    requires |b| <= |c| && c[..|b|] == b && forall i | |b| <= i < |c| :: ScheduledAs(c[i].event, due, id, p)
    ensures c[..|a|] == a && forall i | |a| <= i < |c| :: ScheduledAs(c[i].event, due, id, p)
  {
    assert c[..|a|] == c[..|b|][..|a|];
    assert c[|a|] == c[..|b|][|a|];
  }

  /** Rule effects fit their machine types. */
  ghost predicate ValidRules(rules: seq<FaultRule>) {
    forall i, j | 0 <= i < |rules| && 0 <= j < |rules[i].effects| ::
      rules[i].effects[j].Duplicate? ==> rules[i].effects[j].copies <= U16_MAX
  }

  ghost predicate ValidEffects(effects: seq<FaultEffect>) {
    forall j | 0 <= j < |effects| :: effects[j].Duplicate? ==> effects[j].copies <= U16_MAX
  }

  lemma {:induction false} EffectsForValid(rules: seq<FaultRule>, link: Link, occurrence: nat)
    requires ValidRules(rules)
    ensures ValidEffects(EffectsFor(rules, link, occurrence))
  {
    if rules != [] { EffectsForValid(rules[1..], link, occurrence); }
  }

  lemma {:induction false} PlanBounds(plan: Plan, effects: seq<FaultEffect>)
    requires ValidEffects(effects) && 1 <= plan.copies <= U16_MAX && plan.due <= U64_MAX
    ensures var r := WithEffects(plan, effects); 1 <= r.copies <= U16_MAX && plan.due <= r.due <= U64_MAX
    decreases |effects|
  {
    if effects != [] { PlanBounds(WithEffect(plan, effects[0]), effects[1..]); }
  }

  lemma NumberingKeepsInv(s: Net, occurrences: map<Link, nat>)
    requires Inv(s)
    ensures var s' := s.(occurrences := occurrences, nextPacket := s.nextPacket + 1);
            Inv(s') && Adding(s', s.now, s.nextPacket, 0)
  {
    var s' := s.(occurrences := occurrences, nextPacket := s.nextPacket + 1);
    assert Accounted(s') && Traced(s');
    forall i | 0 <= i < |s.events| && s.events[i].event.Delivered?
      ensures s.events[i].event.key.packet < s.nextPacket
    {
      ScheduledFormed(s, s.events[i].event.key, s.events[i].event.packet);
    }
  }

  lemma SendKeepsInv(rules: seq<FaultRule>, s: Net, source: NodeId, generation: nat, target: NodeId, frame: Frame)
    requires ValidRules(rules) && Inv(s)
    ensures var s' := SendFn(rules, s, source, generation, target, frame).0;
            Inv(s') && LegalDeliveries(s, s')
  {
    if SendFn(rules, s, source, generation, target, frame).1 {
      var link := Link(source, target);
      var p := Packet(link, generation, s.peers[target].generation, frame);
      var effects := EffectsFor(rules, link, Occurrence(s, link));
      var plan := WithEffects(Plan(s.now, 1, link in s.partitions), effects);
      EffectsForValid(rules, link, Occurrence(s, link));
      PlanBounds(Plan(s.now, 1, link in s.partitions), effects);
      var occurrences := s.occurrences[link := Occurrence(s, link) + 1];
      if plan.drop {
        DroppedSendKeepsInv(s, occurrences, link);
      } else {
        CopiedSendKeepsInv(s, occurrences, plan.due, p, plan.copies);
      }
    }
  }

  lemma DroppedSendKeepsInv(s: Net, occurrences: map<Link, nat>, link: Link)
    requires Inv(s)
    ensures var s' := Record(s.(occurrences := occurrences, nextPacket := s.nextPacket + 1),
                             DroppedPacket(s.nextPacket, link));
            Inv(s') && LegalDeliveries(s, s')
  {
    NumberingKeepsInv(s, occurrences);
    NoteKeepsInv(s.(occurrences := occurrences, nextPacket := s.nextPacket + 1), DroppedPacket(s.nextPacket, link));
  }

  lemma CopiedSendKeepsInv(s: Net, occurrences: map<Link, nat>, due: nat, p: Packet, copies: nat)
    requires Inv(s) && s.now <= due <= U64_MAX && copies <= U16_MAX
    ensures var s' := AddCopies(s.(occurrences := occurrences, nextPacket := s.nextPacket + 1), due,
                                s.nextPacket, p, 0, copies);
            Inv(s') && LegalDeliveries(s, s')
  {
    var s1 := s.(occurrences := occurrences, nextPacket := s.nextPacket + 1);
    NumberingKeepsInv(s, occurrences);
    AddCopiesKeepsInv(s1, due, s.nextPacket, p, 0, copies);
    SchedulingIsLegal(s, AddCopies(s1, due, s.nextPacket, p, 0, copies), due, s.nextPacket, p);
  }

  lemma SchedulingIsLegal(s: Net, s': Net, due: nat, id: nat, p: Packet)
    requires |s.events| <= |s'.events| && s'.events[..|s.events|] == s.events && s'.now == s.now
    requires forall i | |s.events| <= i < |s'.events| :: ScheduledAs(s'.events[i].event, due, id, p)
    ensures LegalDeliveries(s, s')
  {
  }

  // ------------------------------------------------------------------ theorems

  /** A change beside the queue, followed by an event that is not about a copy. */
  lemma NotedKeepsInv(s: Net, s1: Net, e: Event)
    requires Inv(s) && Unrelated(s, s1) && Note(e)
    ensures Inv(Record(s1, e)) && LegalDeliveries(s, Record(s1, e))
  {
    UnrelatedKeepsInv(s, s1);
    NoteKeepsInv(s1, e);
    NotedLegal(s, s1, e);
  }

  lemma UnrelatedLegal(s: Net, s': Net)
    requires Unrelated(s, s')
    ensures LegalDeliveries(s, s')
  {
  }

  lemma NotedLegal(s: Net, s1: Net, e: Event)
    requires Unrelated(s, s1) && Note(e)
    ensures LegalDeliveries(s, Record(s1, e))
  {
  }

  lemma JoinKeepsInv(s: Net, node: NodeId, generation: nat)
    requires Inv(s)
    ensures Inv(Register(s, node, generation)) && LegalDeliveries(s, Register(s, node, generation))
  {
    UnrelatedKeepsInv(s, Register(s, node, generation));
    UnrelatedLegal(s, Register(s, node, generation));
  }

  lemma RejoinKeepsInv(s: Net, node: NodeId, generation: nat)
    requires Inv(s)
    ensures var s' := Record(Register(s, node, generation), Reconnected(node, generation));
            Inv(s') && LegalDeliveries(s, s')
  {
    NotedKeepsInv(s, Register(s, node, generation), Reconnected(node, generation));
  }

  lemma AddNodeKeepsInv(s: Net, node: NodeId)
    requires Inv(s)
    ensures Inv(AddNodeFn(s, node)) && LegalDeliveries(s, AddNodeFn(s, node))
  {
    var generation := if node in s.generations then s.generations[node] + 1 else 0;
    JoinKeepsInv(s, node, generation);
    RejoinKeepsInv(s, node, generation);
    assert AddNodeFn(s, node) == Register(s, node, generation)
        || AddNodeFn(s, node) == Record(Register(s, node, generation), Reconnected(node, generation));
  }

  lemma PartitionKeepsInv(s: Net, link: Link)
    requires Inv(s)
    ensures Inv(PartitionFn(s, link)) && LegalDeliveries(s, PartitionFn(s, link))
  {
    if link !in s.partitions {
      NotedKeepsInv(s, s.(partitions := s.partitions + {link}), Partitioned(link));
    }
  }

  lemma HealKeepsInv(s: Net, link: Link)
    requires Inv(s)
    ensures Inv(HealFn(s, link)) && LegalDeliveries(s, HealFn(s, link))
  {
    if link in s.partitions {
      NotedKeepsInv(s, s.(partitions := s.partitions - {link}), Healed(link));
    }
  }

  lemma ApplyKeepsInv(rules: seq<FaultRule>, s: Net, op: Op)
    requires ValidRules(rules) && Inv(s)
    ensures Inv(Apply(rules, s, op)) && LegalDeliveries(s, Apply(rules, s, op))
  {
    match op
    case AddNode(node) => AddNodeKeepsInv(s, node);
    case Partition(link) => PartitionKeepsInv(s, link);
    case Heal(link) => HealKeepsInv(s, link);
    case Send(source, generation, target, frame) => SendKeepsInv(rules, s, source, generation, target, frame);
    case Advance(ticks) => AdvanceKeepsInv(s, ticks);
    case DeliverNext => DeliverNextKeepsInv(s);
    case Close(_, _) => QuietKeepsInv(rules, s, op);
    case Read(_) => QuietKeepsInv(rules, s, op);
    case Hangup(_) => QuietKeepsInv(rules, s, op);
  }

  lemma QuietKeepsInv(rules: seq<FaultRule>, s: Net, op: Op)
    requires Inv(s) && (op.Close? || op.Read? || op.Hangup?)
    ensures Inv(Apply(rules, s, op)) && LegalDeliveries(s, Apply(rules, s, op))
  {
    UnrelatedKeepsInv(s, Apply(rules, s, op));
    UnrelatedLegal(s, Apply(rules, s, op));
  }

  lemma {:induction false} RunKeepsInv(rules: seq<FaultRule>, s: Net, ops: seq<Op>)
    requires ValidRules(rules) && Inv(s)
    ensures Inv(Run(rules, s, ops))
    decreases |ops|
  {
    if ops != [] {
      ApplyKeepsInv(rules, s, ops[0]);
      RunKeepsInv(rules, Apply(rules, s, ops[0]), ops[1..]);
    }
  }

  /** In every run of the simulated network: every scheduled copy has exactly one
      fate, nothing is delivered early, deliveries on a link follow queue-key order,
      and every further step delivers only across unpartitioned links between
      endpoints of the generations the copy was sent under. */
  lemma EveryRunIsSafe(rules: seq<FaultRule>, ops: seq<Op>, next: Op)
    requires ValidRules(rules)
    ensures var s := Run(rules, EMPTY_NET, ops);
            && Accounted(s) && Traced(s) && OnTime(s) && LinkOrdered(s)
            && LegalDeliveries(s, Apply(rules, s, next))
  {
    assert Inv(EMPTY_NET);
    RunKeepsInv(rules, EMPTY_NET, ops);
    ApplyKeepsInv(rules, Run(rules, EMPTY_NET, ops), next);
  }

  // ------------------------------------------------------- links without delays

  /** No rule delays or reorders anything on the link. */
  ghost predicate Undelayed(rules: seq<FaultRule>, link: Link) {
    forall i, j | 0 <= i < |rules| && rules[i].link == link && 0 <= j < |rules[i].effects| ::
      !rules[i].effects[j].Delay? && !rules[i].effects[j].Reorder?
  }

  /** On the link, later packets are due no earlier, and everything is already due. */
  ghost predicate SendOrdered(s: Net, link: Link) {
    && (forall i | ScheduledOn(s, i, link) :: s.events[i].event.key.due <= s.now)
    && (forall i, j | ScheduledOn(s, i, link) && ScheduledOn(s, j, link)
                      && s.events[i].event.key.packet <= s.events[j].event.key.packet ::
          s.events[i].event.key.due <= s.events[j].event.key.due)
  }

  ghost predicate ScheduledOn(s: Net, i: int, link: Link) {
    0 <= i < |s.events| && s.events[i].event.Scheduled? && s.events[i].event.packet.link == link
  }

  /** The log only grows, and nothing new is scheduled on the link. */
  ghost predicate NothingScheduled(s: Net, s': Net, link: Link) {
    && |s.events| <= |s'.events| && s'.events[..|s.events|] == s.events && s.now <= s'.now
    && forall i | |s.events| <= i < |s'.events| :: !ScheduledOn(s', i, link)
  }

  lemma NothingScheduledKeepsOrder(s: Net, s': Net, link: Link)
    requires SendOrdered(s, link) && NothingScheduled(s, s', link)
    ensures SendOrdered(s', link)
  {
    forall i | ScheduledOn(s', i, link)
      ensures ScheduledOn(s, i, link) && s'.events[i] == s.events[i]
    {
      assert i < |s.events|;
      assert s'.events[i] == s'.events[..|s.events|][i];
    }
  }

  lemma {:induction false} ResolveAllSchedulesNothing(s: Net, keys: seq<Key>, link: Link)
    ensures NothingScheduled(s, ResolveAll(s, keys).0, link)
    decreases |keys|
  {
    if keys != [] && keys[0] in s.queue {
      var s1 := Resolve(s, keys[0]).0;
      assert NothingScheduled(s, s1, link);
      if Resolve(s, keys[0]).1 {
        ResolveAllSchedulesNothing(s1, keys[1..], link);
        var s' := ResolveAll(s, keys).0;
        assert s'.events[..|s.events|] == s'.events[..|s1.events|][..|s.events|];
        assert forall i | |s.events| <= i < |s1.events| :: s'.events[i] == s'.events[..|s1.events|][i];
      }
    }
  }

  lemma {:induction false} UndelayedPlan(rules: seq<FaultRule>, link: Link, occurrence: nat)
    requires Undelayed(rules, link)
    ensures forall j | 0 <= j < |EffectsFor(rules, link, occurrence)| ::
              !EffectsFor(rules, link, occurrence)[j].Delay? && !EffectsFor(rules, link, occurrence)[j].Reorder?
  {
    if rules != [] { UndelayedPlan(rules[1..], link, occurrence); }
  }

  lemma {:induction false} PlanDue(plan: Plan, effects: seq<FaultEffect>)
    requires forall j | 0 <= j < |effects| :: !effects[j].Delay? && !effects[j].Reorder?
    ensures WithEffects(plan, effects).due == plan.due
    decreases |effects|
  {
    if effects != [] { PlanDue(WithEffect(plan, effects[0]), effects[1..]); }
  }

  /** Scheduling packet `id`, the newest, with the current time as due time. */
  lemma NewestKeepsOrder(s: Net, s': Net, link: Link, id: nat, p: Packet)
    requires SendOrdered(s, link) && KeysFormed(s) && s.nextPacket == id
    requires |s.events| <= |s'.events| && s'.events[..|s.events|] == s.events && s'.now == s.now
    requires forall i | |s.events| <= i < |s'.events| :: ScheduledAs(s'.events[i].event, s.now, id, p)
    ensures SendOrdered(s', link)
  {
    forall i | ScheduledOn(s', i, link)
      ensures i < |s.events| ==> s'.events[i] == s.events[i] && ScheduledOn(s, i, link)
      ensures i >= |s.events| ==> s'.events[i].event.key.due == s.now && s'.events[i].event.key.packet == id
    {
      if i < |s.events| { assert s'.events[i] == s'.events[..|s.events|][i]; }
    }
  }

  lemma SendKeepsOrder(rules: seq<FaultRule>, s: Net, source: NodeId, generation: nat, target: NodeId, frame: Frame,
                       l: Link)
    requires ValidRules(rules) && Inv(s) && SendOrdered(s, l) && Undelayed(rules, l)
    ensures SendOrdered(SendFn(rules, s, source, generation, target, frame).0, l)
  {
    var s' := SendFn(rules, s, source, generation, target, frame).0;
    if SendFn(rules, s, source, generation, target, frame).1 {
      var link := Link(source, target);
      var p := Packet(link, generation, s.peers[target].generation, frame);
      var effects := EffectsFor(rules, link, Occurrence(s, link));
      var plan := WithEffects(Plan(s.now, 1, link in s.partitions), effects);
      var s1 := s.(occurrences := s.occurrences[link := Occurrence(s, link) + 1], nextPacket := s.nextPacket + 1);
      if plan.drop {
        NothingScheduledKeepsOrder(s, s', l);
      } else {
        EffectsForValid(rules, link, Occurrence(s, link));
        PlanBounds(Plan(s.now, 1, link in s.partitions), effects);
        NumberingKeepsInv(s, s1.occurrences);
        AddCopiesKeepsInv(s1, plan.due, s.nextPacket, p, 0, plan.copies);
        if link == l {
          UndelayedPlan(rules, link, Occurrence(s, link));
          PlanDue(Plan(s.now, 1, link in s.partitions), effects);
          NewestKeepsOrder(s, s', l, s.nextPacket, p);
        } else {
          NothingScheduledKeepsOrder(s, s', l);
        }
      }
    }
  }

  lemma ApplySchedulesNothing(rules: seq<FaultRule>, s: Net, op: Op, l: Link)
    requires !op.Send? && s.now <= U64_MAX
    ensures NothingScheduled(s, Apply(rules, s, op), l)
  {
    match op
    case Advance(ticks) =>
      var s1 := s.(now := SatAdd(s.now, ticks));
      ResolveAllSchedulesNothing(s1, Ordered(DueKeys(s1)), l);
    case DeliverNext =>
      if Deliverable(s) != {} {
        var key := Least(Deliverable(s));
        ResolveSchedulesNothing(s.(now := Max(s.now, key.due)), key, l);
      }
    case _ =>
  }

  lemma ResolveSchedulesNothing(s: Net, key: Key, l: Link)
    requires key in s.queue
    ensures NothingScheduled(s, Resolve(s, key).0, l)
  {
  }

  lemma ApplyKeepsOrder(rules: seq<FaultRule>, s: Net, op: Op, l: Link)
    requires ValidRules(rules) && Inv(s) && SendOrdered(s, l) && Undelayed(rules, l)
    ensures SendOrdered(Apply(rules, s, op), l)
  {
    if op.Send? {
      SendKeepsOrder(rules, s, op.source, op.generation, op.target, op.frame, l);
    } else {
      ApplySchedulesNothing(rules, s, op, l);
      NothingScheduledKeepsOrder(s, Apply(rules, s, op), l);
    }
  }

  lemma {:induction false} RunKeepsOrder(rules: seq<FaultRule>, s: Net, ops: seq<Op>, l: Link)
    requires ValidRules(rules) && Inv(s) && SendOrdered(s, l) && Undelayed(rules, l)
    ensures Inv(Run(rules, s, ops)) && SendOrdered(Run(rules, s, ops), l)
    decreases |ops|
  {
    if ops != [] {
      ApplyKeepsInv(rules, s, ops[0]);
      ApplyKeepsOrder(rules, s, ops[0], l);
      RunKeepsOrder(rules, Apply(rules, s, ops[0]), ops[1..], l);
    }
  }

  /** A link without delays is FIFO: whatever is partitioned, healed, dropped or
      duplicated meanwhile, its deliveries come in the order the packets were sent
      and, for one packet, in the order of its copies. */
  lemma UndelayedLinkIsFifo(rules: seq<FaultRule>, ops: seq<Op>, l: Link, i: nat, j: nat)
    requires ValidRules(rules) && Undelayed(rules, l)
    requires var s := Run(rules, EMPTY_NET, ops);
             && i < j < |s.events|
             && s.events[i].event.Delivered? && s.events[i].event.packet.link == l
             && s.events[j].event.Delivered? && s.events[j].event.packet.link == l
    ensures var s := Run(rules, EMPTY_NET, ops);
            var a := s.events[i].event.key;
            var b := s.events[j].event.key;
            a.packet < b.packet || (a.packet == b.packet && a.copy < b.copy)
  {
    assert Inv(EMPTY_NET);
    RunKeepsOrder(rules, EMPTY_NET, ops, l);
    var s := Run(rules, EMPTY_NET, ops);
    var a, b := s.events[i].event, s.events[j].event;
    assert Less(a.key, b.key);
    ScheduledFormed(s, a.key, a.packet);
    ScheduledFormed(s, b.key, b.packet);
    var i' :| 0 <= i' < |s.events| && s.events[i'].event == Scheduled(a.key, a.packet);
    var j' :| 0 <= j' < |s.events| && s.events[j'].event == Scheduled(b.key, b.packet);
    assert ScheduledOn(s, i', l) && ScheduledOn(s, j', l);
  }

  // ------------------------------------------------------------------ the code

  class DeterministicNetwork {
    const rules: seq<FaultRule>
    var now: nat
    var peers: map<NodeId, Peer>
    var generations: map<NodeId, nat>
    var occurrences: map<Link, nat>
    var partitions: set<Link>
    var queue: map<Key, Packet>
    var events: seq<EventRecord>
    var nextPacket: nat
    ghost var failed: set<Key>

    ghost function View(): Net
      reads this
    {
      Net(now, peers, generations, occurrences, partitions, queue, events, nextPacket, failed)
    }

    constructor (rules: seq<FaultRule>)
      ensures this.rules == rules && View() == EMPTY_NET
    {
      this.rules := rules;
      now, nextPacket, failed := 0, 0, {};
      peers, generations, occurrences := map[], map[], map[];
      partitions, queue, events := {}, map[], [];
    }

    method Note(e: Event)
      modifies this`events
      ensures events == old(events) + [EventRecord(now, e)]
    {
      events := events + [EventRecord(now, e)];
    }

    method Add(node: NodeId) returns (generation: nat)
      modifies this
      ensures View() == AddNodeFn(old(View()), node)
      ensures node in peers && peers[node].generation == generation == generations[node]
    {
      var again := node in generations;
      generation := if again then generations[node] + 1 else 0;
      generations := generations[node := generation];
      peers := peers[node := Peer(generation, [], true)];
      if again {
        Note(Reconnected(node, generation));
      }
    }

    method Close(node: NodeId, generation: nat)
      modifies this
      ensures View() == CloseFn(old(View()), node, generation)
    {
      if node in peers && peers[node].generation == generation {
        peers := peers - {node};
      }
    }

    method Partition(link: Link)
      modifies this
      ensures View() == PartitionFn(old(View()), link)
    {
      if link !in partitions {
        partitions := partitions + {link};
        Note(Partitioned(link));
      }
    }

    method Heal(link: Link)
      modifies this
      ensures View() == HealFn(old(View()), link)
    {
      if link in partitions {
        partitions := partitions - {link};
        Note(Healed(link));
      }
    }

    /** The fault decision for one packet: the loop over the rule's effects. */
    method Decide(link: Link, occurrence: nat) returns (plan: Plan)
      ensures plan == WithEffects(Plan(now, 1, link in partitions), EffectsFor(rules, link, occurrence))
    {
      var effects := EffectsFor(rules, link, occurrence);
      plan := Plan(now, 1, link in partitions);
      ghost var start := plan;
      var i := 0;
      while i < |effects|
        invariant 0 <= i <= |effects|
        invariant WithEffects(start, effects) == WithEffects(plan, effects[i..])
      {
        plan := WithEffect(plan, effects[i]);
        i := i + 1;
      }
    }

    method Enqueue(source: NodeId, generation: nat, target: NodeId, frame: Frame) returns (ok: bool)
      modifies this
      ensures (View(), ok) == SendFn(rules, old(View()), source, generation, target, frame)
    {
      if source !in peers || peers[source].generation != generation {
        return false;
      }
      if target !in peers {
        return false;
      }
      var link := Link(source, target);
      var p := Packet(link, generation, peers[target].generation, frame);
      var occurrence := if link in occurrences then occurrences[link] else 0;
      var plan := Decide(link, occurrence);
      occurrences := occurrences[link := occurrence + 1];
      var id := nextPacket;
      nextPacket := nextPacket + 1;
      ok := true;
      if plan.drop {
        Note(DroppedPacket(id, link));
      } else {
        AddAllCopies(plan.due, id, p, plan.copies);
      }
    }

    method AddAllCopies(due: nat, id: nat, p: Packet, copies: nat)
      modifies this`queue, this`events
      ensures View() == AddCopies(old(View()), due, id, p, 0, copies)
    {
      var copy := 0;
      while copy < copies
        invariant 0 <= copy
        invariant AddCopies(old(View()), due, id, p, 0, copies) == AddCopies(View(), due, id, p, copy, copies)
      {
        var key := Key(due, id * U16_MAX + copy, id, copy);
        queue := queue[key := p];
        Note(Scheduled(key, p));
        copy := copy + 1;
      }
    }

    /** The first key of a non-empty set in queue order. */
    method First(ks: set<Key>) returns (first: Key)
      requires ks != {}
      ensures first == Least(ks)
    {
      first :| first in ks;
      var rest := ks - {first};
      while rest != {}
        invariant rest <= ks && first in ks && first !in rest
        invariant forall k | k in ks && k !in rest && k != first :: Less(first, k)
        decreases |rest|
      {
        var k :| k in rest;
        forall k' | k' in ks ensures Less(k, first) && Less(first, k') ==> Less(k, k') {
          LessIsStrictOrder(k, first, k');
        }
        LessIsStrictOrder(k, first, k);
        if Less(k, first) {
          first := k;
        }
        rest := rest - {k};
      }
      LeastUnique(ks, first);
    }

    /** `deliver_key`. */
    method DeliverKey(key: Key) returns (ok: bool)
      requires key in queue
      modifies this
      ensures (View(), ok) == Resolve(old(View()), key)
    {
      var p := queue[key];
      queue := queue - {key};
      if p.link in partitions {
        queue := queue[key := p];
        assert queue == old(queue);
        return true;
      }
      var sourceIsCurrent := p.link.source in peers && peers[p.link.source].generation == p.sourceGeneration;
      if p.link.target !in peers {
        Note(DroppedCopy(key, p));
        return true;
      }
      var peer := peers[p.link.target];
      if !sourceIsCurrent || peer.generation != p.targetGeneration {
        Note(StaleGeneration(key, p));
        return true;
      }
      if !(peer.open && |peer.inbox| < CHANNEL_CAPACITY) {
        failed := failed + {key};
        return false;
      }
      peers := peers[p.link.target := peer.(inbox := peer.inbox + [(p.link.source, p.frame)])];
      Note(Delivered(key, p));
      ok := true;
    }

    /** The keys of a `BTreeMap` as it iterates them. */
    method InOrder(ks: set<Key>) returns (keys: seq<Key>)
      ensures keys == Ordered(ks)
    {
      keys := [];
      var rest := ks;
      while rest != {}
        invariant keys + Ordered(rest) == Ordered(ks)
        decreases |rest|
      {
        var k := First(rest);
        OrderedFirst(rest, k);
        keys := keys + [k];
        rest := rest - {k};
      }
    }

    /** The due keys in queue order. */
    method CollectDue() returns (keys: seq<Key>)
      ensures keys == Ordered(DueKeys(View()))
    {
      var due := set k | k in queue && k.due <= now;
      assert due == DueKeys(View());
      keys := InOrder(due);
    }

    method AdvanceBy(ticks: nat) returns (ok: bool)
      requires Inv(View())
      modifies this
      ensures (View(), ok) == AdvanceFn(old(View()), ticks)
      ensures Inv(View())
    {
      AdvanceKeepsInv(View(), ticks);
      now := SatAdd(now, ticks);
      DueKeysDrain(View());
      var keys := CollectDue();
      ghost var start := View();
      var i := 0;
      while i < |keys|
        invariant 0 <= i <= |keys|
        invariant Draining(View(), keys[i..])
        invariant ResolveAll(start, keys) == ResolveAll(View(), keys[i..])
      {
        assert keys[i..][0] == keys[i] && keys[i..][1..] == keys[i + 1..];
        DrainingNext(View(), keys[i..]);
        ok := DeliverKey(keys[i]);
        if !ok { return; }
        i := i + 1;
      }
      ok := true;
    }

    /** `None` when only partition-blocked packets, or none, remain. */
    method DeliverNext() returns (r: Option<bool>)
      modifies this
      ensures (View(), r) == DeliverNextFn(old(View()))
    {
      var ready := set k | k in queue && queue[k].link !in partitions;
      assert ready == Deliverable(View());
      if ready == {} {
        return None;
      }
      var key := First(ready);
      now := Max(now, key.due);
      var ok := DeliverKey(key);
      r := Some(ok);
    }

    /** Terminates, and if no send fails only partition-blocked copies are left. */
    method RunUntilIdle() returns (ok: bool)
      requires Inv(View())
      modifies this
      ensures Inv(View())
      ensures partitions == old(partitions)
      ensures ok ==> forall k | k in queue :: queue[k].link in partitions
      ensures !ok ==> failed > old(failed)
      ensures ok ==> failed == old(failed)
    {
      while true
        invariant Inv(View()) && partitions == old(partitions) && failed == old(failed)
        decreases |queue|
      {
        DeliverNextKeepsInv(View());
        FailedNotQueued(View());
        DeliverNextProgress(View());
        var r := DeliverNext();
        if r.None? { return true; }
        if !r.value { return false; }
      }
    }
  }

  /** A queued copy has not failed before. */
  lemma FailedNotQueued(s: Net)
    requires Inv(s)
    ensures s.queue.Keys !! s.failed
  {
    forall k | k in s.queue
      ensures k !in s.failed
    {
      ScheduledIsBirth(s.events, k, s.queue[k]);
    }
  }

  lemma ResolveProgress(s: Net, key: Key)
    requires key in s.queue && s.queue[key].link !in s.partitions && key !in s.failed
    ensures var r := Resolve(s, key);
            && r.0.partitions == s.partitions
            && r.0.queue.Keys == s.queue.Keys - {key}
            && (if r.1 then r.0.failed == s.failed else r.0.failed > s.failed)
  {
  }

  /** Each delivery shrinks the queue; when there is none, everything left is blocked. */
  lemma DeliverNextProgress(s: Net)
    requires s.queue.Keys !! s.failed
    ensures var d := DeliverNextFn(s);
            && d.0.partitions == s.partitions
            && (d.1.Some? ==> |d.0.queue| < |s.queue|)
            && (if d.1 == Some(false) then d.0.failed > s.failed else d.0.failed == s.failed)
            && (d.1.None? ==> forall k | k in d.0.queue :: d.0.queue[k].link in d.0.partitions)
  {
    if Deliverable(s) == {} {
      forall k | k in s.queue ensures s.queue[k].link in s.partitions { assert k !in Deliverable(s); }
    } else {
      var key := Least(Deliverable(s));
      ResolveProgress(s.(now := Max(s.now, key.due)), key);
      assert |DeliverNextFn(s).0.queue.Keys| == |s.queue.Keys| - 1;
    }
  }
}
