/**
 The gossip engine with hybrid timestamps (crates/chirps-gossip-swim/src/engine.rs, with
 the `hlc` feature): stamping of local events, envelopes out and envelopes in.
 */
module GossipRuns {
  import opened Prelude
  import opened Hlc
  import opened Membership

  datatype Stamped = Stamped(eventId: EventId, timestamp: Timestamp, update: Update)

  datatype Message = Message(eventId: EventId, timestamp: Timestamp, updates: seq<Stamped>)

  datatype GossipError = InvalidEnvelope | ClockSkew

  /** The wall clock's successive readings and the accepted skew. */
  datatype Env = Env(wall: nat -> nat, skew: nat) {
    ghost predicate Valid() {
      forall k: nat :: wall(k) <= U64_MAX
    }
  }

  datatype Engine = Engine(id: nat, peers: Peers, clock: Timestamp, sequence: nat, seenMessages: set<EventId>,
                           seenEvents: set<EventId>, latest: map<nat, Timestamp>, readings: nat)

  function Tick(env: Env, e: Engine): Engine {
    e.(clock := TickFn(e.clock, env.wall(e.readings)), readings := e.readings + 1)
  }

  /** `next_event_id`: wraps at 64 bits and skips zero. */
  function NextSequence(n: nat): nat {
    if n >= U64_MAX then 1 else n + 1
  }

  /** `stamp_membership_event`. */
  function Stamp(env: Env, e: Engine, n: nat): Engine {
    var e' := Tick(env, e).(sequence := NextSequence(e.sequence));
    if n !in e'.peers then e'
    else
      var peer := e'.peers[n].(timestamp := Some(e'.clock), eventId := Some(EventId(e'.id, e'.sequence)));
      e'.(peers := e'.peers[n := peer], latest := e'.latest[n := e'.clock])
  }

  /** One round of `apply_membership_update`. */
  function TakeUpdate(env: Env, e: Engine, u: Update): Engine {
    var (peers, taken) := ApplyOne(e.peers, u);
    if taken then Stamp(env, e.(peers := peers), u.node) else e
  }

  function TakeUpdates(env: Env, e: Engine, updates: seq<Update>): Engine {
    if updates == [] then e
    else TakeUpdate(env, TakeUpdates(env, e, updates[..|updates| - 1]), updates[|updates| - 1])
  }

  /** The event has not been seen and is newer than what is known of its peer. */
  predicate IsNews(e: Engine, ev: Stamped) {
    ev.eventId !in e.seenEvents && !(ev.update.node in e.latest && ev.timestamp.AtMost(e.latest[ev.update.node]))
  }

  /** The event changes the table. */
  predicate Applies(e: Engine, ev: Stamped) {
    IsNews(e, ev) && ApplyOne(e.peers, ev.update).1
  }

  /** One round of the loop in `apply_hlc_gossip`. */
  function TakeEvent(e: Engine, ev: Stamped): Engine {
    var n := ev.update.node;
    var e' := e.(seenEvents := e.seenEvents + {ev.eventId});
    if !IsNews(e, ev) then e'
    else
      var (peers, taken) := ApplyOne(e.peers, ev.update);
      var stamped :=
        if taken && n in peers then peers[n := peers[n].(eventId := Some(ev.eventId), timestamp := Some(ev.timestamp))]
        else peers;
      e'.(latest := e'.latest[n := ev.timestamp], peers := stamped)
  }

  function TakeEvents(e: Engine, events: seq<Stamped>): Engine {
    if events == [] then e else TakeEvent(TakeEvents(e, events[..|events| - 1]), events[|events| - 1])
  }

  /** The ids of the events that changed the table, in order. */
  function AppliedIds(e: Engine, events: seq<Stamped>): seq<EventId> {
    if events == [] then []
    else
      var init, last := events[..|events| - 1], events[|events| - 1];
      AppliedIds(e, init) + if Applies(TakeEvents(e, init), last) then [last.eventId] else []
  }

  predicate WellStamped(msg: Message) {
    forall i | 0 <= i < |msg.updates| :: msg.updates[i].timestamp.AtMost(msg.timestamp)
  }

  /** The receive event itself, which a duplicate is too. */
  function Accept(e: Engine, t: Timestamp, msg: Message): Engine {
    e.(readings := e.readings + 1, clock := t, seenMessages := e.seenMessages + {msg.eventId})
  }

  /** `apply_hlc_gossip`: the new state, and how many events changed the table. */
  function Receive(env: Env, e: Engine, msg: Message): (Engine, Result<nat, GossipError>) {
    if !WellStamped(msg) then (e, Failure(InvalidEnvelope))
    else
      var r := ReceiveFn(e.clock, env.wall(e.readings), env.skew, msg.timestamp);
      if r.None? then (e.(readings := e.readings + 1), Failure(ClockSkew))
      else
        var e' := Accept(e, r.value, msg);
        if msg.eventId in e.seenMessages then (e', Success(0))
        else (TakeEvents(e', msg.updates), Success(|AppliedIds(e', msg.updates)|))
  }

  /** `touch_peer`. */
  function Touch(env: Env, e: Engine, n: nat, addr: string, status: Status): Engine {
    var changed := n !in e.peers || e.peers[n].status != status;
    var peer := if n in e.peers then e.peers[n].(addr := addr, status := status) else Peer(addr, 0, status, None, None);
    var e' := e.(peers := e.peers[n := peer]);
    if changed then Stamp(env, e', n) else e'
  }

  /** A timeout or an acknowledgement changes the status of a known peer. */
  function Change(env: Env, e: Engine, n: nat, status: Status): Engine {
    if n !in e.peers then e
    else Stamp(env, e.(peers := e.peers[n := e.peers[n].(status := status)]), n)
  }

  /** The unstamped peers, in the iteration order of the table. */
  function Unstamped(peers: Peers, order: seq<nat>): seq<nat> {
    if order == [] then []
    else
      var init, last := Unstamped(peers, order[..|order| - 1]), order[|order| - 1];
      if last in peers && peers[last].timestamp.None? then init + [last] else init
  }

  function StampAll(env: Env, e: Engine, nodes: seq<nat>): Engine {
    if nodes == [] then e else Stamp(env, StampAll(env, e, nodes[..|nodes| - 1]), nodes[|nodes| - 1])
  }

  /** The updates an envelope carries: every stamped peer of the table. */
  function Outgoing(peers: Peers, order: seq<nat>): seq<Stamped> {
    if order == [] then []
    else
      var init, n := Outgoing(peers, order[..|order| - 1]), order[|order| - 1];
      if n in peers && peers[n].timestamp.Some? && peers[n].eventId.Some? then
        init + [Stamped(peers[n].eventId.value, peers[n].timestamp.value,
                        Update(n, peers[n].incarnation, peers[n].addr, peers[n].status))]
      else init
  }

  /** The envelope `send_pings` builds for one target. */
  function Emit(env: Env, e: Engine, order: seq<nat>): (Engine, Option<Message>) {
    var e1 := StampAll(env, e, Unstamped(e.peers, order));
    var updates := Outgoing(e1.peers, order);
    if updates == [] then (e1, None)
    else
      var e2 := Tick(env, e1).(sequence := NextSequence(e1.sequence));
      (e2, Some(Message(EventId(e2.id, e2.sequence), e2.clock, updates)))
  }

  datatype Op =
    | OpReceive(msg: Message)
    | OpUpdates(updates: seq<Update>)
    | OpTouch(n: nat, addr: string, status: Status)
    | OpChange(n: nat, status: Status)
    | OpEmit(order: seq<nat>)

  function Step(env: Env, e: Engine, op: Op): Engine {
    match op
    case OpReceive(msg) => Receive(env, e, msg).0
    case OpUpdates(updates) => TakeUpdates(env, e, updates)
    case OpTouch(n, addr, status) => Touch(env, e, n, addr, status)
    case OpChange(n, status) => Change(env, e, n, status)
    case OpEmit(order) => Emit(env, e, order).0
  }

  function Run(env: Env, e: Engine, ops: seq<Op>): Engine {
    if ops == [] then e else Step(env, Run(env, e, ops[..|ops| - 1]), ops[|ops| - 1])
  }

  /** Messages hold 64- and 32-bit timestamps; nothing else is assumed of them. */
  ghost predicate Decodable(op: Op) {
    op.OpReceive? ==>
      op.msg.timestamp.Fits() && forall i | 0 <= i < |op.msg.updates| :: op.msg.updates[i].timestamp.Fits()
  }

  // ------------------------------------------------------------------ nothing is stamped after the clock

  /** Every stamp in the table and every latest timestamp is at or below the clock. */
  ghost predicate Behind(e: Engine, t: Timestamp) {
    && (forall n | n in e.peers && e.peers[n].timestamp.Some? :: e.peers[n].timestamp.value.AtMost(t))
    && (forall n | n in e.latest :: e.latest[n].AtMost(t))
  }

  ghost predicate Paired(peers: Peers) {
    forall n | n in peers :: peers[n].timestamp.Some? <==> peers[n].eventId.Some?
  }

  ghost predicate Ok(e: Engine) {
    e.clock.Fits() && Behind(e, e.clock) && Paired(e.peers)
  }

  /** An engine that starts over a table without stamps. */
  lemma NewEngineIsOk(env: Env, id: nat, peers: Peers)
    requires env.Valid() && forall n | n in peers :: peers[n].timestamp.None? && peers[n].eventId.None?
    ensures Ok(Engine(id, peers, Timestamp(env.wall(0), 0), 0, {}, {}, map[], 1))
  {
    assert env.wall(0) <= U64_MAX;
  }

  // Whether every clock reading of an operation starts below the last timestamp, so that it
  // moves the clock forward.

  ghost predicate UpdatesBelow(env: Env, e: Engine, updates: seq<Update>) {
    updates == [] ||
    (var init, last := updates[..|updates| - 1], updates[|updates| - 1];
     var before := TakeUpdates(env, e, init);
     UpdatesBelow(env, e, init) && (ApplyOne(before.peers, last).1 ==> before.clock != LIMIT))
  }

  ghost predicate StampsBelow(env: Env, e: Engine, nodes: seq<nat>) {
    nodes == [] ||
    (StampsBelow(env, e, nodes[..|nodes| - 1]) && StampAll(env, e, nodes[..|nodes| - 1]).clock != LIMIT)
  }

  ghost predicate StepBelow(env: Env, e: Engine, op: Op) {
    match op
    case OpReceive(msg) => Receive(env, e, msg).1.Success? ==> Later(e.clock, msg.timestamp) != LIMIT
    case OpUpdates(updates) => UpdatesBelow(env, e, updates)
    case OpTouch(n, _, status) => (n !in e.peers || e.peers[n].status != status) ==> e.clock != LIMIT
    case OpChange(n, _) => n in e.peers ==> e.clock != LIMIT
    case OpEmit(order) =>
      && StampsBelow(env, e, Unstamped(e.peers, order))
      && (Emit(env, e, order).1.Some? ==> StampAll(env, e, Unstamped(e.peers, order)).clock != LIMIT)
  }

  /** No clock and no accepted message of the run is at the last timestamp when it is used. */
  ghost predicate RunBelow(env: Env, e: Engine, ops: seq<Op>) {
    ops == [] || (RunBelow(env, e, ops[..|ops| - 1]) && StepBelow(env, Run(env, e, ops[..|ops| - 1]), ops[|ops| - 1]))
  }

  lemma BehindLater(e: Engine, t: Timestamp, t': Timestamp)
    requires Behind(e, t) && t.AtMost(t')
    ensures Behind(e, t')
  {
  }

  lemma TickKeepsOk(env: Env, e: Engine)
    requires env.Valid() && Ok(e) && e.clock != LIMIT
    ensures Ok(Tick(env, e)) && e.clock.Less(Tick(env, e).clock)
  {
    TickIsLater(e.clock, env.wall(e.readings));
    BehindLater(e, e.clock, Tick(env, e).clock);
  }

  lemma StampKeepsOk(env: Env, e: Engine, n: nat)
    requires env.Valid() && Ok(e) && e.clock != LIMIT
    ensures Ok(Stamp(env, e, n)) && e.clock.Less(Stamp(env, e, n).clock)
  {
    TickKeepsOk(env, e);
  }

  lemma ApplyOneKeepsOk(e: Engine, u: Update)
    requires Ok(e)
    ensures Ok(e.(peers := ApplyOne(e.peers, u).0))
  {
  }

  lemma {:induction false} UpdatesKeepOk(env: Env, e: Engine, updates: seq<Update>)
    requires env.Valid() && Ok(e) && UpdatesBelow(env, e, updates)
    ensures Ok(TakeUpdates(env, e, updates))
  {
    if updates != [] {
      var init, last := updates[..|updates| - 1], updates[|updates| - 1];
      var before := TakeUpdates(env, e, init);
      UpdatesKeepOk(env, e, init);
      ApplyOneKeepsOk(before, last);
      if ApplyOne(before.peers, last).1 {
        StampKeepsOk(env, before.(peers := ApplyOne(before.peers, last).0), last.node);
      }
    }
  }

  lemma {:induction false} StampAllKeepsOk(env: Env, e: Engine, nodes: seq<nat>)
    requires env.Valid() && Ok(e) && StampsBelow(env, e, nodes)
    ensures Ok(StampAll(env, e, nodes))
  {
    if nodes != [] {
      StampAllKeepsOk(env, e, nodes[..|nodes| - 1]);
      StampKeepsOk(env, StampAll(env, e, nodes[..|nodes| - 1]), nodes[|nodes| - 1]);
    }
  }

  lemma EventKeepsOk(e: Engine, ev: Stamped)
    requires Ok(e) && ev.timestamp.AtMost(e.clock)
    ensures Ok(TakeEvent(e, ev)) && TakeEvent(e, ev).clock == e.clock
  {
  }

  lemma {:induction false} EventsKeepOk(e: Engine, events: seq<Stamped>)
    requires Ok(e) && forall i | 0 <= i < |events| :: events[i].timestamp.AtMost(e.clock)
    ensures Ok(TakeEvents(e, events)) && TakeEvents(e, events).clock == e.clock
  {
    if events != [] {
      EventsKeepOk(e, events[..|events| - 1]);
      EventKeepsOk(TakeEvents(e, events[..|events| - 1]), events[|events| - 1]);
    }
  }

  lemma ReceiveKeepsOk(env: Env, e: Engine, msg: Message)
    requires env.Valid() && Ok(e) && msg.timestamp.Fits()
    requires Receive(env, e, msg).1.Success? ==> Later(e.clock, msg.timestamp) != LIMIT
    ensures Ok(Receive(env, e, msg).0)
  {
    var r := ReceiveFn(e.clock, env.wall(e.readings), env.skew, msg.timestamp);
    if WellStamped(msg) && r.Some? {
      ReceiveIsLater(e.clock, env.wall(e.readings), env.skew, msg.timestamp);
      var e' := Accept(e, r.value, msg);
      BehindLater(e, e.clock, r.value);
      forall i | 0 <= i < |msg.updates|
        ensures msg.updates[i].timestamp.AtMost(e'.clock)
      {
      }
      EventsKeepOk(e', msg.updates);
    }
  }

  lemma TouchKeepsOk(env: Env, e: Engine, n: nat, addr: string, status: Status)
    requires env.Valid() && Ok(e) && StepBelow(env, e, OpTouch(n, addr, status))
    ensures Ok(Touch(env, e, n, addr, status))
  {
    var peer := if n in e.peers then e.peers[n].(addr := addr, status := status) else Peer(addr, 0, status, None, None);
    var e' := e.(peers := e.peers[n := peer]);
    assert Ok(e');
    if n !in e.peers || e.peers[n].status != status {
      StampKeepsOk(env, e', n);
    }
  }

  lemma ChangeKeepsOk(env: Env, e: Engine, n: nat, status: Status)
    requires env.Valid() && Ok(e) && StepBelow(env, e, OpChange(n, status))
    ensures Ok(Change(env, e, n, status))
  {
    if n in e.peers {
      var e' := e.(peers := e.peers[n := e.peers[n].(status := status)]);
      assert Ok(e');
      StampKeepsOk(env, e', n);
    }
  }

  lemma EmitKeepsOk(env: Env, e: Engine, order: seq<nat>)
    requires env.Valid() && Ok(e) && StepBelow(env, e, OpEmit(order))
    ensures Ok(Emit(env, e, order).0)
  {
    StampAllKeepsOk(env, e, Unstamped(e.peers, order));
    if Emit(env, e, order).1.Some? {
      TickKeepsOk(env, StampAll(env, e, Unstamped(e.peers, order)));
    }
  }

  lemma {:induction false} OutgoingComesFrom(peers: Peers, order: seq<nat>, t: Timestamp)
    requires forall n | n in peers && peers[n].timestamp.Some? :: peers[n].timestamp.value.AtMost(t)
    ensures forall i | 0 <= i < |Outgoing(peers, order)| :: Outgoing(peers, order)[i].timestamp.AtMost(t)
  {
    if order != [] {
      OutgoingComesFrom(peers, order[..|order| - 1], t);
    }
  }

  lemma StepKeepsOk(env: Env, e: Engine, op: Op)
    requires env.Valid() && Ok(e) && Decodable(op) && StepBelow(env, e, op)
    ensures Ok(Step(env, e, op))
  {
    match op {
      case OpReceive(msg) => ReceiveKeepsOk(env, e, msg);
      case OpUpdates(updates) => UpdatesKeepOk(env, e, updates);
      case OpTouch(n, addr, status) => TouchKeepsOk(env, e, n, addr, status);
      case OpChange(n, status) => ChangeKeepsOk(env, e, n, status);
      case OpEmit(order) => EmitKeepsOk(env, e, order);
    }
  }

  /** In every run below the limit, whatever is received, no stamp passes the clock. */
  lemma {:induction false} RunKeepsOk(env: Env, e: Engine, ops: seq<Op>)
    requires env.Valid() && Ok(e) && (forall i | 0 <= i < |ops| :: Decodable(ops[i])) && RunBelow(env, e, ops)
    ensures Ok(Run(env, e, ops))
  {
    if ops != [] {
      RunKeepsOk(env, e, ops[..|ops| - 1]);
      StepKeepsOk(env, Run(env, e, ops[..|ops| - 1]), ops[|ops| - 1]);
    }
  }

  // ------------------------------------------------------------------ envelopes

  /** The first timestamp of the last millisecond, where the clock falls back to. */
  const FALLBACK := Timestamp(U64_MAX, 0)

  /** An envelope is well stamped exactly when the clock that stamps it is not at the last
      timestamp, or it carries nothing stamped after the point the clock falls back to. */
  lemma EnvelopeWellStampedIff(env: Env, e: Engine, order: seq<nat>)
    requires env.Valid() && Ok(StampAll(env, e, Unstamped(e.peers, order)))
    ensures var msg := Emit(env, e, order).1;
            msg.Some? ==>
              (WellStamped(msg.value) <==>
                 || StampAll(env, e, Unstamped(e.peers, order)).clock != LIMIT
                 || forall i | 0 <= i < |msg.value.updates| :: msg.value.updates[i].timestamp.AtMost(FALLBACK))
  {
    var e1 := StampAll(env, e, Unstamped(e.peers, order));
    var updates, t := Outgoing(e1.peers, order), Tick(env, e1).clock;
    OutgoingComesFrom(e1.peers, order, e1.clock);
    TickIsLater(e1.clock, env.wall(e1.readings));
    if e1.clock == LIMIT {
      assert t == FALLBACK;
    } else {
      forall i | 0 <= i < |updates|
        ensures updates[i].timestamp.AtMost(t)
      {
        assert updates[i].timestamp.AtMost(e1.clock);
      }
    }
  }

  /** After any run below the limit, whatever was received, an emitted envelope is one that no
      receiver refuses for a later-stamped update, exactly under that condition. */
  lemma EnvelopesAreWellStamped(env: Env, e: Engine, ops: seq<Op>, order: seq<nat>)
    requires env.Valid() && Ok(e) && forall i | 0 <= i < |ops| :: Decodable(ops[i])
    requires RunBelow(env, e, ops) && StampsBelow(env, Run(env, e, ops), Unstamped(Run(env, e, ops).peers, order))
    ensures var before := Run(env, e, ops);
            var msg := Emit(env, before, order).1;
            msg.Some? ==>
              (WellStamped(msg.value) <==>
                 || StampAll(env, before, Unstamped(before.peers, order)).clock != LIMIT
                 || forall i | 0 <= i < |msg.value.updates| :: msg.value.updates[i].timestamp.AtMost(FALLBACK))
  {
    var before := Run(env, e, ops);
    RunKeepsOk(env, e, ops);
    StampAllKeepsOk(env, before, Unstamped(before.peers, order));
    EnvelopeWellStampedIff(env, before, order);
  }

  /** The run that breaks it: a new engine in the last millisecond receives a late envelope and
      meets a peer, whose stamp is then the last timestamp. */
  lemma LimitBreaksEnvelopes(env: Env, id: nat, n: nat, addr: string)
    requires forall k: nat :: env.wall(k) == U64_MAX
    ensures var start := Engine(id, map[], Timestamp(env.wall(0), 0), 0, {}, {}, map[], 1);
            var late := Message(EventId(id + 1, 1), Timestamp(U64_MAX, U32_MAX - 2), []);
            var ops := [OpReceive(late), OpTouch(n, addr, Alive)];
            && Ok(start) && RunBelow(env, start, ops)
            && var msg := Emit(env, Run(env, start, ops), [n]).1;
               msg.Some? && !WellStamped(msg.value)
  {
    var start := Engine(id, map[], Timestamp(env.wall(0), 0), 0, {}, {}, map[], 1);
    var late := Message(EventId(id + 1, 1), Timestamp(U64_MAX, U32_MAX - 2), []);
    var ops := [OpReceive(late), OpTouch(n, addr, Alive)];
    var first := ops[..1];
    assert first == [OpReceive(late)] && first[..0] == [];
    var e1 := Step(env, start, OpReceive(late));
    assert e1.clock == Timestamp(U64_MAX, U32_MAX - 1) && e1.peers == map[];
    assert Run(env, start, first) == e1;
    assert Later(start.clock, late.timestamp) != LIMIT;
    assert StepBelow(env, start, OpReceive(late)) && RunBelow(env, start, first[..0]);
    assert RunBelow(env, start, first) && StepBelow(env, e1, ops[1]);
    var e2 := Step(env, e1, OpTouch(n, addr, Alive));
    assert Run(env, start, ops) == e2;
    var peer := Peer(addr, 0, Alive, Some(EventId(id, e2.sequence)), Some(LIMIT));
    assert e2.clock == LIMIT && e2.peers == map[n := peer];
    LastStampIsRefused(env, e2, n, peer);
  }

  lemma LastStampIsRefused(env: Env, e: Engine, n: nat, peer: Peer)
    requires env.Valid() && e.clock == LIMIT && e.peers == map[n := peer]
    requires peer.timestamp == Some(LIMIT) && peer.eventId.Some?
    ensures var msg := Emit(env, e, [n]).1; msg.Some? && !WellStamped(msg.value)
  {
    var order := [n];
    assert order[..0] == [];
    assert Unstamped(e.peers, order) == [];
    var u := Stamped(peer.eventId.value, LIMIT, Update(n, peer.incarnation, peer.addr, peer.status));
    assert Outgoing(e.peers, order) == [u];
    var msg := Emit(env, e, order).1.value;
    assert env.wall(e.readings) <= U64_MAX;
    assert msg.updates[0] == u && msg.timestamp == FALLBACK;
  }

  // ------------------------------------------------------------------ receiving

  /** A refused envelope changes nothing but the count of clock readings. */
  lemma RefusalChangesNothing(env: Env, e: Engine, msg: Message)
    requires Receive(env, e, msg).1.Failure?
    ensures Receive(env, e, msg).0.(readings := e.readings) == e
    ensures Receive(env, e, msg).1.error.InvalidEnvelope? <==> !WellStamped(msg)
  {
  }

  /** `n` is still known and its claim has not gone down. */
  ghost predicate Kept(a: Peers, b: Peers, n: nat) {
    n in a ==> n in b && ClaimOf(a[n]).AtMost(ClaimOf(b[n]))
  }

  lemma {:induction false} EventsNeverLower(e: Engine, events: seq<Stamped>, n: nat)
    ensures Kept(e.peers, TakeEvents(e, events).peers, n)
  {
    if events != [] {
      var before, last := TakeEvents(e, events[..|events| - 1]), events[|events| - 1];
      EventsNeverLower(e, events[..|events| - 1], n);
      if n in before.peers {
        OneNeverLowers(before.peers, last.update, n);
      }
    }
  }

  lemma {:induction false} UpdatesNeverLower(env: Env, e: Engine, updates: seq<Update>, n: nat)
    ensures Kept(e.peers, TakeUpdates(env, e, updates).peers, n)
  {
    if updates != [] {
      var before, last := TakeUpdates(env, e, updates[..|updates| - 1]), updates[|updates| - 1];
      UpdatesNeverLower(env, e, updates[..|updates| - 1], n);
      if n in before.peers {
        OneNeverLowers(before.peers, last, n);
      }
    }
  }

  lemma {:induction false} StampsNeverLower(env: Env, e: Engine, nodes: seq<nat>, n: nat)
    ensures Kept(e.peers, StampAll(env, e, nodes).peers, n)
  {
    if nodes != [] {
      StampsNeverLower(env, e, nodes[..|nodes| - 1], n);
    }
  }

  lemma StepNeverLowers(env: Env, e: Engine, op: Op, n: nat)
    requires op.OpReceive? || op.OpUpdates? || op.OpEmit?
    ensures Kept(e.peers, Step(env, e, op).peers, n)
  {
    match op {
      case OpReceive(msg) =>
        var r := ReceiveFn(e.clock, env.wall(e.readings), env.skew, msg.timestamp);
        if r.Some? {
          EventsNeverLower(Accept(e, r.value, msg), msg.updates, n);
        }
      case OpUpdates(updates) => UpdatesNeverLower(env, e, updates, n);
      case OpEmit(order) => StampsNeverLower(env, e, Unstamped(e.peers, order), n);
    }
  }

  /** Along gossip, with and without timestamps, received and sent in any order, no peer is
      lost and no (incarnation, status) goes down; only the engine's own observations do that. */
  lemma {:induction false} GossipNeverLowers(env: Env, e: Engine, ops: seq<Op>, n: nat)
    requires forall i | 0 <= i < |ops| :: ops[i].OpReceive? || ops[i].OpUpdates? || ops[i].OpEmit?
    ensures Kept(e.peers, Run(env, e, ops).peers, n)
  {
    if ops != [] {
      GossipNeverLowers(env, e, ops[..|ops| - 1], n);
      StepNeverLowers(env, Run(env, e, ops[..|ops| - 1]), ops[|ops| - 1], n);
    }
  }

  // ------------------------------------------------------------------ latest timestamps only grow

  ghost predicate Grown(a: map<nat, Timestamp>, b: map<nat, Timestamp>) {
    forall n | n in a :: n in b && a[n].AtMost(b[n])
  }

  lemma GrownTransitive(a: map<nat, Timestamp>, b: map<nat, Timestamp>, c: map<nat, Timestamp>)
    requires Grown(a, b) && Grown(b, c)
    ensures Grown(a, c)
  {
    forall n | n in a
      ensures n in c && a[n].AtMost(c[n])
    {
      assert a[n].AtMost(b[n]) && b[n].AtMost(c[n]);
    }
  }

  lemma StampGrows(env: Env, e: Engine, n: nat)
    requires env.Valid() && Ok(e) && e.clock != LIMIT
    ensures Grown(e.latest, Stamp(env, e, n).latest)
  {
    StampKeepsOk(env, e, n);
  }

  lemma {:induction false} UpdatesGrow(env: Env, e: Engine, updates: seq<Update>)
    requires env.Valid() && Ok(e) && UpdatesBelow(env, e, updates)
    ensures Grown(e.latest, TakeUpdates(env, e, updates).latest)
  {
    if updates != [] {
      var init, last := updates[..|updates| - 1], updates[|updates| - 1];
      var before := TakeUpdates(env, e, init);
      UpdatesGrow(env, e, init);
      UpdatesKeepOk(env, e, init);
      ApplyOneKeepsOk(before, last);
      if ApplyOne(before.peers, last).1 {
        StampGrows(env, before.(peers := ApplyOne(before.peers, last).0), last.node);
      }
      GrownTransitive(e.latest, before.latest, TakeUpdates(env, e, updates).latest);
    }
  }

  lemma {:induction false} StampAllGrows(env: Env, e: Engine, nodes: seq<nat>)
    requires env.Valid() && Ok(e) && StampsBelow(env, e, nodes)
    ensures Grown(e.latest, StampAll(env, e, nodes).latest)
  {
    if nodes != [] {
      var before := StampAll(env, e, nodes[..|nodes| - 1]);
      StampAllGrows(env, e, nodes[..|nodes| - 1]);
      StampAllKeepsOk(env, e, nodes[..|nodes| - 1]);
      StampGrows(env, before, nodes[|nodes| - 1]);
      GrownTransitive(e.latest, before.latest, StampAll(env, e, nodes).latest);
    }
  }

  lemma {:induction false} EventsGrow(e: Engine, events: seq<Stamped>)
    ensures Grown(e.latest, TakeEvents(e, events).latest)
  {
    if events != [] {
      var before := TakeEvents(e, events[..|events| - 1]);
      EventsGrow(e, events[..|events| - 1]);
      GrownTransitive(e.latest, before.latest, TakeEvents(e, events).latest);
    }
  }

  lemma StepGrows(env: Env, e: Engine, op: Op)
    requires env.Valid() && Ok(e) && Decodable(op) && StepBelow(env, e, op)
    ensures Grown(e.latest, Step(env, e, op).latest)
  {
    match op {
      case OpReceive(msg) =>
        var r := ReceiveFn(e.clock, env.wall(e.readings), env.skew, msg.timestamp);
        if r.Some? {
          EventsGrow(Accept(e, r.value, msg), msg.updates);
        }
      case OpUpdates(updates) => UpdatesGrow(env, e, updates);
      case OpTouch(n, addr, status) =>
        if e.clock != LIMIT {
          TickKeepsOk(env, e);
        }
      case OpChange(n, status) =>
        if e.clock != LIMIT {
          TickKeepsOk(env, e);
        }
      case OpEmit(order) => StampAllGrows(env, e, Unstamped(e.peers, order));
    }
  }

  /** In every run below the limit each peer's latest timestamp only grows, and it never
      passes the clock. */
  lemma {:induction false} LatestOnlyGrows(env: Env, e: Engine, ops: seq<Op>)
    requires env.Valid() && Ok(e) && (forall i | 0 <= i < |ops| :: Decodable(ops[i])) && RunBelow(env, e, ops)
    ensures Grown(e.latest, Run(env, e, ops).latest)
    ensures forall n | n in Run(env, e, ops).latest :: Run(env, e, ops).latest[n].AtMost(Run(env, e, ops).clock)
  {
    RunKeepsOk(env, e, ops);
    if ops != [] {
      var init, last := ops[..|ops| - 1], ops[|ops| - 1];
      LatestOnlyGrows(env, e, init);
      RunKeepsOk(env, e, init);
      StepGrows(env, Run(env, e, init), last);
      GrownTransitive(e.latest, Run(env, e, init).latest, Run(env, e, ops).latest);
    }
  }

  // ------------------------------------------------------------------ each event at most once

  ghost predicate NoRepeats(ids: seq<EventId>) {
    forall i, j | 0 <= i < j < |ids| :: ids[i] != ids[j]
  }

  /** What a step applied from timestamped gossip. */
  function StepApplied(env: Env, e: Engine, op: Op): seq<EventId> {
    if op.OpReceive? && Receive(env, e, op.msg).1.Success? && op.msg.eventId !in e.seenMessages then
      var t := ReceiveFn(e.clock, env.wall(e.readings), env.skew, op.msg.timestamp).value;
      AppliedIds(Accept(e, t, op.msg), op.msg.updates)
    else []
  }

  function RunApplied(env: Env, e: Engine, ops: seq<Op>): seq<EventId> {
    if ops == [] then []
    else
      var init := ops[..|ops| - 1];
      RunApplied(env, e, init) + StepApplied(env, Run(env, e, init), ops[|ops| - 1])
  }

  lemma {:induction false} AppliedAreNew(e: Engine, events: seq<Stamped>)
    ensures NoRepeats(AppliedIds(e, events))
    ensures forall id | id in AppliedIds(e, events) :: id !in e.seenEvents && id in TakeEvents(e, events).seenEvents
    ensures e.seenEvents <= TakeEvents(e, events).seenEvents
  {
    if events != [] {
      AppliedAreNew(e, events[..|events| - 1]);
    }
  }

  lemma {:induction false} StampAllKeepsSeen(env: Env, e: Engine, nodes: seq<nat>)
    ensures StampAll(env, e, nodes).seenEvents == e.seenEvents
  {
    if nodes != [] {
      StampAllKeepsSeen(env, e, nodes[..|nodes| - 1]);
    }
  }

  lemma {:induction false} UpdatesKeepSeen(env: Env, e: Engine, updates: seq<Update>)
    ensures TakeUpdates(env, e, updates).seenEvents == e.seenEvents
  {
    if updates != [] {
      UpdatesKeepSeen(env, e, updates[..|updates| - 1]);
    }
  }

  lemma StepAppliesNew(env: Env, e: Engine, op: Op)
    ensures NoRepeats(StepApplied(env, e, op))
    ensures e.seenEvents <= Step(env, e, op).seenEvents
    ensures forall id | id in StepApplied(env, e, op) :: id !in e.seenEvents && id in Step(env, e, op).seenEvents
  {
    match op {
      case OpReceive(msg) =>
        var r := ReceiveFn(e.clock, env.wall(e.readings), env.skew, msg.timestamp);
        if r.Some? {
          AppliedAreNew(Accept(e, r.value, msg), msg.updates);
        }
      case OpUpdates(updates) => UpdatesKeepSeen(env, e, updates);
      case OpTouch(n, addr, status) =>
      case OpChange(n, status) =>
      case OpEmit(order) => StampAllKeepsSeen(env, e, Unstamped(e.peers, order));
    }
  }

  /** Over a whole run, duplicated and repackaged envelopes included, each membership event
      changes the table at most once. */
  lemma {:induction false} EventsApplyOnce(env: Env, e: Engine, ops: seq<Op>)
    ensures NoRepeats(RunApplied(env, e, ops))
    ensures forall id | id in RunApplied(env, e, ops) :: id in Run(env, e, ops).seenEvents
  {
    if ops != [] {
      var init, last := ops[..|ops| - 1], ops[|ops| - 1];
      EventsApplyOnce(env, e, init);
      StepAppliesNew(env, Run(env, e, init), last);
      NoRepeatsConcat(RunApplied(env, e, init), StepApplied(env, Run(env, e, init), last));
    }
  }

  lemma NoRepeatsConcat(a: seq<EventId>, b: seq<EventId>)
    requires NoRepeats(a) && NoRepeats(b) && forall id | id in b :: id !in a
    ensures NoRepeats(a + b)
  {
    forall i, j | 0 <= i < j < |a + b|
      ensures (a + b)[i] != (a + b)[j]
    {
      if i < |a| <= j {
        assert a[i] in a && b[j - |a|] in b;
      }
    }
  }
}

/** The engine as code; each method does what the function of the same operation says. */
module GossipEngines {
  import opened Prelude
  import opened Hlc
  import opened Membership
  import opened GossipRuns

  class GossipEngine {
    const env: Env
    const nodeId: nat
    var peers: Peers
    var clock: Timestamp
    var eventSequence: nat
    var seenMessages: set<EventId>
    var seenMembershipEvents: set<EventId>
    var latest: map<nat, Timestamp>
    var readings: nat

    ghost function View(): Engine
      reads this
    {
      Engine(nodeId, peers, clock, eventSequence, seenMessages, seenMembershipEvents, latest, readings)
    }

    /** A new engine over a given table; the clock starts at a first reading. */
    constructor (env: Env, nodeId: nat, peers: Peers)
      ensures this.env == env
      ensures View() == Engine(nodeId, peers, Timestamp(env.wall(0), 0), 0, {}, {}, map[], 1)
    {
      this.env, this.nodeId, this.peers := env, nodeId, peers;
      clock := Timestamp(env.wall(0), 0);
      eventSequence, seenMessages, seenMembershipEvents, latest, readings := 0, {}, {}, map[], 1;
    }

    method HlcTick()
      modifies `clock, `readings
      ensures View() == Tick(env, old(View()))
    {
      var wall := env.wall(readings);
      readings := readings + 1;
      clock := if wall > clock.physical then Timestamp(wall, 0) else clock.Next();
    }

    method NextEventId() returns (id: EventId)
      modifies `eventSequence
      ensures eventSequence == NextSequence(old(eventSequence)) && id == EventId(nodeId, eventSequence)
    {
      eventSequence := if eventSequence >= U64_MAX then 0 else eventSequence + 1;
      if eventSequence == 0 {
        eventSequence := 1;
      }
      id := EventId(nodeId, eventSequence);
    }

    method StampMembershipEvent(n: nat)
      modifies this
      ensures View() == Stamp(env, old(View()), n)
    {
      HlcTick();
      var id := NextEventId();
      if n in peers {
        peers := peers[n := peers[n].(timestamp := Some(clock), eventId := Some(id))];
        latest := latest[n := clock];
      }
    }

    method ApplyOneMembershipUpdate(u: Update) returns (taken: bool)
      modifies `peers
      ensures (peers, taken) == ApplyOne(old(peers), u)
    {
      if u.node !in peers {
        peers := peers[u.node := Peer(u.addr, u.incarnation, u.status, None, None)];
        return true;
      }
      var entry := peers[u.node];
      var newer := u.incarnation > entry.incarnation;
      var stronger := u.incarnation == entry.incarnation && Rank(u.status) > Rank(entry.status);
      if !newer && !stronger {
        return false;
      }
      if newer {
        entry := entry.(incarnation := u.incarnation);
      }
      peers := peers[u.node := entry.(status := u.status, addr := u.addr)];
      taken := true;
    }

    method ApplyMembershipUpdate(updates: seq<Update>)
      modifies this
      ensures View() == TakeUpdates(env, old(View()), updates)
    {
      for k := 0 to |updates|
        invariant View() == TakeUpdates(env, old(View()), updates[..k])
      {
        assert updates[..k + 1][..k] == updates[..k];
        var taken := ApplyOneMembershipUpdate(updates[k]);
        if taken {
          StampMembershipEvent(updates[k].node);
        }
      }
      assert updates[..|updates|] == updates;
    }

    method TakeOne(ev: Stamped) returns (applied: bool)
      modifies `peers, `seenMembershipEvents, `latest
      ensures View() == TakeEvent(old(View()), ev) && applied == Applies(old(View()), ev)
    {
      var n := ev.update.node;
      applied := false;
      var unseen := ev.eventId !in seenMembershipEvents;
      seenMembershipEvents := seenMembershipEvents + {ev.eventId};
      if !unseen {
        return;
      }
      if n in latest && ev.timestamp.AtMost(latest[n]) {
        return;
      }
      latest := latest[n := ev.timestamp];
      applied := ApplyOneMembershipUpdate(ev.update);
      if applied {
        if n in peers {
          peers := peers[n := peers[n].(eventId := Some(ev.eventId), timestamp := Some(ev.timestamp))];
        }
      }
    }

    method ApplyHlcGossip(msg: Message) returns (r: Result<nat, GossipError>)
      modifies this
      ensures (View(), r) == Receive(env, old(View()), msg)
    {
      for k := 0 to |msg.updates|
        invariant forall i | 0 <= i < k :: msg.updates[i].timestamp.AtMost(msg.timestamp)
      {
        if msg.timestamp.Less(msg.updates[k].timestamp) {
          return Failure(InvalidEnvelope);
        }
      }
      var t := ReceiveFn(clock, env.wall(readings), env.skew, msg.timestamp);
      readings := readings + 1;
      if t.None? {
        return Failure(ClockSkew);
      }
      clock := t.value;
      if msg.eventId in seenMessages {
        assert seenMessages + {msg.eventId} == seenMessages;
        return Success(0);
      }
      seenMessages := seenMessages + {msg.eventId};
      var count := TakeEach(msg.updates);
      r := Success(count);
    }

    method TakeEach(events: seq<Stamped>) returns (applied: nat)
      modifies `peers, `seenMembershipEvents, `latest
      ensures View() == TakeEvents(old(View()), events) && applied == |AppliedIds(old(View()), events)|
    {
      applied := 0;
      for k := 0 to |events|
        invariant View() == TakeEvents(old(View()), events[..k]) && applied == |AppliedIds(old(View()), events[..k])|
      {
        assert events[..k + 1][..k] == events[..k];
        var changed := TakeOne(events[k]);
        if changed {
          applied := applied + 1;
        }
      }
      assert events[..|events|] == events;
    }

    method TouchPeer(n: nat, addr: string, status: Status)
      modifies this
      ensures View() == Touch(env, old(View()), n, addr, status)
    {
      var changed := n !in peers || peers[n].status != status;
      if n !in peers {
        peers := peers[n := Peer(addr, 0, status, None, None)];
      }
      peers := peers[n := peers[n].(addr := addr, status := status)];
      if changed {
        StampMembershipEvent(n);
      }
    }

    /** `handle_ack`, for the peer table: late acks of dead peers are ignored. */
    method HandleAck(n: nat, addr: string)
      modifies this
      ensures View() == if n !in old(peers) then Touch(env, old(View()), n, addr, Alive)
                        else if old(peers)[n].status.Suspect? then Change(env, old(View()), n, Alive)
                        else old(View())
    {
      if n in peers {
        if peers[n].status.Dead? {
          return;
        }
        var changed := peers[n].status != Alive;
        peers := peers[n := peers[n].(status := Alive)];
        assert !changed ==> peers == old(peers);
        if changed {
          StampMembershipEvent(n);
        }
      } else {
        TouchPeer(n, addr, Alive);
      }
    }

    /** `ensure_membership_stamps`; `order` is the table's iteration order. */
    method EnsureMembershipStamps(order: seq<nat>)
      modifies this
      ensures View() == StampAll(env, old(View()), Unstamped(old(peers), order))
    {
      var unstamped := [];
      for k := 0 to |order|
        invariant View() == old(View())
        invariant unstamped == Unstamped(peers, order[..k])
      {
        assert order[..k + 1][..k] == order[..k];
        if order[k] in peers && peers[order[k]].timestamp.None? {
          unstamped := unstamped + [order[k]];
        }
      }
      assert order[..|order|] == order;
      for k := 0 to |unstamped|
        invariant View() == StampAll(env, old(View()), unstamped[..k])
      {
        assert unstamped[..k + 1][..k] == unstamped[..k];
        StampMembershipEvent(unstamped[k]);
      }
      assert unstamped[..|unstamped|] == unstamped;
    }

    /** The envelope `send_pings` builds.  Every peer it lists is stamped, so reading the
        stamps never fails. */
    method BuildEnvelope(order: seq<nat>) returns (msg: Option<Message>)
      requires Paired(peers)
      requires forall k | 0 <= k < |order| :: order[k] in peers
      modifies this
      ensures (View(), msg) == Emit(env, old(View()), order)
    {
      ghost var before := View();
      EnsureMembershipStamps(order);
      AllStamped(env, before, order);
      var updates := [];
      for k := 0 to |order|
        invariant View() == StampAll(env, before, Unstamped(before.peers, order))
        invariant updates == Outgoing(peers, order[..k])
      {
        assert order[..k + 1][..k] == order[..k];
        var peer := peers[order[k]];
        updates := updates + [Stamped(peer.eventId.value, peer.timestamp.value,
                                      Update(order[k], peer.incarnation, peer.addr, peer.status))];
      }
      assert order[..|order|] == order;
      if updates == [] {
        return None;
      }
      HlcTick();
      var id := NextEventId();
      msg := Some(Message(id, clock, updates));
    }
  }

  lemma {:induction false} StampAllStamps(env: Env, e: Engine, nodes: seq<nat>)
    requires Paired(e.peers)
    ensures var e' := StampAll(env, e, nodes);
            && Paired(e'.peers)
            && e'.peers.Keys == e.peers.Keys
            && forall n | n in e.peers && (n in nodes || e.peers[n].timestamp.Some?) :: e'.peers[n].timestamp.Some?
  {
    if nodes != [] {
      var init, last := nodes[..|nodes| - 1], nodes[|nodes| - 1];
      assert nodes == init + [last];
      StampAllStamps(env, e, init);
    }
  }

  lemma {:induction false} UnstampedMeaning(peers: Peers, order: seq<nat>, n: nat)
    requires n in order && n in peers && peers[n].timestamp.None?
    ensures n in Unstamped(peers, order)
  {
    var init, last := order[..|order| - 1], order[|order| - 1];
    assert order == init + [last];
    if n != last {
      UnstampedMeaning(peers, init, n);
    }
  }

  lemma AllStamped(env: Env, e: Engine, order: seq<nat>)
    requires Paired(e.peers) && forall k | 0 <= k < |order| :: order[k] in e.peers
    ensures var e' := StampAll(env, e, Unstamped(e.peers, order));
            forall k | 0 <= k < |order| ::
              order[k] in e'.peers && e'.peers[order[k]].timestamp.Some? && e'.peers[order[k]].eventId.Some?
  {
    StampAllStamps(env, e, Unstamped(e.peers, order));
    forall k | 0 <= k < |order| && e.peers[order[k]].timestamp.None?
      ensures order[k] in Unstamped(e.peers, order)
    {
      UnstampedMeaning(e.peers, order, order[k]);
    }
  }
}
