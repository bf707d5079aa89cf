/**
 The deficit-weighted round-robin scheduler
 (crates/chirps-transport-quic/src/priority.rs): three FIFO classes, a deficit
 counter per class, and a burst limit that ends a turn early.

 `State` is the scheduler as a value, `Visit` one pass of the loop in `dequeue`.
 The deficit counters are unbounded integers.
 */
module Scheduler {
  import opened Prelude

  /** `High = 0`, `Normal = 1`, `Low = 2`. */
  type Class = c: nat | c < 3 witness 0

  datatype Message<+T> = Message(class_: Class, size: nat, payload: T)

  datatype Config = Config(weights: seq<nat>, quantum: nat) {
    predicate Valid() {
      |weights| == 3 && forall c | 0 <= c < 3 :: weights[c] <= U32_MAX
    }

    /** Bytes added to a class's counter at the start of its turn. */
    function TurnQuantum(c: Class): nat
      requires Valid()
    {
      quantum * weights[c]
    }

    /** The most messages one turn of the class may return. */
    function Burst(c: Class): nat
      requires Valid()
    {
      Max(weights[c], 1)
    }
  }

  datatype State<T> = State(
    queues: seq<seq<Message<T>>>,
    deficits: seq<int>,
    addQuantum: seq<bool>,
    served: seq<nat>,
    current: Class) {

    ghost predicate Shaped() {
      |queues| == 3 && |deficits| == 3 && |addQuantum| == 3 && |served| == 3
    }

    /** Only the current class can be in the middle of a turn; there it still
        has messages and burst left.  Counters never go negative. */
    ghost predicate Valid(config: Config)
    {
      && config.Valid()
      && Shaped()
      && (forall c | 0 <= c < 3 :: 0 <= deficits[c])
      && (forall c | 0 <= c < 3 && addQuantum[c] :: served[c] == 0)
      && (forall c | 0 <= c < 3 && !addQuantum[c] ::
            c == current && queues[c] != [] && 0 < served[c] < config.Burst(c))
    }
  }

  function Initial<T>(): State<T> {
    State([[], [], []], [0, 0, 0], [true, true, true], [0, 0, 0], 0)
  }

  function Next(c: Class): Class {
    if c < 2 then c + 1 else 0
  }

  // ------------------------------------------------------------ one operation

  ghost function EnqueueFn<T>(s: State<T>, m: Message<T>, c: Class): State<T>
    requires s.Shaped()
  {
    s.(queues := s.queues[c := s.queues[c] + [m.(class_ := c)]])
  }

  /** What class `c` could pay with if it were visited now. */
  ghost function Counter<T>(config: Config, s: State<T>, c: Class): int
    requires config.Valid() && s.Shaped()
  {
    s.deficits[c] + if s.addQuantum[c] then config.TurnQuantum(c) else 0
  }

  /** The counter of the current class after the optional quantum. */
  ghost function Topped<T>(config: Config, s: State<T>): int
    requires config.Valid() && s.Shaped()
  {
    Counter(config, s, s.current)
  }

  ghost predicate Serves<T>(config: Config, s: State<T>)
    requires config.Valid() && s.Shaped()
  {
    s.queues[s.current] != [] && Topped(config, s) >= s.queues[s.current][0].size
  }

  /** The state after the current class returns its head. */
  ghost function ServeFn<T>(config: Config, s: State<T>): State<T>
    requires config.Valid() && s.Shaped() && Serves(config, s)
  {
    var c := s.current;
    var rest := s.queues[c][1..];
    var deficit := Topped(config, s) - s.queues[c][0].size;
    var more := rest != [] && deficit > 0 && SatAdd32(s.served[c]) < config.Burst(c);
    State(s.queues[c := rest], s.deficits[c := deficit], s.addQuantum[c := !more],
          s.served[c := if more then SatAdd32(s.served[c]) else 0],
          if more then c else Next(c))
  }

  /** The state after the current class is passed over. */
  ghost function PassFn<T>(config: Config, s: State<T>): State<T>
    requires config.Valid() && s.Shaped()
  {
    var c := s.current;
    State(s.queues, s.deficits[c := if s.queues[c] == [] then 0 else Topped(config, s)],
          s.addQuantum[c := true], s.served[c := 0], Next(c))
  }

  function SatAdd32(n: nat): nat {
    Min(n + 1, U32_MAX)
  }

  /** `dequeue` with `visits` passes of its loop left. */
  ghost function DequeueFn<T>(config: Config, s: State<T>, visits: nat): (r: (State<T>, Option<Message<T>>))
    requires config.Valid() && s.Shaped()
    ensures r.0.Shaped()
    decreases visits
  {
    if visits == 0 then (s, None)
    else if Serves(config, s) then
      (ServeFn(config, s), Some(s.queues[s.current][0].(class_ := s.current)))
    else DequeueFn(config, PassFn(config, s), visits - 1)
  }

  /** One call of `dequeue`: each class is visited at most once. */
  ghost function TakeFn<T>(config: Config, s: State<T>): (r: (State<T>, Option<Message<T>>))
    requires config.Valid() && s.Shaped()
    ensures r.0.Shaped()
  {
    DequeueFn(config, s, |s.queues|)
  }

  class PriorityScheduler<T> {
    var queues: seq<seq<Message<T>>>
    var deficits: seq<int>
    var addQuantum: seq<bool>
    var served: seq<nat>
    var current: Class
    const config: Config

    ghost function View(): State<T>
      reads this
    {
      State(queues, deficits, addQuantum, served, current)
    }

    ghost predicate Valid()
      reads this
    {
      View().Valid(config)
    }

    constructor (config: Config)
      requires config.Valid()
      ensures Valid() && this.config == config && View() == Initial()
    {
      this.queues := [[], [], []];
      this.deficits := [0, 0, 0];
      this.addQuantum := [true, true, true];
      this.served := [0, 0, 0];
      this.current := 0;
      this.config := config;
    }

    method Enqueue(m: Message<T>, c: Class)
      requires Valid()
      modifies this
      ensures Valid() && View() == EnqueueFn(old(View()), m, c)
    {
      queues := queues[c := queues[c] + [m.(class_ := c)]];
    }

    method Dequeue() returns (r: Option<Message<T>>)
      requires Valid()
      modifies this
      ensures Valid() && (View(), r) == TakeFn(config, old(View()))
    {
      var visited := 0;
      while visited < |queues|
        invariant 0 <= visited <= |queues|
        invariant Valid()
        invariant TakeFn(config, old(View())) == DequeueFn(config, View(), |queues| - visited)
      {
        r := Visit();
        if r.Some? { return; }
        visited := visited + 1;
      }
      r := None;
    }

    /** The body of the loop: top up, then serve the current class or pass it over. */
    method Visit() returns (r: Option<Message<T>>)
      requires Valid()
      modifies this
      ensures Valid()
      ensures if Serves(config, old(View())) then
                && View() == ServeFn(config, old(View()))
                && r == Some(old(queues[current][0]).(class_ := old(current)))
              else View() == PassFn(config, old(View())) && r == None
    {
      ghost var before := View();
      var idx: nat := current;
      TopUp();
      if queues[idx] != [] {
        var needed := queues[idx][0].size;
        if deficits[idx] >= needed {
          ServeKeepsValid(config, before);
          r := ServeHead(needed);
          return;
        }
      } else {
        deficits := deficits[idx := 0];
        served := served[idx := 0];
      }
      EndTurn();
      r := None;
      PassKeepsValid(config, before);
    }

    method EndTurn()
      requires View().Shaped()
      modifies this`addQuantum, this`served, this`current
      ensures addQuantum == old(addQuantum)[old(current) := true]
      ensures served == old(served)[old(current) := 0]
      ensures current == Next(old(current))
    {
      var idx: nat := current;
      addQuantum := addQuantum[idx := true];
      served := served[idx := 0];
      current := (idx + 1) % 3;
    }

    method TopUp()
      requires config.Valid() && View().Shaped()
      modifies this`deficits
      ensures deficits == old(deficits)[current := Topped(config, old(View()))]
    {
      if addQuantum[current] {
        deficits := deficits[current := deficits[current] + config.quantum * config.weights[current]];
      }
    }

    method ServeHead(needed: nat) returns (r: Option<Message<T>>)
      requires config.Valid() && View().Shaped()
      requires queues[current] != [] && needed == queues[current][0].size <= deficits[current]
      modifies this
      ensures var c := old(current);
              var rest := old(queues)[c][1..];
              var deficit := old(deficits)[c] - needed;
              var count := SatAdd32(old(served)[c]);
              var more := rest != [] && deficit > 0 && count < config.Burst(c);
              && queues == old(queues)[c := rest]
              && deficits == old(deficits)[c := deficit]
              && addQuantum == old(addQuantum)[c := !more]
              && served == old(served)[c := if more then count else 0]
              && current == (if more then c else Next(c))
              && r == Some(old(queues)[c][0].(class_ := c))
    {
      var idx: nat := current;
      var m := queues[idx][0];
      queues := queues[idx := queues[idx][1..]];
      deficits := deficits[idx := deficits[idx] - needed];
      served := served[idx := SatAdd32(served[idx])];
      var burstLimit := Max(config.weights[idx], 1);
      var hasMore := queues[idx] != [] && deficits[idx] > 0 && served[idx] < burstLimit;
      addQuantum := addQuantum[idx := !hasMore];
      if addQuantum[idx] {
        served := served[idx := 0];
        current := (idx + 1) % 3;
      }
      r := Some(m.(class_ := idx));
    }
  }

  lemma ServeKeepsValid<T>(config: Config, s: State<T>)
    requires s.Valid(config) && Serves(config, s)
    ensures ServeFn(config, s).Valid(config)
  {
  }

  lemma PassKeepsValid<T>(config: Config, s: State<T>)
    requires s.Valid(config)
    ensures PassFn(config, s).Valid(config)
  {
  }

  lemma {:induction false} DequeueKeepsValid<T>(config: Config, s: State<T>, visits: nat)
    requires s.Valid(config)
    ensures DequeueFn(config, s, visits).0.Valid(config)
    decreases visits
  {
    if visits > 0 {
      if Serves(config, s) {
        ServeKeepsValid(config, s);
      } else {
        PassKeepsValid(config, s);
        DequeueKeepsValid(config, PassFn(config, s), visits - 1);
      }
    }
  }

  // --------------------------------------------------------------------- runs

  datatype Op<T> = Put(m: Message<T>, c: Class) | Take

  /** The state after a run and the result of each `Take`, in order. */
  ghost function Exec<T>(config: Config, s: State<T>, ops: seq<Op<T>>): (r: (State<T>, seq<Option<Message<T>>>))
    requires config.Valid() && s.Shaped()
    ensures r.0.Shaped()
    decreases |ops|
  {
    if ops == [] then (s, [])
    else
      match ops[0]
      case Put(m, c) => Exec(config, EnqueueFn(s, m, c), ops[1..])
      case Take =>
        var d := TakeFn(config, s);
        var rest := Exec(config, d.0, ops[1..]);
        (rest.0, [d.1] + rest.1)
  }

  // ------------------------------------------------------- per-class FIFO order

  /** The messages of class `c` that a run puts in, in order. */
  ghost function Entered<T>(ops: seq<Op<T>>, c: Class): seq<Message<T>> {
    if ops == [] then []
    else (if ops[0].Put? && ops[0].c == c then [ops[0].m.(class_ := c)] else []) + Entered(ops[1..], c)
  }

  /** The messages of class `c` that came out, in order. */
  ghost function Left<T>(outs: seq<Option<Message<T>>>, c: Class): seq<Message<T>> {
    if outs == [] then []
    else (if outs[0].Some? && outs[0].value.class_ == c then [outs[0].value] else []) + Left(outs[1..], c)
  }

  /** Every queued message carries the class of its queue. */
  ghost predicate Labelled<T>(s: State<T>) {
    s.Shaped() && forall c, i | 0 <= c < 3 && 0 <= i < |s.queues[c]| :: s.queues[c][i].class_ == c
  }

  lemma {:induction false} DequeueTakesHead<T>(config: Config, s: State<T>, visits: nat, c: Class)
    requires config.Valid() && Labelled(s)
    ensures var d := DequeueFn(config, s, visits);
            && Labelled(d.0)
            && s.queues[c] == Left([d.1], c) + d.0.queues[c]
    decreases visits
  {
    if visits > 0 {
      if Serves(config, s) {
        var d := DequeueFn(config, s, visits);
        assert [d.1][1..] == [];
        assert s.queues[s.current] == [s.queues[s.current][0]] + s.queues[s.current][1..];
      } else {
        DequeueTakesHead(config, PassFn(config, s), visits - 1, c);
      }
    } else {
      assert [DequeueFn(config, s, visits).1][1..] == [];
    }
  }

  lemma LeftCons<T>(o: Option<Message<T>>, outs: seq<Option<Message<T>>>, c: Class)
    ensures Left([o] + outs, c) == Left([o], c) + Left(outs, c)
  {
    assert ([o] + outs)[1..] == outs && [o][1..] == [];
  }

  lemma EnqueueKeeps<T>(config: Config, s: State<T>, m: Message<T>, k: Class, c: Class)
    requires config.Valid() && Labelled(s)
    ensures var s' := EnqueueFn(s, m, k);
            && Labelled(s') && (s.Valid(config) ==> s'.Valid(config))
            && s'.queues[c] == s.queues[c] + (if k == c then [m.(class_ := c)] else [])
  {
  }

  /** Output followed by queue equals the old queue followed by the input. */
  ghost predicate FifoRun<T>(config: Config, s: State<T>, ops: seq<Op<T>>, c: Class)
    requires config.Valid() && s.Shaped()
  {
    var r := Exec(config, s, ops);
    Left(r.1, c) + r.0.queues[c] == s.queues[c] + Entered(ops, c)
  }

  /** For every run, each class's output followed by what is still queued is what
      was queued before followed by what was put in: nothing is lost, duplicated
      or reordered within a class. */
  lemma {:induction false} ClassIsFifo<T>(config: Config, s: State<T>, ops: seq<Op<T>>, c: Class)
    requires config.Valid() && Labelled(s)
    ensures FifoRun(config, s, ops, c)
    decreases |ops|
  {
    if ops == [] {
    } else if ops[0].Put? {
      FifoPut(config, s, ops, c);
    } else {
      FifoTake(config, s, ops, c);
    }
  }

  lemma {:induction false} FifoPut<T>(config: Config, s: State<T>, ops: seq<Op<T>>, c: Class)
    requires config.Valid() && Labelled(s) && ops != [] && ops[0].Put?
    ensures FifoRun(config, s, ops, c)
    decreases |ops|, 0
  {
    EnqueueKeeps(config, s, ops[0].m, ops[0].c, c);
    ClassIsFifo(config, EnqueueFn(s, ops[0].m, ops[0].c), ops[1..], c);
  }

  lemma {:induction false} FifoTake<T>(config: Config, s: State<T>, ops: seq<Op<T>>, c: Class)
    requires config.Valid() && Labelled(s) && ops != [] && ops[0].Take?
    ensures FifoRun(config, s, ops, c)
    decreases |ops|, 0
  {
    DequeueTakesHead(config, s, |s.queues|, c);
    var d := TakeFn(config, s);
    ClassIsFifo(config, d.0, ops[1..], c);
    var rest := Exec(config, d.0, ops[1..]);
    TakeIsFifo(s.queues[c], d.1, d.0.queues[c], rest.1, rest.0.queues[c], Entered(ops[1..], c), c);
  }

  lemma TakeIsFifo<T>(before: seq<Message<T>>, o: Option<Message<T>>, after: seq<Message<T>>,
                      outs: seq<Option<Message<T>>>, end: seq<Message<T>>, entered: seq<Message<T>>, c: Class)
    requires before == Left([o], c) + after
    requires Left(outs, c) + end == after + entered
    ensures Left([o] + outs, c) + end == before + entered
  {
    LeftCons(o, outs, c);
    assert Left([o] + outs, c) + end == Left([o], c) + (Left(outs, c) + end);
  }

  /** Every state a scheduler can reach from `new` meets the invariants used here. */
  lemma {:induction false} ReachableIsValid<T>(config: Config, s: State<T>, ops: seq<Op<T>>)
    requires s.Valid(config) && Labelled(s)
    ensures Exec(config, s, ops).0.Valid(config) && Labelled(Exec(config, s, ops).0)
    decreases |ops|
  {
    if ops == [] {
    } else if ops[0].Put? {
      EnqueueKeeps(config, s, ops[0].m, ops[0].c, 0);
      ReachableIsValid(config, EnqueueFn(s, ops[0].m, ops[0].c), ops[1..]);
    } else {
      DequeueKeepsValid(config, s, |s.queues|);
      DequeueTakesHead(config, s, |s.queues|, 0);
      ReachableIsValid(config, TakeFn(config, s).0, ops[1..]);
    }
  }

  // -------------------------------------------------------- starvation freedom

  /** Turn starts the head of `c` still needs before its counter covers it. */
  ghost function TurnsNeeded<T>(config: Config, s: State<T>, c: Class): nat
    requires s.Valid(config) && s.queues[c] != [] && config.TurnQuantum(c) > 0
  {
    var missing := s.queues[c][0].size - s.deficits[c];
    if missing <= 0 then 1 else CeilDiv(missing, config.TurnQuantum(c))
  }

  /** Messages class `i` may still return before the round reaches another class. */
  ghost function Quota<T>(config: Config, s: State<T>, i: Class): nat
    requires s.Valid(config)
  {
    config.Burst(i) - s.served[i]
  }

  ghost function OtherBursts(config: Config, c: Class): nat
    requires config.Valid()
  {
    config.Burst(Next(c)) + config.Burst(Next(Next(c)))
  }

  /** Messages of other classes that can come before the round reaches `c`. */
  ghost function Ahead<T>(config: Config, s: State<T>, c: Class): nat
    requires s.Valid(config)
  {
    if s.current == c then 0
    else if Next(s.current) == c then Quota(config, s, s.current)
    else Quota(config, s, s.current) + Quota(config, s, Next(s.current))
  }

  /** The class is in mid-turn and its remaining counter does not cover its head,
      so its next visit ends the turn without adding a quantum. */
  ghost predicate MidTurnShort<T>(config: Config, s: State<T>, c: Class)
    requires s.Valid(config) && s.queues[c] != []
  {
    s.current == c && !s.addQuantum[c] && s.deficits[c] < s.queues[c][0].size
  }

  /** Bound on failing visits to `c` before its head is returned; each one opens
      a full round for the other classes. */
  ghost function FailuresBound<T>(config: Config, s: State<T>, c: Class): nat
    requires s.Valid(config) && s.queues[c] != [] && config.TurnQuantum(c) > 0
  {
    if MidTurnShort(config, s, c) then TurnsNeeded(config, s, c) else TurnsNeeded(config, s, c) - 1
  }

  /** `rounds * w`, by repeated addition. */
  ghost function Times(rounds: nat, w: nat): nat {
    if rounds == 0 then 0 else w + Times(rounds - 1, w)
  }

  lemma {:induction false} TimesIsProduct(rounds: nat, w: nat)
    ensures Times(rounds, w) == rounds * w
  {
    if rounds > 0 {
      TimesIsProduct(rounds - 1, w);
      assert w + (rounds - 1) * w == rounds * w;
    }
  }

  lemma {:induction false} TimesMonotone(rounds: nat, rounds': nat, w: nat)
    requires rounds <= rounds'
    ensures Times(rounds, w) <= Times(rounds', w)
  {
    if rounds > 0 {
      TimesMonotone(rounds - 1, rounds' - 1, w);
    }
  }

  /** Bound on other classes' messages returned before the head of `c`. */
  ghost function OthersBound<T>(config: Config, s: State<T>, c: Class): nat
    requires s.Valid(config) && s.queues[c] != [] && config.TurnQuantum(c) > 0
  {
    Ahead(config, s, c) + Times(FailuresBound(config, s, c), OtherBursts(config, c))
  }

  /** Passing over another class uses up its quota at most. */
  lemma PassOther<T>(config: Config, s: State<T>, c: Class)
    requires s.Valid(config) && s.queues[c] != [] && config.TurnQuantum(c) > 0
    requires s.current != c
    ensures var s' := PassFn(config, s);
            && s'.Valid(config) && s'.queues[c] == s.queues[c]
            && Ahead(config, s', c) <= Ahead(config, s, c)
            && FailuresBound(config, s', c) == FailuresBound(config, s, c)
  {
    PassKeepsValid(config, s);
    assert TurnsNeeded(config, PassFn(config, s), c) == TurnsNeeded(config, s, c);
  }

  /** Passing over `c` itself costs one of its turns and opens one round for the others. */
  lemma PassOwn<T>(config: Config, s: State<T>, c: Class)
    requires s.Valid(config) && s.queues[c] != [] && config.TurnQuantum(c) > 0
    requires s.current == c && !Serves(config, s)
    ensures var s' := PassFn(config, s);
            && s'.Valid(config) && s'.queues[c] == s.queues[c]
            && Ahead(config, s', c) == OtherBursts(config, c)
            && FailuresBound(config, s', c) + 1 == FailuresBound(config, s, c)
  {
    PassKeepsValid(config, s);
    var s' := PassFn(config, s);
    assert Quota(config, s', Next(c)) == config.Burst(Next(c));
    assert Quota(config, s', Next(Next(c))) == config.Burst(Next(Next(c)));
  }

  lemma ServeOther<T>(config: Config, s: State<T>, c: Class)
    requires s.Valid(config) && s.queues[c] != [] && config.TurnQuantum(c) > 0
    requires s.current != c && Serves(config, s)
    ensures var s' := ServeFn(config, s);
            && s'.Valid(config) && s'.queues[c] == s.queues[c]
            && Ahead(config, s', c) <= Ahead(config, s, c) - 1
            && FailuresBound(config, s', c) == FailuresBound(config, s, c)
  {
    ServeKeepsValid(config, s);
    assert TurnsNeeded(config, ServeFn(config, s), c) == TurnsNeeded(config, s, c);
  }

  /** How many visits away the class is. */
  ghost function Distance(from: Class, c: Class): nat {
    if from == c then 0 else if Next(from) == c then 1 else 2
  }

  lemma PassCost<T>(config: Config, s: State<T>, c: Class)
    requires s.Valid(config) && s.queues[c] != [] && config.TurnQuantum(c) > 0
    requires !Serves(config, s)
    ensures var s' := PassFn(config, s);
            && s'.Valid(config) && s'.queues[c] == s.queues[c]
            && OthersBound(config, s', c) <= OthersBound(config, s, c)
            && FailuresBound(config, s', c) + (if s.current == c then 1 else 0) == FailuresBound(config, s, c)
  {
    if s.current == c { PassOwn(config, s, c); } else { PassOther(config, s, c); }
  }

  /** The call does not return a message of class `c`. */
  ghost predicate Skips<T>(d: (State<T>, Option<Message<T>>), c: Class) {
    d.1.Some? ==> d.1.value.class_ != c
  }

  /** A call that skips `c` and returns a message uses up one unit of the others' bound. */
  lemma {:induction false} SkipCostsOthers<T>(config: Config, s: State<T>, visits: nat, c: Class)
    requires s.Valid(config) && s.queues[c] != [] && config.TurnQuantum(c) > 0
    requires Skips(DequeueFn(config, s, visits), c)
    ensures var d := DequeueFn(config, s, visits);
            && d.0.Valid(config) && d.0.queues[c] == s.queues[c]
            && OthersBound(config, d.0, c) + (if d.1.Some? then 1 else 0) <= OthersBound(config, s, c)
    decreases visits
  {
    if visits == 0 {
    } else if Serves(config, s) {
      ServeOther(config, s, c);
    } else {
      PassCost(config, s, c);
      SkipCostsOthers(config, PassFn(config, s), visits - 1, c);
    }
  }

  /** A call that returns None after visiting `c` uses up one failing visit. */
  lemma {:induction false} SkipCostsFailures<T>(config: Config, s: State<T>, visits: nat, c: Class)
    requires s.Valid(config) && s.queues[c] != [] && config.TurnQuantum(c) > 0
    requires Skips(DequeueFn(config, s, visits), c)
    ensures var d := DequeueFn(config, s, visits);
            && d.0.Valid(config) && d.0.queues[c] == s.queues[c]
            && FailuresBound(config, d.0, c) + (if d.1.None? && Distance(s.current, c) < visits then 1 else 0)
                 <= FailuresBound(config, s, c)
    decreases visits
  {
    if visits == 0 {
    } else if Serves(config, s) {
      ServeOther(config, s, c);
    } else {
      PassCost(config, s, c);
      assert s.current != c ==> Distance(Next(s.current), c) + 1 == Distance(s.current, c);
      SkipCostsFailures(config, PassFn(config, s), visits - 1, c);
    }
  }

  ghost function CountOthers<T>(outs: seq<Option<Message<T>>>, c: Class): nat {
    if outs == [] then 0
    else (if outs[0].Some? && outs[0].value.class_ != c then 1 else 0) + CountOthers(outs[1..], c)
  }

  ghost function CountNone<T>(outs: seq<Option<Message<T>>>): nat {
    if outs == [] then 0 else (if outs[0].None? then 1 else 0) + CountNone(outs[1..])
  }

  /** While class `c` is not served, the run stays within both bounds. */
  ghost predicate WithinBounds<T>(config: Config, s: State<T>, outs: seq<Option<Message<T>>>, c: Class)
    requires s.Valid(config) && s.queues[c] != [] && config.TurnQuantum(c) > 0
  {
    Left(outs, c) == [] ==>
      CountOthers(outs, c) <= OthersBound(config, s, c) && CountNone(outs) <= FailuresBound(config, s, c)
  }

  lemma {:induction false} WaitingRun<T>(config: Config, s: State<T>, ops: seq<Op<T>>, c: Class)
    requires s.Valid(config) && s.queues[c] != [] && config.TurnQuantum(c) > 0
    ensures WithinBounds(config, s, Exec(config, s, ops).1, c)
    decreases |ops|
  {
    if ops == [] {
    } else if ops[0].Put? {
      EnqueueKeepsBounds(config, s, ops[0].m, ops[0].c, c);
      WaitingRun(config, EnqueueFn(s, ops[0].m, ops[0].c), ops[1..], c);
    } else {
      WaitingTake(config, s, ops, c);
    }
  }

  lemma EnqueueKeepsBounds<T>(config: Config, s: State<T>, m: Message<T>, k: Class, c: Class)
    requires s.Valid(config) && s.queues[c] != [] && config.TurnQuantum(c) > 0
    ensures var s' := EnqueueFn(s, m, k);
            && s'.Valid(config) && s'.queues[c] != []
            && OthersBound(config, s', c) == OthersBound(config, s, c)
            && FailuresBound(config, s', c) == FailuresBound(config, s, c)
  {
    var s' := EnqueueFn(s, m, k);
    assert s'.queues[c][0] == s.queues[c][0];
    assert TurnsNeeded(config, s', c) == TurnsNeeded(config, s, c);
  }

  lemma {:induction false} WaitingTake<T>(config: Config, s: State<T>, ops: seq<Op<T>>, c: Class)
    requires s.Valid(config) && s.queues[c] != [] && config.TurnQuantum(c) > 0
    requires ops != [] && ops[0].Take?
    ensures WithinBounds(config, s, Exec(config, s, ops).1, c)
    decreases |ops|, 0
  {
    var d := TakeFn(config, s);
    var rest := Exec(config, d.0, ops[1..]).1;
    LeftCons(d.1, rest, c);
    assert ([d.1] + rest)[1..] == rest && [d.1][1..] == [];
    if Left([d.1], c) == [] {
      SkipCostsOthers(config, s, |s.queues|, c);
      SkipCostsFailures(config, s, |s.queues|, c);
      WaitingRun(config, d.0, ops[1..], c);
    }
  }

  /** Starvation freedom with a bound: while the head of class `c` waits, however
      many messages arrive meanwhile, at most `max(1, ceil(size / Q))` rounds of
      the other classes come out and at most `ceil(size / Q)` calls return None. */
  lemma StarvationFree<T>(config: Config, s: State<T>, ops: seq<Op<T>>, c: Class)
    requires s.Valid(config) && s.queues[c] != [] && config.TurnQuantum(c) > 0
    ensures var outs := Exec(config, s, ops).1;
            var turns := CeilDiv(s.queues[c][0].size, config.TurnQuantum(c));
            Left(outs, c) == [] ==>
              && CountOthers(outs, c) <= Max(1, turns) * OtherBursts(config, c)
              && CountNone(outs) <= turns
  {
    WaitingRun(config, s, ops, c);
    BoundsAtMost(config, s, c);
  }

  lemma BoundsAtMost<T>(config: Config, s: State<T>, c: Class)
    requires s.Valid(config) && s.queues[c] != [] && config.TurnQuantum(c) > 0
    ensures var turns := CeilDiv(s.queues[c][0].size, config.TurnQuantum(c));
            && OthersBound(config, s, c) <= Max(1, turns) * OtherBursts(config, c)
            && FailuresBound(config, s, c) <= turns
  {
    var w := OtherBursts(config, c);
    var size := s.queues[c][0].size;
    var turns := CeilDiv(size, config.TurnQuantum(c));
    var missing := size - s.deficits[c];
    if missing > 0 {
      CeilDivMonotone(missing, size, config.TurnQuantum(c));
    }
    var failures := FailuresBound(config, s, c);
    assert Ahead(config, s, c) <= w;
    assert s.current == c ==> Ahead(config, s, c) == 0;
    assert failures < Max(1, turns) || (failures == turns && s.current == c);
    TimesMonotone(if s.current == c then failures else failures + 1, Max(1, turns), w);
    TimesIsProduct(Max(1, turns), w);
  }

  /** Calls that are enough for one message of this size at the head of class `c`. */
  ghost function MessageCost(config: Config, c: Class, size: nat): nat
    requires config.Valid() && config.TurnQuantum(c) > 0
  {
    var turns := CeilDiv(size, config.TurnQuantum(c));
    1 + Max(1, turns) * OtherBursts(config, c) + turns
  }

  ghost function QueueCost<T>(config: Config, c: Class, ms: seq<Message<T>>): nat
    requires config.Valid() && config.TurnQuantum(c) > 0
  {
    if ms == [] then 0 else MessageCost(config, c, ms[0].size) + QueueCost(config, c, ms[1..])
  }

  /** Calls that may still go by before the first `m` messages of class `c` are out, less one. */
  ghost function Budget<T>(config: Config, s: State<T>, c: Class, m: nat): nat
    requires s.Valid(config) && 0 < m <= |s.queues[c]| && config.TurnQuantum(c) > 0
  {
    OthersBound(config, s, c) + FailuresBound(config, s, c) + QueueCost(config, c, s.queues[c][1..m])
  }

  lemma BudgetAtMost<T>(config: Config, s: State<T>, c: Class, m: nat)
    requires s.Valid(config) && 0 < m <= |s.queues[c]| && config.TurnQuantum(c) > 0
    ensures Budget(config, s, c, m) < QueueCost(config, c, s.queues[c][..m])
  {
    BoundsAtMost(config, s, c);
    assert s.queues[c][..m][1..] == s.queues[c][1..m];
  }

  /** A call either passes over class `c` and uses up budget, or returns its head. */
  lemma TakeSpends<T>(config: Config, s: State<T>, c: Class, m: nat)
    requires s.Valid(config) && Labelled(s) && 0 < m <= |s.queues[c]| && config.TurnQuantum(c) > 0
    ensures var d := TakeFn(config, s);
            && d.0.Valid(config) && Labelled(d.0)
            && (Skips(d, c) ==> d.0.queues[c] == s.queues[c] && Budget(config, d.0, c, m) < Budget(config, s, c, m))
            && (!Skips(d, c) ==>
                  && s.queues[c] == [d.1.value] + d.0.queues[c]
                  && (m > 1 ==> Budget(config, d.0, c, m - 1) < Budget(config, s, c, m)))
  {
    var d := TakeFn(config, s);
    DequeueKeepsValid(config, s, |s.queues|);
    DequeueTakesHead(config, s, |s.queues|, c);
    assert [d.1][1..] == [];
    if Skips(d, c) {
      SkipSpends(config, s, c, m);
    } else if m > 1 {
      BudgetAtMost(config, d.0, c, m - 1);
      assert s.queues[c][1..m] == d.0.queues[c][..m - 1];
    }
  }

  lemma SkipSpends<T>(config: Config, s: State<T>, c: Class, m: nat)
    requires s.Valid(config) && 0 < m <= |s.queues[c]| && config.TurnQuantum(c) > 0
    requires Skips(TakeFn(config, s), c)
    ensures var s' := TakeFn(config, s).0;
            s'.Valid(config) && s'.queues[c] == s.queues[c] && Budget(config, s', c, m) < Budget(config, s, c, m)
  {
    SkipCostsOthers(config, s, |s.queues|, c);
    SkipCostsFailures(config, s, |s.queues|, c);
  }

  lemma PutSpendsNothing<T>(config: Config, s: State<T>, msg: Message<T>, k: Class, c: Class, m: nat)
    requires s.Valid(config) && 0 < m <= |s.queues[c]| && config.TurnQuantum(c) > 0
    ensures var s' := EnqueueFn(s, msg, k);
            && s'.Valid(config) && m <= |s'.queues[c]| && s'.queues[c][..m] == s.queues[c][..m]
            && Budget(config, s', c, m) == Budget(config, s, c, m)
  {
    var s' := EnqueueFn(s, msg, k);
    EnqueueKeepsBounds(config, s, msg, k, c);
    assert s'.queues[c][..m] == s.queues[c][..m];
    assert s'.queues[c][1..m] == s'.queues[c][..m][1..] && s.queues[c][1..m] == s.queues[c][..m][1..];
  }

  ghost function Takes<T>(ops: seq<Op<T>>): nat {
    if ops == [] then 0 else (if ops[0].Take? then 1 else 0) + Takes(ops[1..])
  }

  lemma {:induction false} BudgetDrains<T>(config: Config, s: State<T>, ops: seq<Op<T>>, c: Class, m: nat)
    requires s.Valid(config) && Labelled(s) && m <= |s.queues[c]| && config.TurnQuantum(c) > 0
    requires m > 0 ==> Takes(ops) > Budget(config, s, c, m)
    ensures |Left(Exec(config, s, ops).1, c)| >= m
    decreases |ops|
  {
    if m > 0 {
      if ops[0].Put? {
        PutSpendsNothing(config, s, ops[0].m, ops[0].c, c, m);
        EnqueueKeeps(config, s, ops[0].m, ops[0].c, c);
        BudgetDrains(config, EnqueueFn(s, ops[0].m, ops[0].c), ops[1..], c, m);
      } else {
        var d := TakeFn(config, s);
        TakeSpends(config, s, c, m);
        BudgetDrains(config, d.0, ops[1..], c, if Skips(d, c) then m else m - 1);
        LeftCons(d.1, Exec(config, d.0, ops[1..]).1, c);
        assert [d.1][1..] == [];
      }
    }
  }

  /** Everything that waits gets out, in order: after that many calls, however many messages
      arrive meanwhile, the whole queue of the class has been returned. */
  lemma QueueDrains<T>(config: Config, s: State<T>, ops: seq<Op<T>>, c: Class)
    requires s.Valid(config) && Labelled(s) && config.TurnQuantum(c) > 0
    requires Takes(ops) >= QueueCost(config, c, s.queues[c])
    ensures s.queues[c] <= Left(Exec(config, s, ops).1, c)
  {
    var m := |s.queues[c]|;
    if m > 0 {
      BudgetAtMost(config, s, c, m);
      assert s.queues[c][..m] == s.queues[c];
    }
    BudgetDrains(config, s, ops, c, m);
    ClassIsFifo(config, s, ops, c);
    var left, end := Left(Exec(config, s, ops).1, c), Exec(config, s, ops).0.queues[c];
    assert (left + end)[..m] == left[..m] && (s.queues[c] + Entered(ops, c))[..m] == s.queues[c];
  }

  /** A positive quantum is also necessary: a head that its counter does not cover
      is never returned by a class whose quantum is zero. */
  lemma {:induction false} ZeroQuantumStarves<T>(config: Config, s: State<T>, ops: seq<Op<T>>, c: Class)
    requires s.Valid(config) && s.queues[c] != [] && config.TurnQuantum(c) == 0
    requires s.deficits[c] < s.queues[c][0].size
    ensures Left(Exec(config, s, ops).1, c) == []
    decreases |ops|
  {
    if ops == [] {
    } else if ops[0].Put? {
      var s' := EnqueueFn(s, ops[0].m, ops[0].c);
      assert s'.Valid(config) && s'.queues[c][0] == s.queues[c][0];
      ZeroQuantumStarves(config, s', ops[1..], c);
    } else {
      var d := TakeFn(config, s);
      ZeroQuantumTake(config, s, |s.queues|, c);
      ZeroQuantumStarves(config, d.0, ops[1..], c);
      LeftCons(d.1, Exec(config, d.0, ops[1..]).1, c);
      assert [d.1][1..] == [];
    }
  }

  lemma {:induction false} ZeroQuantumTake<T>(config: Config, s: State<T>, visits: nat, c: Class)
    requires s.Valid(config) && s.queues[c] != [] && config.TurnQuantum(c) == 0
    requires s.deficits[c] < s.queues[c][0].size
    ensures var d := DequeueFn(config, s, visits);
            && d.0.Valid(config) && d.0.queues[c] == s.queues[c] && d.0.deficits[c] == s.deficits[c]
            && (d.1.Some? ==> d.1.value.class_ != c)
    decreases visits
  {
    if visits > 0 {
      if Serves(config, s) {
        ServeKeepsValid(config, s);
      } else {
        PassKeepsValid(config, s);
        ZeroQuantumTake(config, PassFn(config, s), visits - 1, c);
      }
    }
  }

  // ------------------------------------------ plain weighted round robin

  /** The reference: each class returns up to its weight in messages per turn. */
  datatype RoundRobin<T> = RoundRobin(queues: seq<seq<Message<T>>>, current: Class, taken: nat)

  ghost function RrTake<T>(weights: seq<nat>, w: RoundRobin<T>, visits: nat): (r: (RoundRobin<T>, Option<Message<T>>))
    requires |weights| == 3 && |w.queues| == 3
    ensures |r.0.queues| == 3
    decreases visits
  {
    var c := w.current;
    if visits == 0 then (w, None)
    else if w.queues[c] == [] then RrTake(weights, RoundRobin(w.queues, Next(c), 0), visits - 1)
    else
      var queues := w.queues[c := w.queues[c][1..]];
      var turnOver := queues[c] == [] || w.taken + 1 >= weights[c];
      (if turnOver then RoundRobin(queues, Next(c), 0) else RoundRobin(queues, c, w.taken + 1),
       Some(w.queues[c][0].(class_ := c)))
  }

  ghost function RrExec<T>(weights: seq<nat>, w: RoundRobin<T>, ops: seq<Op<T>>): seq<Option<Message<T>>>
    requires |weights| == 3 && |w.queues| == 3
    decreases |ops|
  {
    if ops == [] then []
    else
      match ops[0]
      case Put(m, c) =>
        RrExec(weights, w.(queues := w.queues[c := w.queues[c] + [m.(class_ := c)]]), ops[1..])
      case Take =>
        var d := RrTake(weights, w, |w.queues|);
        [d.1] + RrExec(weights, d.0, ops[1..])
  }

  ghost function Abstract<T>(s: State<T>): RoundRobin<T>
    requires s.Shaped()
  {
    RoundRobin(s.queues, s.current, s.served[s.current])
  }

  ghost predicate AllWithin<T>(queue: seq<Message<T>>, quantum: nat) {
    forall i | 0 <= i < |queue| :: queue[i].size <= quantum
  }

  /** Every message fits one quantum, so a class in mid-turn can still pay for
      everything its burst allows. */
  ghost predicate Fair<T>(config: Config, s: State<T>) {
    && s.Valid(config)
    && config.quantum > 0
    && (forall c | 0 <= c < 3 :: config.weights[c] > 0 && AllWithin(s.queues[c], config.quantum))
    && (!s.addQuantum[s.current] ==>
          s.deficits[s.current] >= Times(config.weights[s.current] - s.served[s.current], config.quantum))
  }

  /** At a visit, the counter covers the rest of the burst. */
  lemma ToppedCoversBurst<T>(config: Config, s: State<T>)
    requires Fair(config, s)
    ensures s.served[s.current] < config.weights[s.current]
    ensures Topped(config, s) >= Times(config.weights[s.current] - s.served[s.current], config.quantum)
  {
    if s.addQuantum[s.current] {
      TimesIsProduct(config.weights[s.current], config.quantum);
    }
  }

  lemma FairServe<T>(config: Config, s: State<T>)
    requires Fair(config, s) && s.queues[s.current] != []
    ensures Serves(config, s)
    ensures Fair(config, ServeFn(config, s))
    ensures var c := s.current;
            var s' := ServeFn(config, s);
            var turnOver := s.queues[c][1..] == [] || s.served[c] + 1 >= config.weights[c];
            Abstract(s') == if turnOver then RoundRobin(s'.queues, Next(c), 0)
                            else RoundRobin(s'.queues, c, s.served[c] + 1)
  {
    var c := s.current;
    ToppedCoversBurst(config, s);
    assert s.queues[c][0].size <= config.quantum;
    ServeKeepsValid(config, s);
    var s' := ServeFn(config, s);
    assert forall k | 0 <= k < 3 :: AllWithin(s'.queues[k], config.quantum);
  }

  lemma FairPass<T>(config: Config, s: State<T>)
    requires Fair(config, s) && s.queues[s.current] == []
    ensures Fair(config, PassFn(config, s))
    ensures Abstract(PassFn(config, s)) == RoundRobin(s.queues, Next(s.current), 0)
  {
    PassKeepsValid(config, s);
  }

  lemma {:induction false} FairDequeue<T>(config: Config, s: State<T>, visits: nat)
    requires Fair(config, s)
    ensures var d := DequeueFn(config, s, visits);
            && Fair(config, d.0)
            && (Abstract(d.0), d.1) == RrTake(config.weights, Abstract(s), visits)
    decreases visits
  {
    if visits == 0 {
    } else if s.queues[s.current] != [] {
      FairServe(config, s);
    } else {
      FairPass(config, s);
      FairDequeue(config, PassFn(config, s), visits - 1);
    }
  }

  ghost predicate PutsWithin<T>(ops: seq<Op<T>>, quantum: nat) {
    forall i | 0 <= i < |ops| && ops[i].Put? :: ops[i].m.size <= quantum
  }

  /** When every message fits one quantum and all weights are positive, the
      deficit scheduler returns exactly what weighted round robin by message
      count returns, call by call, in every run. */
  lemma {:induction false} IsWeightedRoundRobin<T>(config: Config, s: State<T>, ops: seq<Op<T>>)
    requires Fair(config, s) && PutsWithin(ops, config.quantum)
    ensures Exec(config, s, ops).1 == RrExec(config.weights, Abstract(s), ops)
    decreases |ops|
  {
    if ops == [] {
    } else if ops[0].Put? {
      var s' := EnqueueFn(s, ops[0].m, ops[0].c);
      FairEnqueue(config, s, ops[0].m, ops[0].c);
      IsWeightedRoundRobin(config, s', ops[1..]);
    } else {
      FairDequeue(config, s, |s.queues|);
      IsWeightedRoundRobin(config, TakeFn(config, s).0, ops[1..]);
    }
  }

  lemma FairEnqueue<T>(config: Config, s: State<T>, m: Message<T>, c: Class)
    requires Fair(config, s) && m.size <= config.quantum
    ensures Fair(config, EnqueueFn(s, m, c))
  {
    var s' := EnqueueFn(s, m, c);
    assert forall k | 0 <= k < 3 :: AllWithin(s'.queues[k], config.quantum);
  }

  /** Such a scheduler returns None only when it is empty, whereas in general a
      call may return None with messages waiting (see `NoneWhileWaiting`). */
  lemma FairNeverIdles<T>(config: Config, s: State<T>)
    requires Fair(config, s)
    ensures TakeFn(config, s).1.None? <==> forall c | 0 <= c < 3 :: s.queues[c] == []
  {
    FairDequeue(config, s, |s.queues|);
    RrNoneIffEmpty(config.weights, Abstract(s), |s.queues|);
  }

  lemma {:induction false} RrNoneIffEmpty<T>(weights: seq<nat>, w: RoundRobin<T>, visits: nat)
    requires |weights| == 3 && |w.queues| == 3 && visits <= 3
    ensures RrTake(weights, w, visits).1.None?
            <==> forall c: Class | Distance(w.current, c) < visits :: w.queues[c] == []
    decreases visits
  {
    if visits == 0 {
    } else if w.queues[w.current] == [] {
      var w' := RoundRobin(w.queues, Next(w.current), 0);
      RrNoneIffEmpty(weights, w', visits - 1);
      assert forall c: Class :: Distance(w.current, c) < visits <==>
               c == w.current || Distance(w'.current, c) < visits - 1;
    } else {
      assert Distance(w.current, w.current) == 0;
    }
  }

  /** The counter of `c` covers the message at the head of its queue. */
  ghost predicate Affords<T>(config: Config, s: State<T>, c: Class)
    requires config.Valid() && s.Shaped()
  {
    s.queues[c] != [] && Counter(config, s, c) >= s.queues[c][0].size
  }

  /** The classes still to be visited, in rotation order from the current one. */
  lemma {:induction false} DequeueServesFirstAffordable<T>(config: Config, s: State<T>, visits: nat)
    requires config.Valid() && s.Shaped() && visits <= 3
    ensures var r := DequeueFn(config, s, visits).1;
            && (r.None? <==> forall c: Class | Distance(s.current, c) < visits :: !Affords(config, s, c))
            && (r.Some? ==>
                  && Affords(config, s, r.value.class_)
                  && r.value == s.queues[r.value.class_][0].(class_ := r.value.class_)
                  && forall c: Class | Distance(s.current, c) < Distance(s.current, r.value.class_) ::
                       !Affords(config, s, c))
    decreases visits
  {
    assert forall c: Class :: Distance(s.current, c) == 0 <==> c == s.current;
    if visits > 0 && !Serves(config, s) {
      var s' := PassFn(config, s);
      DequeueServesFirstAffordable(config, s', visits - 1);
      assert forall c: Class | c != s.current ::
               Affords(config, s', c) == Affords(config, s, c) && Distance(s.current, c) == Distance(s'.current, c) + 1;
      assert Distance(s'.current, s.current) == 2;
    }
  }

  /** A call returns None exactly when no class can pay for its head out of its counter and
      the quantum it is due; otherwise it returns the head of the first class, from the
      current one on, that can. */
  lemma NoneIffNothingAffordable<T>(config: Config, s: State<T>)
    requires config.Valid() && s.Shaped()
    ensures var r := TakeFn(config, s).1;
            && (r.None? <==> forall c: Class | s.queues[c] != [] :: Counter(config, s, c) < s.queues[c][0].size)
            && (r.Some? ==>
                  && Affords(config, s, r.value.class_)
                  && r.value == s.queues[r.value.class_][0].(class_ := r.value.class_)
                  && forall c: Class | Distance(s.current, c) < Distance(s.current, r.value.class_) ::
                       !Affords(config, s, c))
  {
    DequeueServesFirstAffordable(config, s, |s.queues|);
    assert forall c: Class :: Distance(s.current, c) < 3;
  }

  /** With the default weights and quantum, one message of 1025 bytes in the lowest class
      makes the first call return None. */
  lemma NoneWhileWaiting()
    ensures var config := Config([4, 2, 1], 1024);
            var s := EnqueueFn(Initial<()>(), Message(2, 1025, ()), 2);
            s.Valid(config) && s.queues[2] != [] && DequeueFn(config, s, 3).1 == None
  {
    var config := Config([4, 2, 1], 1024);
    var s := EnqueueFn(Initial<()>(), Message(2, 1025, ()), 2);
    var s1 := PassFn(config, s);
    var s2 := PassFn(config, s1);
    assert !Serves(config, s) && !Serves(config, s1) && !Serves(config, s2);
  }
}
