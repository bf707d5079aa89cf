/**
 `WalDurabilityCoordinator` and `RealWalSink` of
 crates/chirps-raft-storage/src/wal_storage.rs, as atomic steps of concurrent sinks.

 A sink's methods borrow it exclusively, so each sink is in at most one call at a time
 and stands for the thread making it.  Each lock-protected block and each atomic flag
 access is one step.
 */
module Durability {
  import opened Prelude

  /** Where a barrier's leader is: about to take the participant list, walking it and
      swapping dirty flags, syncing the collected files, or returning an error. */
  datatype Phase = Entered | Collecting(next: nat, todo: seq<nat>) | Flushing(todo: seq<nat>) | Failed

  datatype Pc =
    | Idle
    | Wrote                                           // record written, dirty flag not stored yet
    | Waiting(joined: nat)                            // blocked on the generation it saw
    | Leading(generation: nat, phase: Phase)

  /** One WAL file: records written, records durable, the dirty flag, whether it is still
      open, and what its owner is doing. */
  datatype Sink = Sink(written: nat, synced: nat, dirty: bool, open: bool, pc: Pc) {
    /** Appends that have stored the dirty flag. */
    function Completed(): int {
      if pc.Wrote? then written - 1 else written
    }
  }

  datatype State = State(sinks: map<nat, Sink>, participants: seq<nat>, syncing: bool, generation: nat, failed: bool)

  const START := State(map[], [], false, 0, false)

  datatype Step =
    | Register(p: nat)
    | Drop(p: nat)
    | Write(p: nat)
    | Store(p: nat)
    | EnterSync(p: nat)
    | StartCollect(p: nat)
    | Swap(p: nat)
    | EndCollect(p: nat)
    | Flush(p: nat, ok: bool)
    | Finish(p: nat)
    | Return(p: nat)

  function Set(s: State, p: nat, sink: Sink): State {
    s.(sinks := s.sinks[p := sink])
  }

  function Retained(participants: seq<nat>, sinks: map<nat, Sink>): seq<nat> {
    if participants == [] then []
    else
      var init, last := Retained(participants[..|participants| - 1], sinks), participants[|participants| - 1];
      if last in sinks && sinks[last].open then init + [last] else init
  }

  /** Who may take which step now. */
  ghost predicate Enabled(s: State, step: Step) {
    match step
    case Register(p) =>
      p !in s.sinks && forall q | q in s.sinks :: !(s.sinks[q].pc.Leading? && s.sinks[q].pc.phase.Collecting?)
    case Drop(p) => p in s.sinks && s.sinks[p].open && s.sinks[p].pc.Idle?
    case Write(p) => p in s.sinks && s.sinks[p].open && s.sinks[p].pc.Idle?
    case Store(p) => p in s.sinks && s.sinks[p].pc.Wrote?
    case EnterSync(p) => p in s.sinks && s.sinks[p].open && s.sinks[p].pc.Idle?
    case StartCollect(p) => p in s.sinks && s.sinks[p].pc.Leading? && s.sinks[p].pc.phase.Entered?
    case Swap(p) =>
      && p in s.sinks && s.sinks[p].pc.Leading? && s.sinks[p].pc.phase.Collecting?
      && s.sinks[p].pc.phase.next < |s.participants|
      && s.participants[s.sinks[p].pc.phase.next] in s.sinks
    case EndCollect(p) =>
      && p in s.sinks && s.sinks[p].pc.Leading? && s.sinks[p].pc.phase.Collecting?
      && s.sinks[p].pc.phase.next >= |s.participants|
    case Flush(p, _) =>
      && p in s.sinks && s.sinks[p].pc.Leading? && s.sinks[p].pc.phase.Flushing?
      && s.sinks[p].pc.phase.todo != [] && s.sinks[p].pc.phase.todo[0] in s.sinks
    case Finish(p) =>
      && p in s.sinks && s.sinks[p].pc.Leading?
      && (s.sinks[p].pc.phase == Flushing([]) || s.sinks[p].pc.phase.Failed?)
    case Return(p) =>
      p in s.sinks && s.sinks[p].pc.Waiting? && !s.syncing && s.generation != s.sinks[p].pc.joined
  }

  function AtPhase(sink: Sink, phase: Phase): Sink
    requires sink.pc.Leading?
  {
    sink.(pc := Leading(sink.pc.generation, phase))
  }

  /** The leader `p` looks at the participant at its position: gone ones leave the list,
      dirty ones are marked clean and collected. */
  ghost function SwapFn(s: State, p: nat): State
    requires Enabled(s, Swap(p))
  {
    var i, todo := s.sinks[p].pc.phase.next, s.sinks[p].pc.phase.todo;
    var q := s.participants[i];
    if !s.sinks[q].open then
      s.(participants := s.participants[..i] + s.participants[i + 1..])
    else if !s.sinks[q].dirty then
      Set(s, p, AtPhase(s.sinks[p], Collecting(i + 1, todo)))
    else
      Collect(s, p, q, Collecting(i + 1, todo + [q]))
  }

  function Collect(s: State, p: nat, q: nat, phase: Phase): State
    requires p in s.sinks && s.sinks[p].pc.Leading? && q in s.sinks
  {
    var s' := Set(s, q, s.sinks[q].(dirty := false));
    Set(s', p, AtPhase(s'.sinks[p], phase))
  }

  /** The leader syncs the next collected file, or fails: that file is marked dirty
      again and the rest of the list is abandoned. */
  ghost function FlushFn(s: State, p: nat, ok: bool): State
    requires Enabled(s, Flush(p, ok))
  {
    var todo := s.sinks[p].pc.phase.todo;
    var q := todo[0];
    if ok then
      var s' := Set(s, q, s.sinks[q].(synced := s.sinks[q].written));
      Set(s', p, AtPhase(s'.sinks[p], Flushing(todo[1..])))
    else
      var s' := Set(s, q, s.sinks[q].(dirty := true));
      Set(s', p, AtPhase(s'.sinks[p], Failed))
  }

  ghost function Do(s: State, step: Step): State
    requires Enabled(s, step)
  {
    match step
    case Register(p) =>
      s.(sinks := s.sinks[p := Sink(0, 0, false, true, Idle)], participants := Retained(s.participants, s.sinks) + [p])
    case Drop(p) => Set(s, p, s.sinks[p].(open := false))
    case Write(p) => Set(s, p, s.sinks[p].(written := s.sinks[p].written + 1, pc := Wrote))
    case Store(p) => Set(s, p, s.sinks[p].(dirty := true, pc := Idle))
    case EnterSync(p) =>
      if s.syncing then Set(s, p, s.sinks[p].(pc := Waiting(s.generation)))
      else Set(s, p, s.sinks[p].(pc := Leading(s.generation + 1, Entered))).(syncing := true)
    case StartCollect(p) => Set(s, p, AtPhase(s.sinks[p], Collecting(0, [])))
    case Swap(p) => SwapFn(s, p)
    case EndCollect(p) => Set(s, p, AtPhase(s.sinks[p], Flushing(s.sinks[p].pc.phase.todo)))
    case Flush(p, ok) => FlushFn(s, p, ok)
    case Finish(p) =>
      Set(s, p, s.sinks[p].(pc := Idle))
      .(syncing := false, generation := s.sinks[p].pc.generation, failed := s.sinks[p].pc.phase.Failed?)
    case Return(p) => Set(s, p, s.sinks[p].(pc := Idle))
  }

  // ------------------------------------------------------------------ runs

  /** A schedule may name any step; one that is not enabled does nothing. */
  ghost function Next(s: State, step: Step): State {
    if Enabled(s, step) then Do(s, step) else s
  }

  ghost function Run(s: State, steps: seq<Step>): State {
    if steps == [] then s else Next(Run(s, steps[..|steps| - 1]), steps[|steps| - 1])
  }

  ghost predicate FailureFree(steps: seq<Step>) {
    forall i | 0 <= i < |steps| :: !(steps[i].Flush? && !steps[i].ok)
  }

  /** Barriers completed along a schedule. */
  ghost function Barriers(s: State, steps: seq<Step>): nat {
    if steps == [] then 0
    else
      var init, last := steps[..|steps| - 1], steps[|steps| - 1];
      Barriers(s, init) + if last.Finish? && Enabled(Run(s, init), last) then 1 else 0
  }

  // ------------------------------------------------------------------ invariant

  predicate Leads(s: State, p: nat) {
    p in s.sinks && s.sinks[p].pc.Leading?
  }

  ghost predicate OneLeader(s: State) {
    && (forall p, q | Leads(s, p) && Leads(s, q) :: p == q)
    && (s.syncing <==> exists p :: Leads(s, p))
    && (forall p | Leads(s, p) :: s.sinks[p].pc.generation == s.generation + 1)
  }

  /** Durable records were written, a sink in a call is open, and a blocked waiter joined a
      barrier that is still running or may return. */
  ghost predicate SinkOk(s: State, sink: Sink) {
    && sink.synced <= sink.written
    && (sink.pc.Idle? || sink.open)
    && (sink.pc.Wrote? ==> sink.written > 0)
    && (sink.pc.Waiting? ==> sink.pc.joined <= s.generation && (sink.pc.joined == s.generation ==> s.syncing))
  }

  /** Open sinks are listed once, and everything listed exists. */
  ghost predicate Listed(s: State) {
    && (forall i, j | 0 <= i < j < |s.participants| :: s.participants[i] != s.participants[j])
    && (forall i | 0 <= i < |s.participants| :: s.participants[i] in s.sinks)
    && (forall p | p in s.sinks && s.sinks[p].open :: p in s.participants)
  }

  ghost predicate Inv(s: State) {
    && OneLeader(s)
    && Listed(s)
    && forall q | q in s.sinks :: SinkOk(s, s.sinks[q])
  }

  /** The files the leader `p` has collected and not yet synced. */
  function Todo(s: State, p: nat): seq<nat>
    requires Leads(s, p)
  {
    match s.sinks[p].pc.phase
    case Collecting(_, todo) => todo
    case Flushing(todo) => todo
    case _ => []
  }

  ghost predicate Collected(s: State, q: nat) {
    exists p :: Leads(s, p) && q in Todo(s, p)
  }

  /** A completed append that is not durable is marked dirty or about to be synced. */
  ghost predicate Covered(s: State, q: nat) {
    q in s.sinks && (s.sinks[q].Completed() <= s.sinks[q].synced || s.sinks[q].dirty || Collected(s, q))
  }

  // ------------------------------------------------------------------ every step keeps it

  /** Same role, and for a leader the same generation. */
  ghost predicate SameRole(a: Sink, b: Sink) {
    a.pc.Leading? == b.pc.Leading? && (a.pc.Leading? ==> a.pc.generation == b.pc.generation)
  }

  lemma SetKeepsLeader(s: State, p: nat, sink: Sink)
    requires OneLeader(s) && p in s.sinks && SameRole(s.sinks[p], sink)
    ensures OneLeader(Set(s, p, sink))
  {
    assert forall q :: Leads(Set(s, p, sink), q) <==> Leads(s, q);
  }

  lemma LeaderEnters(s: State, p: nat)
    requires OneLeader(s) && !s.syncing && Enabled(s, EnterSync(p))
    ensures OneLeader(Do(s, EnterSync(p)))
  {
    var s' := Do(s, EnterSync(p));
    assert forall q :: !Leads(s, q);
    assert Leads(s', p);
    assert forall q | q != p :: Leads(s', q) <==> Leads(s, q);
  }

  lemma LeaderFinishes(s: State, p: nat)
    requires OneLeader(s) && Enabled(s, Finish(p))
    ensures OneLeader(Do(s, Finish(p)))
  {
    var s' := Do(s, Finish(p));
    assert Leads(s, p) && !Leads(s', p);
    assert forall q | q != p :: Leads(s', q) <==> Leads(s, q);
    assert forall q | Leads(s, q) :: q == p;
  }

  lemma RegisterKeepsLeader(s: State, p: nat)
    requires OneLeader(s) && Enabled(s, Register(p))
    ensures OneLeader(Do(s, Register(p)))
  {
    assert forall q :: Leads(Do(s, Register(p)), q) <==> Leads(s, q);
  }

  lemma UnlistKeepsLeader(s: State, participants: seq<nat>)
    requires OneLeader(s)
    ensures OneLeader(s.(participants := participants))
  {
    assert forall r :: Leads(s.(participants := participants), r) <==> Leads(s, r);
  }

  lemma SwapKeepsLeader(s: State, p: nat)
    requires OneLeader(s) && Enabled(s, Swap(p))
    ensures OneLeader(SwapFn(s, p))
  {
    var i, todo := s.sinks[p].pc.phase.next, s.sinks[p].pc.phase.todo;
    var q := s.participants[i];
    if !s.sinks[q].open {
      UnlistKeepsLeader(s, SwapFn(s, p).participants);
    } else if !s.sinks[q].dirty {
      SetKeepsLeader(s, p, AtPhase(s.sinks[p], Collecting(i + 1, todo)));
    } else {
      CollectKeepsLeader(s, p, q, Collecting(i + 1, todo + [q]));
    }
  }

  lemma CollectKeepsLeader(s: State, p: nat, q: nat, phase: Phase)
    requires OneLeader(s) && Leads(s, p) && q in s.sinks
    ensures OneLeader(Collect(s, p, q, phase))
  {
    var s' := Set(s, q, s.sinks[q].(dirty := false));
    SetKeepsLeader(s, q, s.sinks[q].(dirty := false));
    SetKeepsLeader(s', p, AtPhase(s'.sinks[p], phase));
  }

  lemma FlushKeepsLeader(s: State, p: nat, ok: bool)
    requires OneLeader(s) && Enabled(s, Flush(p, ok))
    ensures OneLeader(FlushFn(s, p, ok))
  {
    var todo := s.sinks[p].pc.phase.todo;
    var q := todo[0];
    var sink := if ok then s.sinks[q].(synced := s.sinks[q].written) else s.sinks[q].(dirty := true);
    SetKeepsLeader(s, q, sink);
    var s' := Set(s, q, sink);
    SetKeepsLeader(s', p, AtPhase(s'.sinks[p], if ok then Flushing(todo[1..]) else Failed));
  }

  lemma StepKeepsLeader(s: State, step: Step)
    requires OneLeader(s) && Enabled(s, step)
    ensures OneLeader(Do(s, step))
  {
    match step {
      case Register(p) => RegisterKeepsLeader(s, p);
      case Finish(p) => LeaderFinishes(s, p);
      case Swap(p) => SwapKeepsLeader(s, p);
      case Flush(p, ok) => FlushKeepsLeader(s, p, ok);
      case EnterSync(p) =>
        if s.syncing {
          SetKeepsLeader(s, p, Do(s, step).sinks[p]);
        } else {
          LeaderEnters(s, p);
        }
      case _ => SetKeepsLeader(s, step.p, Do(s, step).sinks[step.p]);
    }
  }

  lemma GenerationMoves(s: State, step: Step)
    requires OneLeader(s)
    ensures Next(s, step).generation == if step.Finish? && Enabled(s, step) then s.generation + 1 else s.generation
  {
    if step.Finish? && Enabled(s, step) {
      assert Leads(s, step.p);
    }
  }

  lemma SwapKeepsSink(s: State, p: nat, q: nat)
    requires Enabled(s, Swap(p)) && q in s.sinks && SinkOk(s, s.sinks[q])
    ensures q in SwapFn(s, p).sinks && SinkOk(SwapFn(s, p), SwapFn(s, p).sinks[q])
  {
  }

  lemma FlushKeepsSink(s: State, p: nat, ok: bool, q: nat)
    requires Enabled(s, Flush(p, ok)) && q in s.sinks && SinkOk(s, s.sinks[q])
    ensures q in FlushFn(s, p, ok).sinks && SinkOk(FlushFn(s, p, ok), FlushFn(s, p, ok).sinks[q])
  {
  }

  lemma FinishKeepsSink(s: State, p: nat, q: nat)
    requires OneLeader(s) && Enabled(s, Finish(p)) && q in s.sinks && SinkOk(s, s.sinks[q])
    ensures q in Do(s, Finish(p)).sinks && SinkOk(Do(s, Finish(p)), Do(s, Finish(p)).sinks[q])
  {
    assert Leads(s, p);
  }

  lemma LocalStepKeepsSink(s: State, step: Step, q: nat)
    requires Enabled(s, step) && !step.Finish? && !step.Swap? && !step.Flush?
    requires q in s.sinks && SinkOk(s, s.sinks[q])
    ensures q in Do(s, step).sinks && SinkOk(Do(s, step), Do(s, step).sinks[q])
  {
  }

  lemma StepKeepsSink(s: State, step: Step, q: nat)
    requires OneLeader(s) && Enabled(s, step)
    requires q in s.sinks && SinkOk(s, s.sinks[q])
    ensures q in Do(s, step).sinks && SinkOk(Do(s, step), Do(s, step).sinks[q])
  {
    match step {
      case Finish(p) => FinishKeepsSink(s, p, q);
      case Swap(p) => SwapKeepsSink(s, p, q);
      case Flush(p, ok) => FlushKeepsSink(s, p, ok, q);
      case _ => LocalStepKeepsSink(s, step, q);
    }
  }

  lemma {:induction false} RetainedMeaning(participants: seq<nat>, sinks: map<nat, Sink>)
    requires forall i, j | 0 <= i < j < |participants| :: participants[i] != participants[j]
    ensures var r := Retained(participants, sinks);
            && (forall i, j | 0 <= i < j < |r| :: r[i] != r[j])
            && (forall p :: p in r <==> p in participants && p in sinks && sinks[p].open)
  {
    if participants != [] {
      var init, last := participants[..|participants| - 1], participants[|participants| - 1];
      RetainedMeaning(init, sinks);
      assert participants == init + [last];
    }
  }

  lemma SetKeepsListed(s: State, p: nat, sink: Sink)
    requires Listed(s) && p in s.sinks && (sink.open ==> s.sinks[p].open)
    ensures Listed(Set(s, p, sink))
  {
  }

  lemma RegisterKeepsListed(s: State, p: nat)
    requires Listed(s) && Enabled(s, Register(p))
    ensures Listed(Do(s, Register(p)))
  {
    RetainedMeaning(s.participants, s.sinks);
    var r := Retained(s.participants, s.sinks);
    assert p !in r;
    forall i | 0 <= i < |r|
      ensures r[i] in s.sinks
    {
      assert r[i] in r;
    }
  }

  lemma UnlistKeepsListed(s: State, i: nat)
    requires Listed(s) && i < |s.participants| && !s.sinks[s.participants[i]].open
    ensures Listed(s.(participants := s.participants[..i] + s.participants[i + 1..]))
  {
    var rest := s.participants[..i] + s.participants[i + 1..];
    forall p | p in s.sinks && s.sinks[p].open
      ensures p in rest
    {
      var k :| 0 <= k < |s.participants| && s.participants[k] == p;
      assert p == rest[if k < i then k else k - 1];
    }
  }

  lemma SwapKeepsListed(s: State, p: nat)
    requires Listed(s) && Enabled(s, Swap(p))
    ensures Listed(SwapFn(s, p))
  {
    var i, todo := s.sinks[p].pc.phase.next, s.sinks[p].pc.phase.todo;
    var q := s.participants[i];
    if !s.sinks[q].open {
      UnlistKeepsListed(s, i);
    } else if !s.sinks[q].dirty {
      SetKeepsListed(s, p, AtPhase(s.sinks[p], Collecting(i + 1, todo)));
    } else {
      var s' := Set(s, q, s.sinks[q].(dirty := false));
      SetKeepsListed(s, q, s.sinks[q].(dirty := false));
      SetKeepsListed(s', p, AtPhase(s'.sinks[p], Collecting(i + 1, todo + [q])));
    }
  }

  lemma FlushKeepsListed(s: State, p: nat, ok: bool)
    requires Listed(s) && Enabled(s, Flush(p, ok))
    ensures Listed(FlushFn(s, p, ok))
  {
    var todo := s.sinks[p].pc.phase.todo;
    var q := todo[0];
    var sink := if ok then s.sinks[q].(synced := s.sinks[q].written) else s.sinks[q].(dirty := true);
    SetKeepsListed(s, q, sink);
    var s' := Set(s, q, sink);
    SetKeepsListed(s', p, AtPhase(s'.sinks[p], if ok then Flushing(todo[1..]) else Failed));
  }

  lemma StepKeepsListed(s: State, step: Step)
    requires Listed(s) && Enabled(s, step)
    ensures Listed(Do(s, step))
  {
    match step {
      case Register(p) => RegisterKeepsListed(s, p);
      case Swap(p) => SwapKeepsListed(s, p);
      case Flush(p, ok) => FlushKeepsListed(s, p, ok);
      case _ => SetKeepsListed(s, step.p, Do(s, step).sinks[step.p]);
    }
  }

  lemma StepKeepsInv(s: State, step: Step)
    requires Inv(s)
    ensures Inv(Next(s, step))
  {
    if Enabled(s, step) {
      var s' := Do(s, step);
      StepKeepsLeader(s, step);
      StepKeepsListed(s, step);
      forall q | q in s'.sinks
        ensures SinkOk(s', s'.sinks[q])
      {
        if q in s.sinks {
          StepKeepsSink(s, step, q);
        } else {
          OnlyRegisterAdds(s, step, q);
        }
      }
    }
  }

  lemma OnlyRegisterAdds(s: State, step: Step, q: nat)
    requires Enabled(s, step) && q !in s.sinks && q in Do(s, step).sinks
    ensures Do(s, step).sinks[q] == Sink(0, 0, false, true, Idle)
  {
  }

  /** In every schedule there is at most one leader, the gate says whether there is one,
      no waiter is left behind, and the generation counts the completed barriers. */
  lemma {:induction false} EveryRunIsSafe(steps: seq<Step>)
    ensures Inv(Run(START, steps))
    ensures Run(START, steps).generation == Barriers(START, steps)
  {
    if steps == [] {
      assert forall p :: !Leads(START, p);
    } else {
      var init, last := steps[..|steps| - 1], steps[|steps| - 1];
      EveryRunIsSafe(init);
      StepKeepsInv(Run(START, init), last);
      GenerationMoves(Run(START, init), last);
    }
  }

  // ------------------------------------------------------------------ nothing completed is forgotten

  /** What a step other than a failing sync does to a collected file. */
  lemma CollectedStays(s: State, step: Step, p: nat, q: nat)
    requires OneLeader(s) && Enabled(s, step) && !(step.Flush? && !step.ok)
    requires Leads(s, p) && q in s.sinks && q in Todo(s, p)
    ensures var s' := Do(s, step);
            && q in s'.sinks
            && ((Leads(s', p) && q in Todo(s', p)) || s'.sinks[q].synced == s'.sinks[q].written)
  {
    match step {
      case Swap(r) => assert Leads(s, r);
      case Flush(r, ok) => assert Leads(s, r);
      case Finish(r) => assert Leads(s, r);
      case StartCollect(r) => assert Leads(s, r);
      case EndCollect(r) => assert Leads(s, r);
      case _ =>
    }
  }

  /** What a step does to a dirty file. */
  lemma DirtyStays(s: State, step: Step, q: nat)
    requires Enabled(s, step) && q in s.sinks && s.sinks[q].dirty
    ensures var s' := Do(s, step);
            q in s'.sinks && (s'.sinks[q].dirty || Collected(s', q))
  {
    var s' := Do(s, step);
    match step {
      case Swap(p) =>
        if !s'.sinks[q].dirty {
          assert Leads(s', p) && q in Todo(s', p);
        }
      case Flush(p, ok) =>
      case _ =>
    }
  }

  /** What a step does to a file whose completed appends are durable. */
  lemma DurableStays(s: State, step: Step, q: nat)
    requires Enabled(s, step) && q in s.sinks && SinkOk(s, s.sinks[q])
    requires s.sinks[q].Completed() <= s.sinks[q].synced
    ensures var s' := Do(s, step);
            q in s'.sinks && (s'.sinks[q].Completed() <= s'.sinks[q].synced || s'.sinks[q].dirty)
  {
    match step {
      case Swap(p) =>
      case Flush(p, ok) =>
      case _ =>
    }
  }

  lemma StepKeepsCovered(s: State, step: Step, q: nat)
    requires Inv(s) && Covered(s, q) && !(step.Flush? && !step.ok)
    ensures Covered(Next(s, step), q)
  {
    if Enabled(s, step) {
      if s.sinks[q].dirty {
        DirtyStays(s, step, q);
      } else if s.sinks[q].Completed() <= s.sinks[q].synced {
        DurableStays(s, step, q);
      } else {
        var p :| Leads(s, p) && q in Todo(s, p);
        CollectedStays(s, step, p, q);
      }
    }
  }

  /** In every schedule without a failing sync, every completed append that is not durable
      belongs to a sink that is dirty or in the leader's list. */
  lemma {:induction false} NothingIsForgotten(steps: seq<Step>, q: nat)
    requires FailureFree(steps) && q in Run(START, steps).sinks
    ensures Covered(Run(START, steps), q)
  {
    if steps != [] {
      var init, last := steps[..|steps| - 1], steps[|steps| - 1];
      var s := Run(START, init);
      EveryRunIsSafe(init);
      if q in s.sinks {
        assert FailureFree(init);
        NothingIsForgotten(init, q);
        StepKeepsCovered(s, last, q);
      } else {
        OnlyRegisterAdds(s, last, q);
      }
    }
  }

  // ------------------------------------------------------------------ what a barrier promises

  /** The leader `l` has yet to look at `q` in this barrier. */
  ghost predicate Unvisited(s: State, l: nat, q: nat) {
    && Leads(s, l)
    && match s.sinks[l].pc.phase {
         case Entered => q in s.participants
         case Collecting(next, _) => next <= |s.participants| && q in s.participants[next..]
         case _ => false
       }
  }

  /** `l` leads the barrier that will set generation `g`. */
  ghost predicate LeadsTo(s: State, l: nat, g: nat) {
    Leads(s, l) && s.sinks[l].pc.generation == g
  }

  /** The first `n` records of `q` are durable, or will be if this barrier succeeds. */
  ghost predicate Secured(s: State, l: nat, q: nat, n: int)
    requires Leads(s, l)
  {
    && q in s.sinks
    && n <= s.sinks[q].written
    && (s.sinks[l].pc.phase.Failed? || n <= s.sinks[q].synced || q in Todo(s, l))
  }

  /** The same, or it will be secured when the leader looks at `q`, if that is still open. */
  ghost predicate Promised(s: State, l: nat, q: nat, n: int)
    requires Leads(s, l)
  {
    || Secured(s, l, q, n)
    || (q in s.sinks && n <= s.sinks[q].written
        && (!s.sinks[q].open || (s.sinks[q].dirty && Unvisited(s, l, q))))
  }

  lemma LeaderStays(s: State, step: Step, l: nat, g: nat)
    requires OneLeader(s) && LeadsTo(s, l, g)
    ensures LeadsTo(Next(s, step), l, g) || Next(s, step).generation == g
  {
  }

  /** A file is only reopened under a new name, and its counters never go down. */
  lemma SinkGrows(s: State, step: Step, q: nat)
    requires Enabled(s, step) && q in s.sinks && SinkOk(s, s.sinks[q])
    ensures q in Do(s, step).sinks && Grows(s.sinks[q], Do(s, step).sinks[q])
  {
    match step {
      case Swap(p) => SwapGrows(s, p, q);
      case Flush(p, ok) => FlushGrows(s, p, ok, q);
      case _ =>
    }
  }

  ghost predicate Grows(a: Sink, b: Sink) {
    a.synced <= b.synced && a.written <= b.written && (b.open ==> a.open)
  }

  lemma SwapGrows(s: State, p: nat, q: nat)
    requires Enabled(s, Swap(p)) && q in s.sinks
    ensures q in SwapFn(s, p).sinks && Grows(s.sinks[q], SwapFn(s, p).sinks[q])
  {
  }

  lemma FlushGrows(s: State, p: nat, ok: bool, q: nat)
    requires Enabled(s, Flush(p, ok)) && q in s.sinks && SinkOk(s, s.sinks[q])
    ensures q in FlushFn(s, p, ok).sinks && Grows(s.sinks[q], FlushFn(s, p, ok).sinks[q])
  {
  }

  lemma LaterOnes(list: seq<nat>, i: nat, q: nat)
    requires i < |list| && q in list[i..] && q != list[i]
    ensures q in list[i + 1..]
    ensures (list[..i] + list[i + 1..])[i..] == list[i + 1..]
  {
    var k :| 0 <= k < |list[i..]| && list[i..][k] == q;
    assert list[i + 1..][k - 1] == q;
  }

  lemma UnvisitedAfterSwap(s: State, l: nat, q: nat)
    requires Enabled(s, Swap(l)) && Unvisited(s, l, q) && q in s.sinks && s.sinks[q].dirty && s.sinks[q].open
    ensures var s' := SwapFn(s, l);
            Leads(s', l) && (q in Todo(s', l) || (s'.sinks[q].dirty && Unvisited(s', l, q)))
  {
    var i := s.sinks[l].pc.phase.next;
    if q == s.participants[i] {
      assert q in Todo(SwapFn(s, l), l);
    } else {
      LaterOnes(s.participants, i, q);
      SwapOther(s, l, q);
    }
  }

  /** Where the leader stands after a look: one further, or at the same place in a list
      that lost the entry. */
  lemma SwapMovesOn(s: State, l: nat)
    requires Enabled(s, Swap(l))
    requires var i := s.sinks[l].pc.phase.next;
             (s.participants[..i] + s.participants[i + 1..])[i..] == s.participants[i + 1..]
    ensures var s' := SwapFn(s, l);
            && Leads(s', l) && s'.sinks[l].pc.phase.Collecting?
            && s'.sinks[l].pc.phase.next <= |s'.participants|
            && s'.participants[s'.sinks[l].pc.phase.next..] == s.participants[s.sinks[l].pc.phase.next + 1..]
  {
  }

  lemma SwapSpares(s: State, l: nat, q: nat)
    requires Enabled(s, Swap(l)) && q in s.sinks && q != s.participants[s.sinks[l].pc.phase.next]
    ensures q in SwapFn(s, l).sinks && SwapFn(s, l).sinks[q].dirty == s.sinks[q].dirty
  {
  }

  lemma SwapOther(s: State, l: nat, q: nat)
    requires Enabled(s, Swap(l)) && q in s.sinks && s.sinks[q].dirty
    requires var i := s.sinks[l].pc.phase.next;
             && q != s.participants[i]
             && q in s.participants[i + 1..]
             && (s.participants[..i] + s.participants[i + 1..])[i..] == s.participants[i + 1..]
    ensures var s' := SwapFn(s, l); q in s'.sinks && s'.sinks[q].dirty && Unvisited(s', l, q)
  {
    SwapMovesOn(s, l);
    SwapSpares(s, l, q);
  }

  lemma UnvisitedAfterRegister(s: State, p: nat, l: nat, q: nat)
    requires Listed(s) && Enabled(s, Register(p)) && Unvisited(s, l, q) && q in s.sinks && s.sinks[q].open
    ensures Unvisited(Do(s, Register(p)), l, q)
  {
    RetainedMeaning(s.participants, s.sinks);
  }

  lemma UnvisitedStays(s: State, step: Step, l: nat, q: nat)
    requires OneLeader(s) && Listed(s) && Enabled(s, step) && LeadsTo(Do(s, step), l, s.generation + 1)
    requires Unvisited(s, l, q) && q in s.sinks && s.sinks[q].dirty && s.sinks[q].open
    ensures StillToCome(Do(s, step), l, q)
  {
    if step.Register? {
      UnvisitedAfterRegister(s, step.p, l, q);
    } else if step.Drop? || step.Write? || step.Store? || step.EnterSync? || step.Return? {
      OthersLeaveUnvisited(s, step, l, q);
    } else {
      assert Leads(s, step.p) && step.p == l;
      LeaderLeavesUnvisited(s, step, l, q);
    }
  }

  ghost predicate StillToCome(s: State, l: nat, q: nat) {
    Leads(s, l) && q in s.sinks && (q in Todo(s, l) || (s.sinks[q].dirty && Unvisited(s, l, q)))
  }

  lemma LeaderLeavesUnvisited(s: State, step: Step, l: nat, q: nat)
    requires Enabled(s, step) && Leads(Do(s, step), l) && step.p == l
    requires step.StartCollect? || step.Swap? || step.EndCollect? || step.Flush? || step.Finish?
    requires Unvisited(s, l, q) && q in s.sinks && s.sinks[q].dirty && s.sinks[q].open
    ensures StillToCome(Do(s, step), l, q)
  {
    if step.Swap? {
      UnvisitedAfterSwap(s, l, q);
    } else if step.StartCollect? {
      assert s.participants[0..] == s.participants;
    }
  }

  lemma OthersLeaveUnvisited(s: State, step: Step, l: nat, q: nat)
    requires Enabled(s, step) && Leads(s, l)
    requires step.Drop? || step.Write? || step.Store? || step.EnterSync? || step.Return?
    requires Unvisited(s, l, q) && q in s.sinks && s.sinks[q].dirty
    ensures var s' := Do(s, step); q in s'.sinks && s'.sinks[q].dirty && Unvisited(s', l, q)
  {
  }

  lemma FailedStays(s: State, step: Step, l: nat)
    requires OneLeader(s) && Enabled(s, step) && Leads(s, l) && Leads(Do(s, step), l) && s.sinks[l].pc.phase.Failed?
    ensures Do(s, step).sinks[l].pc.phase.Failed?
  {
  }

  lemma FlushFails(s: State, p: nat, l: nat)
    requires OneLeader(s) && Enabled(s, Flush(p, false)) && Leads(s, l)
    ensures Leads(FlushFn(s, p, false), l) && FlushFn(s, p, false).sinks[l].pc.phase.Failed?
  {
    assert Leads(s, p);
  }

  lemma SecuredStays(s: State, step: Step, l: nat, q: nat, n: int)
    requires Inv(s) && Leads(s, l) && LeadsTo(Next(s, step), l, s.generation + 1) && Secured(s, l, q, n)
    ensures Secured(Next(s, step), l, q, n)
  {
    if Enabled(s, step) {
      SinkGrows(s, step, q);
      if s.sinks[l].pc.phase.Failed? {
        FailedStays(s, step, l);
      } else if step.Flush? && !step.ok {
        FlushFails(s, step.p, l);
      } else if n > s.sinks[q].synced {
        CollectedStays(s, step, l, q);
      }
    }
  }

  lemma PromiseStays(s: State, step: Step, l: nat, q: nat, n: int)
    requires Inv(s) && Leads(s, l) && LeadsTo(Next(s, step), l, s.generation + 1) && Promised(s, l, q, n)
    ensures Promised(Next(s, step), l, q, n)
  {
    if Secured(s, l, q, n) {
      SecuredStays(s, step, l, q, n);
    } else if Enabled(s, step) {
      SinkGrows(s, step, q);
      if s.sinks[q].open {
        UnvisitedStays(s, step, l, q);
      }
    }
  }

  /** Along a schedule the barrier goes on with its promise, or is over. */
  lemma {:induction false} PromiseHolds(s: State, steps: seq<Step>, l: nat, q: nat, n: int)
    requires Inv(s) && Leads(s, l) && Promised(s, l, q, n)
    ensures var s' := Run(s, steps);
            && Inv(s')
            && s.generation <= s'.generation
            && (s'.generation == s.generation ==>
                  && LeadsTo(s', l, s.generation + 1)
                  && Promised(s', l, q, n)
                  && (Secured(s, l, q, n) ==> Secured(s', l, q, n)))
  {
    if steps != [] {
      var init, last := steps[..|steps| - 1], steps[|steps| - 1];
      var t := Run(s, init);
      PromiseHolds(s, init, l, q, n);
      StepKeepsInv(t, last);
      GenerationMoves(t, last);
      if Next(t, last).generation == s.generation {
        LeaderStays(t, last, l, s.generation + 1);
        PromiseStays(t, last, l, q, n);
        if Secured(t, l, q, n) {
          SecuredStays(t, last, l, q, n);
        }
      }
    }
  }

  /** `l` leads a barrier in `s` and is about to return Ok from it in `s'`. */
  ghost predicate EndsOk(s: State, s': State, l: nat) {
    Leads(s, l) && Leads(s', l) && s'.sinks[l].pc == Leading(s.sinks[l].pc.generation, Flushing([]))
  }

  /** A leader about to return Ok has made durable every append to an open file that was
      completed before the leader looked at that file, if the file was covered then; which
      it always is in a schedule without a failing sync (`NothingIsForgotten`). */
  lemma LeaderMakesDurable(before: seq<Step>, after: seq<Step>, l: nat, q: nat)
    requires var s := Run(START, before); Unvisited(s, l, q) && Covered(s, q)
    requires EndsOk(Run(START, before), Run(Run(START, before), after), l)
    ensures var s, s' := Run(START, before), Run(Run(START, before), after);
            q in s'.sinks && (s'.sinks[q].open ==> s.sinks[q].Completed() <= s'.sinks[q].synced)
  {
    var s := Run(START, before);
    EveryRunIsSafe(before);
    CoveredIsPromised(s, l, q);
    PromiseHolds(s, after, l, q, s.sinks[q].Completed());
  }

  lemma CoveredIsPromised(s: State, l: nat, q: nat)
    requires Inv(s) && Covered(s, q) && WillSync(s, l, q)
    ensures Promised(s, l, q, s.sinks[q].Completed())
  {
    if s.sinks[q].Completed() > s.sinks[q].synced && !s.sinks[q].dirty {
      var p :| Leads(s, p) && q in Todo(s, p);
      assert p == l;
    }
  }

  lemma {:induction false} RunsAreSafe(s: State, steps: seq<Step>)
    requires Inv(s)
    ensures Inv(Run(s, steps))
  {
    if steps != [] {
      RunsAreSafe(s, steps[..|steps| - 1]);
      StepKeepsInv(Run(s, steps[..|steps| - 1]), steps[|steps| - 1]);
    }
  }

  // ------------------------------------------------------------------ what a barrier leaves out

  /** The barrier will still sync `w`: `l` has not looked at it yet, or has collected it. */
  ghost predicate WillSync(s: State, l: nat, w: nat) {
    Leads(s, l) && (Unvisited(s, l, w) || w in Todo(s, l))
  }

  /** The barrier is past `w` without having collected it; `k` of its records are durable. */
  ghost predicate Passed(s: State, l: nat, w: nat, k: nat) {
    && Leads(s, l) && !WillSync(s, l, w)
    && !s.sinks[l].pc.phase.Entered?
    && w in s.sinks && s.sinks[w].synced == k
  }

  lemma NoneLater(list: seq<nat>, i: nat, w: nat)
    requires i < |list| && w !in list[i..]
    ensures w != list[i] && w !in list[i + 1..]
    ensures (list[..i] + list[i + 1..])[i..] == list[i + 1..]
  {
    assert list[i..] == [list[i]] + list[i + 1..];
  }

  lemma PassedAfterSwap(s: State, l: nat, w: nat, k: nat)
    requires Enabled(s, Swap(l)) && Passed(s, l, w, k)
    ensures Passed(SwapFn(s, l), l, w, k)
  {
    NoneLater(s.participants, s.sinks[l].pc.phase.next, w);
    SwapPasses(s, l, w);
  }

  lemma SwapPasses(s: State, l: nat, w: nat)
    requires Enabled(s, Swap(l)) && w in s.sinks && w !in Todo(s, l)
    requires var i := s.sinks[l].pc.phase.next;
             && (w != s.participants[i] || (s.sinks[w].open && !s.sinks[w].dirty))
             && w !in s.participants[i + 1..]
             && (s.participants[..i] + s.participants[i + 1..])[i..] == s.participants[i + 1..]
    ensures Passed(SwapFn(s, l), l, w, s.sinks[w].synced)
  {
    SwapMovesOn(s, l);
    SwapLeavesOut(s, l, w);
  }

  lemma SwapLeavesOut(s: State, l: nat, w: nat)
    requires Enabled(s, Swap(l)) && w in s.sinks && w !in Todo(s, l)
    requires w != s.participants[s.sinks[l].pc.phase.next] || !s.sinks[w].dirty
    ensures var s' := SwapFn(s, l);
            Leads(s', l) && w in s'.sinks && s'.sinks[w].synced == s.sinks[w].synced && w !in Todo(s', l)
  {
  }

  lemma PassedAfterLeader(s: State, step: Step, l: nat, w: nat, k: nat)
    requires Enabled(s, step) && step.p == l && Passed(s, l, w, k) && Leads(Do(s, step), l)
    requires step.EndCollect? || step.Flush? || step.Finish?
    ensures Passed(Do(s, step), l, w, k)
  {
  }

  lemma PassedAfterOther(s: State, step: Step, l: nat, w: nat, k: nat)
    requires Enabled(s, step) && Passed(s, l, w, k)
    requires step.Register? || step.Drop? || step.Write? || step.Store? || step.EnterSync? || step.Return?
    ensures Passed(Do(s, step), l, w, k)
  {
  }

  lemma PassedStays(s: State, step: Step, l: nat, w: nat, k: nat)
    requires OneLeader(s) && Passed(s, l, w, k) && LeadsTo(Next(s, step), l, s.generation + 1)
    ensures Passed(Next(s, step), l, w, k)
  {
    if Enabled(s, step) {
      if step.Register? || step.Drop? || step.Write? || step.Store? || step.EnterSync? || step.Return? {
        PassedAfterOther(s, step, l, w, k);
      } else {
        assert Leads(s, step.p) && step.p == l;
        if step.Swap? {
          PassedAfterSwap(s, l, w, k);
        } else {
          PassedAfterLeader(s, step, l, w, k);
        }
      }
    }
  }

  lemma {:induction false} PassedToTheEnd(s: State, steps: seq<Step>, l: nat, w: nat, k: nat)
    requires Inv(s) && Passed(s, l, w, k)
    ensures var s' := Run(s, steps);
            && Inv(s')
            && s.generation <= s'.generation
            && (s'.generation == s.generation ==> LeadsTo(s', l, s.generation + 1) && Passed(s', l, w, k))
  {
    if steps != [] {
      var init, last := steps[..|steps| - 1], steps[|steps| - 1];
      var t := Run(s, init);
      PassedToTheEnd(s, init, l, w, k);
      StepKeepsInv(t, last);
      GenerationMoves(t, last);
      if Next(t, last).generation == s.generation {
        LeaderStays(t, last, l, s.generation + 1);
        PassedStays(t, last, l, w, k);
      }
    }
  }

  /** The leader's look decides: whatever failed before and whatever follows, an Ok makes the
      appends completed at the look durable if and only if the file was covered then. */
  lemma LookDecides(before: seq<Step>, after: seq<Step>, l: nat, q: nat)
    requires var s := Run(START, before);
             && Enabled(s, Swap(l)) && q in s.sinks && s.sinks[q].open
             && s.participants[s.sinks[l].pc.phase.next] == q
    requires var s := Run(START, before); EndsOk(s, Run(SwapFn(s, l), after), l)
    ensures var s := Run(START, before);
            var s' := Run(SwapFn(s, l), after);
            q in s'.sinks && (s.sinks[q].Completed() <= s'.sinks[q].synced <==> Covered(s, q))
  {
    var s := Run(START, before);
    var t := SwapFn(s, l);
    EveryRunIsSafe(before);
    StepKeepsInv(s, Swap(l));
    GenerationMoves(s, Swap(l));
    assert Leads(s, l);
    if Covered(s, q) {
      LookSecures(s, l, q);
      PromiseHolds(t, after, l, q, s.sinks[q].Completed());
    } else {
      LookPasses(s, l, q);
      PassedToTheEnd(t, after, l, q, s.sinks[q].synced);
    }
  }

  lemma LookSecures(s: State, l: nat, q: nat)
    requires Inv(s) && Enabled(s, Swap(l)) && Covered(s, q) && s.sinks[q].open
    requires s.participants[s.sinks[l].pc.phase.next] == q
    ensures Leads(SwapFn(s, l), l) && Secured(SwapFn(s, l), l, q, s.sinks[q].Completed())
  {
    SwapGrows(s, l, q);
    assert Leads(s, l);
    if s.sinks[q].Completed() > s.sinks[q].synced && !s.sinks[q].dirty {
      var p :| Leads(s, p) && q in Todo(s, p);
      assert p == l;
    }
  }

  lemma LookPasses(s: State, l: nat, q: nat)
    requires Inv(s) && Enabled(s, Swap(l)) && q in s.sinks && !Covered(s, q) && s.sinks[q].open
    requires s.participants[s.sinks[l].pc.phase.next] == q
    ensures Passed(SwapFn(s, l), l, q, s.sinks[q].synced)
  {
    var i := s.sinks[l].pc.phase.next;
    assert Leads(s, l) && q !in Todo(s, l);
    OnlyOnce(s.participants, i);
    SwapPasses(s, l, q);
  }

  lemma OnlyOnce(list: seq<nat>, i: nat)
    requires i < |list| && forall j, k | 0 <= j < k < |list| :: list[j] != list[k]
    ensures list[i] !in list[i + 1..]
    ensures (list[..i] + list[i + 1..])[i..] == list[i + 1..]
  {
  }

  // ------------------------------------------------------------------ failing syncs

  /** After a failing sync a file is still covered exactly when it is the one that failed,
      is dirty again, or had nothing left to sync: the rest of the list is forgotten. */
  lemma FailingSyncForgets(s: State, l: nat, q: nat)
    requires Inv(s) && q in s.sinks && Enabled(s, Flush(l, false))
    ensures Covered(Next(s, Flush(l, false)), q)
       <==> q == Todo(s, l)[0] || s.sinks[q].dirty || s.sinks[q].Completed() <= s.sinks[q].synced
  {
    var s' := Next(s, Flush(l, false));
    assert s' == FlushFn(s, l, false);
    assert Leads(s, l) && Leads(s', l) && Todo(s', l) == [];
    forall p | Leads(s', p)
      ensures p == l
    {
      assert Leads(s, p);
    }
    assert !Collected(s', q);
  }

  /** A forgotten file stays so, whatever anyone does, until its owner stores its flag again. */
  lemma ForgottenStays(s: State, step: Step, q: nat)
    requires Inv(s) && q in s.sinks && !Covered(s, q) && step != Store(q)
    ensures var s' := Next(s, step);
            && q in s'.sinks && !Covered(s', q)
            && s'.sinks[q].synced == s.sinks[q].synced && s'.sinks[q].Completed() == s.sinks[q].Completed()
  {
    if Enabled(s, step) {
      if step.Flush? {
        assert Leads(s, step.p) && Todo(s, step.p)[0] in Todo(s, step.p);
      }
      ForgottenSink(s, step, q);
      ForgottenNotCollected(s, step, q);
    }
  }

  lemma ForgottenSink(s: State, step: Step, q: nat)
    requires Enabled(s, step) && step != Store(q) && q in s.sinks && !s.sinks[q].dirty
    requires step.Flush? ==> s.sinks[step.p].pc.phase.todo[0] != q
    ensures var s' := Do(s, step);
            && q in s'.sinks && !s'.sinks[q].dirty
            && s'.sinks[q].synced == s.sinks[q].synced && s'.sinks[q].Completed() == s.sinks[q].Completed()
  {
  }

  lemma ForgottenNotCollected(s: State, step: Step, q: nat)
    requires Enabled(s, step) && q in s.sinks && !s.sinks[q].dirty && !Collected(s, q)
    ensures !Collected(Do(s, step), q)
  {
    var s' := Do(s, step);
    forall p | Leads(s', p)
      ensures q !in Todo(s', p)
    {
      if Leads(s, p) {
        assert q !in Todo(s, p);
      }
      TodoOnlyGrowsByDirty(s, step, p, q);
    }
  }

  lemma TodoOnlyGrowsByDirty(s: State, step: Step, p: nat, q: nat)
    requires Enabled(s, step) && q in s.sinks && !s.sinks[q].dirty
    requires Leads(Do(s, step), p) && (Leads(s, p) ==> q !in Todo(s, p))
    ensures q !in Todo(Do(s, step), p)
  {
  }

  /** The same along any schedule, through any number of barriers that return Ok. */
  lemma {:induction false} ForgottenRun(s: State, steps: seq<Step>, q: nat)
    requires Inv(s) && q in s.sinks && !Covered(s, q)
    requires forall i | 0 <= i < |steps| :: steps[i] != Store(q)
    ensures var s' := Run(s, steps);
            && Inv(s') && q in s'.sinks && !Covered(s', q)
            && s'.sinks[q].synced == s.sinks[q].synced && s'.sinks[q].Completed() == s.sinks[q].Completed()
  {
    if steps != [] {
      var init, last := steps[..|steps| - 1], steps[|steps| - 1];
      ForgottenRun(s, init, q);
      StepKeepsInv(Run(s, init), last);
      ForgottenStays(Run(s, init), last, q);
    }
  }

  /** The files that failing syncs have made the coordinator forget: those a failing leader
      had collected behind the failing one, until their owners store the flag again. */
  ghost function Lost(steps: seq<Step>): set<nat> {
    if steps == [] then {}
    else
      var s, lost, last := Run(START, steps[..|steps| - 1]), Lost(steps[..|steps| - 1]), steps[|steps| - 1];
      if !Enabled(s, last) then lost
      else if last.Store? then lost - {last.p}
      else if last.Flush? && !last.ok then
        lost + set q | q in s.sinks && q in s.sinks[last.p].pc.phase.todo[1..] && q != s.sinks[last.p].pc.phase.todo[0]
                       && !s.sinks[q].dirty && s.sinks[q].synced < s.sinks[q].Completed()
      else lost
  }

  /** In every schedule, failing syncs included, a file is covered exactly when it is not lost. */
  lemma {:induction false} CoveredIffNotLost(steps: seq<Step>, q: nat)
    ensures q in Lost(steps) ==> q in Run(START, steps).sinks
    ensures q in Run(START, steps).sinks ==> (Covered(Run(START, steps), q) <==> q !in Lost(steps))
  {
    if steps != [] {
      var init, last := steps[..|steps| - 1], steps[|steps| - 1];
      var s := Run(START, init);
      EveryRunIsSafe(init);
      CoveredIffNotLost(init, q);
      if Enabled(s, last) {
        if q !in s.sinks {
          if q in Do(s, last).sinks {
            OnlyRegisterAdds(s, last, q);
          }
        } else {
          LostStep(s, last, q);
        }
      }
    }
  }

  /** How one step changes whether a known file is covered. */
  lemma LostStep(s: State, step: Step, q: nat)
    requires Inv(s) && Enabled(s, step) && q in s.sinks
    ensures q in Do(s, step).sinks
    ensures Covered(Do(s, step), q) <==>
              if step.Flush? && !step.ok then
                Covered(s, q) && !(q in Todo(s, step.p)[1..] && q != Todo(s, step.p)[0]
                                   && !s.sinks[q].dirty && s.sinks[q].synced < s.sinks[q].Completed())
              else Covered(s, q) || step == Store(q)
  {
    SinkGrows(s, step, q);
    if step.Flush? && !step.ok {
      FailingSyncForgets(s, step.p, q);
      FailingList(s, step.p, q);
    } else if Covered(s, q) {
      StepKeepsCovered(s, step, q);
    } else if step != Store(q) {
      ForgottenStays(s, step, q);
    }
  }

  lemma FailingList(s: State, l: nat, q: nat)
    requires Inv(s) && q in s.sinks && Enabled(s, Flush(l, false))
    ensures Leads(s, l) && Todo(s, l) != []
    ensures q == Todo(s, l)[0] || q in Todo(s, l)[1..] ==> Covered(s, q)
    ensures Covered(s, q) && !s.sinks[q].dirty && s.sinks[q].Completed() > s.sinks[q].synced
            ==> q == Todo(s, l)[0] || q in Todo(s, l)[1..]
  {
    var todo := Todo(s, l);
    assert Leads(s, l) && todo == [todo[0]] + todo[1..];
    if q in todo {
      assert Collected(s, q);
    }
    if Collected(s, q) {
      var p :| Leads(s, p) && q in Todo(s, p);
      assert p == l;
    }
  }

  /** A leader's Ok against every append completed before its look, for any history: unless
      the owner stores the flag meanwhile, those of an open file are durable if and only if no
      failing sync has lost the file. */
  lemma OkIffNotLost(before: seq<Step>, after: seq<Step>, l: nat, q: nat)
    requires var s := Run(START, before); Unvisited(s, l, q) && q in s.sinks
    requires EndsOk(Run(START, before), Run(Run(START, before), after), l)
    requires forall i | 0 <= i < |after| :: after[i] != Store(q)
    ensures var s, s' := Run(START, before), Run(Run(START, before), after);
            && q in s'.sinks
            && (s'.sinks[q].open ==> (s.sinks[q].Completed() <= s'.sinks[q].synced <==> q !in Lost(before)))
  {
    EveryRunIsSafe(before);
    CoveredIffNotLost(before, q);
    if q in Lost(before) {
      ForgottenRun(Run(START, before), after, q);
    } else {
      LeaderMakesDurable(before, after, l, q);
    }
  }

  /** While a lost file's own owner leads a barrier, the file stays lost. */
  lemma {:induction false} ForgottenLeader(s: State, steps: seq<Step>, l: nat)
    requires Inv(s) && Leads(s, l) && !Covered(s, l)
    ensures var s' := Run(s, steps);
            && Inv(s')
            && s.generation <= s'.generation
            && (s'.generation == s.generation ==>
                  && LeadsTo(s', l, s.generation + 1) && !Covered(s', l)
                  && s'.sinks[l].synced == s.sinks[l].synced)
  {
    if steps != [] {
      var init, last := steps[..|steps| - 1], steps[|steps| - 1];
      var t := Run(s, init);
      ForgottenLeader(s, init, l);
      StepKeepsInv(t, last);
      GenerationMoves(t, last);
      if Next(t, last).generation == s.generation {
        LeaderStays(t, last, l, s.generation + 1);
        if last != Store(l) {
          ForgottenStays(t, last, l);
        }
      }
    }
  }

  /** A sink that enters a barrier as its leader and leads it to an Ok has every record it had
      written durable, which is what `append` with sync promises, if and only if no failing
      sync has lost its file.  A retry does not make up for it. */
  lemma LeaderSyncsItself(before: seq<Step>, after: seq<Step>, l: nat)
    requires var s := Run(START, before); Leads(s, l) && s.sinks[l].pc.phase.Entered?
    requires EndsOk(Run(START, before), Run(Run(START, before), after), l)
    ensures var s, s' := Run(START, before), Run(Run(START, before), after);
            s.sinks[l].written <= s'.sinks[l].synced <==> l !in Lost(before)
  {
    EveryRunIsSafe(before);
    CoveredIffNotLost(before, l);
    if l in Lost(before) {
      ForgottenLeader(Run(START, before), after, l);
    } else {
      RunsAreSafe(Run(START, before), after);
      LeaderMakesDurable(before, after, l, l);
    }
  }

  // ------------------------------------------------------------------ waiters

  lemma WaiterWaits(s: State, step: Step, w: nat)
    requires Enabled(s, step) && s.syncing && w in s.sinks && s.sinks[w].pc.Waiting?
    ensures var s' := Do(s, step);
            && w in s'.sinks && s'.sinks[w].pc.Waiting?
            && s'.sinks[w].written == s.sinks[w].written && s'.sinks[w].open == s.sinks[w].open
  {
    match step {
      case Swap(p) =>
      case Flush(p, ok) =>
      case _ =>
    }
  }

  /** While the barrier it joined runs, a waiter's file neither grows nor closes, and a lost
      one stays lost. */
  lemma {:induction false} WaiterIsStill(s: State, steps: seq<Step>, w: nat)
    requires Inv(s) && s.syncing && w in s.sinks && s.sinks[w].pc.Waiting?
    ensures var s' := Run(s, steps);
            && Inv(s')
            && s.generation <= s'.generation
            && (s'.generation == s.generation ==>
                  && s'.syncing && w in s'.sinks && s'.sinks[w].pc.Waiting?
                  && s'.sinks[w].written == s.sinks[w].written && s'.sinks[w].open == s.sinks[w].open
                  && (!Covered(s, w) ==> !Covered(s', w)))
  {
    if steps != [] {
      var init, last := steps[..|steps| - 1], steps[|steps| - 1];
      var t := Run(s, init);
      WaiterIsStill(s, init, w);
      StepKeepsInv(t, last);
      GenerationMoves(t, last);
      if Next(t, last).generation == s.generation && Enabled(t, last) {
        WaiterWaits(t, last, w);
        assert Next(t, last).syncing;
        if !Covered(t, w) {
          ForgottenStays(t, last, w);
        }
      }
    }
  }

  /** When the barrier a waiter joined succeeds, the waiter's records are durable exactly if,
      at the time it joined, they already were, or the leader had yet to sync its file and no
      failing sync had lost it. */
  lemma JoinedBarrierServes(before: seq<Step>, after: seq<Step>, l: nat, w: nat)
    requires var s := Run(START, before); w in s.sinks && s.sinks[w].pc.Waiting?
    requires EndsOk(Run(START, before), Run(Run(START, before), after), l)
    ensures var s, s' := Run(START, before), Run(Run(START, before), after);
            && w in s'.sinks
            && s'.sinks[w].written == s.sinks[w].written
            && (s'.sinks[w].written <= s'.sinks[w].synced
                <==> s.sinks[w].written <= s.sinks[w].synced || (WillSync(s, l, w) && w !in Lost(before)))
  {
    var s := Run(START, before);
    EveryRunIsSafe(before);
    CoveredIffNotLost(before, w);
    assert s.sinks[l].pc.generation == s.generation + 1 && s.syncing;
    WaiterIsStill(s, after, w);
    assert Run(s, after).generation == s.generation;
    if s.sinks[w].written <= s.sinks[w].synced {
      PromiseHolds(s, after, l, w, s.sinks[w].written);
    } else if Covered(s, w) {
      if WillSync(s, l, w) {
        CoveredIsPromised(s, l, w);
        PromiseHolds(s, after, l, w, s.sinks[w].written);
      } else {
        PassedToTheEnd(s, after, l, w, s.sinks[w].synced);
      }
    }
  }

  lemma {:induction false} RunsJoin(s: State, before: seq<Step>, after: seq<Step>)
    ensures Run(s, before + after) == Run(Run(s, before), after)
  {
    if after == [] {
      assert before + after == before;
    } else {
      var init := after[..|after| - 1];
      RunsJoin(s, before, init);
      assert (before + after)[..|before + after| - 1] == before + init;
    }
  }

  /** A waiter with `n` records while the barrier of `l` runs; `missed` says that this is the
      barrier it joined and that it had passed the waiter's file by then. */
  ghost predicate Served(s: State, l: nat, w: nat, n: nat, missed: bool)
    requires Leads(s, l) && w in s.sinks
  {
    if missed then Passed(s, l, w, s.sinks[w].synced) && s.sinks[w].synced < n
    else Covered(s, w) ==> Promised(s, l, w, n)
  }

  /** The same between barriers, when the last one succeeded. */
  ghost predicate Answered(s: State, w: nat, n: nat, missed: bool)
    requires w in s.sinks
  {
    if missed then s.sinks[w].synced < n else Covered(s, w) ==> n <= s.sinks[w].synced
  }

  /** A waiter that joined at generation `g` with `n` records and is still waiting; `passed`
      says that the barrier it joined had passed its file without them. */
  ghost predicate Waits(s: State, w: nat, g: nat, n: nat, passed: bool) {
    && w in s.sinks && s.sinks[w].pc == Waiting(g)
    && s.sinks[w].written == n && s.sinks[w].open
    && (forall l | Leads(s, l) :: Served(s, l, w, n, passed && s.generation == g))
    && (!s.syncing && !s.failed ==> Answered(s, w, n, passed && s.generation == g + 1))
  }

  /** A waiter's file is not covered anew while it waits. */
  lemma CoveredBefore(s: State, step: Step, w: nat)
    requires Inv(s) && w in s.sinks && s.sinks[w].pc.Waiting? && Covered(Next(s, step), w)
    ensures Covered(s, w)
  {
    if !Covered(s, w) {
      ForgottenStays(s, step, w);
    }
  }

  lemma WaitsThroughFinish(s: State, p: nat, w: nat, g: nat, n: nat, passed: bool)
    requires Inv(s) && Waits(s, w, g, n, passed) && Enabled(s, Finish(p)) && !s.sinks[p].pc.phase.Failed?
    ensures w in Do(s, Finish(p)).sinks
    ensures Answered(Do(s, Finish(p)), w, n, passed && Do(s, Finish(p)).generation == g + 1)
  {
    var s' := Do(s, Finish(p));
    assert Leads(s, p) && Served(s, p, w, n, passed && s.generation == g);
    if Covered(s', w) {
      CoveredBefore(s, Finish(p), w);
    }
  }

  lemma WaitsThroughEntry(s: State, p: nat, w: nat, n: nat)
    requires Inv(s) && Enabled(s, EnterSync(p)) && !s.syncing && Inv(Do(s, EnterSync(p)))
    requires w in s.sinks && s.sinks[w].pc.Waiting? && s.sinks[w].written == n && s.sinks[w].open
    ensures var s' := Do(s, EnterSync(p)); Leads(s', p) && w in s'.sinks && Served(s', p, w, n, false)
  {
    var s' := Do(s, EnterSync(p));
    if Covered(s', w) {
      CoveredIsPromised(s', p, w);
    }
  }

  lemma WaitsThroughBarrier(s: State, step: Step, l: nat, w: nat, n: nat, missed: bool)
    requires Inv(s) && Leads(s, l) && LeadsTo(Next(s, step), l, s.generation + 1)
    requires w in s.sinks && s.sinks[w].pc.Waiting? && w in Next(s, step).sinks && Served(s, l, w, n, missed)
    ensures Served(Next(s, step), l, w, n, missed)
  {
    if missed {
      PassedStays(s, step, l, w, s.sinks[w].synced);
    } else if Covered(Next(s, step), w) {
      CoveredBefore(s, step, w);
      PromiseStays(s, step, l, w, n);
    }
  }

  /** No barrier runs and none begins: nothing happens to the waiter's file. */
  lemma WaitsAtRest(s: State, step: Step, w: nat, g: nat)
    requires OneLeader(s) && !s.syncing && Enabled(s, step) && !step.EnterSync?
    requires w in s.sinks && s.sinks[w].pc == Waiting(g)
    requires w in Do(s, step).sinks && Do(s, step).sinks[w].pc == Waiting(g)
    ensures var s' := Do(s, step);
            && !s'.syncing && s'.failed == s.failed && s'.generation == s.generation && s'.sinks[w] == s.sinks[w]
  {
    assert !Leads(s, step.p);
  }

  lemma WaiterUnchanged(s: State, step: Step, w: nat, g: nat)
    requires Enabled(s, step) && w in s.sinks && s.sinks[w].pc == Waiting(g)
    ensures w in Do(s, step).sinks
    ensures Do(s, step).sinks[w].pc == Waiting(g) || step == Return(w)
    ensures Do(s, step).sinks[w].written == s.sinks[w].written && Do(s, step).sinks[w].open == s.sinks[w].open
  {
    match step {
      case Swap(p) =>
      case Flush(p, ok) =>
      case _ =>
    }
  }

  lemma WaitsStep(s: State, step: Step, w: nat, g: nat, n: nat, passed: bool)
    requires Inv(s) && Waits(s, w, g, n, passed) && Enabled(s, step) && step != Return(w)
    ensures Waits(Do(s, step), w, g, n, passed)
  {
    var s' := Do(s, step);
    StepKeepsInv(s, step);
    GenerationMoves(s, step);
    WaiterUnchanged(s, step, w, g);
    if s.syncing {
      var l :| Leads(s, l);
      if step.Finish? {
        assert Leads(s, step.p) && !s'.syncing;
        if !s'.failed {
          WaitsThroughFinish(s, step.p, w, g, n, passed);
        }
      } else {
        LeaderStays(s, step, l, s.generation + 1);
        WaitsThroughBarrier(s, step, l, w, n, passed && s.generation == g);
      }
    } else if step.EnterSync? {
      WaitsThroughEntry(s, step.p, w, n);
    } else {
      WaitsAtRest(s, step, w, g);
      if Covered(s', w) {
        CoveredBefore(s, step, w);
      }
    }
  }

  /** Along a schedule: until the barrier it joined is over the waiter waits, and while it
      does, this holds of it. */
  lemma {:induction false} WaitsRun(s: State, steps: seq<Step>, w: nat, g: nat, n: nat, passed: bool)
    requires Inv(s) && s.generation == g && Waits(s, w, g, n, passed)
    ensures var s' := Run(s, steps);
            && Inv(s') && g <= s'.generation && w in s'.sinks
            && (s'.sinks[w].pc == Waiting(g) || s'.generation > g)
            && (s'.sinks[w].pc == Waiting(g) ==> Waits(s', w, g, n, passed))
  {
    if steps != [] {
      var init, last := steps[..|steps| - 1], steps[|steps| - 1];
      var t := Run(s, init);
      WaitsRun(s, init, w, g, n, passed);
      StepKeepsInv(t, last);
      GenerationMoves(t, last);
      if Enabled(t, last) {
        if t.sinks[w].pc == Waiting(g) && last != Return(w) {
          WaitsStep(t, last, w, g, n, passed);
        } else {
          StaysAway(t, last, w, g);
        }
      }
    }
  }

  lemma StaysAway(s: State, step: Step, w: nat, g: nat)
    requires Enabled(s, step) && w in s.sinks && s.generation > g
    requires s.sinks[w].pc != Waiting(g) || step == Return(w)
    ensures w in Do(s, step).sinks && Do(s, step).sinks[w].pc != Waiting(g)
  {
    match step {
      case Swap(p) =>
      case Flush(p, ok) =>
      case _ =>
    }
  }

  lemma WaitsFromStart(s: State, l: nat, w: nat, g: nat)
    requires Inv(s) && Leads(s, l) && w in s.sinks && s.sinks[w].pc == Waiting(g) && s.generation == g
    ensures Waits(s, w, g, s.sinks[w].written, s.sinks[w].synced < s.sinks[w].written && !WillSync(s, l, w))
  {
    assert s.sinks[l].pc.generation == g + 1 && s.syncing;
    if Covered(s, w) && WillSync(s, l, w) {
      CoveredIsPromised(s, l, w);
    }
    assert s.sinks[l].pc.phase.Entered? ==> w in s.participants;
  }

  /** What a waiter's Ok is worth.  It is the answer of the last barrier to finish, which need
      not be the one it joined.  For any history and any number of barriers before the waiter
      wakes, its records are durable exactly if no failing sync has lost its file, and either
      a barrier began after it joined, or its records were durable or yet to be synced by the
      barrier it joined. */
  lemma WaiterGuarantee(before: seq<Step>, after: seq<Step>, l: nat, w: nat)
    requires var s := Run(START, before); Leads(s, l) && w in s.sinks && s.sinks[w].pc == Waiting(s.generation)
    requires var s, t := Run(START, before), Run(Run(START, before), after);
             && w in t.sinks && t.sinks[w].pc == Waiting(s.generation)
             && Enabled(t, Return(w)) && !t.failed
    ensures var s, t := Run(START, before), Run(Run(START, before), after);
            && t.sinks[w].written == s.sinks[w].written
            && (t.sinks[w].written <= t.sinks[w].synced <==>
                  && w !in Lost(before + after)
                  && (t.generation > s.generation + 1 || s.sinks[w].written <= s.sinks[w].synced || WillSync(s, l, w)))
  {
    var s := Run(START, before);
    EveryRunIsSafe(before);
    RunsJoin(START, before, after);
    CoveredIffNotLost(before + after, w);
    WaitsFromStart(s, l, w, s.generation);
    WaitsRun(s, after, w, s.generation, s.sinks[w].written,
             s.sinks[w].synced < s.sinks[w].written && !WillSync(s, l, w));
  }

  // ------------------------------------------------------------------ both happen

  /** Some schedule leads from `s` to `t`, without a failing sync if `clean`. */
  ghost predicate Reaches(s: State, t: State, clean: bool) {
    exists steps :: Run(s, steps) == t && (clean ==> FailureFree(steps))
  }

  ghost predicate Reachable(s: State, clean: bool) {
    Reaches(START, s, clean)
  }

  lemma LinkFrom(r: State, s: State, step: Step, s': State, clean: bool)
    requires Reaches(r, s, clean) && (clean ==> !step.Flush?) && Next(s, step) == s'
    ensures Reaches(r, s', clean)
  {
    var steps :| Run(r, steps) == s && (clean ==> FailureFree(steps));
    var longer := steps + [step];
    assert longer[..|steps|] == steps;
    assert Run(r, longer) == Next(s, step);
    assert clean ==> FailureFree(longer);
  }

  lemma ReachesItself(s: State, clean: bool)
    ensures Reaches(s, s, clean)
  {
    var none: seq<Step> := [];
    assert Run(s, none) == s && FailureFree(none);
  }

  lemma Link(s: State, step: Step, s': State, clean: bool)
    requires Reachable(s, clean) && (clean ==> !step.Flush?) && Next(s, step) == s'
    ensures Reachable(s', clean)
  {
    LinkFrom(START, s, step, s', clean);
  }

  /** Two open files, and whether a barrier runs and how many are done. */
  function Two(a: Sink, b: Sink, syncing: bool, generation: nat, failed: bool): State {
    State(map[0 := a, 1 := b], [0, 1], syncing, generation, failed)
  }

  const NEW := Sink(0, 0, false, true, Idle)

  lemma TwoOpened(clean: bool)
    ensures Reachable(Two(NEW, NEW, false, 0, false), clean)
  {
    ReachesItself(START, clean);
    var s := State(map[0 := NEW], [0], false, 0, false);
    Link(START, Register(0), s, clean);
    assert Retained([], s.sinks) == [] && Retained([0], s.sinks) == [0];
    assert Next(s, Register(1)).participants == [0, 1];
    Link(s, Register(1), Two(NEW, NEW, false, 0, false), clean);
  }

  lemma BarrierStarts()
    ensures Reachable(Two(Sink(0, 0, false, true, Leading(1, Collecting(0, []))), NEW, true, 0, false), true)
  {
    TwoOpened(true);
    var s0 := Two(NEW, NEW, false, 0, false);
    var s1 := Two(Sink(0, 0, false, true, Leading(1, Entered)), NEW, true, 0, false);
    Link(s0, EnterSync(0), s1, true);
    var s2 := Two(Sink(0, 0, false, true, Leading(1, Collecting(0, []))), NEW, true, 0, false);
    Link(s1, StartCollect(0), s2, true);
  }

  lemma BarrierPassesBoth()
    ensures Reachable(Two(Sink(0, 0, false, true, Leading(1, Collecting(2, []))), NEW, true, 0, false), true)
  {
    BarrierStarts();
    var s0 := Two(Sink(0, 0, false, true, Leading(1, Collecting(0, []))), NEW, true, 0, false);
    var s1 := Two(Sink(0, 0, false, true, Leading(1, Collecting(1, []))), NEW, true, 0, false);
    Link(s0, Swap(0), s1, true);
    var s2 := Two(Sink(0, 0, false, true, Leading(1, Collecting(2, []))), NEW, true, 0, false);
    Link(s1, Swap(0), s2, true);
  }

  lemma LateWaiterJoins()
    ensures Reachable(Two(Sink(0, 0, false, true, Leading(1, Collecting(2, []))),
                          Sink(1, 0, true, true, Waiting(0)), true, 0, false), true)
  {
    BarrierPassesBoth();
    var s0 := Two(Sink(0, 0, false, true, Leading(1, Collecting(2, []))), NEW, true, 0, false);
    var s1 := Two(Sink(0, 0, false, true, Leading(1, Collecting(2, []))),
                  Sink(1, 0, false, true, Wrote), true, 0, false);
    Link(s0, Write(1), s1, true);
    var s2 := Two(Sink(0, 0, false, true, Leading(1, Collecting(2, []))), Sink(1, 0, true, true, Idle), true, 0, false);
    Link(s1, Store(1), s2, true);
    var s3 := Two(Sink(0, 0, false, true, Leading(1, Collecting(2, []))),
                  Sink(1, 0, true, true, Waiting(0)), true, 0, false);
    Link(s2, EnterSync(1), s3, true);
  }

  lemma LateWaiterIsReleased()
    ensures Reachable(Two(NEW, Sink(1, 0, true, true, Waiting(0)), false, 1, false), true)
  {
    LateWaiterJoins();
    var s0 := Two(Sink(0, 0, false, true, Leading(1, Collecting(2, []))),
                  Sink(1, 0, true, true, Waiting(0)), true, 0, false);
    var s1 := Two(Sink(0, 0, false, true, Leading(1, Flushing([]))),
                  Sink(1, 0, true, true, Waiting(0)), true, 0, false);
    Link(s0, EndCollect(0), s1, true);
    var s2 := Two(NEW, Sink(1, 0, true, true, Waiting(0)), false, 1, false);
    Link(s1, Finish(0), s2, true);
  }

  /** A reachable state, without any failing sync, in which a waiter is told Ok although its
      record is not durable: it stored its flag after the leader's swap. */
  lemma WaiterCanBeMissed()
    ensures exists s :: Reachable(s, true) && 1 in s.sinks && Enabled(s, Return(1)) && !s.failed
                     && s.sinks[1].synced < s.sinks[1].written
  {
    LateWaiterIsReleased();
    var s := Two(NEW, Sink(1, 0, true, true, Waiting(0)), false, 1, false);
    assert Enabled(s, Return(1));
  }

  lemma FirstAppends()
    ensures Reachable(Two(Sink(1, 0, true, true, Idle), NEW, false, 0, false), false)
  {
    TwoOpened(false);
    var s0 := Two(NEW, NEW, false, 0, false);
    var s1 := Two(Sink(1, 0, false, true, Wrote), NEW, false, 0, false);
    Link(s0, Write(0), s1, false);
    var s2 := Two(Sink(1, 0, true, true, Idle), NEW, false, 0, false);
    Link(s1, Store(0), s2, false);
  }

  lemma BothAppend()
    ensures Reachable(Two(Sink(1, 0, true, true, Idle), Sink(1, 0, true, true, Idle), false, 0, false), false)
  {
    FirstAppends();
    var s0 := Two(Sink(1, 0, true, true, Idle), NEW, false, 0, false);
    var s1 := Two(Sink(1, 0, true, true, Idle), Sink(1, 0, false, true, Wrote), false, 0, false);
    Link(s0, Write(1), s1, false);
    var s2 := Two(Sink(1, 0, true, true, Idle), Sink(1, 0, true, true, Idle), false, 0, false);
    Link(s1, Store(1), s2, false);
  }

  lemma BarrierEnters()
    ensures Reachable(Two(Sink(1, 0, true, true, Leading(1, Collecting(0, []))),
                          Sink(1, 0, true, true, Idle), true, 0, false), false)
  {
    BothAppend();
    var s0 := Two(Sink(1, 0, true, true, Idle), Sink(1, 0, true, true, Idle), false, 0, false);
    var s1 := Two(Sink(1, 0, true, true, Leading(1, Entered)), Sink(1, 0, true, true, Idle), true, 0, false);
    Link(s0, EnterSync(0), s1, false);
    var s2 := Two(Sink(1, 0, true, true, Leading(1, Collecting(0, []))), Sink(1, 0, true, true, Idle), true, 0, false);
    Link(s1, StartCollect(0), s2, false);
  }

  /** The first sink, having looked at both files, goes on to sync what it collected. */
  lemma CollectEnds(r: State, a: Sink, b: Sink, generation: nat, failed: bool)
    requires a.pc.Leading? && a.pc.phase.Collecting? && a.pc.phase.next == 2
    requires Reaches(r, Two(a, b, true, generation, failed), false)
    ensures Reaches(r, Two(AtPhase(a, Flushing(a.pc.phase.todo)), b, true, generation, failed), false)
  {
    LinkFrom(r, Two(a, b, true, generation, failed), EndCollect(0),
             Two(AtPhase(a, Flushing(a.pc.phase.todo)), b, true, generation, failed), false);
  }

  lemma BarrierEnds(r: State, a: Sink, b: Sink, failed: bool)
    requires a.pc.Leading? && a.pc.generation > 0 && (a.pc.phase == Flushing([]) || a.pc.phase.Failed?)
    requires Reaches(r, Two(a, b, true, a.pc.generation - 1, failed), false)
    ensures Reaches(r, Two(a.(pc := Idle), b, false, a.pc.generation, a.pc.phase.Failed?), false)
  {
    LinkFrom(r, Two(a, b, true, a.pc.generation - 1, failed), Finish(0),
             Two(a.(pc := Idle), b, false, a.pc.generation, a.pc.phase.Failed?), false);
  }

  /** The first barrier collects both files, whatever the second sink is doing. */
  lemma FirstCollected(r: State, pc: Pc)
    requires !pc.Leading?
    requires Reaches(r, Two(Sink(1, 0, true, true, Leading(1, Collecting(0, []))),
                            Sink(1, 0, true, true, pc), true, 0, false), false)
    ensures Reaches(r, Two(Sink(1, 0, false, true, Leading(1, Collecting(1, [0]))),
                           Sink(1, 0, true, true, pc), true, 0, false), false)
  {
    var s0 := Two(Sink(1, 0, true, true, Leading(1, Collecting(0, []))), Sink(1, 0, true, true, pc), true, 0, false);
    var s1 := Two(Sink(1, 0, false, true, Leading(1, Collecting(1, [0]))), Sink(1, 0, true, true, pc), true, 0, false);
    assert [] + [0] == [0];
    LinkFrom(r, s0, Swap(0), s1, false);
  }

  lemma BothCollected(r: State, pc: Pc)
    requires !pc.Leading?
    requires Reaches(r, Two(Sink(1, 0, false, true, Leading(1, Collecting(1, [0]))),
                            Sink(1, 0, true, true, pc), true, 0, false), false)
    ensures Reaches(r, Two(Sink(1, 0, false, true, Leading(1, Collecting(2, [0, 1]))),
                           Sink(1, 0, false, true, pc), true, 0, false), false)
  {
    var s0 := Two(Sink(1, 0, false, true, Leading(1, Collecting(1, [0]))), Sink(1, 0, true, true, pc), true, 0, false);
    var s1 := Two(Sink(1, 0, false, true, Leading(1, Collecting(2, [0, 1]))),
                  Sink(1, 0, false, true, pc), true, 0, false);
    assert [0] + [1] == [0, 1];
    LinkFrom(r, s0, Swap(0), s1, false);
  }

  lemma FirstSyncFails(r: State, pc: Pc)
    requires !pc.Leading?
    requires Reaches(r, Two(Sink(1, 0, false, true, Leading(1, Collecting(2, [0, 1]))),
                            Sink(1, 0, false, true, pc), true, 0, false), false)
    ensures Reaches(r, Two(Sink(1, 0, true, true, Leading(1, Failed)),
                           Sink(1, 0, false, true, pc), true, 0, false), false)
  {
    CollectEnds(r, Sink(1, 0, false, true, Leading(1, Collecting(2, [0, 1]))), Sink(1, 0, false, true, pc), 0, false);
    var s0 := Two(Sink(1, 0, false, true, Leading(1, Flushing([0, 1]))), Sink(1, 0, false, true, pc), true, 0, false);
    var s1 := Two(Sink(1, 0, true, true, Leading(1, Failed)), Sink(1, 0, false, true, pc), true, 0, false);
    LinkFrom(r, s0, Flush(0, false), s1, false);
  }

  lemma FirstBarrierFails(r: State, pc: Pc)
    requires !pc.Leading?
    requires Reaches(r, Two(Sink(1, 0, true, true, Leading(1, Collecting(0, []))),
                            Sink(1, 0, true, true, pc), true, 0, false), false)
    ensures Reaches(r, Two(Sink(1, 0, true, true, Idle), Sink(1, 0, false, true, pc), false, 1, true), false)
  {
    FirstCollected(r, pc);
    BothCollected(r, pc);
    FirstSyncFails(r, pc);
    BarrierEnds(r, Sink(1, 0, true, true, Leading(1, Failed)), Sink(1, 0, false, true, pc), false);
  }

  lemma NextBarrierEnters()
    ensures Reachable(Two(Sink(1, 0, true, true, Idle),
                          Sink(1, 0, false, true, Leading(2, Entered)), true, 1, true), false)
  {
    BarrierEnters();
    FirstBarrierFails(START, Idle);
    var s0 := Two(Sink(1, 0, true, true, Idle), Sink(1, 0, false, true, Idle), false, 1, true);
    var s1 := Two(Sink(1, 0, true, true, Idle), Sink(1, 0, false, true, Leading(2, Entered)), true, 1, true);
    Link(s0, EnterSync(1), s1, false);
  }

  lemma NextBarrierCollectsFirst()
    ensures Reachable(Two(Sink(1, 0, false, true, Idle),
                          Sink(1, 0, false, true, Leading(2, Collecting(1, [0]))), true, 1, true), false)
  {
    NextBarrierEnters();
    var s0 := Two(Sink(1, 0, true, true, Idle), Sink(1, 0, false, true, Leading(2, Entered)), true, 1, true);
    var s1 := Two(Sink(1, 0, true, true, Idle), Sink(1, 0, false, true, Leading(2, Collecting(0, []))), true, 1, true);
    Link(s0, StartCollect(1), s1, false);
    var s2 := Two(Sink(1, 0, false, true, Idle),
                  Sink(1, 0, false, true, Leading(2, Collecting(1, [0]))), true, 1, true);
    assert [] + [0] == [0];
    Link(s1, Swap(1), s2, false);
  }

  lemma NextBarrierPassesSecond()
    ensures Reachable(Two(Sink(1, 0, false, true, Idle),
                          Sink(1, 0, false, true, Leading(2, Flushing([0]))), true, 1, true), false)
  {
    NextBarrierCollectsFirst();
    var s0 := Two(Sink(1, 0, false, true, Idle),
                  Sink(1, 0, false, true, Leading(2, Collecting(1, [0]))), true, 1, true);
    var s1 := Two(Sink(1, 0, false, true, Idle),
                  Sink(1, 0, false, true, Leading(2, Collecting(2, [0]))), true, 1, true);
    Link(s0, Swap(1), s1, false);
    var s2 := Two(Sink(1, 0, false, true, Idle), Sink(1, 0, false, true, Leading(2, Flushing([0]))), true, 1, true);
    Link(s1, EndCollect(1), s2, false);
  }

  lemma NextBarrierSyncsFirst()
    ensures Reachable(Two(Sink(1, 1, false, true, Idle),
                          Sink(1, 0, false, true, Leading(2, Flushing([]))), true, 1, true), false)
  {
    NextBarrierPassesSecond();
    var s0 := Two(Sink(1, 0, false, true, Idle), Sink(1, 0, false, true, Leading(2, Flushing([0]))), true, 1, true);
    var s1 := Two(Sink(1, 1, false, true, Idle), Sink(1, 0, false, true, Leading(2, Flushing([]))), true, 1, true);
    assert [0][1..] == [];
    Link(s0, Flush(1, true), s1, false);
  }

  /** A reachable state in which a leader is about to return Ok although its own append,
      completed before its barrier began, is not durable: an earlier barrier failed on
      another file. */
  lemma FailureCanLoseAnAppend()
    ensures exists s :: Reachable(s, false) && Leads(s, 1) && s.sinks[1].pc == Leading(2, Flushing([]))
                     && s.sinks[1].open && s.sinks[1].synced < s.sinks[1].Completed()
  {
    NextBarrierSyncsFirst();
    var s := Two(Sink(1, 1, false, true, Idle), Sink(1, 0, false, true, Leading(2, Flushing([]))), true, 1, true);
    assert Leads(s, 1);
  }

  /** A waiter with one record, in the barrier sink 0 leads over both files. */
  const JOINED := Two(Sink(1, 0, true, true, Leading(1, Entered)), Sink(1, 0, true, true, Waiting(0)), true, 0, false)

  lemma WaiterJoins()
    ensures Reachable(JOINED, false)
  {
    BothAppend();
    var s0 := Two(Sink(1, 0, true, true, Idle), Sink(1, 0, true, true, Idle), false, 0, false);
    var s1 := Two(Sink(1, 0, true, true, Leading(1, Entered)), Sink(1, 0, true, true, Idle), true, 0, false);
    Link(s0, EnterSync(0), s1, false);
    Link(s1, EnterSync(1), JOINED, false);
  }

  lemma JoinedBarrierFails()
    ensures Reaches(JOINED, Two(Sink(1, 0, true, true, Idle),
                                Sink(1, 0, false, true, Waiting(0)), false, 1, true), false)
  {
    ReachesItself(JOINED, false);
    var s0 := Two(Sink(1, 0, true, true, Leading(1, Collecting(0, []))),
                  Sink(1, 0, true, true, Waiting(0)), true, 0, false);
    LinkFrom(JOINED, JOINED, StartCollect(0), s0, false);
    FirstBarrierFails(JOINED, Waiting(0));
  }

  lemma LaterBarrierEnters(r: State)
    requires Reaches(r, Two(Sink(1, 0, true, true, Idle), Sink(1, 0, false, true, Waiting(0)), false, 1, true), false)
    ensures Reaches(r, Two(Sink(1, 0, true, true, Leading(2, Collecting(0, []))),
                           Sink(1, 0, false, true, Waiting(0)), true, 1, true), false)
  {
    var s0 := Two(Sink(1, 0, true, true, Idle), Sink(1, 0, false, true, Waiting(0)), false, 1, true);
    var s1 := Two(Sink(1, 0, true, true, Leading(2, Entered)), Sink(1, 0, false, true, Waiting(0)), true, 1, true);
    LinkFrom(r, s0, EnterSync(0), s1, false);
    var s2 := Two(Sink(1, 0, true, true, Leading(2, Collecting(0, []))),
                  Sink(1, 0, false, true, Waiting(0)), true, 1, true);
    LinkFrom(r, s1, StartCollect(0), s2, false);
  }

  lemma LaterBarrierCollects(r: State)
    requires Reaches(r, Two(Sink(1, 0, true, true, Leading(2, Collecting(0, []))),
                            Sink(1, 0, false, true, Waiting(0)), true, 1, true), false)
    ensures Reaches(r, Two(Sink(1, 0, false, true, Leading(2, Collecting(2, [0]))),
                           Sink(1, 0, false, true, Waiting(0)), true, 1, true), false)
  {
    var s0 := Two(Sink(1, 0, true, true, Leading(2, Collecting(0, []))),
                  Sink(1, 0, false, true, Waiting(0)), true, 1, true);
    var s1 := Two(Sink(1, 0, false, true, Leading(2, Collecting(1, [0]))),
                  Sink(1, 0, false, true, Waiting(0)), true, 1, true);
    assert [] + [0] == [0];
    LinkFrom(r, s0, Swap(0), s1, false);
    var s2 := Two(Sink(1, 0, false, true, Leading(2, Collecting(2, [0]))),
                  Sink(1, 0, false, true, Waiting(0)), true, 1, true);
    LinkFrom(r, s1, Swap(0), s2, false);
  }

  lemma LaterBarrierSyncs(r: State)
    requires Reaches(r, Two(Sink(1, 0, false, true, Leading(2, Collecting(2, [0]))),
                            Sink(1, 0, false, true, Waiting(0)), true, 1, true), false)
    ensures Reaches(r, Two(Sink(1, 1, false, true, Leading(2, Flushing([]))),
                           Sink(1, 0, false, true, Waiting(0)), true, 1, true), false)
  {
    CollectEnds(r, Sink(1, 0, false, true, Leading(2, Collecting(2, [0]))),
                Sink(1, 0, false, true, Waiting(0)), 1, true);
    var s0 := Two(Sink(1, 0, false, true, Leading(2, Flushing([0]))),
                  Sink(1, 0, false, true, Waiting(0)), true, 1, true);
    var s1 := Two(Sink(1, 1, false, true, Leading(2, Flushing([]))),
                  Sink(1, 0, false, true, Waiting(0)), true, 1, true);
    assert [0][1..] == [];
    LinkFrom(r, s0, Flush(0, true), s1, false);
  }

  lemma LaterBarrierSucceeds(r: State)
    requires Reaches(r, Two(Sink(1, 0, true, true, Idle), Sink(1, 0, false, true, Waiting(0)), false, 1, true), false)
    ensures Reaches(r, Two(Sink(1, 1, false, true, Idle), Sink(1, 0, false, true, Waiting(0)), false, 2, false), false)
  {
    LaterBarrierEnters(r);
    LaterBarrierCollects(r);
    LaterBarrierSyncs(r);
    BarrierEnds(r, Sink(1, 1, false, true, Leading(2, Flushing([]))), Sink(1, 0, false, true, Waiting(0)), true);
  }

  /** A waiter that joins a barrier which has yet to look at its file, and is told Ok although
      its record is not durable: that barrier failed, and the Ok is a later one's. */
  lemma WaiterIsToldOfALaterBarrier()
    ensures exists s, t :: Reachable(s, false) && Reaches(s, t, false)
                        && WillSync(s, 0, 1) && Covered(s, 1) && s.sinks[1].pc == Waiting(s.generation)
                        && 1 in t.sinks && t.sinks[1].pc == s.sinks[1].pc
                        && Enabled(t, Return(1)) && !t.failed && t.sinks[1].synced < t.sinks[1].written
  {
    WaiterJoins();
    JoinedBarrierFails();
    LaterBarrierSucceeds(JOINED);
    var t := Two(Sink(1, 1, false, true, Idle), Sink(1, 0, false, true, Waiting(0)), false, 2, false);
    assert WillSync(JOINED, 0, 1) && Enabled(t, Return(1));
  }
}
