/**
 What the alarm worker of module WorkerProtocol is told: its callbacks receive the states of the
 alarm machine in the order in which they were published, and what is published is exactly the
 sequence of states the machine goes through.
 */
module DeliveryOrder {
  import opened AlarmLoop
  import opened WorkerProtocol
  import C = DataCell

  /** The value the worker has picked up and not yet passed to its callback. */
  function Hand(s: State): seq<AlarmState> {
    if s.worker.Unlock? || s.worker.Call? then [s.picked] else []
  }

  /** The history after one more step. */
  function Recorded(h: C.History, s: State, op: Op): C.History {
    if op.MainStep? && s.main.SetWrite? then C.Publish(h, s.loop.astate)
    else if op.WorkerStep? && s.worker.PickUp? then C.PickUp(h)
    else if op.WorkerStep? && s.worker.Call? then C.Call(h, s.picked)
    else h
  }

  function Record(h: C.History, s: State, ops: seq<Op>): C.History
    requires CanRun(s, ops)
    decreases |ops|
  {
    if ops == [] then h else Record(Recorded(h, s, ops[0]), Apply(s, ops[0]), ops[1..])
  }

  /** Only three kinds of step touch the cell or the value in hand. */
  lemma MainAndCell(s: State, tick: Tick)
    requires Enabled(s, MainStep(tick))
    ensures MainNext(s, tick).data == (if s.main.SetWrite? then s.loop.astate else s.data)
    ensures Hand(MainNext(s, tick)) == Hand(s)
  {
  }

  lemma WorkerAndCell(s: State, loud: bool)
    requires Enabled(s, WorkerStep(loud))
    ensures WorkerNext(s, loud).data == s.data
    ensures Hand(WorkerNext(s, loud)) ==
            if s.worker.PickUp? then [s.data] else if s.worker.Call? then [] else Hand(s)
  {
  }

  lemma RecordedIsCoherent(h: C.History, s: State, op: Op)
    requires C.Coherent(h, s.data, Hand(s)) && Enabled(s, op)
    ensures C.Coherent(Recorded(h, s, op), Apply(s, op).data, Hand(Apply(s, op)))
  {
    match op
    case MainStep(tick) =>
      MainAndCell(s, tick);
      if s.main.SetWrite? {
        C.CoherentPublish(h, s.data, Hand(s), s.loop.astate);
      }
    case WorkerStep(loud) =>
      WorkerAndCell(s, loud);
      if s.worker.PickUp? {
        C.CoherentPickUp(h, s.data);
      } else if s.worker.Call? {
        C.CoherentCall(h, s.data, s.picked);
      }
    case SpuriousWake =>
  }

  lemma {:induction false} RecordIsCoherent(h: C.History, s: State, ops: seq<Op>)
    requires C.Coherent(h, s.data, Hand(s)) && CanRun(s, ops)
    ensures C.Coherent(Record(h, s, ops), Exec(s, ops).data, Hand(Exec(s, ops)))
    decreases |ops|
  {
    if ops != [] {
      RecordedIsCoherent(h, s, ops[0]);
      RecordIsCoherent(Recorded(h, s, ops[0]), Apply(s, ops[0]), ops[1..]);
    }
  }

  /** In every interleaving the alarm worker's callbacks receive the published states in order. */
  lemma AlarmWorkerSeesStatesInOrder(ops: seq<Op>)
    requires CanRun(INIT, ops)
    ensures var h := Record(C.Fresh(None), INIT, ops); C.InOrder(h.calls, h.pub)
  {
    RecordIsCoherent(C.Fresh(None), INIT, ops);
    C.CoherentInOrder(Record(C.Fresh(None), INIT, ops), Exec(INIT, ops).data, Hand(Exec(INIT, ops)));
  }

  // ----- the states the machine goes through -----

  /** The ticks the main thread makes in a run. */
  function Ticks(s: State, ops: seq<Op>): seq<Tick>
    requires CanRun(s, ops)
    decreases |ops|
  {
    if ops == [] then []
    else (if ops[0].MainStep? && s.main.Idle? then [ops[0].tick] else []) + Ticks(Apply(s, ops[0]), ops[1..])
  }

  lemma {:induction false} AtShift(s: Loop, i: Tick, later: seq<Tick>, n: nat)
    requires n <= |later|
    ensures At(s, [i] + later, n + 1) == At(Step(s, i), later, n)
  {
    if n > 0 {
      AtShift(s, i, later, n - 1);
    } else {
      assert At(s, [i] + later, 0) == s;
    }
  }

  lemma LoopStep(s: State, op: Op)
    requires Enabled(s, op)
    ensures Apply(s, op).loop == if op.MainStep? && s.main.Idle? then Step(s.loop, op.tick) else s.loop
  {
    match op
    case MainStep(_) =>
    case WorkerStep(loud) => WorkerAndPending(s, loud);
    case SpuriousWake =>
  }

  lemma {:induction false} LoopRun(s: State, ops: seq<Op>)
    requires CanRun(s, ops)
    ensures Exec(s, ops).loop == At(s.loop, Ticks(s, ops), |Ticks(s, ops)|)
    decreases |ops|
  {
    if ops != [] {
      LoopStep(s, ops[0]);
      var t := Apply(s, ops[0]);
      LoopRun(t, ops[1..]);
      if ops[0].MainStep? && s.main.Idle? {
        AtShift(s.loop, ops[0].tick, Ticks(t, ops[1..]), |Ticks(t, ops[1..])|);
      } else {
        assert Ticks(s, ops) == Ticks(t, ops[1..]);
      }
    }
  }

  /** In every interleaving the alarm machine is the sequential run over the ticks made so far. */
  lemma MachineIsSequential(ops: seq<Op>)
    requires CanRun(INIT, ops)
    ensures Exec(INIT, ops).loop == At(INITIAL, Ticks(INIT, ops), |Ticks(INIT, ops)|)
  {
    LoopRun(INIT, ops);
  }

  // ----- what is published -----

  /** The state the machine enters with a step, if it changes. */
  function Entered(s: State, op: Op): seq<AlarmState>
    requires Enabled(s, op)
  {
    var t := Apply(s, op);
    if t.loop.astate != s.loop.astate then [t.loop.astate] else []
  }

  /** The states the machine enters, in order. */
  function Changes(s: State, ops: seq<Op>): seq<AlarmState>
    requires CanRun(s, ops)
    decreases |ops|
  {
    if ops == [] then [] else Entered(s, ops[0]) + Changes(Apply(s, ops[0]), ops[1..])
  }

  /** The state the machine has entered but not yet published. */
  function Pending(s: State): seq<AlarmState> {
    if s.main.SetLock? || s.main.SetWrite? then [s.loop.astate] else []
  }

  lemma MainAndPending(h: C.History, s: State, tick: Tick)
    requires Enabled(s, MainStep(tick))
    ensures var t := MainNext(s, tick);
            Recorded(h, s, MainStep(tick)).pub + Pending(t) ==
            h.pub + Pending(s) + (if t.loop.astate != s.loop.astate then [t.loop.astate] else [])
  {
  }

  lemma WorkerAndPending(s: State, loud: bool)
    requires Enabled(s, WorkerStep(loud))
    ensures WorkerNext(s, loud).loop == s.loop && WorkerNext(s, loud).main == s.main
  {
  }

  lemma StepPublishes(h: C.History, s: State, op: Op)
    requires Enabled(s, op)
    ensures Recorded(h, s, op).pub + Pending(Apply(s, op)) == h.pub + Pending(s) + Entered(s, op)
  {
    match op
    case MainStep(tick) => MainAndPending(h, s, tick);
    case WorkerStep(loud) => WorkerAndPending(s, loud);
    case SpuriousWake =>
  }

  lemma Reassociate(a: seq<AlarmState>, b: seq<AlarmState>, c: seq<AlarmState>)
    ensures a + b + c == a + (b + c)
  {
  }

  lemma {:induction false} PublishedAreChanges(h: C.History, s: State, ops: seq<Op>)
    requires CanRun(s, ops)
    ensures Record(h, s, ops).pub + Pending(Exec(s, ops)) == h.pub + Pending(s) + Changes(s, ops)
    decreases |ops|
  {
    if ops != [] {
      StepPublishes(h, s, ops[0]);
      PublishedAreChanges(Recorded(h, s, ops[0]), Apply(s, ops[0]), ops[1..]);
      Reassociate(h.pub + Pending(s), Entered(s, ops[0]), Changes(Apply(s, ops[0]), ops[1..]));
    }
  }

  /** Every state the machine enters is published once, in order; at most the latest is still to come. */
  lemma EveryStateIsPublished(ops: seq<Op>)
    requires CanRun(INIT, ops)
    ensures Record(C.Fresh(None), INIT, ops).pub + Pending(Exec(INIT, ops)) == [None] + Changes(INIT, ops)
  {
    PublishedAreChanges(C.Fresh(None), INIT, ops);
  }

  /** Steps of the main thread to its next sleep. */
  function Left(pc: MainPc): nat {
    match pc
    case FirstTest => 4
    case FirstLock => 3
    case FirstWrite => 2
    case FirstUnlock => 1
    case Idle => 0
    case SetLock => 7
    case SetWrite => 6
    case SetUnlock => 5
    case SetStatus => 4
    case ResumeTest => 3
    case ResumeClear => 2
    case ResumeSignal => 1
  }

  lemma MainGoesOn(s: State, tick: Tick)
    requires !s.main.Idle? && !s.mtx.ByWorker? && LockInv(s)
    ensures Enabled(s, MainStep(tick)) && !MainNext(s, tick).mtx.ByWorker? && Left(MainNext(s, tick).main) < Left(s.main)
  {
  }

  lemma {:induction false} MainFinishes(s: State, tick: Tick) returns (ops: seq<Op>)
    requires Inv(s) && !s.mtx.ByWorker?
    ensures CanRun(s, ops) && (forall op | op in ops :: op == MainStep(tick))
    ensures var t := Exec(s, ops); Inv(t) && t.main.Idle? && t.loop == s.loop
    decreases Left(s.main)
  {
    ops := [];
    if !s.main.Idle? {
      MainGoesOn(s, tick);
      InvStep(s, MainStep(tick));
      LoopStep(s, MainStep(tick));
      var rest := MainFinishes(MainNext(s, tick), tick);
      ops := [MainStep(tick)] + rest;
      assert ops[1..] == rest;
    }
  }

  /**
   Unless the worker keeps the mutex, the main thread's own steps publish the state and lead to its
   sleep, from which it can make any next tick.
   */
  lemma MainPublishesAlone(past: seq<Op>, tick: Tick) returns (future: seq<Op>)
    requires CanRun(INIT, past) && !Exec(INIT, past).mtx.ByWorker?
    ensures CanRun(Exec(INIT, past), future) && forall op | op in future :: op == MainStep(tick)
    ensures var s, t := Exec(INIT, past), Exec(Exec(INIT, past), future);
            && t.main.Idle? && t.loop == s.loop && t.data == s.loop.astate
            && forall next :: Enabled(t, MainStep(next))
  {
    InvRun(INIT, past);
    future := MainFinishes(Exec(INIT, past), tick);
  }
}
