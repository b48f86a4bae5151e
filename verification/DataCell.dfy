/**
 The data cell of a worker thread: `irthread_setdata` on one side, the pick-up in
 `__thread_mainloop` on the other (iralarm/irthread.c:34-47, 132-138).  Any states may be
 published at any time, and the worker may be suspended, park and be woken at any time, so the
 theorems hold for both workers of the daemon whatever suspends and resumes them.
 */
module DataCell {
  import opened AlarmLoop

  // ----- histories -----

  /**
   The value the cell starts with, those published to it since, which value each pick-up read
   (0 is the first), and the callbacks' arguments.
   */
  datatype History = History(initial: AlarmState, later: seq<AlarmState>, picks: seq<nat>, calls: seq<AlarmState>) {
    /** Every value the cell has had. */
    const pub: seq<AlarmState> := [initial] + later
  }

  function Fresh(v: AlarmState): History {
    History(v, [], [], [])
  }

  function Publish(h: History, v: AlarmState): History {
    h.(later := h.later + [v])
  }

  function PickUp(h: History): History {
    h.(picks := h.picks + [|h.later|])
  }

  function Call(h: History, v: AlarmState): History {
    h.(calls := h.calls + [v])
  }

  /** calls reads pub in order: repeats and skips are allowed, going back is not. */
  ghost predicate InOrder(calls: seq<AlarmState>, pub: seq<AlarmState>) {
    exists picks: seq<nat> :: |picks| >= |calls| && Nondecreasing(picks) && Reads(calls, picks, pub)
  }

  ghost predicate Nondecreasing(picks: seq<nat>) {
    forall i, j :: 0 <= i <= j < |picks| ==> picks[i] <= picks[j]
  }

  ghost predicate Reads(calls: seq<AlarmState>, picks: seq<nat>, pub: seq<AlarmState>)
    requires |picks| >= |calls|
  {
    forall i :: 0 <= i < |calls| ==> picks[i] < |pub| && pub[picks[i]] == calls[i]
  }

  /** The history of a cell that contains `data`, with a worker that has `hand` in hand (one value or none). */
  ghost predicate Coherent(h: History, data: AlarmState, hand: seq<AlarmState>) {
    && data == h.pub[|h.later|]
    && |h.picks| == |h.calls| + |hand| && |hand| <= 1
    && (forall i :: 0 <= i < |h.picks| ==> h.picks[i] < |h.pub|)
    && Nondecreasing(h.picks)
    && Reads(h.calls, h.picks, h.pub)
    && (hand != [] ==> hand[0] == h.pub[h.picks[|h.picks| - 1]])
  }

  lemma CoherentPublish(h: History, data: AlarmState, hand: seq<AlarmState>, v: AlarmState)
    requires Coherent(h, data, hand)
    ensures Coherent(Publish(h, v), v, hand)
  {
  }

  lemma CoherentPickUp(h: History, data: AlarmState)
    requires Coherent(h, data, [])
    ensures Coherent(PickUp(h), data, [data])
  {
  }

  lemma CoherentCall(h: History, data: AlarmState, v: AlarmState)
    requires Coherent(h, data, [v])
    ensures Coherent(Call(h, v), data, [])
  {
  }

  lemma CoherentInOrder(h: History, data: AlarmState, hand: seq<AlarmState>)
    requires Coherent(h, data, hand)
    ensures InOrder(h.calls, h.pub)
  {
  }

  // ----- the cell under its mutex -----

  // The mutex only removes interleavings: as a read or write of the cell is one step, the order of
  // delivery does not depend on it.  That everybody gets on does.

  datatype Owner = Free | ByMain | ByWorker

  datatype MainPc =
    | Idle
    | Writing(v: AlarmState)   // irthread_setdata: holds the mutex
    | Written
    | Suspending               // irthread_suspend: holds the mutex

  datatype WorkerPc =
    | Outside                  // not holding the mutex, no value in hand
    | Testing                  // holds the mutex, about to test susp
    | Parked                   // in the condition wait
    | Woken                    // left the wait, must get the mutex back
    | Picking                  // holds the mutex, about to read the cell
    | Holding(v: AlarmState)   // read the cell, still holds the mutex
    | Calling(v: AlarmState)   // released the mutex, about to call the callback
    | SelfSuspending           // irthread_suspend from the callback: holds the mutex

  datatype State = State(data: AlarmState, mtx: Owner, main: MainPc, worker: WorkerPc)

  datatype Op =
    | SetLock(v: AlarmState) | SetWrite | SetUnlock | SuspendLock | SuspendUnlock
    | Lock | TestSusp(susp: bool) | Wake | Relock | Pick | Unlock | StartCallback | SelfLock | SelfUnlock

  function Init(v: AlarmState): State {
    State(v, Free, Idle, Outside)
  }

  predicate Enabled(s: State, op: Op) {
    match op
    case SetLock(_) => s.main.Idle? && s.mtx.Free?
    case SetWrite => s.main.Writing?
    case SetUnlock => s.main.Written?
    case SuspendLock => s.main.Idle? && s.mtx.Free?
    case SuspendUnlock => s.main.Suspending?
    case Lock => s.worker.Outside? && s.mtx.Free?
    case TestSusp(_) => s.worker.Testing?
    case Wake => s.worker.Parked?
    case Relock => s.worker.Woken? && s.mtx.Free?
    case Pick => s.worker.Picking?
    case Unlock => s.worker.Holding?
    case StartCallback => s.worker.Calling?
    case SelfLock => s.worker.Outside? && s.mtx.Free?
    case SelfUnlock => s.worker.SelfSuspending?
  }

  function Apply(s: State, op: Op): State
    requires Enabled(s, op)
  {
    match op
    case SetLock(v) => s.(mtx := ByMain, main := Writing(v))
    case SetWrite => s.(data := s.main.v, main := Written)
    case SetUnlock => s.(mtx := Free, main := Idle)
    case SuspendLock => s.(mtx := ByMain, main := Suspending)
    case SuspendUnlock => s.(mtx := Free, main := Idle)
    case Lock => s.(mtx := ByWorker, worker := Testing)
    case TestSusp(susp) => if susp then s.(mtx := Free, worker := Parked) else s.(worker := Picking)
    case Wake => s.(worker := Woken)
    case Relock => s.(mtx := ByWorker, worker := Picking)
    case Pick => s.(worker := Holding(s.data))
    case Unlock => s.(mtx := Free, worker := Calling(s.worker.v))
    case StartCallback => s.(worker := Outside)
    case SelfLock => s.(mtx := ByWorker, worker := SelfSuspending)
    case SelfUnlock => s.(mtx := Free, worker := Outside)
  }

  predicate CanRun(s: State, ops: seq<Op>)
    decreases |ops|
  {
    ops == [] || (Enabled(s, ops[0]) && CanRun(Apply(s, ops[0]), ops[1..]))
  }

  function Exec(s: State, ops: seq<Op>): State
    requires CanRun(s, ops)
    decreases |ops|
  {
    if ops == [] then s else Exec(Apply(s, ops[0]), ops[1..])
  }

  // ----- what the operations of a run say -----

  /** The history, and the argument of the irthread_setdata under way. */
  datatype Record = Record(hist: History, next: AlarmState)

  /** Published is what was passed to irthread_setdata; a callback's argument is what it starts with. */
  function Recorded(r: Record, s: State, op: Op): Record {
    match op
    case SetLock(v) => r.(next := v)
    case SetWrite => r.(hist := Publish(r.hist, r.next))
    case Pick => r.(hist := PickUp(r.hist))
    case StartCallback => if s.worker.Calling? then r.(hist := Call(r.hist, s.worker.v)) else r
    case _ => r
  }

  function RecordOf(r: Record, s: State, ops: seq<Op>): Record
    requires CanRun(s, ops)
    decreases |ops|
  {
    if ops == [] then r else RecordOf(Recorded(r, s, ops[0]), Apply(s, ops[0]), ops[1..])
  }

  /** The history of a run from the start. */
  function HistoryOf(v: AlarmState, ops: seq<Op>): History
    requires CanRun(Init(v), ops)
  {
    RecordOf(Record(Fresh(v), v), Init(v), ops).hist
  }

  function Hand(w: WorkerPc): seq<AlarmState> {
    if w.Holding? || w.Calling? then [w.v] else []
  }

  ghost predicate Inv(s: State, r: Record) {
    && Coherent(r.hist, s.data, Hand(s.worker))
    && (s.main.Writing? ==> s.main.v == r.next)
    && (s.mtx.ByMain? <==> !s.main.Idle?)
    && (s.mtx.ByWorker? <==> s.worker.Testing? || s.worker.Picking? || s.worker.Holding? || s.worker.SelfSuspending?)
  }

  /** What `t`, reached from `s`, has added to the histories. */
  ghost predicate Extends(s: History, t: History) {
    && s.initial == t.initial && s.later <= t.later && s.picks <= t.picks && s.calls <= t.calls
    && forall i :: |s.picks| <= i < |t.picks| ==> t.picks[i] >= |s.later|
  }

  lemma InvStep(s: State, r: Record, op: Op)
    requires Inv(s, r) && Enabled(s, op)
    ensures Inv(Apply(s, op), Recorded(r, s, op)) && Extends(r.hist, Recorded(r, s, op).hist)
  {
    match op
    case SetWrite => CoherentPublish(r.hist, s.data, Hand(s.worker), s.main.v);
    case Pick => CoherentPickUp(r.hist, s.data);
    case StartCallback => CoherentCall(r.hist, s.data, s.worker.v);
    case _ =>
  }

  lemma {:induction false} InvRun(s: State, r: Record, ops: seq<Op>)
    requires Inv(s, r) && CanRun(s, ops)
    ensures Inv(Exec(s, ops), RecordOf(r, s, ops)) && Extends(r.hist, RecordOf(r, s, ops).hist)
    decreases |ops|
  {
    if ops != [] {
      InvStep(s, r, ops[0]);
      InvRun(Apply(s, ops[0]), Recorded(r, s, ops[0]), ops[1..]);
    }
  }

  /** In every interleaving the callbacks receive published values in the order of publication. */
  lemma CallbacksSeeStatesInOrder(v: AlarmState, ops: seq<Op>)
    requires CanRun(Init(v), ops)
    ensures InOrder(HistoryOf(v, ops).calls, HistoryOf(v, ops).pub)
  {
    InvRun(Init(v), Record(Fresh(v), v), ops);
    CoherentInOrder(HistoryOf(v, ops), Exec(Init(v), ops).data, Hand(Exec(Init(v), ops).worker));
  }

  /** Nor is a value delivered late: a callback whose pick-up follows a publication sees that value or a newer one. */
  lemma NoStaleDelivery(v: AlarmState, past: seq<Op>, future: seq<Op>)
    requires CanRun(Init(v), past) && CanRun(Exec(Init(v), past), future)
    requires Hand(Exec(Init(v), past).worker) == []
    ensures var r := RecordOf(Record(Fresh(v), v), Init(v), past);
            var s, t := r.hist, RecordOf(r, Exec(Init(v), past), future).hist;
            && s.calls <= t.calls
            && forall i :: |s.calls| <= i < |t.calls| ==>
                 exists k: nat :: |s.pub| - 1 <= k < |t.pub| && t.pub[k] == t.calls[i]
  {
    InvRun(Init(v), Record(Fresh(v), v), past);
    var r := RecordOf(Record(Fresh(v), v), Init(v), past);
    InvRun(Exec(Init(v), past), r, future);
    var s, t := r.hist, RecordOf(r, Exec(Init(v), past), future).hist;
    forall i | |s.calls| <= i < |t.calls|
      ensures exists k: nat :: |s.pub| - 1 <= k < |t.pub| && t.pub[k] == t.calls[i]
    {
      assert t.pub[t.picks[i]] == t.calls[i];
    }
  }

  // ----- nobody gets stuck -----

  predicate Quiet(s: State) {
    s.main.Idle? && s.mtx.Free? && s.worker.Outside?
  }

  /** Steps to rest. */
  function Left(s: State): nat {
    (match s.main case Writing(_) => 2 case Idle => 0 case _ => 1) +
    (match s.worker
     case Outside => 0
     case Parked => 5
     case Woken => 4
     case Testing => 4
     case Picking => 3
     case Holding(_) => 2
     case _ => 1)
  }

  /** What to do next on the way to rest. */
  function Next(s: State): Op {
    match s.main
    case Writing(_) => SetWrite
    case Written => SetUnlock
    case Suspending => SuspendUnlock
    case Idle =>
      match s.worker
      case Testing => TestSusp(false)
      case Parked => Wake
      case Woken => Relock
      case Picking => Pick
      case Holding(_) => Unlock
      case Calling(_) => StartCallback
      case _ => SelfUnlock
  }

  lemma {:induction false} ComesToRest(s: State, r: Record) returns (ops: seq<Op>)
    requires Inv(s, r)
    ensures CanRun(s, ops) && Quiet(Exec(s, ops))
    decreases Left(s)
  {
    ops := [];
    if !Quiet(s) {
      var op := Next(s);
      InvStep(s, r, op);
      var rest := ComesToRest(Apply(s, op), Recorded(r, s, op));
      ops := [op] + rest;
      assert ops[1..] == rest;
    }
  }

  /** From every reachable state both threads can come to rest, with the mutex free. */
  lemma EverybodyGetsOn(v: AlarmState, past: seq<Op>) returns (future: seq<Op>)
    requires CanRun(Init(v), past)
    ensures CanRun(Exec(Init(v), past), future) && Quiet(Exec(Exec(Init(v), past), future))
  {
    InvRun(Init(v), Record(Fresh(v), v), past);
    future := ComesToRest(Exec(Init(v), past), RecordOf(Record(Fresh(v), v), Init(v), past));
  }

  lemma First(r: Record, s: State, op: Op, rest: seq<Op>)
    requires Enabled(s, op) && CanRun(Apply(s, op), rest)
    ensures CanRun(s, [op] + rest)
    ensures Exec(s, [op] + rest) == Exec(Apply(s, op), rest)
    ensures RecordOf(r, s, [op] + rest) == RecordOf(Recorded(r, s, op), Apply(s, op), rest)
  {
    assert ([op] + rest)[1..] == rest;
  }

  /** A publication at rest puts the value into the cell. */
  lemma Publishes(s: State, r: Record, v: AlarmState)
    requires Quiet(s)
    ensures var ops := [SetLock(v), SetWrite, SetUnlock];
            && CanRun(s, ops) && Exec(s, ops) == s.(data := v)
            && RecordOf(r, s, ops).hist == Publish(r.hist, v)
  {
    var a, ra := Apply(s, SetLock(v)), Recorded(r, s, SetLock(v));
    var b, rb := Apply(a, SetWrite), Recorded(ra, a, SetWrite);
    First(rb, b, SetUnlock, []);
    First(ra, a, SetWrite, [SetUnlock]);
    First(r, s, SetLock(v), [SetWrite, SetUnlock]);
  }

  /** From rest a worker that is not suspended, or is woken, passes the value in the cell to its callback. */
  lemma Delivers(s: State, r: Record, suspended: bool)
    requires Quiet(s)
    ensures var ops := [Lock, TestSusp(suspended)] + (if suspended then [Wake, Relock] else []) + [Pick, Unlock, StartCallback];
            && CanRun(s, ops) && Exec(s, ops) == s
            && RecordOf(r, s, ops).hist.calls == r.hist.calls + [s.data]
  {
    var last := [Pick, Unlock, StartCallback];
    var p := s.(mtx := ByWorker, worker := Picking);
    PicksUp(p, r);
    var t := s.(mtx := ByWorker, worker := Testing);
    var head := [TestSusp(suspended)] + (if suspended then [Wake, Relock] else []) + last;
    if suspended {
      var w := s.(worker := Woken);
      First(r, w, Relock, last);
      First(r, s.(worker := Parked), Wake, [Relock] + last);
      assert [TestSusp(true)] + ([Wake] + ([Relock] + last)) == head;
      First(r, t, TestSusp(true), [Wake] + ([Relock] + last));
    } else {
      First(r, t, TestSusp(false), last);
      assert [TestSusp(false)] + last == head;
    }
    First(r, s, Lock, head);
    assert [Lock] + head == [Lock, TestSusp(suspended)] + (if suspended then [Wake, Relock] else []) + last;
  }

  lemma PicksUp(p: State, r: Record)
    requires p.mtx.ByWorker? && p.worker.Picking?
    ensures var ops := [Pick, Unlock, StartCallback];
            && CanRun(p, ops) && Exec(p, ops) == p.(mtx := Free, worker := Outside)
            && RecordOf(r, p, ops).hist.calls == r.hist.calls + [p.data]
  {
    var a, ra := Apply(p, Pick), Recorded(r, p, Pick);
    var b, rb := Apply(a, Unlock), Recorded(ra, a, Unlock);
    First(rb, b, StartCallback, []);
    First(ra, a, Unlock, [StartCallback]);
    First(r, p, Pick, [Unlock, StartCallback]);
  }
}
