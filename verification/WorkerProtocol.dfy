/**
 The main loop and the alarm worker as interleaved threads: `__thread_mainloop`,
 `irthread_suspend`, `irthread_resume` and `irthread_setdata` (iralarm/irthread.c), the callback
 `alarm_thread` and the transitions of the main loop (iralarm/iralarmd.c).

 Every access to a shared variable is a step of its own.  `irthread_resume` tests, clears and
 signals without the mutex, and the wait in the worker is not in a loop, so a spurious wake-up
 lets the worker go on.  The run starts once `thrd_alarm` has been assigned, with the worker at the
 top of its loop: the main thread first suspends it (iralarm/iralarmd.c:561) and then enters its
 own loop.  What the new thread may do before the assignment is not part of this model.
 */
module WorkerProtocol {
  import opened AlarmLoop

  /** Who holds mtx_bsy. */
  datatype Owner = Free | ByMain | ByWorker

  datatype MainPc =
    // irthread_suspend(thrd_alarm) before the loop
    | FirstTest | FirstLock | FirstWrite | FirstUnlock
    // between two transitions
    | Idle
    // irthread_setdata(thrd_alarm), then irthread_setdata(thrd_status)
    | SetLock | SetWrite | SetUnlock | SetStatus
    // irthread_resume(thrd_alarm), after a raise only
    | ResumeTest | ResumeClear | ResumeSignal

  /** Inside __thread_mainloop. */
  datatype WorkerPc =
    | Lock | TestSusp | EnterWait | Parked | Relock | PickUp | Unlock | Call
    | In(cb: CallbackPc)

  /** Inside the callback alarm_thread. */
  datatype CallbackPc =
    // ALRM_ACTIVE
    | ActSpeakerOn | ActAlarmOff | ActSpeakerOff | ActAlarmOn
    // ALRM_PREACTIVE
    | PreAlarmOn | PreAlarmOff
    // ALRM_NONE, ending in irthread_suspend
    | OffAlarm | OffSpeaker | SuspTest | SuspLock | SuspWrite | SuspUnlock

  datatype State = State(
    loop: Loop,          // astate and its counters
    data: AlarmState,    // thrds[thrd_alarm]->data
    susp: bool,
    mtx: Owner,
    main: MainPc,
    worker: WorkerPc,
    picked: AlarmState,  // data_ptr of the worker
    speaker: bool,       // level of the speaker pin
    alarm: bool)         // level of the alarm LED pin

  datatype Op =
    | MainStep(tick: Tick)    // the tick matters only when the main thread is Idle
    | WorkerStep(loud: bool)  // s_speaker matters only when a callback starts
    | SpuriousWake

  const INIT := State(INITIAL, None, false, Free, FirstTest, Lock, None, false, false)

  predicate Enabled(s: State, op: Op) {
    match op
    case MainStep(_) => (s.main.FirstLock? || s.main.SetLock?) ==> s.mtx.Free?
    case WorkerStep(_) =>
      && !s.worker.Parked?
      && ((s.worker.Lock? || s.worker.Relock? || s.worker == In(SuspLock)) ==> s.mtx.Free?)
    case SpuriousWake => s.worker.Parked?
  }

  function MainNext(s: State, tick: Tick): State {
    match s.main
    case FirstTest => s.(main := if s.susp then Idle else FirstLock)
    case FirstLock => s.(mtx := ByMain, main := FirstWrite)
    case FirstWrite => s.(susp := true, main := FirstUnlock)
    case FirstUnlock => s.(mtx := Free, main := Idle)
    case Idle =>
      var next := Step(s.loop, tick);
      s.(loop := next, main := if next.astate == s.loop.astate then Idle else SetLock)
    case SetLock => s.(mtx := ByMain, main := SetWrite)
    case SetWrite => s.(data := s.loop.astate, main := SetUnlock)
    case SetUnlock => s.(mtx := Free, main := SetStatus)
    case SetStatus => s.(main := if s.loop.astate == Preactive then ResumeTest else Idle)
    case ResumeTest => s.(main := if s.susp then ResumeClear else Idle)
    case ResumeClear => s.(susp := false, main := ResumeSignal)
    case ResumeSignal => s.(worker := if s.worker.Parked? then Relock else s.worker, main := Idle)
  }

  function CallbackNext(s: State): State
    requires s.worker.In?
  {
    match s.worker.cb
    case ActSpeakerOn => s.(speaker := true, worker := In(ActAlarmOff))
    case ActAlarmOff => s.(alarm := false, worker := In(ActSpeakerOff))
    case ActSpeakerOff => s.(speaker := false, worker := In(ActAlarmOn))
    case ActAlarmOn => s.(alarm := true, worker := Lock)
    case PreAlarmOn => s.(alarm := true, worker := In(PreAlarmOff))
    case PreAlarmOff => s.(alarm := false, worker := Lock)
    case OffAlarm => s.(alarm := false, worker := In(OffSpeaker))
    case OffSpeaker => s.(speaker := false, worker := In(SuspTest))
    case SuspTest => s.(worker := if s.susp then Lock else In(SuspLock))
    case SuspLock => s.(mtx := ByWorker, worker := In(SuspWrite))
    case SuspWrite => s.(susp := true, worker := In(SuspUnlock))
    case SuspUnlock => s.(mtx := Free, worker := Lock)
  }

  function WorkerNext(s: State, loud: bool): State {
    match s.worker
    case Lock => s.(mtx := ByWorker, worker := TestSusp)
    case TestSusp => s.(worker := if s.susp then EnterWait else PickUp)
    case EnterWait => s.(mtx := Free, worker := Parked)
    case Parked => s
    case Relock => s.(mtx := ByWorker, worker := PickUp)
    case PickUp => s.(picked := s.data, worker := Unlock)
    case Unlock => s.(mtx := Free, worker := Call)
    case Call =>
      s.(worker := In(match s.picked
                      case Active => (if loud then ActSpeakerOn else ActAlarmOff)
                      case Preactive => PreAlarmOn
                      case None => OffAlarm))
    case In(_) => CallbackNext(s)
  }

  function Apply(s: State, op: Op): State
    requires Enabled(s, op)
  {
    match op
    case MainStep(tick) => MainNext(s, tick)
    case WorkerStep(loud) => WorkerNext(s, loud)
    case SpuriousWake => s.(worker := Relock)
  }

  predicate CanRun(s: State, ops: seq<Op>)
    decreases |ops|
  {
    ops == [] || (Enabled(s, ops[0]) && CanRun(Apply(s, ops[0]), ops[1..]))
  }

  function Exec(s: State, ops: seq<Op>): State
    requires CanRun(s, ops)
    decreases |ops|
  {
    if ops == [] then s else Exec(Apply(s, ops[0]), ops[1..])
  }

  // ----- what holds in every interleaving -----

  predicate MainHolds(pc: MainPc) {
    pc.FirstWrite? || pc.FirstUnlock? || pc.SetWrite? || pc.SetUnlock?
  }

  predicate WorkerHolds(pc: WorkerPc) {
    || pc.TestSusp? || pc.EnterWait? || pc.PickUp? || pc.Unlock?
    || (pc.In? && (pc.cb.SuspWrite? || pc.cb.SuspUnlock?))
  }

  /** The state a callback step belongs to. */
  function Serves(cb: CallbackPc): AlarmState {
    if cb.ActSpeakerOn? || cb.ActAlarmOff? || cb.ActSpeakerOff? || cb.ActAlarmOn? then Active
    else if cb.PreAlarmOn? || cb.PreAlarmOff? then Preactive
    else None
  }

  ghost predicate LockInv(s: State) {
    && (s.mtx.ByMain? <==> MainHolds(s.main))
    && (s.mtx.ByWorker? <==> WorkerHolds(s.worker))
  }

  /** The data cell follows astate; only the two steps before the store lag behind. */
  ghost predicate DataInv(s: State) {
    && (s.main.FirstTest? || s.main.FirstLock? || s.main.FirstWrite? || s.main.FirstUnlock? ==> s.loop.astate == None)
    && (!s.main.SetLock? && !s.main.SetWrite? ==> s.data == s.loop.astate)
    && (s.loop.astate == Active ==> s.data != None)
    && (s.main.ResumeTest? || s.main.ResumeClear? || s.main.ResumeSignal? ==> s.loop.astate == Preactive)
  }

  /** The callback runs on the value the worker picked up, and drives the pins accordingly. */
  ghost predicate PinInv(s: State) {
    && (s.worker.In? ==> s.picked == Serves(s.worker.cb))
    && (s.speaker ==> s.worker.In? && (s.worker.cb.ActAlarmOff? || s.worker.cb.ActSpeakerOff?))
    && (s.worker.In? && Serves(s.worker.cb) == None && !s.worker.cb.OffAlarm? ==> !s.alarm)
  }

  ghost predicate Inv(s: State) {
    LockInv(s) && DataInv(s) && PinInv(s)
  }

  lemma LockMain(s: State, tick: Tick)
    requires LockInv(s) && Enabled(s, MainStep(tick))
    ensures LockInv(MainNext(s, tick))
  {
  }

  lemma LockCallback(s: State)
    requires LockInv(s) && s.worker.In? && Enabled(s, WorkerStep(false))
    ensures LockInv(CallbackNext(s))
  {
  }

  lemma LockWorker(s: State, loud: bool)
    requires LockInv(s) && Enabled(s, WorkerStep(loud))
    ensures LockInv(WorkerNext(s, loud))
  {
    if s.worker.In? {
      LockCallback(s);
    }
  }

  lemma DataMain(s: State, tick: Tick)
    requires DataInv(s) && Enabled(s, MainStep(tick))
    ensures DataInv(MainNext(s, tick))
  {
  }

  lemma DataCallback(s: State)
    requires DataInv(s) && s.worker.In? && Enabled(s, WorkerStep(false))
    ensures DataInv(CallbackNext(s))
  {
  }

  lemma DataWorker(s: State, loud: bool)
    requires DataInv(s) && Enabled(s, WorkerStep(loud))
    ensures DataInv(WorkerNext(s, loud))
  {
    if s.worker.In? {
      DataCallback(s);
    }
  }

  lemma PinMain(s: State, tick: Tick)
    requires PinInv(s) && Enabled(s, MainStep(tick))
    ensures PinInv(MainNext(s, tick))
  {
  }

  lemma PinCallback(s: State)
    requires PinInv(s) && s.worker.In? && Enabled(s, WorkerStep(false))
    ensures PinInv(CallbackNext(s))
  {
  }

  lemma PinWorker(s: State, loud: bool)
    requires PinInv(s) && Enabled(s, WorkerStep(loud))
    ensures PinInv(WorkerNext(s, loud))
  {
    if s.worker.In? {
      PinCallback(s);
    }
  }

  lemma InvStep(s: State, op: Op)
    requires Inv(s) && Enabled(s, op)
    ensures Inv(Apply(s, op))
  {
    match op
    case MainStep(tick) => LockMain(s, tick); DataMain(s, tick); PinMain(s, tick);
    case WorkerStep(loud) => LockWorker(s, loud); DataWorker(s, loud); PinWorker(s, loud);
    case SpuriousWake =>
  }

  lemma {:induction false} InvRun(s: State, ops: seq<Op>)
    requires Inv(s) && CanRun(s, ops)
    ensures Inv(Exec(s, ops))
    decreases |ops|
  {
    if ops != [] {
      InvStep(s, ops[0]);
      InvRun(Apply(s, ops[0]), ops[1..]);
    }
  }

  /** The speaker pin is high only while the worker is inside its callback for Active. */
  lemma SpeakerOnlyWhenActive(ops: seq<Op>)
    requires CanRun(INIT, ops)
    ensures var s := Exec(INIT, ops); s.speaker ==> s.worker.In? && Serves(s.worker.cb) == Active && s.picked == Active
  {
    InvRun(INIT, ops);
  }

  /** The step ends a callback. */
  predicate EndsCallback(s: State, op: Op)
    requires Enabled(s, op)
  {
    op.WorkerStep? && s.worker.In? && Apply(s, op).worker.Lock?
  }

  /** However it is interleaved, a callback leaves the speaker off and the LED lit exactly if it served Active. */
  lemma CallbackLeavesPins(ops: seq<Op>, last: Op)
    requires CanRun(INIT, ops) && Enabled(Exec(INIT, ops), last) && EndsCallback(Exec(INIT, ops), last)
    ensures var t := Apply(Exec(INIT, ops), last); !t.speaker && (t.alarm <==> t.picked == Active)
  {
    InvRun(INIT, ops);
    InvStep(Exec(INIT, ops), last);
  }

  // ----- silence after an alarm -----

  /** The operation publishes an alarm to the worker. */
  predicate PublishesAlarm(s: State, op: Op) {
    op.MainStep? && s.main.SetWrite? && s.loop.astate != None
  }

  predicate NoAlarmPublished(s: State, ops: seq<Op>)
    requires CanRun(s, ops)
    decreases |ops|
  {
    ops == [] || (!PublishesAlarm(s, ops[0]) && NoAlarmPublished(Apply(s, ops[0]), ops[1..]))
  }

  /** None is published, both outputs are low and the worker carries nothing but None. */
  ghost predicate Silent(s: State) {
    && s.data == None && !s.speaker && !s.alarm
    && (s.worker.In? ==> Serves(s.worker.cb) == None)
    && (s.worker.Unlock? || s.worker.Call? ==> s.picked == None)
  }

  lemma {:induction false} SilentRun(s: State, ops: seq<Op>)
    requires Inv(s) && Silent(s) && CanRun(s, ops) && NoAlarmPublished(s, ops)
    ensures Silent(Exec(s, ops))
    decreases |ops|
  {
    if ops != [] {
      InvStep(s, ops[0]);
      SilentRun(Apply(s, ops[0]), ops[1..]);
    }
  }

  /** The operation is the last one of a callback for None. */
  predicate EndsNoneCallback(s: State, op: Op) {
    op.WorkerStep? && s.worker.In? && ((s.worker.cb.SuspTest? && s.susp) || s.worker.cb.SuspUnlock?)
  }

  /**
   Take any run `past` after which None is the published state, let the worker end a callback for
   None, and continue in any way that publishes no alarm: both alarm outputs are low throughout.
   */
  lemma SilentUntilNextAlarm(past: seq<Op>, last: Op, future: seq<Op>)
    requires CanRun(INIT, past) && Exec(INIT, past).data == None
    requires Enabled(Exec(INIT, past), last) && EndsNoneCallback(Exec(INIT, past), last)
    requires CanRun(Apply(Exec(INIT, past), last), future)
    requires NoAlarmPublished(Apply(Exec(INIT, past), last), future)
    ensures var s := Exec(Apply(Exec(INIT, past), last), future); !s.speaker && !s.alarm
  {
    InvRun(INIT, past);
    InvStep(Exec(INIT, past), last);
    SilentRun(Apply(Exec(INIT, past), last), future);
  }
}
