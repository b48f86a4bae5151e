/**
 When does `irthread_resume` wake the alarm worker?  Not always: it works without the mutex.

 This module states exactly when it does.  Each resume has one or two steps that matter: the
 decisive step, where it either finds the flag clear and gives up or clears it, and the signal.
 While an alarm is up the worker attends to it, now and for as long as the alarm lasts, if and only
 if the decisive step did not fall into the time in which the worker carried None, and no signal
 fell between the worker's test of the flag and its wait (unless a spurious wake-up made up for it).
 */
module ResumeSafety {
  import opened AlarmLoop
  import opened WorkerProtocol

  /** The worker has picked up None and its callback has not suspended the worker yet. */
  predicate CarriesNone(s: State) {
    || ((s.worker.Unlock? || s.worker.Call?) && s.picked == None)
    || (s.worker.In? && Serves(s.worker.cb) == None && !s.worker.cb.SuspUnlock?)
  }

  predicate Waits(pc: WorkerPc) {
    pc.EnterWait? || pc.Parked?
  }

  /** The main thread is still in the suspend that precedes its loop. */
  predicate InFirstSuspend(pc: MainPc) {
    pc.FirstTest? || pc.FirstLock? || pc.FirstWrite? || pc.FirstUnlock?
  }

  /** There is an alarm, and the main thread is not in the middle of raising it. */
  predicate Settled(s: State) {
    s.loop.astate != None && (s.loop.astate == Preactive ==> s.main.Idle?)
  }

  /** The property a resume is for: the worker is neither suspended nor parked. */
  predicate Awake(s: State) {
    !s.susp && !s.worker.Parked?
  }

  // ----- what the schedule did -----

  /** The main thread decides a resume: it finds the flag clear, or clears it. */
  predicate Decides(s: State, op: Op) {
    op.MainStep? && ((s.main.ResumeTest? && !s.susp) || s.main.ResumeClear?)
  }

  /** The signal finds the worker past its test of the flag but not yet waiting, with the flag clear. */
  predicate Misses(s: State, op: Op) {
    op.MainStep? && s.main.ResumeSignal? && s.worker.EnterWait? && !s.susp
  }

  /**
   carried: the decisive step of the latest resume was made while the worker carried None.
   missed: a signal was missed, and no spurious wake-up has occurred since.
   */
  datatype Fate = Fate(carried: bool, missed: bool)

  function FateStep(f: Fate, s: State, op: Op): Fate {
    Fate(if Decides(s, op) then CarriesNone(s) else f.carried,
         if op.SpuriousWake? then false else f.missed || Misses(s, op))
  }

  function FateOf(f: Fate, s: State, ops: seq<Op>): Fate
    requires CanRun(s, ops)
    decreases |ops|
  {
    if ops == [] then f else FateOf(FateStep(f, s, ops[0]), Apply(s, ops[0]), ops[1..])
  }

  const UNDECIDED := Fate(false, false)

  ghost predicate FateInv(s: State, f: Fate) {
    && (f.missed <==> Waits(s.worker) && !s.susp && !s.main.ResumeSignal?)
    && (InFirstSuspend(s.main) ==> !f.missed)
    && (s.main.ResumeClear? ==> s.susp)
    && (Settled(s) || s.main.ResumeSignal? ==> (f.carried <==> s.susp || CarriesNone(s)))
  }

  lemma FateMain(s: State, f: Fate, tick: Tick)
    requires DataInv(s) && FateInv(s, f) && Enabled(s, MainStep(tick))
    ensures FateInv(MainNext(s, tick), FateStep(f, s, MainStep(tick)))
  {
  }

  lemma FateCallback(s: State, f: Fate)
    requires DataInv(s) && PinInv(s) && FateInv(s, f) && s.worker.In? && Enabled(s, WorkerStep(false))
    ensures FateInv(CallbackNext(s), f)
  {
  }

  lemma FateWorker(s: State, f: Fate, loud: bool)
    requires Inv(s) && FateInv(s, f) && Enabled(s, WorkerStep(loud))
    ensures FateInv(WorkerNext(s, loud), f)
  {
    if s.worker.In? {
      FateCallback(s, f);
    }
  }

  lemma FateInvStep(s: State, f: Fate, op: Op)
    requires Inv(s) && FateInv(s, f) && Enabled(s, op)
    ensures FateInv(Apply(s, op), FateStep(f, s, op))
  {
    match op
    case MainStep(tick) => FateMain(s, f, tick);
    case WorkerStep(loud) => FateWorker(s, f, loud);
    case SpuriousWake =>
  }

  lemma {:induction false} FateRun(s: State, f: Fate, ops: seq<Op>)
    requires Inv(s) && FateInv(s, f) && CanRun(s, ops)
    ensures Inv(Exec(s, ops)) && FateInv(Exec(s, ops), FateOf(f, s, ops))
    decreases |ops|
  {
    if ops != [] {
      InvStep(s, ops[0]);
      FateInvStep(s, f, ops[0]);
      FateRun(Apply(s, ops[0]), FateStep(f, s, ops[0]), ops[1..]);
    }
  }

  // ----- both halves, state by state -----

  /** In every run: while an alarm is up the worker is or will be suspended exactly if the resume was decided on a carrier. */
  lemma SuspendedIffCarried(ops: seq<Op>)
    requires CanRun(INIT, ops) && Settled(Exec(INIT, ops))
    ensures var s := Exec(INIT, ops); s.susp || CarriesNone(s) <==> FateOf(UNDECIDED, INIT, ops).carried
  {
    FateRun(INIT, UNDECIDED, ops);
  }

  /** In every run: outside a resume, the worker waits with the flag clear exactly if a signal was missed. */
  lemma StrandedIffMissed(ops: seq<Op>)
    requires CanRun(INIT, ops) && !Exec(INIT, ops).main.ResumeSignal?
    ensures var s := Exec(INIT, ops); Waits(s.worker) && !s.susp <==> FateOf(UNDECIDED, INIT, ops).missed
  {
    FateRun(INIT, UNDECIDED, ops);
  }

  // ----- neither repairs itself -----

  predicate NoClear(s: State, ops: seq<Op>)
    requires CanRun(s, ops)
    decreases |ops|
  {
    ops == [] || (!(ops[0].MainStep? && s.main.ResumeClear?) && NoClear(Apply(s, ops[0]), ops[1..]))
  }

  lemma CarrierStep(s: State, op: Op)
    requires (s.susp || CarriesNone(s)) && Enabled(s, op) && !(op.MainStep? && s.main.ResumeClear?)
    ensures Apply(s, op).susp || CarriesNone(Apply(s, op))
  {
    match op
    case MainStep(tick) => CarrierMain(s, tick);
    case WorkerStep(loud) =>
    case SpuriousWake =>
  }

  lemma CarrierMain(s: State, tick: Tick)
    requires (s.susp || CarriesNone(s)) && Enabled(s, MainStep(tick)) && !s.main.ResumeClear?
    ensures MainNext(s, tick).susp || CarriesNone(MainNext(s, tick))
  {
  }

  /** Once suspended or bound to be, the worker stays so in EVERY continuation until a resume next clears the flag. */
  lemma {:induction false} SuspendedUntilCleared(s: State, ops: seq<Op>)
    requires (s.susp || CarriesNone(s)) && CanRun(s, ops) && NoClear(s, ops)
    ensures Exec(s, ops).susp || CarriesNone(Exec(s, ops))
    decreases |ops|
  {
    if ops != [] {
      CarrierStep(s, ops[0]);
      SuspendedUntilCleared(Apply(s, ops[0]), ops[1..]);
    }
  }

  /** A resume decided on a carrier leaves the worker suspended, or bound to be, whatever is scheduled until the next clear. */
  lemma CarriedResumeSticks(past: seq<Op>, op: Op, future: seq<Op>)
    requires CanRun(INIT, past) && Enabled(Exec(INIT, past), op)
    requires Decides(Exec(INIT, past), op) && CarriesNone(Exec(INIT, past))
    requires CanRun(Apply(Exec(INIT, past), op), future) && NoClear(Apply(Exec(INIT, past), op), future)
    ensures var t := Exec(Apply(Exec(INIT, past), op), future); t.susp || CarriesNone(t)
  {
    SuspendedUntilCleared(Apply(Exec(INIT, past), op), future);
  }

  /** The worker waits with the flag clear, so that later resumes give up without a signal. */
  predicate Stranded(s: State) {
    Waits(s.worker) && !s.susp && !s.main.ResumeClear? && !s.main.ResumeSignal? && !InFirstSuspend(s.main)
  }

  lemma StrandedMain(s: State, tick: Tick)
    requires Stranded(s) && Enabled(s, MainStep(tick))
    ensures Stranded(MainNext(s, tick))
  {
  }

  lemma {:induction false} StrandedUntilSpuriousWake(s: State, ops: seq<Op>)
    requires Stranded(s) && CanRun(s, ops) && SpuriousWake !in ops
    ensures Stranded(Exec(s, ops))
    decreases |ops|
  {
    if ops != [] {
      if ops[0].MainStep? {
        StrandedMain(s, ops[0].tick);
      }
      StrandedUntilSpuriousWake(Apply(s, ops[0]), ops[1..]);
    }
  }

  /**
   After a missed signal the worker waits in EVERY continuation, through any number of later alarms
   and resumes, until a spurious wake-up: with the flag clear no resume signals again.
   */
  lemma MissedSignalIsForever(past: seq<Op>, op: Op, future: seq<Op>)
    requires CanRun(INIT, past) && Enabled(Exec(INIT, past), op) && Misses(Exec(INIT, past), op)
    requires CanRun(Apply(Exec(INIT, past), op), future) && SpuriousWake !in future
    ensures Waits(Exec(Apply(Exec(INIT, past), op), future).worker)
  {
    StrandedUntilSpuriousWake(Apply(Exec(INIT, past), op), future);
  }

  // ----- the exact condition -----

  /** The alarm lasts: every state of the continuation is Settled. */
  predicate AlarmLasts(s: State, ops: seq<Op>)
    requires CanRun(s, ops)
    decreases |ops|
  {
    Settled(s) && (ops == [] || AlarmLasts(Apply(s, ops[0]), ops[1..]))
  }

  /** Whatever happens next, the worker is neither suspended nor parked for as long as the alarm lasts. */
  ghost predicate StaysAwake(s: State) {
    forall future: seq<Op> :: CanRun(s, future) && AlarmLasts(s, future) ==> Awake(Exec(s, future))
  }

  lemma {:induction false} AttendingRun(s: State, f: Fate, ops: seq<Op>)
    requires Inv(s) && FateInv(s, f) && !f.carried && !f.missed && CanRun(s, ops) && AlarmLasts(s, ops)
    ensures Awake(Exec(s, ops))
    decreases |ops|
  {
    if ops != [] {
      InvStep(s, ops[0]);
      FateInvStep(s, f, ops[0]);
      NoResumeWhileSettled(s, f, ops[0]);
      AttendingRun(Apply(s, ops[0]), FateStep(f, s, ops[0]), ops[1..]);
    }
  }

  lemma NoResumeWhileSettled(s: State, f: Fate, op: Op)
    requires Inv(s) && Settled(s) && !f.carried && !f.missed
    ensures FateStep(f, s, op) == Fate(false, false)
  {
  }

  const ANY_TICK := Tick(0, 0, Thresholds(0, 0, 0))

  /** Steps the worker still needs before its callback for None writes the flag. */
  function Distance(pc: WorkerPc): nat {
    match pc
    case Unlock => 7
    case Call => 6
    case In(OffAlarm) => 5
    case In(OffSpeaker) => 4
    case In(SuspTest) => 3
    case In(SuspLock) => 2
    case In(SuspWrite) => 1
    case _ => 0
  }

  /** A worker that carries None suspends itself although an alarm is up. */
  lemma {:induction false} CarrierSuspends(s: State) returns (ops: seq<Op>)
    requires Inv(s) && s.main.Idle? && Settled(s) && !s.susp && CarriesNone(s)
    ensures CanRun(s, ops) && AlarmLasts(s, ops) && !Awake(Exec(s, ops))
    decreases Distance(s.worker)
  {
    var next := WorkerNext(s, false);
    assert Apply(s, WorkerStep(false)) == next;
    InvStep(s, WorkerStep(false));
    if s.worker == In(SuspWrite) {
      ops := [WorkerStep(false)];
      assert Exec(next, []) == next;
    } else {
      var rest := CarrierSuspends(next);
      ops := [WorkerStep(false)] + rest;
    }
  }

  /**
   The exact condition.  Take any run after which an alarm is up and the main thread is outside a
   transition.  The worker stays awake in every continuation, for as long as the alarm lasts, if
   and only if the latest resume was not decided on a carrier and no missed signal is outstanding.
   */
  lemma ResumeWorksIff(past: seq<Op>)
    requires CanRun(INIT, past) && Settled(Exec(INIT, past)) && Exec(INIT, past).main.Idle?
    ensures StaysAwake(Exec(INIT, past)) <==> FateOf(UNDECIDED, INIT, past) == Fate(false, false)
  {
    var s, f := Exec(INIT, past), FateOf(UNDECIDED, INIT, past);
    FateRun(INIT, UNDECIDED, past);
    if f == Fate(false, false) {
      forall future: seq<Op> | CanRun(s, future) && AlarmLasts(s, future)
        ensures Awake(Exec(s, future))
      {
        AttendingRun(s, f, future);
      }
    } else {
      var future := FallsAsleep(s, f);
      assert CanRun(s, future) && AlarmLasts(s, future) && !Awake(Exec(s, future));
    }
  }

  /** A run in which no resume is decided on a carrier and no signal is missed. */
  predicate DisciplinedRun(s: State, ops: seq<Op>)
    requires CanRun(s, ops)
    decreases |ops|
  {
    ops == [] ||
    (!(Decides(s, ops[0]) && CarriesNone(s)) && !Misses(s, ops[0]) && DisciplinedRun(Apply(s, ops[0]), ops[1..]))
  }

  lemma {:induction false} DisciplinedFate(s: State, ops: seq<Op>)
    requires CanRun(s, ops) && DisciplinedRun(s, ops)
    ensures FateOf(UNDECIDED, s, ops) == UNDECIDED
    decreases |ops|
  {
    if ops != [] {
      DisciplinedFate(Apply(s, ops[0]), ops[1..]);
    }
  }

  /** In every disciplined run each alarm finds the worker neither suspended nor parked. */
  lemma DisciplineSuffices(ops: seq<Op>)
    requires CanRun(INIT, ops) && DisciplinedRun(INIT, ops)
    ensures Settled(Exec(INIT, ops)) ==> Awake(Exec(INIT, ops))
  {
    DisciplinedFate(INIT, ops);
    FateRun(INIT, UNDECIDED, ops);
  }

  /** If the condition fails, steps of the worker alone lead to a suspended or parked worker. */
  lemma FallsAsleep(s: State, f: Fate) returns (ops: seq<Op>)
    requires Inv(s) && FateInv(s, f) && s.main.Idle? && Settled(s) && (f.carried || f.missed)
    ensures CanRun(s, ops) && AlarmLasts(s, ops) && !Awake(Exec(s, ops))
  {
    if s.susp || s.worker.Parked? {
      ops := [];
    } else if s.worker.EnterWait? {
      ops := [WorkerStep(false)];
      assert Exec(WorkerNext(s, false), []) == WorkerNext(s, false);
    } else {
      ops := CarrierSuspends(s);
    }
  }

  lemma ExecConcat(s: State, a: seq<Op>, b: seq<Op>)
    requires CanRun(s, a) && CanRun(Exec(s, a), b)
    ensures CanRun(s, a + b) && Exec(s, a + b) == Exec(Exec(s, a), b)
    decreases |a|
  {
    if a == [] {
      assert a + b == b;
    } else {
      ExecConcat(Apply(s, a[0]), a[1..], b);
      assert (a + b)[1..] == a[1..] + b;
    }
  }

  // ----- and it does happen -----

  lemma Extend(past: seq<Op>, op: Op) returns (longer: seq<Op>)
    requires CanRun(INIT, past) && Enabled(Exec(INIT, past), op)
    ensures CanRun(INIT, longer) && Exec(INIT, longer) == Apply(Exec(INIT, past), op)
  {
    var s := Exec(INIT, past);
    var one := [op];
    assert one[0] == op && one[1..] == [];
    assert CanRun(s, one);
    assert Exec(s, one) == Exec(Apply(s, op), []) == Apply(s, op);
    ExecConcat(INIT, past, one);
    longer := past + one;
  }

  /** Before the loop the main thread suspends the worker, which has not moved yet. */
  lemma Startup() returns (ops: seq<Op>)
    ensures CanRun(INIT, ops)
    ensures Exec(INIT, ops) == State(INITIAL, None, true, Free, Idle, Lock, None, false, false)
  {
    assert Exec(INIT, []) == INIT;
    ops := Extend([], MainStep(ANY_TICK));
    ops := Extend(ops, MainStep(ANY_TICK));
    ops := Extend(ops, MainStep(ANY_TICK));
    ops := Extend(ops, MainStep(ANY_TICK));
  }

  const RAISE := MainStep(Tick(0, 0, Thresholds(1, 0, 0)))

  /** One bad tick with ir_minalarm 0 raises an alarm, which the main thread publishes. */
  lemma Publish() returns (ops: seq<Op>)
    ensures CanRun(INIT, ops)
    ensures Exec(INIT, ops) == State(Loop(Preactive, 1, 0, 0), Preactive, true, ByMain, SetUnlock, Lock, None, false, false)
  {
    ops := Startup();
    ops := Extend(ops, RAISE);
    ops := Extend(ops, RAISE);
    ops := Extend(ops, RAISE);
  }

  /** The main thread gets as far as seeing the worker suspended. */
  lemma Raise() returns (ops: seq<Op>)
    ensures CanRun(INIT, ops)
    ensures Exec(INIT, ops) == State(Loop(Preactive, 1, 0, 0), Preactive, true, Free, ResumeClear, Lock, None, false, false)
  {
    ops := Publish();
    ops := Extend(ops, RAISE);
    ops := Extend(ops, RAISE);
    ops := Extend(ops, RAISE);
  }

  /**
   So the unconditional claim is false: this run, which the source allows, leaves the worker
   stranded with an alarm up.
   */
  lemma AlarmCanBeLost() returns (ops: seq<Op>)
    ensures CanRun(INIT, ops) && Settled(Exec(INIT, ops)) && !Awake(Exec(INIT, ops)) && Stranded(Exec(INIT, ops))
  {
    ops := Raise();
    ops := Extend(ops, WorkerStep(false));
    ops := Extend(ops, WorkerStep(false));
    ops := Extend(ops, MainStep(ANY_TICK));
    ops := Extend(ops, MainStep(ANY_TICK));
    ops := Extend(ops, WorkerStep(false));
  }
}
