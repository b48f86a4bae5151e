/**
 What one sees on the two output pins of module WorkerProtocol: over every run the levels take
 exactly the course that the callbacks begun so far prescribe, one after the other
 (iralarm/iralarmd.c:228-257).
 */
module PinCourse {
  import opened AlarmLoop
  import opened WorkerProtocol

  // ----- what a callback is to do -----

  /** A callback of alarm_thread: its argument, and whether s_speaker was above zero when it began. */
  datatype Callback = Callback(arg: AlarmState, loud: bool)

  datatype Write = Speaker(high: bool) | Led(high: bool)

  /** The pin writes of one callback, in the order of the source. */
  function Script(c: Callback): seq<Write> {
    match c.arg
    case Active => (if c.loud then [Speaker(true)] else []) + [Led(false), Speaker(false), Led(true)]
    case Preactive => [Led(true), Led(false)]
    case None => [Led(false), Speaker(false)]
  }

  function Scripts(calls: seq<Callback>): seq<Write> {
    if calls == [] then [] else Script(calls[0]) + Scripts(calls[1..])
  }

  datatype Levels = Levels(speaker: bool, alarm: bool)

  function Written(p: Levels, w: Write): Levels {
    match w
    case Speaker(high) => p.(speaker := high)
    case Led(high) => p.(alarm := high)
  }

  /** The levels one sees while the writes are made: those after every write that changes them. */
  function Played(p: Levels, writes: seq<Write>): seq<Levels>
    decreases |writes|
  {
    if writes == [] then []
    else
      var q := Written(p, writes[0]);
      (if q == p then [] else [q]) + Played(q, writes[1..])
  }

  // ----- what is seen in a run -----

  function LevelsOf(s: State): Levels {
    Levels(s.speaker, s.alarm)
  }

  function Change(s: State, op: Op): seq<Levels>
    requires Enabled(s, op)
  {
    if LevelsOf(Apply(s, op)) == LevelsOf(s) then [] else [LevelsOf(Apply(s, op))]
  }

  /** The levels seen in a run, each time they change. */
  function Course(s: State, ops: seq<Op>): seq<Levels>
    requires CanRun(s, ops)
    decreases |ops|
  {
    if ops == [] then [] else Change(s, ops[0]) + Course(Apply(s, ops[0]), ops[1..])
  }

  function Begun(s: State, op: Op): seq<Callback> {
    if op.WorkerStep? && s.worker.Call? then [Callback(s.picked, op.loud)] else []
  }

  /** The callbacks begun in a run. */
  function Calls(s: State, ops: seq<Op>): seq<Callback>
    requires CanRun(s, ops)
    decreases |ops|
  {
    if ops == [] then [] else Begun(s, ops[0]) + Calls(Apply(s, ops[0]), ops[1..])
  }

  // ----- they agree -----

  /** The writes a callback has still to make. */
  function Rest(pc: WorkerPc): seq<Write> {
    if !pc.In? then []
    else match pc.cb
      case ActSpeakerOn => [Speaker(true), Led(false), Speaker(false), Led(true)]
      case ActAlarmOff => [Led(false), Speaker(false), Led(true)]
      case ActSpeakerOff => [Speaker(false), Led(true)]
      case ActAlarmOn => [Led(true)]
      case PreAlarmOn => [Led(true), Led(false)]
      case PreAlarmOff => [Led(false)]
      case OffAlarm => [Led(false), Speaker(false)]
      case OffSpeaker => [Speaker(false)]
      case _ => []
  }

  /** A step of the callback makes its next write, or none. */
  lemma CallbackWrites(s: State)
    requires s.worker.In? && Enabled(s, WorkerStep(false))
    ensures var t := CallbackNext(s);
            if Rest(s.worker) == [] then LevelsOf(t) == LevelsOf(s) && Rest(t.worker) == []
            else LevelsOf(t) == Written(LevelsOf(s), Rest(s.worker)[0]) && Rest(t.worker) == Rest(s.worker)[1..]
  {
  }

  lemma MainWrites(s: State, tick: Tick)
    requires Enabled(s, MainStep(tick))
    ensures LevelsOf(MainNext(s, tick)) == LevelsOf(s) && Rest(MainNext(s, tick).worker) == Rest(s.worker)
  {
  }

  lemma WorkerWrites(s: State, loud: bool)
    requires Enabled(s, WorkerStep(loud)) && !s.worker.In?
    ensures LevelsOf(WorkerNext(s, loud)) == LevelsOf(s)
    ensures Rest(WorkerNext(s, loud).worker) == if s.worker.Call? then Script(Callback(s.picked, loud)) else []
  {
  }

  lemma StepIsPlayed(s: State, op: Op, later: seq<Write>)
    requires Enabled(s, op)
    ensures var t := Apply(s, op);
            Change(s, op) + Played(LevelsOf(t), Rest(t.worker) + later) ==
            Played(LevelsOf(s), Rest(s.worker) + (Scripts(Begun(s, op)) + later))
  {
    assert Scripts([]) + later == later;
    match op
    case MainStep(tick) => MainWrites(s, tick);
    case SpuriousWake =>
    case WorkerStep(loud) =>
      if s.worker.In? {
        CallbackWrites(s);
        var todo := Rest(s.worker) + later;
        if Rest(s.worker) != [] {
          assert todo[0] == Rest(s.worker)[0] && todo[1..] == Rest(s.worker)[1..] + later;
        }
      } else {
        WorkerWrites(s, loud);
        if s.worker.Call? {
          var script := Script(Callback(s.picked, loud));
          assert Scripts([Callback(s.picked, loud)]) == script;
          assert [] + (script + later) == script + later;
        }
      }
  }

  lemma ScriptsOfFirst(c: Callback, later: seq<Callback>)
    ensures Scripts([c] + later) == Script(c) + Scripts(later)
  {
    assert ([c] + later)[1..] == later;
  }

  lemma BegunFirst(s: State, op: Op, later: seq<Callback>)
    ensures Scripts(Begun(s, op) + later) == Scripts(Begun(s, op)) + Scripts(later)
  {
    if Begun(s, op) == [] {
      assert Begun(s, op) + later == later;
    } else {
      var c := Begun(s, op)[0];
      ScriptsOfFirst(c, later);
      ScriptsOfFirst(c, []);
      assert [c] + [] == [c] && Script(c) + [] == Script(c);
    }
  }

  lemma {:induction false} RunIsPlayed(s: State, ops: seq<Op>)
    requires CanRun(s, ops)
    ensures var t := Exec(s, ops);
            Course(s, ops) + Played(LevelsOf(t), Rest(t.worker)) ==
            Played(LevelsOf(s), Rest(s.worker) + Scripts(Calls(s, ops)))
    decreases |ops|
  {
    if ops == [] {
      assert Rest(s.worker) + [] == Rest(s.worker);
    } else {
      var t := Apply(s, ops[0]);
      RunIsPlayed(t, ops[1..]);
      StepIsPlayed(s, ops[0], Scripts(Calls(t, ops[1..])));
      BegunFirst(s, ops[0], Calls(t, ops[1..]));
    }
  }

  /**
   In every interleaving: the pins show what the callbacks begun so far prescribe, played one after
   the other from low levels, exactly if no callback is under way, and a beginning of it otherwise.
   */
  lemma PinsFollowScripts(ops: seq<Op>)
    requires CanRun(INIT, ops)
    ensures var played := Played(Levels(false, false), Scripts(Calls(INIT, ops)));
            && Course(INIT, ops) <= played
            && (!Exec(INIT, ops).worker.In? ==> Course(INIT, ops) == played)
  {
    RunIsPlayed(INIT, ops);
    assert Rest(INIT.worker) + Scripts(Calls(INIT, ops)) == Scripts(Calls(INIT, ops));
  }

  /**
   One callback, from its beginning in any reachable state to its end, whatever else happens
   meanwhile.  For Active the speaker sounds exactly if it is switched on, and then falls silent
   before the LED is lit; for Preactive the LED flashes; for None it goes out.
   */
  lemma OneCallback(past: seq<Op>, loud: bool, during: seq<Op>)
    requires CanRun(INIT, past) && Exec(INIT, past).worker.Call? && CanRun(Exec(INIT, past), [WorkerStep(loud)] + during)
    requires Calls(Exec(INIT, past), [WorkerStep(loud)] + during) == [Callback(Exec(INIT, past).picked, loud)]
    requires !Exec(Exec(INIT, past), [WorkerStep(loud)] + during).worker.In?
    ensures var s := Exec(INIT, past);
            Course(s, [WorkerStep(loud)] + during) ==
            match s.picked
            case Active => (if loud then [Levels(true, s.alarm)] else [])
                         + (if s.alarm then [Levels(loud, false)] else [])
                         + (if loud then [Levels(false, false)] else [])
                         + [Levels(false, true)]
            case Preactive => (if s.alarm then [] else [Levels(false, true)]) + [Levels(false, false)]
            case None => if s.alarm then [Levels(false, false)] else []
  {
    var s := Exec(INIT, past);
    InvRun(INIT, past);
    RunIsPlayed(s, [WorkerStep(loud)] + during);
    var script := Script(Callback(s.picked, loud));
    assert Scripts([Callback(s.picked, loud)]) == script;
    assert Rest(s.worker) + script == script;
    ScriptIsPlayed(s.picked, loud, s.alarm);
  }

  lemma ScriptIsPlayed(arg: AlarmState, loud: bool, alarm: bool)
    ensures Played(Levels(false, alarm), Script(Callback(arg, loud))) ==
            match arg
            case Active => (if loud then [Levels(true, alarm)] else [])
                         + (if alarm then [Levels(loud, false)] else [])
                         + (if loud then [Levels(false, false)] else [])
                         + [Levels(false, true)]
            case Preactive => (if alarm then [] else [Levels(false, true)]) + [Levels(false, false)]
            case None => if alarm then [Levels(false, false)] else []
  {
    var script := Script(Callback(arg, loud));
    match arg
    case Active =>
      var tail := [Led(false), Speaker(false), Led(true)];
      assert tail[1..] == [Speaker(false), Led(true)] && tail[1..][1..] == [Led(true)] && tail[1..][1..][1..] == [];
      if loud {
        assert script[1..] == tail;
      } else {
        assert script == tail;
      }
    case Preactive =>
      assert script == [Led(true), Led(false)];
      assert script[1..] == [Led(false)] && script[1..][1..] == [];
      assert Played(Levels(false, true), [Led(false)]) == [Levels(false, false)];
    case None =>
      assert script[1..] == [Speaker(false)] && script[1..][1..] == [];
  }

  // ----- the worker is not idle -----

  predicate OnlyWorker(ops: seq<Op>) {
    forall op | op in ops :: op.WorkerStep?
  }

  /** Steps of the worker to the end of its next callback, or of the one under way. */
  function Left(pc: WorkerPc): nat {
    match pc
    case Lock => 12
    case Relock => 12
    case TestSusp => 11
    case PickUp => 10
    case Unlock => 9
    case Call => 8
    case In(OffAlarm) => 6
    case In(OffSpeaker) => 5
    case In(SuspTest) => 4
    case In(SuspLock) => 3
    case In(SuspWrite) => 2
    case In(SuspUnlock) => 1
    case _ => |Rest(pc)|
  }

  lemma CallbackGoesOn(s: State)
    requires s.worker.In?
    ensures var t := CallbackNext(s).worker; t.Lock? || (t.In? && Left(t) < Left(s.worker))
  {
  }

  lemma {:induction false} Finishes(s: State) returns (ops: seq<Op>)
    requires LockInv(s) && !s.mtx.ByMain? && s.worker.In?
    ensures CanRun(s, ops) && OnlyWorker(ops) && Calls(s, ops) == [] && Exec(s, ops).worker.Lock?
    decreases Left(s.worker)
  {
    LockCallback(s);
    CallbackGoesOn(s);
    var t, rest := CallbackNext(s), [];
    if t.worker.Lock? {
      assert Exec(t, []) == t;
    } else {
      rest := Finishes(t);
    }
    ops := [WorkerStep(false)] + rest;
    assert ops[1..] == rest;
  }

  lemma {:induction false} Serves(s: State, loud: bool) returns (ops: seq<Op>)
    requires LockInv(s) && !s.mtx.ByMain? && !s.susp && !s.worker.In? && !s.worker.EnterWait? && !s.worker.Parked?
    ensures CanRun(s, ops) && OnlyWorker(ops) && Exec(s, ops).worker.Lock?
    ensures Calls(s, ops) == [Callback(if s.worker.Unlock? || s.worker.Call? then s.picked else s.data, loud)]
    decreases Left(s.worker)
  {
    LockWorker(s, loud);
    var t, rest := WorkerNext(s, loud), [];
    if s.worker.Call? {
      rest := Finishes(t);
    } else {
      rest := Serves(t, loud);
    }
    ops := [WorkerStep(loud)] + rest;
    assert ops[1..] == rest;
  }

  /**
   In every reachable state in which the worker is neither suspended nor waiting nor inside a
   callback, and the mutex is not taken from it, its own steps lead through one whole callback: for
   the value in its hand if it has picked one up, and for the published one otherwise.
   */
  lemma AwakeWorkerServes(past: seq<Op>, loud: bool) returns (ops: seq<Op>)
    requires CanRun(INIT, past)
    requires var s := Exec(INIT, past);
             !s.mtx.ByMain? && !s.susp && !s.worker.In? && !s.worker.EnterWait? && !s.worker.Parked?
    ensures var s := Exec(INIT, past);
            && CanRun(s, ops) && OnlyWorker(ops) && !Exec(s, ops).worker.In?
            && Calls(s, ops) == [Callback(if s.worker.Unlock? || s.worker.Call? then s.picked else s.data, loud)]
  {
    InvRun(INIT, past);
    ops := Serves(Exec(INIT, past), loud);
  }
}
