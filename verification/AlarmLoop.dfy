/**
 The endless loop of the alarm daemon (iralarm/iralarmd.c).  A tick compares the number of
 infrared flanks received since the previous tick with a threshold, moves the saturating counter
 `alrmCycls`, and drives the None / Preactive / Active machine.

 `Step` and `Actions` are the specification of one tick; class `Daemon` holds the static variables
 of the program and its methods are proved against them.  The theorems about whole runs are in
 module AlarmTrace.
 */
module AlarmLoop {

  datatype AlarmState = None | Preactive | Active

  /** The three configurable thresholds; they change only between two ticks. */
  datatype Thresholds = Thresholds(minRecvd: nat, minAlarm: nat, rstAlarm: nat)

  /** What one tick observes: flanks since the last tick, the clock, the current thresholds. */
  datatype Tick = Tick(flanks: nat, now: int, cfg: Thresholds)

  /** Calls of doAlarmAction and undoAlarmAction. */
  datatype Action = Do | Undo

  datatype Loop = Loop(astate: AlarmState, alrmCycls: nat, recvdCycls: nat, alrmStart: int)

  const INITIAL := Loop(None, 0, 0, 0)

  /** Seconds an alarm stays Preactive before it may become Active. */
  const PREACTIVE_SECONDS := 10

  /** A bad tick saw too few flanks: something interrupts the light beam. */
  predicate Bad(i: Tick) {
    i.flanks < i.cfg.minRecvd
  }

  /** The counter part of a tick. */
  function Counted(s: Loop, i: Tick): Loop {
    if Bad(i) then
      s.(alrmCycls := s.alrmCycls + 1)
    else
      s.(recvdCycls := s.recvdCycls + 1, alrmCycls := if s.alrmCycls > 0 then s.alrmCycls - 1 else 0)
  }

  /** The state after a tick. */
  function Step(s: Loop, i: Tick): Loop {
    var c := Counted(s, i);
    match c.astate
    case None =>
      if c.alrmCycls > i.cfg.minAlarm then c.(astate := Preactive, recvdCycls := 0, alrmStart := i.now) else c
    case Preactive =>
      if i.now - c.alrmStart > PREACTIVE_SECONDS then c.(astate := Active, recvdCycls := 0)
      else if c.recvdCycls > i.cfg.rstAlarm then c.(astate := None, alrmCycls := 0)
      else c
    case Active =>
      if c.recvdCycls > i.cfg.rstAlarm then c.(astate := None, alrmCycls := 0) else c
  }

  /** The alarm actions a tick performs: Do when an alarm is raised, Undo when it is called off. */
  function Actions(s: Loop, i: Tick): seq<Action> {
    var t := Step(s, i);
    if s.astate == None && t.astate != None then [Do]
    else if s.astate != None && t.astate == None then [Undo]
    else []
  }

  /** The state after the first n ticks of `ins`. */
  function At(s: Loop, ins: seq<Tick>, n: nat): Loop
    requires n <= |ins|
  {
    if n == 0 then s else Step(At(s, ins, n - 1), ins[n - 1])
  }

  /** The actions performed by the first n ticks. */
  function Log(s: Loop, ins: seq<Tick>, n: nat): seq<Action>
    requires n <= |ins|
  {
    if n == 0 then [] else Log(s, ins, n - 1) + Actions(At(s, ins, n - 1), ins[n - 1])
  }

  /** The static variables of the daemon and the two workers' data cells. */
  class Daemon {
    var irRecvd: nat
    var irRecvdCycls: nat
    var irAlrmCycls: nat
    var astate: AlarmState
    var irAlrmStart: int
    var cfg: Thresholds
    var shmAlarm: AlarmState     // *s_astate
    var alarmData: AlarmState    // thrds[thrd_alarm]->data
    var statusData: AlarmState   // thrds[thrd_status]->data
    var alarmSusp: bool          // thrds[thrd_alarm]->susp
    var actions: seq<Action>     // calls of doAlarmAction / undoAlarmAction so far

    /** Both workers have been told the current state. */
    ghost predicate Valid()
      reads this
    {
      alarmData == astate && statusData == astate
    }

    function State(): Loop
      reads this
    {
      Loop(astate, irAlrmCycls, irRecvdCycls, irAlrmStart)
    }

    constructor (cfg: Thresholds)
      ensures Valid() && State() == INITIAL
      ensures astate == None && irRecvd == irAlrmCycls == irRecvdCycls == 0
      ensures this.cfg == cfg && shmAlarm == None && actions == [] && alarmSusp
    {
      irRecvd, irRecvdCycls, irAlrmCycls, irAlrmStart := 0, 0, 0, 0;
      astate, shmAlarm, alarmData, statusData := None, None, None, None;
      this.cfg := cfg;
      actions := [];
      alarmSusp := true;
    }

    /** ir_flank, without its semaphore: module FlankCounter has that. */
    method Flank()
      modifies this`irRecvd
      ensures irRecvd == old(irRecvd) + 1
    {
      irRecvd := irRecvd + 1;
    }

    /** Publishes the state to both workers. */
    method Publish()
      modifies this`alarmData, this`statusData
      ensures Valid()
    {
      alarmData := astate;
      statusData := astate;
    }

    /** irthread_resume(thrd_alarm), seen from this thread alone: module WorkerProtocol has its races. */
    method Resume() returns (ret: int)
      modifies this`alarmSusp
      ensures !alarmSusp && (ret == -1 <==> !old(alarmSusp))
    {
      if !alarmSusp {
        return -1;
      }
      alarmSusp := false;
      return 0;
    }

    /** Calls an alarm off. */
    method CallOff()
      modifies this`astate, this`alarmData, this`statusData, this`actions, this`irAlrmCycls
      ensures Valid() && astate == None && irAlrmCycls == 0 && actions == old(actions) + [Undo]
    {
      astate := None;
      Publish();
      actions := actions + [Undo];
      irAlrmCycls := 0;
    }

    /** One pass through the body of the endless loop; `now` is what time() returns. */
    method Cycle(now: int)
      requires Valid()
      modifies this
      ensures Valid()
      ensures State() == Step(old(State()), Tick(old(irRecvd), now, old(cfg)))
      ensures actions == old(actions) + Actions(old(State()), Tick(old(irRecvd), now, old(cfg)))
      ensures old(astate) == None || astate != None ==>
                irAlrmCycls == if old(irRecvd) < old(cfg).minRecvd then old(irAlrmCycls) + 1
                               else if old(irAlrmCycls) > 0 then old(irAlrmCycls) - 1 else 0
      ensures old(astate) != None && astate == None ==> irAlrmCycls == 0
      ensures alarmSusp == (old(alarmSusp) && !(old(astate) == None && astate != None))
      ensures shmAlarm == old(astate)
      ensures irRecvd == 0 && cfg == old(cfg)
    {
      if irRecvd < cfg.minRecvd {
        irAlrmCycls := irAlrmCycls + 1;
      } else {
        irRecvdCycls := irRecvdCycls + 1;
        if irAlrmCycls > 0 {
          irAlrmCycls := irAlrmCycls - 1;
        }
      }
      shmAlarm := astate;
      match astate {
        case None =>
          if irAlrmCycls > cfg.minAlarm {
            irAlrmStart := now;
            actions := actions + [Do];
            irRecvdCycls := 0;
            astate := Preactive;
            Publish();
            var _ := Resume();
          }
        case Preactive =>
          if now - irAlrmStart > PREACTIVE_SECONDS {
            irRecvdCycls := 0;
            astate := Active;
            Publish();
          } else if irRecvdCycls > cfg.rstAlarm {
            CallOff();
          }
        case Active =>
          if irRecvdCycls > cfg.rstAlarm {
            CallOff();
          }
      }
      irRecvd := 0;
    }

    /**
     The endless loop, cut after |ins| ticks: each tick is preceded by the flanks and the
     threshold changes that arrive during its sleep.
     */
    method Run(ins: seq<Tick>)
      requires Valid() && irRecvd == 0
      modifies this
      ensures Valid() && irRecvd == 0
      ensures State() == At(old(State()), ins, |ins|)
      ensures actions == old(actions) + Log(old(State()), ins, |ins|)
      ensures |ins| > 0 ==> shmAlarm == At(old(State()), ins, |ins| - 1).astate
    {
      for n := 0 to |ins|
        invariant Valid() && irRecvd == 0
        invariant State() == At(old(State()), ins, n)
        invariant actions == old(actions) + Log(old(State()), ins, n)
        invariant n > 0 ==> shmAlarm == At(old(State()), ins, n - 1).astate
      {
        cfg := ins[n].cfg;
        for k := 0 to ins[n].flanks
          invariant irRecvd == k && cfg == ins[n].cfg && Valid()
          invariant State() == At(old(State()), ins, n)
          invariant actions == old(actions) + Log(old(State()), ins, n)
        {
          Flank();
        }
        Cycle(ins[n].now);
      }
    }
  }
}
