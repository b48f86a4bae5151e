/**
 Lock use of every thread that touches the daemon: the main loop with its SIGHUP handler, the
 interrupt thread, the two workers, the XMPP command callback and any number of control tools.
 Shutdown is excluded.

 A thread repeats the lock programs of its kind in any order; a program is the sequence of lock
 operations along one path through the source, branches being separate programs, with the accesses
 to shared data in between.  `Wait` is pthread_cond_wait: it gives the mutex up and parks, and once
 woken the thread must get it back.  What SIGHUP and the control tools do to the other cells of the
 shared memory is not among the accesses, as they do not use the same lock for them; nor is the
 suspend flag, for which module ResumeSafety shows the consequences.
 */
module LockOrder {

  datatype Lock = Sem | MtxStatus | MtxAlarm | BsyAlarm | BsyStatus

  /** The order of acquisition. */
  function Rank(l: Lock): nat {
    match l
    case Sem => 0
    case MtxStatus => 1
    case MtxAlarm => 2
    case BsyAlarm => 3
    case BsyStatus => 4
  }

  /**
   Shared data: the counters of the main loop, the alarm cell of the shared memory, what SIGHUP reloads
   for the two workers, and the workers' data cells.
   */
  datatype Datum = Counters | ShmAlarm | LedTimes | SpeakerSwitch | AlarmCell | StatusCell

  datatype Op = Acquire(l: Lock) | Release(l: Lock) | Wait(l: Lock) | Access(d: Datum)

  datatype Kind = Main | Interrupt | AlarmWorker | StatusWorker | Xmpp | Control

  /** Take one lock, touch one datum, and give the lock back. */
  function Section(l: Lock, d: Datum): seq<Op> {
    [Acquire(l), Access(d), Release(l)]
  }

  /** irthread_suspend. */
  const SUSPEND := [Acquire(BsyAlarm), Release(BsyAlarm)]

  /** The alarm worker picks up its data, without or after a wait. */
  const PICKUP := [Acquire(BsyAlarm), Access(AlarmCell), Release(BsyAlarm)]
  const PARK := [Acquire(BsyAlarm), Wait(BsyAlarm), Access(AlarmCell), Release(BsyAlarm)]

  /** Take two locks, touch what SIGHUP reloads, and give them back in either order. */
  function ConfigSection(first: Lock, second: Lock): seq<Op> {
    [Acquire(MtxStatus), Acquire(MtxAlarm), Access(SpeakerSwitch), Access(LedTimes), Release(first), Release(second)]
  }

  const TICK := [Acquire(Sem), Access(Counters), Access(ShmAlarm)]
  const DONE := [Access(Counters), Release(Sem)]

  /** The lock programs of each kind of thread. */
  function Programs(k: Kind): set<seq<Op>> {
    match k
    case Main => {
        TICK + DONE,                                                         // tick without a transition
        TICK + Section(BsyAlarm, AlarmCell) + Section(BsyStatus, StatusCell) + DONE,  // tick that publishes
        ConfigSection(MtxAlarm, MtxStatus)                                   // SIGHUP
      }
    case Interrupt => {Section(Sem, Counters)}
    case AlarmWorker => {
        PICKUP + Section(MtxAlarm, SpeakerSwitch),
        PARK + Section(MtxAlarm, SpeakerSwitch),
        PICKUP + Section(MtxAlarm, SpeakerSwitch) + SUSPEND,                 // suspends itself
        PARK + Section(MtxAlarm, SpeakerSwitch) + SUSPEND
      }
    case StatusWorker => {Section(BsyStatus, StatusCell) + Section(MtxStatus, LedTimes)}
    case Xmpp => {Section(Sem, Counters), ConfigSection(MtxStatus, MtxAlarm)}
    case Control => {Section(Sem, ShmAlarm), Section(Sem, ShmAlarm) + Section(Sem, ShmAlarm)}
  }

  datatype Thread = Thread(kind: Kind, todo: seq<Op>, parked: bool)

  datatype State = State(threads: seq<Thread>, owner: map<Lock, nat>)

  datatype Step = Start(t: nat, prog: seq<Op>) | Run(t: nat) | Wake(t: nat)

  function Init(kinds: seq<Kind>): State {
    State(seq(|kinds|, i requires 0 <= i < |kinds| => Thread(kinds[i], [], false)), map[])
  }

  predicate Enabled(s: State, step: Step) {
    && step.t < |s.threads|
    && var th := s.threads[step.t];
       match step
       case Start(_, prog) => th.todo == [] && prog in Programs(th.kind)
       case Run(t) =>
         && th.todo != [] && !th.parked
         && (th.todo[0].Acquire? ==> th.todo[0].l !in s.owner)
       case Wake(_) => th.parked
  }

  function Apply(s: State, step: Step): State
    requires Enabled(s, step)
  {
    var t, th := step.t, s.threads[step.t];
    match step
    case Start(_, prog) => s.(threads := s.threads[t := th.(todo := prog)])
    case Wake(_) => s.(threads := s.threads[t := th.(parked := false)])
    case Run(_) =>
      var op, rest := th.todo[0], th.todo[1..];
      match op
      case Acquire(l) => State(s.threads[t := th.(todo := rest)], s.owner[l := t])
      case Release(l) => State(s.threads[t := th.(todo := rest)], s.owner - {l})
      case Wait(l) => State(s.threads[t := th.(todo := [Acquire(l)] + rest, parked := true)], s.owner - {l})
      case Access(_) => s.(threads := s.threads[t := th.(todo := rest)])
  }

  predicate CanRun(s: State, steps: seq<Step>)
    decreases |steps|
  {
    steps == [] || (Enabled(s, steps[0]) && CanRun(Apply(s, steps[0]), steps[1..]))
  }

  function Exec(s: State, steps: seq<Step>): State
    requires CanRun(s, steps)
    decreases |steps|
  {
    if steps == [] then s else Exec(Apply(s, steps[0]), steps[1..])
  }

  // ----- the order is kept -----

  /** The lock under which a datum is accessed. */
  function Guard(d: Datum): Lock {
    match d
    case Counters => Sem
    case ShmAlarm => Sem
    case LedTimes => MtxStatus
    case SpeakerSwitch => MtxAlarm
    case AlarmCell => BsyAlarm
    case StatusCell => BsyStatus
  }

  /** Executing `todo` while holding `held` keeps the order, accesses under guard, and ends with nothing held. */
  predicate Ordered(held: set<Lock>, todo: seq<Op>)
    decreases |todo|
  {
    if todo == [] then held == {}
    else match todo[0]
      case Acquire(l) => (forall h | h in held :: Rank(h) < Rank(l)) && Ordered(held + {l}, todo[1..])
      case Release(l) => l in held && Ordered(held - {l}, todo[1..])
      case Wait(l) => held == {l} && Ordered({l}, todo[1..])
      case Access(d) => Guard(d) in held && Ordered(held, todo[1..])
  }

  function Held(s: State, t: nat): set<Lock> {
    set l | l in s.owner && s.owner[l] == t
  }

  ghost predicate Inv(s: State) {
    && (forall l | l in s.owner :: s.owner[l] < |s.threads|)
    && (forall t: nat :: t < |s.threads| ==> Ordered(Held(s, t), s.threads[t].todo))
    && (forall t: nat :: t < |s.threads| && s.threads[t].parked ==> s.threads[t].todo != [] && Held(s, t) == {})
  }

  /** Ordered, by executing one operation. */
  lemma Takes(held: set<Lock>, l: Lock, rest: seq<Op>)
    requires (forall h | h in held :: Rank(h) < Rank(l)) && Ordered(held + {l}, rest)
    ensures Ordered(held, [Acquire(l)] + rest)
  {
    assert ([Acquire(l)] + rest)[1..] == rest;
  }

  lemma Gives(held: set<Lock>, l: Lock, rest: seq<Op>)
    requires l in held && Ordered(held - {l}, rest)
    ensures Ordered(held, [Release(l)] + rest)
  {
    assert ([Release(l)] + rest)[1..] == rest;
  }

  lemma Touches(held: set<Lock>, d: Datum, rest: seq<Op>)
    requires Guard(d) in held && Ordered(held, rest)
    ensures Ordered(held, [Access(d)] + rest)
  {
    assert ([Access(d)] + rest)[1..] == rest;
  }

  lemma Parks(l: Lock, rest: seq<Op>)
    requires Ordered({l}, rest)
    ensures Ordered({l}, [Wait(l)] + rest)
  {
    assert ([Wait(l)] + rest)[1..] == rest;
  }

  lemma OrderedSection(held: set<Lock>, l: Lock, d: Datum, rest: seq<Op>)
    requires (forall h | h in held :: Rank(h) < Rank(l)) && Guard(d) == l && Ordered(held, rest)
    ensures Ordered(held, Section(l, d) + rest)
  {
    assert held + {l} - {l} == held;
    Gives(held + {l}, l, rest);
    Touches(held + {l}, d, [Release(l)] + rest);
    Takes(held, l, [Access(d)] + ([Release(l)] + rest));
    assert Section(l, d) + rest == [Acquire(l)] + ([Access(d)] + ([Release(l)] + rest));
  }

  lemma OrderedConfig(first: Lock, second: Lock)
    requires {first, second} == {MtxStatus, MtxAlarm}
    ensures Ordered({}, ConfigSection(first, second))
  {
    var both := {MtxStatus} + {MtxAlarm};
    assert first != second;
    assert both - {first} - {second} == {} && {} + {MtxStatus} == {MtxStatus};
    Gives(both - {first}, second, []);
    Gives(both, first, [Release(second)] + []);
    var given := [Release(first)] + ([Release(second)] + []);
    Touches(both, LedTimes, given);
    Touches(both, SpeakerSwitch, [Access(LedTimes)] + given);
    var touched := [Access(SpeakerSwitch)] + ([Access(LedTimes)] + given);
    Takes({MtxStatus}, MtxAlarm, touched);
    Takes({}, MtxStatus, [Acquire(MtxAlarm)] + touched);
    assert ConfigSection(first, second) == [Acquire(MtxStatus)] + ([Acquire(MtxAlarm)] + touched);
  }

  lemma OrderedTick(rest: seq<Op>)
    requires Ordered({Sem}, rest)
    ensures Ordered({}, TICK + rest)
  {
    assert {} + {Sem} == {Sem};
    Touches({Sem}, ShmAlarm, rest);
    Touches({Sem}, Counters, [Access(ShmAlarm)] + rest);
    Takes({}, Sem, [Access(Counters)] + ([Access(ShmAlarm)] + rest));
    assert TICK + rest == [Acquire(Sem)] + ([Access(Counters)] + ([Access(ShmAlarm)] + rest));
  }

  lemma OrderedDone()
    ensures Ordered({Sem}, DONE)
  {
    assert {Sem} - {Sem} == {};
    Gives({Sem}, Sem, []);
    Touches({Sem}, Counters, [Release(Sem)] + []);
    assert DONE == [Access(Counters)] + ([Release(Sem)] + []);
  }

  lemma OrderedPublication()
    ensures Ordered({}, TICK + Section(BsyAlarm, AlarmCell) + Section(BsyStatus, StatusCell) + DONE)
  {
    var a, b := Section(BsyAlarm, AlarmCell), Section(BsyStatus, StatusCell);
    OrderedDone();
    OrderedSection({Sem}, BsyStatus, StatusCell, DONE);
    OrderedSection({Sem}, BsyAlarm, AlarmCell, b + DONE);
    OrderedTick(a + (b + DONE));
    Reassociate(TICK, a, b, DONE);
  }

  lemma Reassociate(a: seq<Op>, b: seq<Op>, c: seq<Op>, d: seq<Op>)
    ensures a + b + c + d == a + (b + (c + d))
  {
  }

  lemma MainPrograms(prog: seq<Op>)
    requires prog in Programs(Main)
    ensures Ordered({}, prog)
  {
    OrderedDone();
    OrderedTick(DONE);
    OrderedPublication();
    OrderedConfig(MtxAlarm, MtxStatus);
  }

  lemma OrderedPickups(rest: seq<Op>)
    requires Ordered({}, rest)
    ensures Ordered({}, PICKUP + rest) && Ordered({}, PARK + rest)
  {
    var held := {BsyAlarm};
    assert held - held == {} && {} + held == held;
    Gives(held, BsyAlarm, rest);
    var given := [Release(BsyAlarm)] + rest;
    Touches(held, AlarmCell, given);
    Takes({}, BsyAlarm, [Access(AlarmCell)] + given);
    assert PICKUP + rest == [Acquire(BsyAlarm)] + ([Access(AlarmCell)] + given);
    Parks(BsyAlarm, [Access(AlarmCell)] + given);
    Takes({}, BsyAlarm, [Wait(BsyAlarm)] + ([Access(AlarmCell)] + given));
    assert PARK + rest == [Acquire(BsyAlarm)] + ([Wait(BsyAlarm)] + ([Access(AlarmCell)] + given));
  }

  lemma WorkerPrograms(prog: seq<Op>)
    requires prog in Programs(AlarmWorker)
    ensures Ordered({}, prog)
  {
    var section := Section(MtxAlarm, SpeakerSwitch);
    assert {BsyAlarm} - {BsyAlarm} == {} && {} + {BsyAlarm} == {BsyAlarm};
    Gives({BsyAlarm}, BsyAlarm, []);
    Takes({}, BsyAlarm, [Release(BsyAlarm)] + []);
    assert SUSPEND == [Acquire(BsyAlarm)] + ([Release(BsyAlarm)] + []);
    OrderedSection({}, MtxAlarm, SpeakerSwitch, SUSPEND);
    OrderedSection({}, MtxAlarm, SpeakerSwitch, []);
    assert section + [] == section;
    OrderedPickups(section);
    OrderedPickups(section + SUSPEND);
    assert PICKUP + section + SUSPEND == PICKUP + (section + SUSPEND);
    assert PARK + section + SUSPEND == PARK + (section + SUSPEND);
  }

  lemma OrderedSections(l: Lock, d: Datum, m: Lock, e: Datum)
    requires Guard(d) == l && Guard(e) == m
    ensures Ordered({}, Section(l, d)) && Ordered({}, Section(l, d) + Section(m, e))
  {
    OrderedSection({}, m, e, []);
    assert Section(m, e) + [] == Section(m, e);
    OrderedSection({}, l, d, Section(m, e));
    OrderedSection({}, l, d, []);
    assert Section(l, d) + [] == Section(l, d);
  }

  /** Every path of every thread keeps the order semaphore, mtx_status, mtx_alarm, mtx_bsy, and its guards. */
  lemma ProgramsAreOrdered(k: Kind, prog: seq<Op>)
    requires prog in Programs(k)
    ensures Ordered({}, prog)
  {
    match k {
      case Main => MainPrograms(prog);
      case Interrupt => OrderedSections(Sem, Counters, Sem, Counters);
      case AlarmWorker => WorkerPrograms(prog);
      case StatusWorker => OrderedSections(BsyStatus, StatusCell, MtxStatus, LedTimes);
      case Xmpp => OrderedSections(Sem, Counters, Sem, Counters); OrderedConfig(MtxStatus, MtxAlarm);
      case Control => OrderedSections(Sem, ShmAlarm, Sem, ShmAlarm);
    }
  }

  /** The locks held after a step, thread by thread. */
  lemma HeldStep(s: State, step: Step, t: nat)
    requires Inv(s) && Enabled(s, step) && t < |s.threads|
    ensures var th := s.threads[step.t];
            Held(Apply(s, step), t) ==
              if t != step.t || !step.Run? then Held(s, t)
              else match th.todo[0]
                case Acquire(l) => Held(s, t) + {l}
                case Release(l) => Held(s, t) - {l}
                case Wait(l) => Held(s, t) - {l}
                case Access(_) => Held(s, t)
  {
    if step.Run? {
      assert Ordered(Held(s, step.t), s.threads[step.t].todo);
    }
  }

  lemma InvStep(s: State, step: Step)
    requires Inv(s) && Enabled(s, step)
    ensures Inv(Apply(s, step))
  {
    var s' := Apply(s, step);
    forall t: nat | t < |s.threads|
      ensures Ordered(Held(s', t), s'.threads[t].todo)
      ensures s'.threads[t].parked ==> s'.threads[t].todo != [] && Held(s', t) == {}
    {
      HeldStep(s, step, t);
      assert Ordered(Held(s, t), s.threads[t].todo);
      if t == step.t {
        if step.Start? {
          ProgramsAreOrdered(s.threads[t].kind, step.prog);
        } else if step.Run? && s.threads[t].todo[0].Wait? {
          var l := s.threads[t].todo[0].l;
          assert Held(s', t) == {} && {} + {l} == {l};
          assert s'.threads[t].todo[1..] == s.threads[t].todo[1..];
        }
      }
    }
  }

  lemma {:induction false} InvRun(s: State, steps: seq<Step>)
    requires Inv(s) && CanRun(s, steps)
    ensures Inv(Exec(s, steps))
    decreases |steps|
  {
    if steps != [] {
      InvStep(s, steps[0]);
      InvRun(Apply(s, steps[0]), steps[1..]);
    }
  }

  lemma InitInv(kinds: seq<Kind>)
    ensures Inv(Init(kinds))
  {
    var s := Init(kinds);
    forall t: nat | t < |s.threads|
      ensures Ordered(Held(s, t), s.threads[t].todo)
    {
      assert Held(s, t) == {};
    }
  }

  // ----- no race -----

  /** The thread's next operation touches the datum. */
  predicate AboutToAccess(s: State, t: nat, d: Datum) {
    t < |s.threads| && s.threads[t].todo != [] && s.threads[t].todo[0] == Access(d)
  }

  /** In every interleaving no two of these threads are ever about to touch the same datum. */
  lemma NoRace(kinds: seq<Kind>, steps: seq<Step>, t: nat, u: nat, d: Datum)
    requires CanRun(Init(kinds), steps)
    requires AboutToAccess(Exec(Init(kinds), steps), t, d) && AboutToAccess(Exec(Init(kinds), steps), u, d)
    ensures t == u
  {
    InitInv(kinds);
    InvRun(Init(kinds), steps);
    var s := Exec(Init(kinds), steps);
    assert Ordered(Held(s, t), s.threads[t].todo) && Ordered(Held(s, u), s.threads[u].todo);
    assert Guard(d) in Held(s, t) && Guard(d) in Held(s, u);
  }

  // ----- no deadlock -----

  /** Thread t waits for a lock that another thread, or t itself, holds. */
  predicate Blocked(s: State, t: nat) {
    && t < |s.threads| && !s.threads[t].parked && s.threads[t].todo != []
    && s.threads[t].todo[0].Acquire? && s.threads[t].todo[0].l in s.owner
  }

  /** A nonempty set of threads each of which waits for a lock held inside the set. */
  ghost predicate Deadlocked(s: State, d: set<nat>) {
    d != {} && forall t | t in d :: Blocked(s, t) && s.owner[s.threads[t].todo[0].l] in d
  }

  /** Following who waits for whom leads to a thread that holds a lock and can go on. */
  lemma {:induction false} FollowOwners(s: State, t: nat) returns (u: nat)
    requires Inv(s) && Blocked(s, t)
    ensures Enabled(s, Run(u)) && Held(s, u) != {} && !Blocked(s, u)
    ensures forall d: set<nat> :: t in d && Deadlocked(s, d) ==> u in d
    decreases 5 - Rank(s.threads[t].todo[0].l)
  {
    var l := s.threads[t].todo[0].l;
    u := s.owner[l];
    assert l in Held(s, u);
    assert Ordered(Held(s, u), s.threads[u].todo);
    if Blocked(s, u) {
      u := FollowOwners(s, u);
    }
  }

  /** In every interleaving of any number of these threads, no set of threads is deadlocked. */
  lemma NoDeadlock(kinds: seq<Kind>, steps: seq<Step>, d: set<nat>)
    requires CanRun(Init(kinds), steps)
    ensures !Deadlocked(Exec(Init(kinds), steps), d)
  {
    InitInv(kinds);
    InvRun(Init(kinds), steps);
    var s := Exec(Init(kinds), steps);
    if Deadlocked(s, d) {
      var t :| t in d;
      var u := FollowOwners(s, t);
      assert false;
    }
  }

  // ----- and everything can finish -----

  /** Work left in a program. */
  function Work(todo: seq<Op>): nat {
    if todo == [] then 0 else Work(todo[1..]) + (if todo[0].Wait? then 2 else 1)
  }

  function TotalWork(threads: seq<Thread>): nat {
    if threads == [] then 0 else Work(threads[0].todo) + TotalWork(threads[1..])
  }

  lemma {:induction false} LessWork(threads: seq<Thread>, t: nat, th: Thread)
    requires t < |threads| && Work(th.todo) < Work(threads[t].todo)
    ensures TotalWork(threads[t := th]) < TotalWork(threads)
  {
    if t > 0 {
      LessWork(threads[1..], t - 1, th);
      assert threads[t := th][1..] == threads[1..][t - 1 := th];
    } else {
      assert threads[t := th][1..] == threads[1..];
    }
  }

  lemma RunDoesWork(s: State, t: nat)
    requires Enabled(s, Run(t))
    ensures TotalWork(Apply(s, Run(t)).threads) < TotalWork(s.threads)
  {
    var th := s.threads[t];
    var th' := Apply(s, Run(t)).threads[t];
    if th.todo[0].Wait? {
      assert th'.todo[1..] == th.todo[1..];
    }
    LessWork(s.threads, t, th');
  }

  /** Every thread is between two programs or parked in its wait, and all locks are free. */
  ghost predicate AtRest(s: State) {
    && s.owner == map[]
    && forall t: nat :: t < |s.threads| ==> s.threads[t].todo == [] || s.threads[t].parked
  }

  lemma HolderIsBusy(s: State, l: Lock)
    requires Inv(s) && l in s.owner
    ensures s.threads[s.owner[l]].todo != [] && !s.threads[s.owner[l]].parked
  {
    var t := s.owner[l];
    assert l in Held(s, t);
    assert Ordered(Held(s, t), s.threads[t].todo);
  }

  lemma {:induction false} CanRest(s: State) returns (steps: seq<Step>)
    requires Inv(s)
    ensures CanRun(s, steps) && AtRest(Exec(s, steps))
    decreases TotalWork(s.threads)
  {
    if t: nat :| t < |s.threads| && s.threads[t].todo != [] && !s.threads[t].parked {
      var u := t;
      if Blocked(s, t) {
        u := FollowOwners(s, t);
      }
      RunDoesWork(s, u);
      InvStep(s, Run(u));
      var rest := CanRest(Apply(s, Run(u)));
      steps := [Run(u)] + rest;
    } else {
      steps := [];
      if l :| l in s.owner {
        HolderIsBusy(s, l);
        assert false;
      }
    }
  }

  /** From every reachable state all threads can finish what they are doing and free every lock. */
  lemma AllCanFinish(kinds: seq<Kind>, past: seq<Step>) returns (future: seq<Step>)
    requires CanRun(Init(kinds), past)
    ensures CanRun(Exec(Init(kinds), past), future) && AtRest(Exec(Exec(Init(kinds), past), future))
  {
    InitInv(kinds);
    InvRun(Init(kinds), past);
    future := CanRest(Exec(Init(kinds), past));
  }
}
