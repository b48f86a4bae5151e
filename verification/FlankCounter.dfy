/**
 The flank counter `ir_recvd` under its System V semaphore (iralarm/iralarmd.c:84-88, 578-628).

 The model interleaves the main loop with any number of other threads, each of which may count a
 flank (the interrupt thread) or only read under the semaphore (the XMPP status command, the
 control tool).  `ir_recvd++` is a load and a store.  The semaphore starts fresh with value 1,
 as after iralarm/iralarmd.c:570.
 */
module FlankCounter {
  import opened AlarmLoop

  datatype Pc =
    | Outside
    | Reading          // took the semaphore, reads only
    | Entered          // took the semaphore to count a flank
    | Loaded(v: nat)   // loaded ir_recvd
    | Stored           // stored ir_recvd + 1

  datatype MainPc =
    | Sleeping
    | Awake     // took the semaphore
    | Judged    // compared ir_recvd and moved the alarm machine
    | Cleared   // zeroed ir_recvd

  datatype State = State(sem: nat, recvd: nat, threads: seq<Pc>, main: MainPc, loop: Loop)

  datatype Op =
    | TakeToRead(t: nat) | TakeToCount(t: nat) | Load(t: nat) | Store(t: nat) | Release(t: nat)
    | MainTake | MainJudge(now: int, cfg: Thresholds) | MainClear | MainRelease

  function Init(n: nat): State {
    State(1, 0, seq(n, _ => Outside), Sleeping, INITIAL)
  }

  predicate Enabled(s: State, op: Op) {
    match op
    case TakeToRead(t) => t < |s.threads| && s.threads[t] == Outside && s.sem > 0
    case TakeToCount(t) => t < |s.threads| && s.threads[t] == Outside && s.sem > 0
    case Load(t) => t < |s.threads| && s.threads[t] == Entered
    case Store(t) => t < |s.threads| && s.threads[t].Loaded?
    case Release(t) => t < |s.threads| && (s.threads[t] == Reading || s.threads[t] == Stored)
    case MainTake => s.main == Sleeping && s.sem > 0
    case MainJudge(_, _) => s.main == Awake
    case MainClear => s.main.Judged?
    case MainRelease => s.main == Cleared
  }

  function Apply(s: State, op: Op): State
    requires Enabled(s, op)
  {
    match op
    case TakeToRead(t) => s.(sem := s.sem - 1, threads := s.threads[t := Reading])
    case TakeToCount(t) => s.(sem := s.sem - 1, threads := s.threads[t := Entered])
    case Load(t) => s.(threads := s.threads[t := Loaded(s.recvd)])
    case Store(t) => s.(recvd := s.threads[t].v + 1, threads := s.threads[t := Stored])
    case Release(t) => s.(sem := s.sem + 1, threads := s.threads[t := Outside])
    case MainTake => s.(sem := s.sem - 1, main := Awake)
    case MainJudge(now, cfg) =>
      s.(loop := Step(s.loop, Tick(s.recvd, now, cfg)), main := Judged)
    case MainClear => s.(recvd := 0, main := Cleared)
    case MainRelease => s.(sem := s.sem + 1, main := Sleeping)
  }

  predicate CanRun(s: State, ops: seq<Op>)
    decreases |ops|
  {
    ops == [] || (Enabled(s, ops[0]) && CanRun(Apply(s, ops[0]), ops[1..]))
  }

  function Exec(s: State, ops: seq<Op>): State
    requires CanRun(s, ops)
    decreases |ops|
  {
    if ops == [] then s else Exec(Apply(s, ops[0]), ops[1..])
  }

  // ----- what the operations of a run say should have happened -----

  /** How many calls of ir_flank have begun. */
  function Calls(ops: seq<Op>): nat {
    if ops == [] then 0 else (if ops[0].TakeToCount? then 1 else 0) + Calls(ops[1..])
  }

  /** How many have made their store. */
  function Stores(ops: seq<Op>): nat {
    if ops == [] then 0 else (if ops[0].Store? then 1 else 0) + Stores(ops[1..])
  }

  /** Flanks not yet judged, and the ticks so far. */
  datatype Account = Account(pending: nat, ticks: seq<Tick>)

  const NOTHING := Account(0, [])

  /** A judgement consumes all flanks stored since the previous one. */
  function AccountStep(a: Account, op: Op): Account {
    match op
    case Store(_) => a.(pending := a.pending + 1)
    case MainJudge(now, cfg) => Account(0, a.ticks + [Tick(a.pending, now, cfg)])
    case _ => a
  }

  function AccountOf(a: Account, ops: seq<Op>): Account
    decreases |ops|
  {
    if ops == [] then a else AccountOf(AccountStep(a, ops[0]), ops[1..])
  }

  /** All flanks the given ticks have consumed. */
  function Total(ticks: seq<Tick>): nat {
    if ticks == [] then 0 else Total(ticks[..|ticks| - 1]) + ticks[|ticks| - 1].flanks
  }

  // ----- what holds in every interleaving -----

  datatype Holder = Nobody | Main | Thread(t: nat)

  /** h is the only participant past its wait operation. */
  ghost predicate OnlyInside(s: State, h: Holder) {
    && s.sem == (if h == Nobody then 1 else 0)
    && (h.Thread? ==> h.t < |s.threads|)
    && (s.main != Sleeping <==> h == Main)
    && forall t: nat :: t < |s.threads| ==> (s.threads[t] != Outside <==> h == Thread(t))
  }

  ghost predicate Inv(s: State, a: Account) {
    && (exists h :: OnlyInside(s, h))
    && (forall t: nat :: t < |s.threads| && s.threads[t].Loaded? ==> s.threads[t].v == s.recvd)
    && a.pending == (if s.main == Judged then 0 else s.recvd)
    && s.loop == At(INITIAL, a.ticks, |a.ticks|)
  }

  lemma {:induction false} AtPrefix(s: Loop, a: seq<Tick>, i: Tick, n: nat)
    requires n <= |a|
    ensures At(s, a + [i], n) == At(s, a, n)
  {
    if n > 0 {
      AtPrefix(s, a, i, n - 1);
    }
  }

  /** Who holds the semaphore after an operation. */
  lemma HolderStep(s: State, op: Op, h: Holder)
    requires OnlyInside(s, h) && Enabled(s, op)
    ensures exists h' :: OnlyInside(Apply(s, op), h')
  {
    var h' := match op
      case TakeToRead(t) => Thread(t)
      case TakeToCount(t) => Thread(t)
      case MainTake => Main
      case Release(_) => Nobody
      case MainRelease => Nobody
      case _ => h;
    assert OnlyInside(Apply(s, op), h');
  }

  lemma InvStep(s: State, a: Account, op: Op)
    requires Inv(s, a) && Enabled(s, op)
    ensures Inv(Apply(s, op), AccountStep(a, op))
  {
    var h :| OnlyInside(s, h);
    HolderStep(s, op, h);
    if op.MainJudge? {
      AtPrefix(INITIAL, a.ticks, Tick(a.pending, op.now, op.cfg), |a.ticks|);
    }
  }

  lemma {:induction false} InvRun(s: State, a: Account, ops: seq<Op>)
    requires Inv(s, a) && CanRun(s, ops)
    ensures Inv(Exec(s, ops), AccountOf(a, ops)) && |Exec(s, ops).threads| == |s.threads|
    decreases |ops|
  {
    if ops != [] {
      InvStep(s, a, ops[0]);
      InvRun(Apply(s, ops[0]), AccountStep(a, ops[0]), ops[1..]);
    }
  }

  lemma InitInv(n: nat)
    ensures Inv(Init(n), NOTHING)
  {
    assert OnlyInside(Init(n), Nobody);
  }

  /** In every interleaving at most one participant is inside the semaphore. */
  lemma MutualExclusion(n: nat, ops: seq<Op>)
    requires CanRun(Init(n), ops)
    ensures var s := Exec(Init(n), ops);
            && s.sem <= 1
            && (forall t: nat, u: nat | t < |s.threads| && u < |s.threads| ::
                  s.threads[t] != Outside && s.threads[u] != Outside ==> t == u)
            && (s.main != Sleeping ==> forall t: nat :: t < |s.threads| ==> s.threads[t] == Outside)
  {
    InitInv(n);
    InvRun(Init(n), NOTHING, ops);
  }

  // ----- conservation -----

  /** A thread has begun to count a flank and not stored it yet. */
  ghost predicate Counting(s: State) {
    exists t: nat :: t < |s.threads| && (s.threads[t].Entered? || s.threads[t].Loaded?)
  }

  ghost function InFlight(s: State): nat {
    if Counting(s) then 1 else 0
  }

  lemma CallStep(s: State, a: Account, op: Op)
    requires Inv(s, a) && Enabled(s, op)
    ensures InFlight(Apply(s, op)) ==
            InFlight(s) + (if op.TakeToCount? then 1 else 0) - (if op.Store? then 1 else 0)
  {
    var s' := Apply(s, op);
    if op.TakeToCount? || op.Load? {
      assert s'.threads[op.t].Entered? || s'.threads[op.t].Loaded?;
    } else if op.Store? {
      assert s.threads[op.t].Loaded?;
    }
  }

  lemma {:induction false} CallRun(s: State, a: Account, ops: seq<Op>)
    requires Inv(s, a) && CanRun(s, ops)
    ensures Calls(ops) + InFlight(s) == Stores(ops) + InFlight(Exec(s, ops))
    decreases |ops|
  {
    if ops != [] {
      CallStep(s, a, ops[0]);
      InvStep(s, a, ops[0]);
      CallRun(Apply(s, ops[0]), AccountStep(a, ops[0]), ops[1..]);
    }
  }

  lemma {:induction false} AccountBalances(a: Account, ops: seq<Op>)
    ensures var b := AccountOf(a, ops); Total(b.ticks) + b.pending == Total(a.ticks) + a.pending + Stores(ops)
    decreases |ops|
  {
    if ops != [] {
      var b := AccountStep(a, ops[0]);
      if ops[0].MainJudge? {
        assert b.ticks[..|b.ticks| - 1] == a.ticks;
      }
      AccountBalances(b, ops[1..]);
    }
  }

  /**
   In every interleaving, counted by the operations made: every call of ir_flank stores its flank
   once, and every stored flank is either judged by exactly one tick or still in ir_recvd.
   */
  lemma FlanksAreConserved(n: nat, ops: seq<Op>)
    requires CanRun(Init(n), ops)
    ensures Calls(ops) == Stores(ops) + (if Counting(Exec(Init(n), ops)) then 1 else 0)
    ensures Exec(Init(n), ops).main != Judged ==>
              Stores(ops) == Total(AccountOf(NOTHING, ops).ticks) + Exec(Init(n), ops).recvd
  {
    InitInv(n);
    InvRun(Init(n), NOTHING, ops);
    AccountBalances(NOTHING, ops);
    CallRun(Init(n), NOTHING, ops);
  }

  /**
   At every moment the alarm machine of the concurrent program is the sequential run over the ticks
   of the operations made, each with the flanks stored since the one before: every theorem of
   AlarmTrace holds of it.
   */
  lemma ConcurrentLoopIsSequential(n: nat, ops: seq<Op>)
    requires CanRun(Init(n), ops)
    ensures var ticks := AccountOf(NOTHING, ops).ticks; Exec(Init(n), ops).loop == At(INITIAL, ticks, |ticks|)
  {
    InitInv(n);
    InvRun(Init(n), NOTHING, ops);
  }

  // ----- and nobody gets stuck -----

  lemma First(s: State, op: Op, rest: seq<Op>)
    requires Enabled(s, op) && CanRun(Apply(s, op), rest)
    ensures CanRun(s, [op] + rest) && Exec(s, [op] + rest) == Exec(Apply(s, op), rest)
  {
    assert ([op] + rest)[1..] == rest;
  }

  /** What the holder of the semaphore still has to do. */
  ghost function ToDo(s: State, h: Holder): seq<Op>
    requires OnlyInside(s, h)
  {
    match h
    case Nobody => []
    case Main =>
      (match s.main
       case Sleeping => []
       case Awake => [MainJudge(0, Thresholds(0, 0, 0)), MainClear, MainRelease]
       case Judged => [MainClear, MainRelease]
       case Cleared => [MainRelease])
    case Thread(t) =>
      (match s.threads[t]
       case Outside => []
       case Entered => [Load(t), Store(t), Release(t)]
       case Loaded(_) => [Store(t), Release(t)]
       case _ => [Release(t)])
  }

  lemma {:induction false} HolderFinishes(s: State, a: Account, h: Holder)
    requires Inv(s, a) && OnlyInside(s, h)
    ensures CanRun(s, ToDo(s, h)) && Exec(s, ToDo(s, h)).sem == 1
    decreases |ToDo(s, h)|
  {
    var todo := ToDo(s, h);
    if todo != [] {
      var s' := Apply(s, todo[0]);
      var h' := if |todo| == 1 then Nobody else h;
      InvStep(s, a, todo[0]);
      assert OnlyInside(s', h');
      assert ToDo(s', h') == todo[1..];
      HolderFinishes(s', AccountStep(a, todo[0]), h');
      First(s, todo[0], todo[1..]);
      assert [todo[0]] + todo[1..] == todo;
    }
  }

  /** In every reachable state whoever is inside the semaphore can leave it within three steps of its own. */
  lemma SemaphoreComesFree(n: nat, past: seq<Op>) returns (future: seq<Op>)
    requires CanRun(Init(n), past)
    ensures |future| <= 3 && CanRun(Exec(Init(n), past), future)
    ensures Exec(Exec(Init(n), past), future).sem == 1
  {
    InitInv(n);
    InvRun(Init(n), NOTHING, past);
    var s := Exec(Init(n), past);
    var h :| OnlyInside(s, h);
    HolderFinishes(s, AccountOf(NOTHING, past), h);
    future := ToDo(s, h);
  }

  /** With the semaphore free, ir_flank adds one to ir_recvd and changes nothing else. */
  lemma FlankAlone(s: State, t: nat)
    requires s.sem > 0 && t < |s.threads| && s.threads[t] == Outside
    ensures var ops := [TakeToCount(t), Load(t), Store(t), Release(t)];
            CanRun(s, ops) && Exec(s, ops) == s.(recvd := s.recvd + 1)
  {
    var a := Apply(s, TakeToCount(t));
    var b := Apply(a, Load(t));
    var c := Apply(b, Store(t));
    var d := Apply(c, Release(t));
    assert d.threads == s.threads;
    First(c, Release(t), []);
    First(b, Store(t), [Release(t)]);
    First(a, Load(t), [Store(t), Release(t)]);
    First(s, TakeToCount(t), [Load(t), Store(t), Release(t)]);
  }

  /** With the semaphore free, a tick judges all of ir_recvd, zeroes it and changes nothing else. */
  lemma TickAlone(s: State, now: int, cfg: Thresholds)
    requires s.sem > 0 && s.main == Sleeping
    ensures var ops := [MainTake, MainJudge(now, cfg), MainClear, MainRelease];
            && CanRun(s, ops)
            && Exec(s, ops) == s.(recvd := 0, loop := Step(s.loop, Tick(s.recvd, now, cfg)))
  {
    var a := Apply(s, MainTake);
    var b := Apply(a, MainJudge(now, cfg));
    var c := Apply(b, MainClear);
    First(c, MainRelease, []);
    First(b, MainClear, [MainRelease]);
    First(a, MainJudge(now, cfg), [MainClear, MainRelease]);
    First(s, MainTake, [MainJudge(now, cfg), MainClear, MainRelease]);
  }
}
