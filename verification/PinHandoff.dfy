/**
 The one-slot handoff of the pin number from `__isr_init` to the interrupt thread it creates
 (iralarm/irpio.c:390-403, 423-431).  Any number of callers run concurrently; thread creation
 succeeds.  The new thread reads `pinPass` and clears it in two separate steps, and the caller
 polls without any further synchronisation.
 */
module PinHandoff {

  datatype CallerPc = Start | Locked | Passed | Polling | Unlocking | Returned

  datatype Caller = Caller(pin: nat, pc: CallerPc, threadId: nat)

  /** An interrupt thread: who created it, and how far it has come. */
  datatype HandlerPc = Born | Read | Ready

  datatype Handler = Handler(creator: nat, pc: HandlerPc, myPin: int)

  datatype Owner = Free | By(c: nat)

  datatype State = State(callers: seq<Caller>, handlers: seq<Handler>, mutex: Owner, pinPass: int)

  datatype Op =
    | Lock(c: nat) | Pass(c: nat) | Create(c: nat) | Poll(c: nat) | Unlock(c: nat)
    | ReadPin(h: nat) | ClearPin(h: nat)

  function Init(pins: seq<nat>): State {
    State(seq(|pins|, i requires 0 <= i < |pins| => Caller(pins[i], Start, 0)), [], Free, -1)
  }

  predicate CallerAt(s: State, c: nat, pc: CallerPc) {
    c < |s.callers| && s.callers[c].pc == pc
  }

  predicate HandlerAt(s: State, h: nat, pc: HandlerPc) {
    h < |s.handlers| && s.handlers[h].pc == pc
  }

  predicate Enabled(s: State, op: Op) {
    match op
    case Lock(c) => CallerAt(s, c, Start) && s.mutex.Free?
    case Pass(c) => CallerAt(s, c, Locked)
    case Create(c) => CallerAt(s, c, Passed)
    case Poll(c) => CallerAt(s, c, Polling)
    case Unlock(c) => CallerAt(s, c, Unlocking)
    case ReadPin(h) => HandlerAt(s, h, Born)
    case ClearPin(h) => HandlerAt(s, h, Read)
  }

  function Move(s: State, c: nat, pc: CallerPc): seq<Caller>
    requires c < |s.callers|
  {
    s.callers[c := s.callers[c].(pc := pc)]
  }

  function Apply(s: State, op: Op): State
    requires Enabled(s, op)
  {
    match op
    case Lock(c) => s.(callers := Move(s, c, Locked), mutex := By(c))
    case Pass(c) => s.(callers := Move(s, c, Passed), pinPass := s.callers[c].pin)
    case Create(c) =>
      s.(callers := s.callers[c := s.callers[c].(pc := Polling, threadId := |s.handlers|)],
         handlers := s.handlers + [Handler(c, Born, -1)])
    case Poll(c) => if s.pinPass == -1 then s.(callers := Move(s, c, Unlocking)) else s
    case Unlock(c) => s.(callers := Move(s, c, Returned), mutex := Free)
    case ReadPin(h) => s.(handlers := s.handlers[h := s.handlers[h].(pc := Read, myPin := s.pinPass)])
    case ClearPin(h) => s.(handlers := s.handlers[h := s.handlers[h].(pc := Ready)], pinPass := -1)
  }

  predicate CanRun(s: State, ops: seq<Op>)
    decreases |ops|
  {
    ops == [] || (Enabled(s, ops[0]) && CanRun(Apply(s, ops[0]), ops[1..]))
  }

  function Exec(s: State, ops: seq<Op>): State
    requires CanRun(s, ops)
    decreases |ops|
  {
    if ops == [] then s else Exec(Apply(s, ops[0]), ops[1..])
  }

  /** Only the owner of the mutex is inside the critical section. */
  ghost predicate MutexInv(s: State) {
    && (s.mutex.By? ==> s.mutex.c < |s.callers|)
    && forall c: nat :: c < |s.callers| ==>
         (s.mutex == By(c) <==> !s.callers[c].pc.Start? && !s.callers[c].pc.Returned?)
  }

  predicate HasCreated(pc: CallerPc) {
    pc.Polling? || pc.Unlocking? || pc.Returned?
  }

  /** Every handler is the thread of a caller that has created it; an unready handler is polled for. */
  ghost predicate CreatorInv(s: State) {
    forall h: nat :: h < |s.handlers| ==>
      && s.handlers[h].creator < |s.callers|
      && s.callers[s.handlers[h].creator].threadId == h
      && HasCreated(s.callers[s.handlers[h].creator].pc)
      && (!s.handlers[h].pc.Ready? ==> s.callers[s.handlers[h].creator].pc.Polling?)
  }

  /** And every caller that has created a thread has one. */
  ghost predicate ThreadInv(s: State) {
    forall c: nat :: c < |s.callers| && HasCreated(s.callers[c].pc) ==>
      s.callers[c].threadId < |s.handlers| && s.handlers[s.callers[c].threadId].creator == c
  }

  /** A caller still polls after its handler is ready only if the slot is clear. */
  ghost predicate PollInv(s: State) {
    forall c: nat, h: nat :: CallerAt(s, c, Polling) && s.callers[c].threadId == h && HandlerAt(s, h, Ready) ==>
      s.pinPass == -1
  }

  /** The slot holds the pin of the caller inside, until its handler has cleared it. */
  ghost predicate SlotInv(s: State) {
    && (forall c: nat :: c < |s.callers| && s.callers[c].pc.Passed? ==> s.pinPass == s.callers[c].pin)
    && (forall h: nat :: h < |s.handlers| && !s.handlers[h].pc.Ready? && s.handlers[h].creator < |s.callers| ==>
          s.pinPass == s.callers[s.handlers[h].creator].pin)
    && (forall h: nat :: h < |s.handlers| && !s.handlers[h].pc.Born? && s.handlers[h].creator < |s.callers| ==>
          s.handlers[h].myPin == s.callers[s.handlers[h].creator].pin)
  }

  ghost predicate Inv(s: State) {
    MutexInv(s) && CreatorInv(s) && ThreadInv(s) && SlotInv(s) && PollInv(s)
  }

  lemma MutexStep(s: State, op: Op)
    requires MutexInv(s) && Enabled(s, op)
    ensures MutexInv(Apply(s, op))
  {
  }

  lemma CreatorStep(s: State, op: Op)
    requires CreatorInv(s) && SlotInv(s) && Enabled(s, op)
    ensures CreatorInv(Apply(s, op))
  {
  }

  lemma ThreadStep(s: State, op: Op)
    requires ThreadInv(s) && Enabled(s, op)
    ensures ThreadInv(Apply(s, op))
  {
  }

  lemma SlotStep(s: State, op: Op)
    requires MutexInv(s) && CreatorInv(s) && SlotInv(s) && Enabled(s, op)
    ensures SlotInv(Apply(s, op))
  {
  }

  lemma PollStep(s: State, op: Op)
    requires MutexInv(s) && CreatorInv(s) && ThreadInv(s) && PollInv(s) && Enabled(s, op)
    ensures PollInv(Apply(s, op))
  {
  }

  lemma InvStep(s: State, op: Op)
    requires Inv(s) && Enabled(s, op)
    ensures Inv(Apply(s, op))
  {
    MutexStep(s, op);
    CreatorStep(s, op);
    ThreadStep(s, op);
    SlotStep(s, op);
    PollStep(s, op);
  }

  lemma {:induction false} InvRun(s: State, ops: seq<Op>)
    requires Inv(s) && CanRun(s, ops)
    ensures Inv(Exec(s, ops)) && SamePins(s, Exec(s, ops))
    decreases |ops|
  {
    if ops != [] {
      InvStep(s, ops[0]);
      InvRun(Apply(s, ops[0]), ops[1..]);
    }
  }

  ghost predicate SamePins(s: State, t: State) {
    |s.callers| == |t.callers| && forall c :: 0 <= c < |s.callers| ==> s.callers[c].pin == t.callers[c].pin
  }

  /**
   In every interleaving each interrupt thread that has read the slot serves exactly the pin of
   the call that created it, and a call that has returned has one such thread, which is ready.
   */
  lemma HandlersServeTheirCallers(pins: seq<nat>, ops: seq<Op>)
    requires CanRun(Init(pins), ops)
    ensures var s := Exec(Init(pins), ops);
            && (forall h: nat :: h < |s.handlers| && !s.handlers[h].pc.Born? ==>
                  s.handlers[h].creator < |pins| && s.handlers[h].myPin == pins[s.handlers[h].creator])
            && (forall c: nat :: c < |pins| && CallerAt(s, c, Returned) ==>
                  exists h: nat :: HandlerAt(s, h, Ready) && s.handlers[h].creator == c && s.handlers[h].myPin == pins[c])
            && (forall h: nat, k: nat :: h < |s.handlers| && k < |s.handlers| && h != k ==>
                  s.handlers[h].creator != s.handlers[k].creator)
  {
    InvRun(Init(pins), ops);
    var s := Exec(Init(pins), ops);
    forall c: nat | c < |pins| && CallerAt(s, c, Returned)
      ensures exists h: nat :: HandlerAt(s, h, Ready) && s.handlers[h].creator == c && s.handlers[h].myPin == pins[c]
    {
      var h := s.callers[c].threadId;
      assert HandlerAt(s, h, Ready);
    }
  }

  // ----- every call can return -----

  function CallerWork(pc: CallerPc): nat {
    match pc
    case Start => 8
    case Locked => 7
    case Passed => 6
    case Polling => 2
    case Unlocking => 1
    case Returned => 0
  }

  function HandlerWork(pc: HandlerPc): nat {
    match pc
    case Born => 2
    case Read => 1
    case Ready => 0
  }

  function CallersWork(callers: seq<Caller>): nat {
    if callers == [] then 0 else CallerWork(callers[0].pc) + CallersWork(callers[1..])
  }

  function HandlersWork(handlers: seq<Handler>): nat {
    if handlers == [] then 0 else HandlersWork(handlers[..|handlers| - 1]) + HandlerWork(handlers[|handlers| - 1].pc)
  }

  function Work(s: State): nat {
    CallersWork(s.callers) + HandlersWork(s.handlers)
  }

  lemma {:induction false} CallerMoves(callers: seq<Caller>, c: nat, next: Caller)
    requires c < |callers|
    ensures CallersWork(callers[c := next]) == CallersWork(callers) - CallerWork(callers[c].pc) + CallerWork(next.pc)
  {
    if c > 0 {
      CallerMoves(callers[1..], c - 1, next);
      assert callers[c := next][1..] == callers[1..][c - 1 := next];
    } else {
      assert callers[c := next][1..] == callers[1..];
    }
  }

  lemma {:induction false} HandlerMoves(handlers: seq<Handler>, h: nat, next: Handler)
    requires h < |handlers|
    ensures HandlersWork(handlers[h := next]) == HandlersWork(handlers) - HandlerWork(handlers[h].pc) + HandlerWork(next.pc)
  {
    var n := |handlers| - 1;
    if h < n {
      HandlerMoves(handlers[..n], h, next);
      assert handlers[h := next][..n] == handlers[..n][h := next];
    } else {
      assert handlers[h := next][..n] == handlers[..n];
    }
  }

  /** Every step but an unsuccessful poll is progress. */
  lemma StepIsProgress(s: State, op: Op)
    requires Enabled(s, op) && (op.Poll? ==> s.pinPass == -1)
    ensures Work(Apply(s, op)) < Work(s)
  {
    var t := Apply(s, op);
    match op
    case ReadPin(h) => HandlerMoves(s.handlers, h, t.handlers[h]);
    case ClearPin(h) => HandlerMoves(s.handlers, h, t.handlers[h]);
    case Create(c) =>
      CallerMoves(s.callers, c, t.callers[c]);
      assert t.handlers[..|t.handlers| - 1] == s.handlers;
    case _ => CallerMoves(s.callers, op.c, t.callers[op.c]);
  }

  predicate AllReturned(s: State) {
    s.mutex.Free? && forall c: nat :: c < |s.callers| ==> s.callers[c].pc.Returned?
  }

  /** What the caller inside the critical section, or the thread it polls for, does next. */
  function Inside(s: State, c: nat): Op
    requires c < |s.callers| && s.mutex == By(c)
  {
    var h := s.callers[c].threadId;
    match s.callers[c].pc
    case Locked => Pass(c)
    case Passed => Create(c)
    case Polling => if h < |s.handlers| && s.handlers[h].pc.Born? then ReadPin(h)
                    else if h < |s.handlers| && s.handlers[h].pc.Read? then ClearPin(h)
                    else Poll(c)
    case _ => Unlock(c)
  }

  lemma {:induction false} CanReturn(s: State) returns (ops: seq<Op>)
    requires Inv(s)
    ensures CanRun(s, ops) && AllReturned(Exec(s, ops))
    decreases Work(s)
  {
    ops := [];
    if !AllReturned(s) {
      var op;
      if s.mutex.By? {
        op := Inside(s, s.mutex.c);
        assert op.Poll? ==> CallerAt(s, op.c, Polling) && HandlerAt(s, s.callers[op.c].threadId, Ready);
      } else {
        var c: nat :| c < |s.callers| && !s.callers[c].pc.Returned?;
        op := Lock(c);
      }
      StepIsProgress(s, op);
      InvStep(s, op);
      var rest := CanReturn(Apply(s, op));
      ops := [op] + rest;
      assert ops[1..] == rest;
    }
  }

  /** From every reachable state all calls can return, so that by the theorem above every pin is served. */
  lemma EveryCallCanReturn(pins: seq<nat>, past: seq<Op>) returns (future: seq<Op>)
    requires CanRun(Init(pins), past)
    ensures CanRun(Exec(Init(pins), past), future) && AllReturned(Exec(Exec(Init(pins), past), future))
  {
    InvRun(Init(pins), past);
    future := CanReturn(Exec(Init(pins), past));
  }
}
