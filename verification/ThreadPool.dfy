/**
 The slot table of the worker threads (iralarm/irthread.c:10-23, 57-120): `irthread_start` takes the
 first slot that is unallocated or unused, `irthread_stop` gives it back without freeing it.
 Whether pthread_create succeeds is an input; waiting for the thread to end is not modelled.
 */
module ThreadPool {

  /** A pointer into the table: null until first use, then a thread record that is never freed. */
  datatype Slot = Null | Record(used: bool, actv: bool, susp: bool)

  const MAX_THREADS := 4
  const IRTHRD_ERR := -1
  const ERR_BITS: bv32 := 0xFFFF_FFFF   // the same as a 32-bit pattern

  predicate Taken(s: Slot) {
    s.Record? && s.used
  }

  /** The first slot from k on that a start can take, |slots| if there is none. */
  function FirstFree(slots: seq<Slot>, k: nat): (f: nat)
    requires k <= |slots|
    ensures k <= f <= |slots|
    ensures forall i :: k <= i < f ==> Taken(slots[i])
    ensures f < |slots| ==> !Taken(slots[f])
    decreases |slots| - k
  {
    if k == |slots| || !Taken(slots[k]) then k else FirstFree(slots, k + 1)
  }

  class Pool {
    const thrds: array<Slot>

    ghost predicate Valid()
      reads this
    {
      thrds.Length == MAX_THREADS
    }

    constructor ()
      ensures Valid() && fresh(thrds)
      ensures forall i :: 0 <= i < MAX_THREADS ==> thrds[i] == Null
    {
      thrds := new Slot[MAX_THREADS](_ => Null);
    }

    method Start(created: bool) returns (id: int)
      requires Valid()
      modifies thrds
      ensures var f := FirstFree(old(thrds[..]), 0);
              if f == 4 then id == -1 && thrds[..] == old(thrds[..])
              else && thrds[..] == old(thrds[..])[f := Record(true, true, false)]
                   && id == if created then f else -1
    {
      var i := 0;
      while i < MAX_THREADS
        invariant 0 <= i <= MAX_THREADS
        invariant thrds[..] == old(thrds[..])
        invariant FirstFree(thrds[..], 0) == FirstFree(thrds[..], i)
      {
        if thrds[i].Record? {
          if !thrds[i].used {
            break;
          }
        } else {
          break;
        }
        i := i + 1;
      }
      if i < MAX_THREADS {
        thrds[i] := Record(true, true, false);
        return if created then i else IRTHRD_ERR;
      }
      return IRTHRD_ERR;
    }

    /** Returns early if the flag is set already. */
    method Suspend(id: nat)
      requires Valid() && id < MAX_THREADS && Taken(thrds[id])
      modifies thrds
      ensures thrds[..] == old(thrds[..])[id := old(thrds[id]).(susp := true)]
    {
      if thrds[id].susp {
        return;
      }
      thrds[id] := thrds[id].(susp := true);
    }

    /**
     The id check comes first; a valid id must be one of a running thread.  `results` are the return
     values of the five pthread calls, whose bits are collected.
     */
    method Stop(id: int, results: seq<bv32>) returns (ret: bv32)
      requires Valid() && |results| == 5
      requires 0 <= id < MAX_THREADS ==> Taken(thrds[id])
      modifies thrds
      ensures if 0 <= id < MAX_THREADS
              then thrds[..] == old(thrds[..])[id := Record(false, false, true)]
              else ret == 0xFFFF_FFFF && thrds[..] == old(thrds[..])
      ensures ret == 0 <==> 0 <= id < MAX_THREADS && forall r :: r in results ==> r == 0
    {
      if id < 0 || id >= MAX_THREADS {
        return ERR_BITS;
      }
      Suspend(id);
      thrds[id] := thrds[id].(used := false);
      thrds[id] := thrds[id].(actv := false);
      ret := Collect(results);
    }

    /** The accumulated return value. */
    static method Collect(results: seq<bv32>) returns (ret: bv32)
      ensures ret == 0 <==> forall r :: r in results ==> r == 0
    {
      ret := 0;
      for i := 0 to |results|
        invariant ret == 0 <==> forall k :: 0 <= k < i ==> results[k] == 0
      {
        ZeroOr(ret, results[i]);
        ret := ret | results[i];
      }
      assert forall k :: 0 <= k < |results| ==> results[k] in results;
    }
  }

  lemma ZeroOr(a: bv32, b: bv32)
    ensures a | b == 0 <==> a == 0 && b == 0
  {
  }

  // ----- histories -----

  datatype Call = Start(created: bool) | Stop(id: nat)

  /** The table, and the ids handed out by starts and not stopped since. */
  datatype History = History(slots: seq<Slot>, live: set<nat>)

  const EMPTY := History([Null, Null, Null, Null], {})

  /** Only a live thread may be stopped. */
  predicate Legal(h: History, c: Call) {
    |h.slots| == MAX_THREADS && (c.Stop? ==> c.id in h.live && c.id < MAX_THREADS)
  }

  /** What a start returns. */
  function Returned(h: History, created: bool): int {
    var f := FirstFree(h.slots, 0);
    if f == |h.slots| || !created then IRTHRD_ERR else f
  }

  function Apply(h: History, c: Call): History
    requires Legal(h, c)
  {
    match c
    case Start(created) =>
      var f, id := FirstFree(h.slots, 0), Returned(h, created);
      History(if f == |h.slots| then h.slots else h.slots[f := Record(true, true, false)],
              if id == IRTHRD_ERR then h.live else h.live + {f})
    case Stop(id) => History(h.slots[id := Record(false, false, true)], h.live - {id})
  }

  predicate CanRun(h: History, calls: seq<Call>)
    decreases |calls|
  {
    calls == [] || (Legal(h, calls[0]) && CanRun(Apply(h, calls[0]), calls[1..]))
  }

  function Exec(h: History, calls: seq<Call>): History
    requires CanRun(h, calls)
    decreases |calls|
  {
    if calls == [] then h else Exec(Apply(h, calls[0]), calls[1..])
  }

  /** Slots in use whose thread could not be created, so that nobody knows their id. */
  function Leaked(h: History): set<nat> {
    set i: nat | i < |h.slots| && Taken(h.slots[i]) && i !in h.live
  }

  ghost predicate Inv(h: History) {
    && |h.slots| == MAX_THREADS
    && (forall i | i in h.live :: i < MAX_THREADS && Taken(h.slots[i]))
    && (forall i, j :: 0 <= i <= j < MAX_THREADS && h.slots[i] == Null ==> h.slots[j] == Null)
  }

  lemma InvStep(h: History, c: Call)
    requires Inv(h) && Legal(h, c)
    ensures Inv(Apply(h, c)) && Leaked(h) <= Leaked(Apply(h, c))
  {
  }

  lemma {:induction false} InvRun(h: History, calls: seq<Call>)
    requires Inv(h) && CanRun(h, calls)
    ensures Inv(Exec(h, calls)) && Leaked(h) <= Leaked(Exec(h, calls))
    decreases |calls|
  {
    if calls != [] {
      InvStep(h, calls[0]);
      InvRun(Apply(h, calls[0]), calls[1..]);
    }
  }

  /** Never-allocated slots always form a suffix of the table. */
  lemma NullSlotsFormSuffix(calls: seq<Call>)
    requires CanRun(EMPTY, calls)
    ensures var s := Exec(EMPTY, calls).slots;
            |s| == MAX_THREADS && forall i, j :: 0 <= i <= j < MAX_THREADS && s[i] == Null ==> s[j] == Null
  {
    InvRun(EMPTY, calls);
  }

  /** A start hands out an id that is not live: the smallest slot neither live nor leaked. */
  lemma StartReturnsSmallestFree(calls: seq<Call>, created: bool)
    requires CanRun(EMPTY, calls)
    ensures var h := Exec(EMPTY, calls); var id := Returned(h, created);
            && (id == -1 <==> !created || h.live + Leaked(h) == {0, 1, 2, 3})
            && (id != -1 ==>
                 && 0 <= id < 4 && id !in h.live && id !in Leaked(h)
                 && forall k: nat :: k < id ==> k in h.live || k in Leaked(h))
  {
    InvRun(EMPTY, calls);
    var h := Exec(EMPTY, calls);
    var f := FirstFree(h.slots, 0);
    assert forall i: nat :: i < MAX_THREADS && Taken(h.slots[i]) ==> i in h.live || i in Leaked(h);
    if f < MAX_THREADS {
      assert f !in h.live + Leaked(h);
    } else {
      assert forall i: nat :: i < MAX_THREADS ==> Taken(h.slots[i]);
      assert h.live + Leaked(h) == {0, 1, 2, 3};
    }
  }

  /** A start that takes a slot and then cannot create its thread. */
  predicate Loses(h: History, c: Call) {
    c.Start? && !c.created && FirstFree(h.slots, 0) < |h.slots|
  }

  /** How many calls of a run lose a slot. */
  function Losses(h: History, calls: seq<Call>): nat
    requires CanRun(h, calls)
    decreases |calls|
  {
    if calls == [] then 0 else (if Loses(h, calls[0]) then 1 else 0) + Losses(Apply(h, calls[0]), calls[1..])
  }

  lemma LeakedStep(h: History, c: Call)
    requires Inv(h) && Legal(h, c)
    ensures Leaked(Apply(h, c)) == Leaked(h) + (if Loses(h, c) then {FirstFree(h.slots, 0)} else {})
  {
    var t, f := Apply(h, c), FirstFree(h.slots, 0);
    forall i: nat
      ensures i in Leaked(t) <==> i in Leaked(h) || (Loses(h, c) && i == f)
    {
    }
  }

  lemma {:induction false} LeakedCount(h: History, calls: seq<Call>)
    requires Inv(h) && CanRun(h, calls)
    ensures |Leaked(Exec(h, calls))| == |Leaked(h)| + Losses(h, calls)
    decreases |calls|
  {
    if calls != [] {
      LeakedStep(h, calls[0]);
      assert FirstFree(h.slots, 0) !in Leaked(h);
      InvStep(h, calls[0]);
      LeakedCount(Apply(h, calls[0]), calls[1..]);
    }
  }

  /**
   The number of slots that are in use without a live id is exactly the number of starts that took
   a slot and could not create their thread: none is lost if and only if no such start occurred,
   and every one of them costs one slot for good.
   */
  lemma LeakedSlotsAreFailedCreations(calls: seq<Call>)
    requires CanRun(EMPTY, calls)
    ensures |Leaked(Exec(EMPTY, calls))| == Losses(EMPTY, calls)
    ensures Leaked(Exec(EMPTY, calls)) == {} <==> Losses(EMPTY, calls) == 0
  {
    assert Leaked(EMPTY) == {};
    LeakedCount(EMPTY, calls);
  }

  /** A failed creation costs its slot for good: whatever legal calls follow, it stays in use. */
  lemma FailedCreationLosesItsSlot(past: seq<Call>, future: seq<Call>)
    requires CanRun(EMPTY, past) && FirstFree(Exec(EMPTY, past).slots, 0) < |Exec(EMPTY, past).slots|
    requires Legal(Exec(EMPTY, past), Start(false)) && CanRun(Apply(Exec(EMPTY, past), Start(false)), future)
    ensures var f := FirstFree(Exec(EMPTY, past).slots, 0);
            f in Leaked(Exec(Apply(Exec(EMPTY, past), Start(false)), future))
  {
    InvRun(EMPTY, past);
    var h := Exec(EMPTY, past);
    InvRun(Apply(h, Start(false)), future);
    assert FirstFree(h.slots, 0) in Leaked(Apply(h, Start(false)));
  }
}
