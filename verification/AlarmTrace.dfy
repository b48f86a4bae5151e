/**
 Theorems about every run of the alarm loop (iralarm/iralarmd.c:572-629).

 A run is an initial state and the sequence of its ticks; `At(s, ins, n)` is the state after n of
 them.  Thresholds may change from tick to tick unless a theorem says otherwise.
 */
module AlarmTrace {
  import opened AlarmLoop

  // ----- the saturating counter -----

  // A tick is bad if it saw fewer flanks than its ir_minrecvd, and good otherwise.

  /** Bad minus good ticks among the ticks k, ..., n-1. */
  function Net(ins: seq<Tick>, k: nat, n: nat): int
    requires n <= |ins|
  {
    if n <= k then 0 else Net(ins, k, n - 1) + (if ins[n - 1].flanks < ins[n - 1].cfg.minRecvd then 1 else -1)
  }

  /** m is the maximum of Net over the suffixes of the ticks j, ..., n-1, the empty one included. */
  ghost predicate IsMaxSuffix(ins: seq<Tick>, j: nat, n: nat, m: int)
    requires j <= n <= |ins|
  {
    && (exists k: nat :: j <= k <= n && Net(ins, k, n) == m)
    && (forall k: nat :: j <= k <= n ==> Net(ins, k, n) <= m)
  }

  /** The number of ticks up to and including the last one that called an alarm off, 0 if there is none. */
  function LastReset(s: Loop, ins: seq<Tick>, n: nat): (r: nat)
    requires n <= |ins|
    ensures r <= n
  {
    if n == 0 then 0
    else if At(s, ins, n - 1).astate != None && At(s, ins, n).astate == None then n
    else LastReset(s, ins, n - 1)
  }

  /** One tick moves a suffix maximum the way the code moves its counter. */
  lemma MaxSuffixStep(ins: seq<Tick>, j: nat, n: nat, m: nat)
    requires j <= n < |ins| && IsMaxSuffix(ins, j, n, m)
    ensures IsMaxSuffix(ins, j, n + 1, if ins[n].flanks < ins[n].cfg.minRecvd then m + 1 else if m > 0 then m - 1 else 0)
  {
    var k: nat :| j <= k <= n && Net(ins, k, n) == m;
    var d := if ins[n].flanks < ins[n].cfg.minRecvd then 1 else -1;
    assert Net(ins, k, n + 1) == m + d;
    assert Net(ins, n + 1, n + 1) == 0;
    var next := n + 1;
    forall k: nat | j <= k <= n
      ensures Net(ins, k, next) <= m + d
    {
      assert Net(ins, k, n) <= m;
    }
  }

  /**
   Closed form of ir_alrm_cycls: in every run it is the maximum, over the suffixes of the history
   since the last reset, of bad minus good ticks.
   */
  lemma {:induction false} CyclsAreMaxSuffix(s: Loop, ins: seq<Tick>, n: nat)
    requires s.alrmCycls == 0 && n <= |ins|
    ensures IsMaxSuffix(ins, LastReset(s, ins, n), n, At(s, ins, n).alrmCycls)
  {
    if n == 0 {
      assert Net(ins, 0, 0) == 0;
    } else {
      CyclsAreMaxSuffix(s, ins, n - 1);
      var i, p := ins[n - 1], At(s, ins, n - 1);
      if p.astate != None && At(s, ins, n).astate == None {
        assert Net(ins, n, n) == 0;
      } else {
        MaxSuffixStep(ins, LastReset(s, ins, n - 1), n - 1, p.alrmCycls);
      }
    }
  }

  /** Some suffix of the ticks j, ..., n-1 has more bad minus good ticks than the last one's ir_minalarm. */
  ghost predicate ExceedsSince(ins: seq<Tick>, j: nat, n: nat)
    requires 0 < n <= |ins|
  {
    exists k: nat :: j <= k <= n && Net(ins, k, n) > ins[n - 1].cfg.minAlarm
  }

  /** The same over the whole history. */
  ghost predicate Exceeds(ins: seq<Tick>, n: nat)
    requires 0 < n <= |ins|
  {
    ExceedsSince(ins, 0, n)
  }

  /**
   In every run, whatever came before: while there is no alarm, the next tick raises one exactly
   when some suffix of the history since the last reset exceeds its ir_minalarm.
   */
  lemma RaisedIffExceedsSinceReset(s: Loop, ins: seq<Tick>, n: nat)
    requires s.alrmCycls == 0 && n < |ins| && At(s, ins, n).astate == None
    ensures At(s, ins, n + 1).astate == if ExceedsSince(ins, LastReset(s, ins, n), n + 1) then Preactive else None
  {
    CyclsAreMaxSuffix(s, ins, n);
    var j, p := LastReset(s, ins, n), At(s, ins, n);
    MaxSuffixStep(ins, j, n, p.alrmCycls);
    var c := Counted(p, ins[n]).alrmCycls;
    assert IsMaxSuffix(ins, j, n + 1, c);
    if c > ins[n].cfg.minAlarm {
      var k: nat :| j <= k <= n + 1 && Net(ins, k, n + 1) == c;
    }
  }

  /** No alarm is raised by the first n ticks. */
  ghost predicate QuietUpTo(s: Loop, ins: seq<Tick>, n: nat)
    requires n <= |ins|
  {
    forall i: nat :: i <= n ==> At(s, ins, i).astate == None
  }

  lemma {:induction false} QuietHasNoReset(s: Loop, ins: seq<Tick>, n: nat)
    requires n <= |ins| && QuietUpTo(s, ins, n)
    ensures LastReset(s, ins, n) == 0
  {
    if n > 0 {
      QuietHasNoReset(s, ins, n - 1);
      assert At(s, ins, n).astate == None && At(s, ins, n - 1).astate == None;
    }
  }

  /** In a quiet run the next tick raises the alarm exactly when some suffix exceeds its threshold. */
  lemma QuietStep(s: Loop, ins: seq<Tick>, n: nat)
    requires s.alrmCycls == 0 && n < |ins| && QuietUpTo(s, ins, n)
    ensures At(s, ins, n + 1).astate == if Exceeds(ins, n + 1) then Preactive else None
  {
    QuietHasNoReset(s, ins, n);
    assert At(s, ins, n).astate == None;
    RaisedIffExceedsSinceReset(s, ins, n);
  }

  /** No alarm is raised up to tick n exactly when no suffix exceeds the threshold of its tick. */
  lemma {:induction false} QuietIffNoSuffixExceeds(s: Loop, ins: seq<Tick>, n: nat)
    requires s.astate == None && s.alrmCycls == 0 && n <= |ins|
    ensures QuietUpTo(s, ins, n) <==> forall i: nat :: 0 < i <= n ==> !Exceeds(ins, i)
  {
    if n > 0 {
      QuietIffNoSuffixExceeds(s, ins, n - 1);
      if QuietUpTo(s, ins, n - 1) {
        QuietStep(s, ins, n - 1);
      } else {
        var i: nat :| i <= n - 1 && At(s, ins, i).astate != None;
        var e: nat :| 0 < e <= n - 1 && Exceeds(ins, e);
      }
    }
  }

  /**
   Tick n raises the alarm if and only if it is the first tick after which some suffix of the
   history has more bad minus good ticks than the ir_minalarm then in force.
   */
  lemma RaisedAtFirstExcess(s: Loop, ins: seq<Tick>, n: nat)
    requires s.astate == None && s.alrmCycls == 0 && n < |ins|
    ensures QuietUpTo(s, ins, n) && At(s, ins, n + 1).astate == Preactive
       <==> Exceeds(ins, n + 1) && forall i: nat :: 0 < i <= n ==> !Exceeds(ins, i)
  {
    QuietIffNoSuffixExceeds(s, ins, n);
    if QuietUpTo(s, ins, n) {
      QuietStep(s, ins, n);
    }
  }

  // ----- two runs -----

  /** The first run receives at most as many flanks at every tick, with the same thresholds. */
  ghost predicate FewerFlanks(a: seq<Tick>, b: seq<Tick>) {
    |a| == |b| && forall i :: 0 <= i < |a| ==> a[i].flanks <= b[i].flanks && a[i].cfg == b[i].cfg
  }

  lemma {:induction false} FewerFlanksMoreCycles(s: Loop, a: seq<Tick>, b: seq<Tick>, n: nat)
    requires FewerFlanks(a, b) && n <= |a| && QuietUpTo(s, a, n)
    ensures QuietUpTo(s, b, n) && At(s, b, n).alrmCycls <= At(s, a, n).alrmCycls
  {
    if n == 0 {
      assert At(s, a, 0) == At(s, b, 0);
    } else {
      FewerFlanksMoreCycles(s, a, b, n - 1);
      assert At(s, a, n).astate == None && At(s, a, n - 1).astate == None && At(s, b, n - 1).astate == None;
      forall i: nat | i <= n
        ensures At(s, b, i).astate == None
      {
        if i < n {
          assert At(s, b, i).astate == None;
        }
      }
    }
  }

  /** Whatever the clocks show, a run with fewer flanks raises its first alarm no later. */
  lemma FewerFlanksAlarmNoLater(s: Loop, a: seq<Tick>, b: seq<Tick>, n: nat)
    requires s.astate == None && FewerFlanks(a, b) && n <= |a|
    requires exists i: nat :: i <= n && At(s, b, i).astate != None
    ensures exists i: nat :: i <= n && At(s, a, i).astate != None
  {
    if QuietUpTo(s, a, n) {
      FewerFlanksMoreCycles(s, a, b, n);
    }
  }

  // ----- episodes -----

  /** Good ticks among the ticks k, ..., n-1. */
  function Good(ins: seq<Tick>, k: nat, n: nat): nat
    requires n <= |ins|
  {
    if n <= k then 0 else Good(ins, k, n - 1) + (if ins[n - 1].flanks < ins[n - 1].cfg.minRecvd then 0 else 1)
  }

  /** Tick p raises an alarm and every state from then up to and including the one after q ticks is an alarm. */
  ghost predicate AlarmSince(s: Loop, ins: seq<Tick>, p: nat, q: nat)
    requires p < q <= |ins|
  {
    && At(s, ins, p).astate == None
    && forall i: nat :: p < i <= q ==> At(s, ins, i).astate != None
  }

  ghost predicate RstAlarmIs(ins: seq<Tick>, p: nat, q: nat, rst: nat)
    requires q <= |ins|
  {
    forall i :: p <= i < q ==> ins[i].cfg.rstAlarm == rst
  }

  /** What the reset counter says about the good ticks of an unfinished episode. */
  lemma {:induction false} EpisodeCounter(s: Loop, ins: seq<Tick>, p: nat, q: nat, rst: nat)
    requires p < q <= |ins| && AlarmSince(s, ins, p, q) && RstAlarmIs(ins, p + 1, q, rst)
    ensures var c, g := At(s, ins, q), Good(ins, p + 1, q);
            && c.recvdCycls <= rst
            && (c.astate == Preactive ==> g == c.recvdCycls)
            && (c.astate == Active ==> c.recvdCycls <= g <= c.recvdCycls + rst + 1)
    decreases q
  {
    assert At(s, ins, q).astate != None;
    if q > p + 1 {
      EpisodeCounter(s, ins, p, q - 1, rst);
      assert At(s, ins, q - 1).astate != None;
      assert ins[q - 1].cfg.rstAlarm == rst;
    }
  }

  /** A completed episode: tick p raises the alarm, tick q-1 is the first to call it off. */
  ghost predicate Episode(s: Loop, ins: seq<Tick>, p: nat, q: nat)
    requires q <= |ins|
  {
    p + 1 < q && AlarmSince(s, ins, p, q - 1) && At(s, ins, q).astate == None
  }

  /** With a constant ir_rstalarm every episode has between rst+1 and 2(rst+1) good ticks after its entry tick. */
  lemma EpisodeGoodTicks(s: Loop, ins: seq<Tick>, p: nat, q: nat, rst: nat)
    requires q <= |ins| && Episode(s, ins, p, q) && RstAlarmIs(ins, p + 1, q, rst)
    ensures rst + 1 <= Good(ins, p + 1, q) <= 2 * (rst + 1)
  {
    EpisodeCounter(s, ins, p, q - 1, rst);
    assert At(s, ins, q - 1).astate != None;
    assert ins[q - 1].cfg.rstAlarm == rst;
  }

  /** Entry tick 0, then only good ticks; the clock shows 11 from tick `late` on. */
  function Recovery(rst: nat, late: nat, length: nat): seq<Tick> {
    seq(length, i => Tick(if i == 0 then 0 else 1, if i < late then 0 else 11, Thresholds(1, 0, rst)))
  }

  lemma {:induction false} RecoveryStates(rst: nat, late: nat, length: nat, n: nat)
    requires 1 <= n <= length && (late == rst + 1 || late == length)
    ensures var ins := Recovery(rst, late, length); var c := At(INITIAL, ins, n);
            && Good(ins, 1, n) == n - 1
            && (n <= rst + 1 && n <= late ==> c == Loop(Preactive, 0, n - 1, 0) || (n == 1 && c == Loop(Preactive, 1, 0, 0)))
            && (late == rst + 1 && rst + 2 <= n <= 2 * rst + 2 ==> c.astate == Active && c.recvdCycls == n - rst - 2)
  {
    if n > 1 {
      RecoveryStates(rst, late, length, n - 1);
    } else {
      assert At(INITIAL, Recovery(rst, late, length), 0) == INITIAL;
    }
  }

  /** The lower bound of EpisodeGoodTicks is attained, whatever ir_rstalarm is. */
  lemma ShortestEpisode(rst: nat) returns (ins: seq<Tick>)
    ensures Episode(INITIAL, ins, 0, |ins|) && RstAlarmIs(ins, 1, |ins|, rst)
    ensures Good(ins, 1, |ins|) == rst + 1
  {
    ins := Recovery(rst, rst + 2, rst + 2);
    forall n: nat | 0 < n <= rst + 1
      ensures At(INITIAL, ins, n).astate == Preactive
    {
      RecoveryStates(rst, rst + 2, rst + 2, n);
    }
    RecoveryStates(rst, rst + 2, rst + 2, rst + 1);
    RecoveryStates(rst, rst + 2, rst + 2, rst + 2);
    assert At(INITIAL, ins, rst + 2) == Step(At(INITIAL, ins, rst + 1), ins[rst + 1]);
  }

  /** So is the upper bound: the timer fires with the last good tick of the Preactive phase. */
  lemma LongestEpisode(rst: nat) returns (ins: seq<Tick>)
    ensures Episode(INITIAL, ins, 0, |ins|) && RstAlarmIs(ins, 1, |ins|, rst)
    ensures Good(ins, 1, |ins|) == 2 * (rst + 1)
  {
    ins := Recovery(rst, rst + 1, 2 * rst + 3);
    forall n: nat | 0 < n <= 2 * rst + 2
      ensures At(INITIAL, ins, n).astate != None
    {
      RecoveryStates(rst, rst + 1, 2 * rst + 3, n);
    }
    RecoveryStates(rst, rst + 1, 2 * rst + 3, 2 * rst + 2);
    RecoveryStates(rst, rst + 1, 2 * rst + 3, 2 * rst + 3);
    assert At(INITIAL, ins, 2 * rst + 3) == Step(At(INITIAL, ins, 2 * rst + 2), ins[2 * rst + 2]);
  }

  /** Alarms are raised and called off in strict alternation, starting with a raise. */
  lemma {:induction false} ActionsAlternate(s: Loop, ins: seq<Tick>, n: nat)
    requires s.astate == None && n <= |ins|
    ensures forall i :: 0 <= i < |Log(s, ins, n)| ==> Log(s, ins, n)[i] == if i % 2 == 0 then Do else Undo
    ensures At(s, ins, n).astate == None <==> |Log(s, ins, n)| % 2 == 0
  {
    if n > 0 {
      ActionsAlternate(s, ins, n - 1);
    }
  }

  // ----- the active phase -----

  /** A Preactive state stems from one raising tick, whose time it still carries. */
  lemma {:induction false} PreactiveSince(s: Loop, ins: seq<Tick>, n: nat) returns (p: nat)
    requires s.astate == None && n <= |ins| && At(s, ins, n).astate == Preactive
    ensures p < n && At(s, ins, p).astate == None
    ensures forall i: nat :: p < i <= n ==> At(s, ins, i).astate == Preactive && At(s, ins, i).alrmStart == ins[p].now
  {
    if At(s, ins, n - 1).astate == None {
      p := n - 1;
    } else {
      p := PreactiveSince(s, ins, n - 1);
      assert At(s, ins, n - 1).alrmStart == ins[p].now;
    }
  }

  /**
   A tick that enters Active ends a Preactive phase that began with the raising tick p, kept its
   start time, and lies more than ten seconds back.  In particular None never turns Active directly.
   */
  lemma ActiveEntry(s: Loop, ins: seq<Tick>, n: nat) returns (p: nat)
    requires s.astate == None && n < |ins|
    requires At(s, ins, n).astate != Active && At(s, ins, n + 1).astate == Active
    ensures p < n && At(s, ins, p).astate == None
    ensures forall i: nat :: p < i <= n ==> At(s, ins, i).astate == Preactive && At(s, ins, i).alrmStart == ins[p].now
    ensures ins[n].now - ins[p].now > 10
  {
    p := PreactiveSince(s, ins, n);
    assert At(s, ins, n).alrmStart == ins[p].now;
  }

  /** Tick n enters an alarm phase, which has lasted at least until after tick q-1. */
  ghost predicate InPhase(s: Loop, ins: seq<Tick>, n: nat, q: nat)
    requires n < q <= |ins|
  {
    && At(s, ins, n + 1).astate != None && At(s, ins, n + 1).astate != At(s, ins, n).astate
    && forall i: nat :: n < i <= q ==> At(s, ins, i).astate == At(s, ins, n + 1).astate
  }

  /** Within a phase the reset counter is the number of good ticks since the tick that entered it. */
  lemma {:induction false} PhaseCounter(s: Loop, ins: seq<Tick>, n: nat, q: nat)
    requires n < q <= |ins| && InPhase(s, ins, n, q)
    ensures At(s, ins, q).recvdCycls == Good(ins, n + 1, q)
    decreases q
  {
    assert At(s, ins, q).astate == At(s, ins, n + 1).astate;
    if q > n + 1 {
      PhaseCounter(s, ins, n, q - 1);
      assert At(s, ins, q - 1).astate == At(s, ins, n + 1).astate;
    }
  }

  lemma {:induction false} PreactiveKeepsStart(s: Loop, ins: seq<Tick>, p: nat, q: nat)
    requires p < q <= |ins| && InPhase(s, ins, p, q) && At(s, ins, p).astate == None
    ensures At(s, ins, q).astate == Preactive && At(s, ins, q).alrmStart == ins[p].now
    decreases q
  {
    assert At(s, ins, p + 1) == Step(At(s, ins, p), ins[p]);
    assert At(s, ins, q).astate == At(s, ins, p + 1).astate;
    if q > p + 1 {
      PreactiveKeepsStart(s, ins, p, q - 1);
    }
  }

  /**
   Tick p raises an alarm that is still Preactive after q ticks.  The next tick makes it Active
   exactly when it comes more than ten seconds after the raise; failing that, it calls the alarm off
   exactly when the good ticks since the raise exceed its ir_rstalarm.
   */
  lemma PreactiveExit(s: Loop, ins: seq<Tick>, p: nat, q: nat)
    requires p < q < |ins| && InPhase(s, ins, p, q) && At(s, ins, p).astate == None
    ensures At(s, ins, q + 1).astate ==
            if ins[q].now - ins[p].now > 10 then Active
            else if Good(ins, p + 1, q + 1) > ins[q].cfg.rstAlarm then None
            else Preactive
  {
    PhaseCounter(s, ins, p, q);
    PreactiveKeepsStart(s, ins, p, q);
  }

  /**
   Tick n enters Active and the state is still Active after q ticks.  The next tick leaves Active
   exactly when the good ticks since that entry exceed its ir_rstalarm, and then it goes to None.
   */
  lemma ActiveExit(s: Loop, ins: seq<Tick>, n: nat, q: nat)
    requires n < q < |ins| && InPhase(s, ins, n, q) && At(s, ins, n + 1).astate == Active
    ensures At(s, ins, q + 1).astate ==
            if Good(ins, n + 1, q + 1) > ins[q].cfg.rstAlarm then None else Active
  {
    PhaseCounter(s, ins, n, q);
    assert At(s, ins, q).astate == Active;
  }
}
