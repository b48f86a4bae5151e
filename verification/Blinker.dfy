/**
 The blink counters of the network LED sniffer (netled/sniffer.c:171-187, 302-325).  The packet
 callback adds two to the counter of the first class a packet matches, the blinker thread counts
 down and drives the LED; both do so under the LED's mutex, so a run is any interleaving of these
 critical sections.
 */
module Blinker {

  datatype Level = High | Low

  /** A counter, and what the LED has been told so far. */
  datatype Led = Led(count: nat, out: seq<Level>)

  const DARK := Led(0, [])

  /** A packet of the LED's class. */
  function Packet(l: Led): Led {
    if l.count < 4 then l.(count := l.count + 2) else l
  }

  /** One pass of the blinker thread. */
  function Blink(l: Led): Led {
    if l.count == 0 then l
    else l.(count := l.count - 1, out := l.out + [if l.count % 2 == 0 then High else Low])
  }

  /** The number of the first class that matches, |matches| if there is none. */
  function First(matches: seq<bool>, k: nat): (f: nat)
    requires k <= |matches|
    ensures k <= f <= |matches|
    ensures (forall i :: k <= i < f ==> !matches[i]) && (f < |matches| ==> matches[f])
    decreases |matches| - k
  {
    if k == |matches| || matches[k] then k else First(matches, k + 1)
  }

  /** A critical section: a packet counted for LED i, or the blinker's turn at LED i. */
  datatype Event = Hit(i: nat) | Turn(i: nat)

  function Apply(leds: seq<Led>, e: Event): (r: seq<Led>)
    requires e.i < |leds|
    ensures |r| == |leds|
  {
    leds[e.i := if e.Hit? then Packet(leds[e.i]) else Blink(leds[e.i])]
  }

  function Exec(leds: seq<Led>, events: seq<Event>, n: nat): (r: seq<Led>)
    requires n <= |events| && forall k :: 0 <= k < |events| ==> events[k].i < |leds|
    ensures |r| == |leds|
  {
    if n == 0 then leds else Apply(Exec(leds, events, n - 1), events[n - 1])
  }

  /** The blinker's turns at all LEDs, in order. */
  function AllTurns(size: nat): seq<Event> {
    seq(size, i requires 0 <= i < size => Turn(i))
  }

  class Leds {
    const leds: array<Led>

    constructor (n: nat)
      ensures leds.Length == n && fresh(leds)
      ensures forall i :: 0 <= i < n ==> leds[i] == DARK
    {
      leds := new Led[n](_ => DARK);
    }

    /** p2f_callbacks; `matches` is what the classifiers say about the packet. */
    method OnPacket(matches: seq<bool>) returns (handled: bool)
      requires |matches| == leds.Length
      modifies leds
      ensures handled <==> true in matches
      ensures var f := First(matches, 0);
              leds[..] == if handled then Apply(old(leds[..]), Hit(f)) else old(leds[..])
    {
      var i := 0;
      while i < leds.Length
        invariant 0 <= i <= leds.Length
        invariant leds[..] == old(leds[..])
        invariant First(matches, 0) == First(matches, i)
      {
        if matches[i] {
          if leds[i].count < 4 {
            leds[i] := leds[i].(count := leds[i].count + 2);
          }
          return true;
        }
        i := i + 1;
      }
      return false;
    }

    /** The for loop of blinker_thread, when no packet comes in between. */
    method BlinkAll()
      modifies leds
      ensures leds[..] == Exec(old(leds[..]), AllTurns(leds.Length), leds.Length)
    {
      for i := 0 to leds.Length
        invariant leds[..] == Exec(old(leds[..]), AllTurns(leds.Length), i)
      {
        if leds[i].count > 0 {
          var level := Low;
          if leds[i].count > 0 && leds[i].count % 2 == 0 {
            level := High;
          }
          leds[i] := leds[i].(out := leds[i].out + [level]);
          leds[i] := leds[i].(count := leds[i].count - 1);
        }
      }
    }
  }

  // ----- every interleaving -----

  function AllDark(size: nat): (r: seq<Led>)
    ensures |r| == size
  {
    seq(size, _ => DARK)
  }

  /** How many of the first n events are packets for LED i that find its counter below four. */
  function Accepted(leds: seq<Led>, events: seq<Event>, n: nat, i: nat): nat
    requires i < |leds| && n <= |events| && forall k :: 0 <= k < |events| ==> events[k].i < |leds|
  {
    if n == 0 then 0
    else Accepted(leds, events, n - 1, i) +
         (if events[n - 1] == Hit(i) && Exec(leds, events, n - 1)[i].count < 4 then 1 else 0)
  }

  ghost predicate Inv(l: Led, accepted: nat) {
    && l.count <= 5
    && 2 * accepted == |l.out| + l.count
    && forall k :: 0 <= k < |l.out| ==> l.out[k] == if k % 2 == 0 then High else Low
  }

  lemma InvStep(l: Led, accepted: nat)
    requires Inv(l, accepted)
    ensures Inv(Packet(l), if l.count < 4 then accepted + 1 else accepted) && Inv(Blink(l), accepted)
  {
    assert l.count % 2 == |l.out| % 2;
  }

  /**
   In every interleaving, for every LED: its outputs alternate strictly, beginning with High; the
   counter stays below six; and every packet that finds the counter below four yields exactly two
   outputs, made or pending.
   */
  lemma {:induction false} EveryLedAlternates(size: nat, events: seq<Event>, n: nat, i: nat)
    requires i < size && n <= |events| && forall k :: 0 <= k < |events| ==> events[k].i < size
    ensures var l := Exec(AllDark(size), events, n)[i];
            && l.count <= 5
            && 2 * Accepted(AllDark(size), events, n, i) == |l.out| + l.count
            && forall k :: 0 <= k < |l.out| ==> l.out[k] == if k % 2 == 0 then High else Low
  {
    if n > 0 {
      EveryLedAlternates(size, events, n - 1, i);
      InvStep(Exec(AllDark(size), events, n - 1)[i], Accepted(AllDark(size), events, n - 1, i));
    }
  }

  /** Turns of LED i among the events k, ..., n-1. */
  function Turns(events: seq<Event>, i: nat, k: nat, n: nat): nat
    requires n <= |events|
  {
    if n <= k then 0 else Turns(events, i, k, n - 1) + (if events[n - 1] == Turn(i) then 1 else 0)
  }

  lemma {:induction false} QuietCountsDown(size: nat, events: seq<Event>, k: nat, n: nat, i: nat)
    requires i < size && k <= n <= |events| && forall j :: 0 <= j < |events| ==> events[j].i < size
    requires forall j :: k <= j < n ==> events[j] != Hit(i)
    ensures var before, now, turns := Exec(AllDark(size), events, k)[i].count,
                                      Exec(AllDark(size), events, n)[i].count, Turns(events, i, k, n);
            now == if turns < before then before - turns else 0
    decreases n
  {
    if k < n {
      QuietCountsDown(size, events, k, n - 1, i);
    }
  }

  /** An LED that gets no packets is dark after five turns: its counter is zero and its last output Low. */
  lemma QuietLedGoesDark(size: nat, events: seq<Event>, k: nat, n: nat, i: nat)
    requires i < size && k <= n <= |events| && forall j :: 0 <= j < |events| ==> events[j].i < size
    requires (forall j :: k <= j < n ==> events[j] != Hit(i)) && Turns(events, i, k, n) >= 5
    ensures var l := Exec(AllDark(size), events, n)[i];
            l.count == 0 && (l.out != [] ==> l.out[|l.out| - 1] == Low)
  {
    EveryLedAlternates(size, events, k, i);
    QuietCountsDown(size, events, k, n, i);
    EveryLedAlternates(size, events, n, i);
  }
}
