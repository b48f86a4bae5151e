/**
 The packed GPIO registers of the BCM2835 (BCM2835 ARM Peripherals, chapter 6) as `pinMode` and
 `digitalWrite` drive them (iralarm/irpio.c:112-174, 313-354).

 `pinMode` takes the GPIO number its table lookup yields; the shift table covers GPIOs 0..49.
 A function-select word packs ten 3-bit fields.  Writing a word to a SET or CLR register raises
 or lowers the pins whose bits are one and leaves the others alone.
 */
module GpioRegisters {

  datatype Mode = Input | Output | PwmOutput | Other

  const GPSET0 := 7
  const GPCLR0 := 10

  // the lookup tables of the source
  function GpioToGpfsel(g: nat): (r: nat)
    requires g < 50
    ensures r < 5
  {
    g / 10
  }

  function Slot(g: nat): (k: nat)
    ensures k < 10
  {
    g % 10
  }

  function GpioToShift(g: nat): (s: nat)
    ensures s <= 27
  {
    3 * Slot(g)
  }

  const FSEL_ALT0: bv32 := 4
  const FSEL_ALT5: bv32 := 2

  /** The function a PWM-capable GPIO needs, 0 for the others. */
  function GpioToPwmAlt(g: nat): bv32 {
    if g == 12 || g == 13 || g == 40 || g == 41 || g == 45 then FSEL_ALT0
    else if g == 18 || g == 19 then FSEL_ALT5
    else 0
  }

  /** Every mode but PwmOutput on a GPIO without PWM, and unknown modes, are accepted. */
  predicate Accepted(g: nat, mode: Mode) {
    mode == Input || mode == Output || (mode == PwmOutput && GpioToPwmAlt(g) != 0)
  }

  /** The field value of an accepted mode. */
  function Code(g: nat, mode: Mode): (f: bv32)
    ensures f <= 7
  {
    match mode
    case Input => 0
    case Output => 1
    case _ => GpioToPwmAlt(g)
  }

  // ----- three-bit fields -----

  function SetField(w: bv32, shift: nat, f: bv32): bv32
    requires shift < 30
  {
    (w & !(7 << shift)) | (f << shift)
  }

  /** The i-th of the ten fields of a word. */
  function Field(w: bv32, i: nat): bv32
    requires i < 10
  {
    (w & (7 << (3 * i))) >> (3 * i)
  }

  lemma TenSlots(i: nat)
    requires i < 10
    ensures i == 0 || i == 1 || i == 2 || i == 3 || i == 4 || i == 5 || i == 6 || i == 7 || i == 8 || i == 9
  {
  }

  lemma FieldsAreDisjoint(i: nat, j: nat)
    requires i < 10 && j < 10 && i != j
    ensures (7 as bv32 << (3 * i)) & (7 << (3 * j)) == 0
  {
    TenSlots(i);
    TenSlots(j);
  }

  lemma ValueFitsField(f: bv32, i: nat)
    requires i < 10 && f <= 7
    ensures (f << (3 * i)) & !(7 << (3 * i)) == 0 && (f << (3 * i)) >> (3 * i) == f
  {
    TenSlots(i);
  }

  lemma ReplaceUnderMask(w: bv32, m: bv32, k: bv32, f: bv32)
    requires f & !m == 0
    ensures ((w & !m) | f) & m == f
    ensures m & k == 0 ==> ((w & !m) | f) & k == w & k
  {
  }

  lemma SetFieldThenField(w: bv32, i: nat, f: bv32)
    requires i < 10 && f <= 7
    ensures Field(SetField(w, 3 * i, f), i) == f
  {
    ValueFitsField(f, i);
    ReplaceUnderMask(w, 7 << (3 * i), 0, f << (3 * i));
  }

  lemma SetFieldKeepsOthers(w: bv32, i: nat, j: nat, f: bv32)
    requires i < 10 && j < 10 && i != j && f <= 7
    ensures Field(SetField(w, 3 * i, f), j) == Field(w, j)
  {
    ValueFitsField(f, i);
    FieldsAreDisjoint(i, j);
    ReplaceUnderMask(w, 7 << (3 * i), 7 << (3 * j), f << (3 * i));
  }

  // ----- function select -----

  /** The function selected for GPIO g: field g % 10 of word g / 10. */
  function SelectOf(fsel: seq<bv32>, g: nat): bv32
    requires |fsel| == 6 && g < 50
  {
    Field(fsel[g / 10], g % 10)
  }

  /**
   The function a mode asks of GPIO g, in the hardware's numbers: 0 is an input, 1 an output, 4 and 2
   are the alternate functions ALT0 and ALT5.  A request that is not accepted leaves the current one.
   */
  function Wanted(g: nat, mode: Mode, current: bv32): bv32 {
    match mode
    case Input => 0
    case Output => 1
    case PwmOutput => if g in {12, 13, 40, 41, 45} then 4 else if g in {18, 19} then 2 else current
    case Other => current
  }

  function ModeSet(fsel: seq<bv32>, g: nat, mode: Mode): (r: seq<bv32>)
    requires |fsel| == 6 && g < 50
    ensures |r| == 6
  {
    if Accepted(g, mode)
    then fsel[GpioToGpfsel(g) := SetField(fsel[GpioToGpfsel(g)], GpioToShift(g), Code(g, mode))]
    else fsel
  }

  /** Decoded, a mode change gives one GPIO the function asked for, and every other keeps its own. */
  lemma ModeSetChangesOneGpio(fsel: seq<bv32>, g: nat, h: nat, mode: Mode)
    requires |fsel| == 6 && g < 50 && h < 50
    ensures SelectOf(ModeSet(fsel, g, mode), h) ==
            if g == h then Wanted(g, mode, SelectOf(fsel, g)) else SelectOf(fsel, h)
  {
    if Accepted(g, mode) {
      var w, f := fsel[GpioToGpfsel(g)], Code(g, mode);
      if g == h {
        SetFieldThenField(w, Slot(g), f);
      } else if GpioToGpfsel(g) == GpioToGpfsel(h) {
        SetFieldKeepsOthers(w, Slot(g), Slot(h), f);
      }
    }
  }

  /** The GPIOs' functions before and after a mode change. */
  ghost predicate ChangesOneGpio(was: seq<bv32>, now: seq<bv32>, g: nat, mode: Mode)
    requires |was| == |now| == 6 && g < 50
  {
    forall h: nat :: h < 50 ==>
      SelectOf(now, h) == if h == g then Wanted(g, mode, SelectOf(was, g)) else SelectOf(was, h)
  }

  lemma ModeSetDecoded(fsel: seq<bv32>, g: nat, mode: Mode)
    requires |fsel| == 6 && g < 50
    ensures ChangesOneGpio(fsel, ModeSet(fsel, g, mode), g, mode)
  {
    forall h: nat | h < 50
      ensures SelectOf(ModeSet(fsel, g, mode), h) == if h == g then Wanted(g, mode, SelectOf(fsel, g)) else SelectOf(fsel, h)
    {
      ModeSetChangesOneGpio(fsel, g, h, mode);
    }
  }

  /** Nor does it touch the other words, or the two bits of its own word that belong to no GPIO. */
  lemma ModeSetKeepsRest(fsel: seq<bv32>, g: nat, mode: Mode)
    requires |fsel| == 6 && g < 50
    ensures forall i :: 0 <= i < 6 && i != g / 10 ==> ModeSet(fsel, g, mode)[i] == fsel[i]
    ensures ModeSet(fsel, g, mode)[g / 10] & 0xC000_0000 == fsel[g / 10] & 0xC000_0000
  {
    if Accepted(g, mode) {
      TopBitsKept(fsel[g / 10], Slot(g), Code(g, mode));
    }
  }

  lemma TopBitsKept(w: bv32, i: nat, f: bv32)
    requires i < 10 && f <= 7
    ensures SetField(w, 3 * i, f) & 0xC000_0000 == w & 0xC000_0000
  {
    ValueFitsField(f, i);
    TopBitsFree(i);
    ReplaceUnderMask(w, 7 << (3 * i), 0xC000_0000, f << (3 * i));
  }

  lemma TopBitsFree(i: nat)
    requires i < 10
    ensures (7 as bv32 << (3 * i)) & 0xC000_0000 == 0
  {
    TenSlots(i);
  }

  datatype ModeChange = ModeChange(gpio: nat, mode: Mode)

  function AfterModes(fsel: seq<bv32>, changes: seq<ModeChange>): (r: seq<bv32>)
    requires |fsel| == 6 && forall i :: 0 <= i < |changes| ==> changes[i].gpio < 50
    ensures |r| == 6
  {
    if changes == [] then fsel
    else
      var last := changes[|changes| - 1];
      ModeSet(AfterModes(fsel, changes[..|changes| - 1]), last.gpio, last.mode)
  }

  /** The function asked for by the last accepted mode of a GPIO, or what it had at first. */
  function LastMode(changes: seq<ModeChange>, g: nat, initial: bv32): bv32 {
    if changes == [] then initial
    else
      var last, before := changes[|changes| - 1], LastMode(changes[..|changes| - 1], g, initial);
      if last.gpio == g then Wanted(g, last.mode, before) else before
  }

  /** After any sequence of mode changes each field holds its GPIO's last accepted mode. */
  lemma {:induction false} FieldsHoldLastModes(fsel: seq<bv32>, changes: seq<ModeChange>, g: nat)
    requires |fsel| == 6 && g < 50 && forall i :: 0 <= i < |changes| ==> changes[i].gpio < 50
    ensures SelectOf(AfterModes(fsel, changes), g) == LastMode(changes, g, SelectOf(fsel, g))
    decreases |changes|
  {
    if changes != [] {
      var before, last := changes[..|changes| - 1], changes[|changes| - 1];
      FieldsHoldLastModes(fsel, before, g);
      ModeSetChangesOneGpio(AfterModes(fsel, before), last.gpio, g, last.mode);
    }
  }

  // ----- levels -----

  function Mask(k: nat): bv32
    requires k < 32
  {
    1 << k
  }

  predicate IsSet(w: bv32, k: nat)
    requires k < 32
  {
    w & Mask(k) != 0
  }

  predicate Level(lev: seq<bv32>, pin: nat)
    requires |lev| == 2 && pin < 64
  {
    lev[pin / 32] & (1 << (pin % 32)) != 0
  }

  lemma LevelIsBit(lev: seq<bv32>, pin: nat)
    requires |lev| == 2 && pin < 64
    ensures Level(lev, pin) == IsSet(lev[pin / 32], pin % 32)
  {
  }

  function Raised(w: bv32, m: bv32): bv32 {
    w | m
  }

  function Lowered(w: bv32, m: bv32): bv32 {
    w & !m
  }

  /** What the hardware does with a word written to a SET or CLR register. */
  function Poked(lev: seq<bv32>, offset: nat, word: bv32): (r: seq<bv32>)
    requires |lev| == 2
    ensures |r| == 2
  {
    if GPSET0 <= offset < GPSET0 + 2 then lev[offset - GPSET0 := Raised(lev[offset - GPSET0], word)]
    else if GPCLR0 <= offset < GPCLR0 + 2 then lev[offset - GPCLR0 := Lowered(lev[offset - GPCLR0], word)]
    else lev
  }

  /** A store to word 7 or 8 of the block raises the pins 0..31 or 32..63 whose bits are one. */
  lemma SetRegisters(lev: seq<bv32>, i: nat, word: bv32)
    requires |lev| == 2 && i < 2
    ensures Poked(lev, 7 + i, word) == lev[i := Raised(lev[i], word)]
  {
  }

  /** A store to word 10 or 11 lowers them. */
  lemma ClearRegisters(lev: seq<bv32>, i: nat, word: bv32)
    requires |lev| == 2 && i < 2
    ensures Poked(lev, 10 + i, word) == lev[i := Lowered(lev[i], word)]
  {
  }

  /** digitalWrite ignores pins outside 0..63; any value but LOW means high. */
  function Written(lev: seq<bv32>, pin: int, value: int): (r: seq<bv32>)
    requires |lev| == 2
    ensures |r| == 2
  {
    if !(0 <= pin < 64) then lev
    else Poked(lev, (if value == 0 then GPCLR0 else GPSET0) + pin / 32, Mask(pin % 32))
  }

  lemma OneBit(j: nat)
    requires j < 32
    ensures Mask(j) != 0
  {
  }

  lemma BitsAreDisjoint(j: nat, k: nat)
    requires j < 32 && k < 32 && j != k
    ensures Mask(j) & Mask(k) == 0
  {
  }

  lemma UnderMask(w: bv32, m: bv32)
    requires m != 0
    ensures Raised(w, m) & m != 0 && Lowered(w, m) & m == 0
  {
    assert Raised(w, m) & m == m;
  }

  lemma BesidesMask(w: bv32, m: bv32, k: bv32)
    requires m & k == 0
    ensures (Raised(w, m) & k != 0) == (w & k != 0)
    ensures (Lowered(w, m) & k != 0) == (w & k != 0)
  {
    assert Raised(w, m) & k == w & k && Lowered(w, m) & k == w & k;
  }

  /** Raising or lowering one bit of a word leaves the others alone. */
  lemma SameBit(w: bv32, j: nat)
    requires j < 32
    ensures IsSet(Raised(w, Mask(j)), j) && !IsSet(Lowered(w, Mask(j)), j)
  {
    OneBit(j);
    UnderMask(w, Mask(j));
  }

  lemma RaiseOther(w: bv32, j: nat, k: nat)
    requires j < 32 && k < 32 && j != k
    ensures IsSet(Raised(w, Mask(j)), k) == IsSet(w, k)
  {
    BitsAreDisjoint(j, k);
    BesidesMask(w, Mask(j), Mask(k));
  }

  lemma LowerOther(w: bv32, j: nat, k: nat)
    requires j < 32 && k < 32 && j != k
    ensures IsSet(Lowered(w, Mask(j)), k) == IsSet(w, k)
  {
    BitsAreDisjoint(j, k);
    BesidesMask(w, Mask(j), Mask(k));
  }

  lemma WriteChangesOnePin(lev: seq<bv32>, pin: int, value: int, q: nat)
    requires |lev| == 2 && q < 64
    ensures Level(Written(lev, pin, value), q) == if pin == q then value != 0 else Level(lev, q)
  {
    LevelIsBit(lev, q);
    LevelIsBit(Written(lev, pin, value), q);
    if pin == q {
      SameBit(lev[q / 32], q % 32);
    } else if 0 <= pin < 64 && pin / 32 == q / 32 {
      RaiseOther(lev[q / 32], pin % 32, q % 32);
      LowerOther(lev[q / 32], pin % 32, q % 32);
    }
  }

  datatype PinWrite = PinWrite(pin: int, value: int)

  function AfterWrites(lev: seq<bv32>, writes: seq<PinWrite>): (r: seq<bv32>)
    requires |lev| == 2
    ensures |r| == 2
  {
    if writes == [] then lev
    else
      var last := writes[|writes| - 1];
      Written(AfterWrites(lev, writes[..|writes| - 1]), last.pin, last.value)
  }

  function LastLevel(writes: seq<PinWrite>, q: nat, initial: bool): bool {
    if writes == [] then initial
    else if writes[|writes| - 1].pin == q then writes[|writes| - 1].value != 0
    else LastLevel(writes[..|writes| - 1], q, initial)
  }

  /** After any sequence of digitalWrites each pin has the level last written to it. */
  lemma {:induction false} PinsHoldLastLevels(lev: seq<bv32>, writes: seq<PinWrite>, q: nat)
    requires |lev| == 2 && q < 64
    ensures Level(AfterWrites(lev, writes), q) == LastLevel(writes, q, Level(lev, q))
    decreases |writes|
  {
    if writes != [] {
      var before, last := writes[..|writes| - 1], writes[|writes| - 1];
      PinsHoldLastLevels(lev, before, q);
      WriteChangesOnePin(AfterWrites(lev, before), last.pin, last.value, q);
    }
  }

  // ----- the code -----

  /** The memory-mapped GPIO block: function-select words, and the pin levels behind SET and CLR. */
  class Gpio {
    const fsel: array<bv32>
    const lev: array<bv32>

    ghost predicate Valid()
      reads this
    {
      fsel.Length == 6 && lev.Length == 2 && fsel != lev
    }

    constructor (fsel: array<bv32>, lev: array<bv32>)
      requires fsel.Length == 6 && lev.Length == 2 && fsel != lev
      ensures Valid() && this.fsel == fsel && this.lev == lev
    {
      this.fsel := fsel;
      this.lev := lev;
    }

    /** A store through a register pointer. */
    static method Store(words: array<bv32>, i: nat, word: bv32)
      requires i < words.Length
      modifies words
      ensures words[..] == old(words[..])[i := word]
    {
      words[i] := word;
    }

    /** A store to a SET or CLR register, as the hardware takes it. */
    method Poke(offset: nat, word: bv32)
      requires Valid()
      modifies lev
      ensures lev[..] == Poked(old(lev[..]), offset, word)
    {
      if GPSET0 <= offset < GPSET0 + 2 {
        Store(lev, offset - GPSET0, Raised(lev[offset - GPSET0], word));
      } else if GPCLR0 <= offset < GPCLR0 + 2 {
        Store(lev, offset - GPCLR0, Lowered(lev[offset - GPCLR0], word));
      }
    }

    /** Clears a field. */
    method ClearField(i: nat, shift: nat)
      requires Valid() && i < 6 && shift < 30
      modifies fsel
      ensures fsel[..] == old(fsel[..])[i := SetField(old(fsel[i]), shift, 0)]
    {
      InputIsZero(fsel[i], shift);
      Store(fsel, i, fsel[i] & !(7 << shift));
    }

    /** Replaces a field. */
    method PutField(i: nat, shift: nat, f: bv32)
      requires Valid() && i < 6 && shift < 30
      modifies fsel
      ensures fsel[..] == old(fsel[..])[i := SetField(old(fsel[i]), shift, f)]
    {
      Store(fsel, i, (fsel[i] & !(7 << shift)) | (f << shift));
    }

    method PinMode(g: nat, mode: Mode)
      requires Valid() && g < 50
      modifies fsel
      ensures fsel[..] == ModeSet(old(fsel[..]), g, mode)
      ensures ChangesOneGpio(old(fsel[..]), fsel[..], g, mode)
    {
      ModeSetDecoded(fsel[..], g, mode);
      var i, shift := GpioToGpfsel(g), GpioToShift(g);
      match mode {
        case Input =>
          ClearField(i, shift);
        case Output =>
          PutField(i, shift, 1);
        case PwmOutput =>
          var alt := GpioToPwmAlt(g);
          if alt == 0 {
            return;
          }
          PutField(i, shift, alt);
        case Other =>
      }
    }

    method DigitalWrite(pin: int, value: int)
      requires Valid()
      modifies lev
      ensures lev[..] == Written(old(lev[..]), pin, value)
      ensures forall q: nat :: q < 64 ==>
                Level(lev[..], q) == if q == pin then value != 0 else Level(old(lev[..]), q)
    {
      ghost var was := lev[..];
      forall q: nat | q < 64
        ensures Level(Written(was, pin, value), q) == if q == pin then value != 0 else Level(was, q)
      {
        WriteChangesOnePin(was, pin, value, q);
      }
      if 0 <= pin < 64 {
        if value == 0 {
          Poke(GPCLR0 + pin / 32, 1 << (pin % 32));
        } else {
          Poke(GPSET0 + pin / 32, 1 << (pin % 32));
        }
      }
    }
  }

  lemma InputIsZero(w: bv32, shift: nat)
    requires shift < 30
    ensures SetField(w, shift, 0) == w & !(7 << shift)
  {
  }
}
