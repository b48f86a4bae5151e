/**
 The MCP23S17 port expander driver (portexpander/portex_spi.c, portexpander/portex_sysfs.c): sysfs
 writes change a register cache and send the cached register in an SPI frame, which may fail.

 The other end is modelled too: the device decodes the frame's control byte and writes its
 register file, with the register numbers of the IOCON.BANK=1 map of the Microchip MCP23S17
 datasheet, which portexpander/portex.h uses.
 */
module PortExpander {
  import opened Wrappers

  const MCP23S08_ADDR_00: bv8 := 0x00

  const MCP23S08_REG_IODIR := 0x00
  const MCP23S08_REG_GPIO := 0x09
  const MCP23S17_REG_IODIR := 0x10
  const MCP23S17_REG_GPIO := 0x19
  const REG_MAX := 0x1B

  // ----- the device -----

  /** A three-byte write frame addressed to a device whose address pins are low. */
  predicate Accepts(frame: seq<bv8>) {
    |frame| == 3 && frame[0] & 0xF0 == 0x40 && frame[0] & 0x01 == 0 && (frame[0] >> 1) & 0x07 == 0
  }

  /** INTF and INTCAP are read-only, and nothing is mapped between the ports. */
  predicate Writable(reg: nat) {
    reg < REG_MAX && !(0x0B <= reg <= 0x0F) && reg != 0x07 && reg != 0x08 && reg != 0x17 && reg != 0x18
  }

  /** Writing a port (GPIO) writes its output latch (OLAT), and both read back the same. */
  function DeviceWrite(regs: seq<bv8>, reg: nat, value: bv8): (r: seq<bv8>)
    requires |regs| == REG_MAX
    ensures |r| == REG_MAX
  {
    if !Writable(reg) then regs
    else if reg == MCP23S08_REG_GPIO || reg == MCP23S17_REG_GPIO then regs[reg := value][reg + 1 := value]
    else if reg == MCP23S08_REG_GPIO + 1 || reg == MCP23S17_REG_GPIO + 1 then regs[reg := value][reg - 1 := value]
    else regs[reg := value]
  }

  function Receive(regs: seq<bv8>, frame: seq<bv8>): (r: seq<bv8>)
    requires |regs| == REG_MAX
    ensures |r| == REG_MAX
  {
    if Accepts(frame) then DeviceWrite(regs, frame[1] as nat, frame[2]) else regs
  }

  // ----- the driver -----

  /** The sysfs value is an int; the cache routine takes an unsigned byte. */
  predicate IsOn(value: int) {
    value % 256 != 0
  }

  function Masked(old': bv8, mask: bv8, on: bool): bv8 {
    if on then old' | mask else old' & !mask
  }

  function PortOf(gpio: nat): nat {
    if gpio > 7 then MCP23S17_REG_GPIO else MCP23S08_REG_GPIO
  }

  function BitOf(gpio: nat): (k: nat)
    requires gpio < 16
    ensures k < 8
  {
    if gpio > 7 then gpio - 8 else gpio
  }

  predicate Bit(b: bv8, k: nat)
    requires k < 8
  {
    (b >> k) & 1 == 1
  }

  /** The register cache and the device. */
  datatype State = State(cache: seq<bv8>, regs: seq<bv8>)

  /** The registers of the device after mcp23s17_write; `ok` tells whether the transfer works. */
  function Sent(regs: seq<bv8>, addr: bv8, reg: nat, value: bv8, ok: bool): (r: seq<bv8>)
    requires |regs| == REG_MAX && reg < REG_MAX
    ensures |r| == REG_MAX
  {
    if ok then Receive(regs, [0x40 | addr, reg as bv8, value]) else regs
  }

  /** portex_write_cached, as a function. */
  function CachedWrite(s: State, reg: nat, mask: bv8, value: int, ok: bool): State
    requires |s.cache| == |s.regs| == REG_MAX && reg < REG_MAX
  {
    var v := Masked(s.cache[reg], mask, IsOn(value));
    State(s.cache[reg := v], Sent(s.regs, MCP23S08_ADDR_00, reg, v, ok))
  }

  /** A write to gpioN or to gpio_all; `text` is the number sscanf finds, `ok` whether the transfers work. */
  datatype Op =
    | Set(gpio: nat, text: Option<int>, ok: bool)
    | SetAll(text: Option<int>, okA: bool, okB: bool)

  predicate Legal(op: Op) {
    op.Set? ==> op.gpio < 16
  }

  function Apply(s: State, op: Op): (r: State)
    requires |s.cache| == |s.regs| == REG_MAX && Legal(op)
    ensures |r.cache| == |r.regs| == REG_MAX
  {
    if op.text.None? then s
    else match op
      case Set(gpio, text, ok) => CachedWrite(s, PortOf(gpio), 1 << BitOf(gpio), text.value, ok)
      case SetAll(text, okA, okB) =>
        CachedWrite(CachedWrite(s, MCP23S08_REG_GPIO, 0xFF, text.value, okA), MCP23S17_REG_GPIO, 0xFF, text.value, okB)
  }

  function Exec(s: State, ops: seq<Op>, n: nat): (r: State)
    requires |s.cache| == |s.regs| == REG_MAX && n <= |ops| && forall i :: 0 <= i < |ops| ==> Legal(ops[i])
    ensures |r.cache| == |r.regs| == REG_MAX
  {
    if n == 0 then s else Apply(Exec(s, ops, n - 1), ops[n - 1])
  }

  /** The driver's cache and, for the proofs, the registers of the device at the other end. */
  class Driver {
    const cache: array<bv8>
    const regs: array<bv8>

    ghost predicate Valid()
      reads this
    {
      cache.Length == REG_MAX && regs.Length == REG_MAX && cache != regs
    }

    function Both(): State
      reads this, cache, regs
    {
      State(cache[..], regs[..])
    }

    constructor (device: array<bv8>)
      requires device.Length == REG_MAX
      ensures Valid() && regs == device && fresh(cache)
      ensures cache[..] == seq(REG_MAX, _ => 0)
    {
      cache := new bv8[REG_MAX](_ => 0);
      regs := device;
    }

    /** mcp23s17_write */
    method Write(addr: bv8, reg: nat, value: bv8, ok: bool)
      requires Valid() && reg < REG_MAX
      modifies regs
      ensures regs[..] == Sent(old(regs[..]), addr, reg, value, ok)
    {
      var tx := [0x40 | addr, reg as bv8, value];
      if ok {
        Deliver(tx);
      }
    }

    /** The device's side of a transfer. */
    method Deliver(frame: seq<bv8>)
      requires Valid() && |frame| == 3
      modifies regs
      ensures regs[..] == Receive(old(regs[..]), frame)
    {
      if !Accepts(frame) {
        return;
      }
      var reg := frame[1] as nat;
      if !Writable(reg) {
        return;
      }
      regs[reg] := frame[2];
      if reg == MCP23S08_REG_GPIO || reg == MCP23S17_REG_GPIO {
        regs[reg + 1] := frame[2];
      } else if reg == MCP23S08_REG_GPIO + 1 || reg == MCP23S17_REG_GPIO + 1 {
        regs[reg - 1] := frame[2];
      }
    }

    /** The first half of portex_write_cached. */
    method MaskCache(reg: nat, mask: bv8, value: int)
      requires Valid() && reg < REG_MAX
      modifies cache
      ensures cache[..] == old(cache[..])[reg := Masked(old(cache[reg]), mask, IsOn(value))]
    {
      if value % 256 == 0 {
        cache[reg] := cache[reg] & !mask;
      } else {
        cache[reg] := cache[reg] | mask;
      }
    }

    /** portex_write_cached */
    method WriteCached(reg: nat, mask: bv8, value: int, ok: bool)
      requires Valid() && reg < REG_MAX
      modifies cache, regs
      ensures Both() == CachedWrite(old(Both()), reg, mask, value, ok)
      ensures cache[reg] == if value % 256 == 0 then old(cache[reg]) & !mask else old(cache[reg]) | mask
      ensures forall r :: 0 <= r < REG_MAX && r != reg ==> cache[r] == old(cache[r])
    {
      MaskCache(reg, mask, value);
      Write(MCP23S08_ADDR_00, reg, cache[reg], ok);
    }

    /** portex_read_cached */
    method ReadCached(reg: nat, k: nat) returns (v: int)
      requires Valid() && reg < REG_MAX && k < 8
      ensures v == if (cache[reg] >> k) & 1 == 1 then 1 else 0
    {
      var b := (cache[reg] >> k) & 1;
      BitIsZeroOrOne(cache[reg], k);
      v := b as int;
    }

    method GpioGet(gpio: nat) returns (v: int)
      requires Valid() && gpio < 16
      ensures v == if PinIn(cache[..], gpio) then 1 else 0
    {
      if gpio > 7 {
        v := ReadCached(MCP23S17_REG_GPIO, gpio - 8);
      } else {
        v := ReadCached(MCP23S08_REG_GPIO, gpio);
      }
    }

    method GpioSet(gpio: nat, text: Option<int>, ok: bool)
      requires Valid() && gpio < 16
      modifies cache, regs
      ensures Both() == Apply(old(Both()), Set(gpio, text, ok))
      ensures forall p: nat :: p < 16 ==>
                PinIn(cache[..], p) == if p == gpio && text.Some? then text.value % 256 != 0 else PinIn(old(cache[..]), p)
    {
      ghost var s := Both();
      forall p: nat | p < 16
        ensures PinIn(Apply(s, Set(gpio, text, ok)).cache, p) ==
                if p == gpio && text.Some? then text.value % 256 != 0 else PinIn(s.cache, p)
      {
        OpChangesCache(s, Set(gpio, text, ok), p);
      }
      if text.Some? {
        if gpio > 7 {
          WriteCached(MCP23S17_REG_GPIO, 1 << (gpio - 8), text.value, ok);
        } else {
          WriteCached(MCP23S08_REG_GPIO, 1 << gpio, text.value, ok);
        }
      }
    }

    method GpioAllSet(text: Option<int>, okA: bool, okB: bool)
      requires Valid()
      modifies cache, regs
      ensures Both() == Apply(old(Both()), SetAll(text, okA, okB))
      ensures forall p: nat :: p < 16 ==>
                PinIn(cache[..], p) == if text.Some? then text.value % 256 != 0 else PinIn(old(cache[..]), p)
    {
      ghost var s := Both();
      forall p: nat | p < 16
        ensures PinIn(Apply(s, SetAll(text, okA, okB)).cache, p) ==
                if text.Some? then text.value % 256 != 0 else PinIn(s.cache, p)
      {
        OpChangesCache(s, SetAll(text, okA, okB), p);
      }
      if text.Some? {
        WriteCached(MCP23S08_REG_GPIO, 0xFF, text.value, okA);
        WriteCached(MCP23S17_REG_GPIO, 0xFF, text.value, okB);
      }
    }

    /**
     mcp23s17_probe: refuses unless both direction registers read 0xFFFF, then turns all pins to
     outputs.  The two results of mcp23s17_read are inputs, as is the success of the two writes; a
     result is stored in 16 bits first, so that an error return of -1 passes for 0xFFFF.
     */
    method Probe(readA: int, readB: int, okA: bool, okB: bool) returns (found: bool)
      requires Valid()
      modifies regs
      ensures found <==> readA % 0x1_0000 == 0xFFFF && readB % 0x1_0000 == 0xFFFF
      ensures forall r :: 0 <= r < REG_MAX ==>
                regs[r] == if found && ((r == 0x00 && okA) || (r == 0x10 && okB))
                           then 0 else old(regs[r])
    {
      var retval := readA % 0x1_0000;
      if retval != 0xFFFF {
        return false;
      }
      retval := readB % 0x1_0000;
      if retval != 0xFFFF {
        return false;
      }
      Write(MCP23S08_ADDR_00, MCP23S08_REG_IODIR, 0x00, okA);
      Write(MCP23S08_ADDR_00, MCP23S17_REG_IODIR, 0x00, okB);
      return true;
    }

    /** The register effects of portex_spi_free: each working transfer lowers a port or turns it to inputs. */
    method Free(okA: bool, okDirA: bool, okB: bool, okDirB: bool)
      requires Valid()
      modifies regs
      ensures forall r :: 0 <= r < REG_MAX ==>
                regs[r] == if okA && (r == 0x09 || r == 0x0A) then 0
                           else if okDirA && r == 0x00 then 0xFF
                           else if okB && (r == 0x19 || r == 0x1A) then 0
                           else if okDirB && r == 0x10 then 0xFF
                           else old(regs[r])
    {
      Write(MCP23S08_ADDR_00, MCP23S08_REG_GPIO, 0x00, okA);
      Write(MCP23S08_ADDR_00, MCP23S08_REG_IODIR, 0xFF, okDirA);
      Write(MCP23S08_ADDR_00, MCP23S17_REG_GPIO, 0x00, okB);
      Write(MCP23S08_ADDR_00, MCP23S17_REG_IODIR, 0xFF, okDirB);
    }
  }

  lemma BitIsZeroOrOne(b: bv8, k: nat)
    requires k < 8
    ensures (b >> k) & 1 == 0 || (b >> k) & 1 == 1
  {
  }

  // ----- sixteen booleans -----

  /** Pin gpio of a cache or a register file: a bit of GPIO A (0x09) or GPIO B (0x19). */
  predicate PinIn(bytes: seq<bv8>, gpio: nat)
    requires |bytes| == REG_MAX && gpio < 16
  {
    if gpio < 8 then Bit(bytes[0x09], gpio) else Bit(bytes[0x19], gpio - 8)
  }

  /** What the user asked for, and what the pins of the device show. */
  datatype Pins = Pins(want: seq<bool>, shown: seq<bool>)

  /** A transfer copies the wanted values of one port, the higher or the lower eight pins, to the device. */
  function Transfer(p: Pins, high: bool, ok: bool): Pins
    requires |p.want| == |p.shown| == 16
  {
    p.(shown := seq(16, k requires 0 <= k < 16 => if ok && (high <==> k >= 8) then p.want[k] else p.shown[k]))
  }

  function PinsApply(p: Pins, op: Op): (r: Pins)
    requires |p.want| == |p.shown| == 16 && Legal(op)
    ensures |r.want| == |r.shown| == 16
  {
    if op.text.None? then p
    else
      var on := op.text.value % 256 != 0;
      match op
      case Set(gpio, _, ok) => Transfer(p.(want := p.want[gpio := on]), gpio >= 8, ok)
      case SetAll(_, okA, okB) => Transfer(Transfer(p.(want := seq(16, _ => on)), false, okA), true, okB)
  }

  function PinsExec(p: Pins, ops: seq<Op>, n: nat): (r: Pins)
    requires |p.want| == |p.shown| == 16 && n <= |ops| && forall i :: 0 <= i < |ops| ==> Legal(ops[i])
    ensures |r.want| == |r.shown| == 16
  {
    if n == 0 then p else PinsApply(PinsExec(p, ops, n - 1), ops[n - 1])
  }

  /** The sixteen booleans that any cache and any device hold. */
  function PinsOf(s: State): (p: Pins)
    requires |s.cache| == |s.regs| == REG_MAX
    ensures |p.want| == |p.shown| == 16
  {
    Pins(seq(16, k requires 0 <= k < 16 => PinIn(s.cache, k)), seq(16, k requires 0 <= k < 16 => PinIn(s.regs, k)))
  }

  lemma PinIsBit(bytes: seq<bv8>, gpio: nat)
    requires |bytes| == REG_MAX && gpio < 16
    ensures PinIn(bytes, gpio) == Bit(bytes[PortOf(gpio)], BitOf(gpio))
  {
  }

  /** Masking one bit changes that bit only. */
  lemma MaskedOneBit(b: bv8, j: nat, k: nat, on: bool)
    requires j < 8 && k < 8
    ensures Bit(Masked(b, 1 << j, on), k) == if j == k then on else Bit(b, k)
  {
  }

  lemma MaskedAllBits(b: bv8, k: nat, on: bool)
    requires k < 8
    ensures Bit(Masked(b, 0xFF, on), k) == on
  {
  }

  /** The device decodes what mcp23s17_write encodes: the frame writes the port register and its latch. */
  lemma FrameReachesPort(regs: seq<bv8>, high: bool, value: bv8)
    requires |regs| == REG_MAX
    ensures Receive(regs, [0x40, if high then 0x19 else 0x09, value]) ==
            if high then regs[0x19 := value][0x1A := value] else regs[0x09 := value][0x0A := value]
  {
  }

  function Port(high: bool): nat {
    if high then MCP23S17_REG_GPIO else MCP23S08_REG_GPIO
  }

  /** The cached bits and the registers' bits after a cached write of a port. */
  lemma PortWriteAt(s: State, high: bool, mask: bv8, value: int, ok: bool, k: nat)
    requires |s.cache| == |s.regs| == REG_MAX && k < 16
    ensures var c, b := CachedWrite(s, Port(high), mask, value, ok),
                        Bit(Masked(s.cache[Port(high)], mask, IsOn(value)), BitOf(k));
            && PinIn(c.cache, k) == (if high <==> k >= 8 then b else PinIn(s.cache, k))
            && PinIn(c.regs, k) == (if ok && (high <==> k >= 8) then b else PinIn(s.regs, k))
  {
    var v := Masked(s.cache[Port(high)], mask, IsOn(value));
    FrameReachesPort(s.regs, high, v);
    var c := CachedWrite(s, Port(high), mask, value, ok);
    PinIsBit(c.cache, k);
    PinIsBit(c.regs, k);
    PinIsBit(s.cache, k);
    PinIsBit(s.regs, k);
  }

  /** One cached write of a port, seen through the sixteen booleans. */
  lemma PortWriteRefines(s: State, q: Pins, high: bool, mask: bv8, value: int, ok: bool)
    requires |s.cache| == |s.regs| == REG_MAX && |q.want| == |q.shown| == 16 && q.shown == PinsOf(s).shown
    requires forall k: nat :: k < 16 ==>
               q.want[k] == if high <==> k >= 8 then Bit(Masked(s.cache[Port(high)], mask, IsOn(value)), BitOf(k))
                            else PinsOf(s).want[k]
    ensures PinsOf(CachedWrite(s, Port(high), mask, value, ok)) == Transfer(q, high, ok)
  {
    var r, t := PinsOf(CachedWrite(s, Port(high), mask, value, ok)), Transfer(q, high, ok);
    forall k: nat | k < 16
      ensures r.want[k] == t.want[k] && r.shown[k] == t.shown[k]
    {
      assert q.shown[k] == PinsOf(s).shown[k];
      PortWriteAt(s, high, mask, value, ok, k);
    }
    assert r.want == t.want;
    assert r.shown == t.shown;
  }

  /** From any cache and any device, a sysfs write is the write on the sixteen booleans. */
  lemma OpRefines(s: State, op: Op)
    requires |s.cache| == |s.regs| == REG_MAX && Legal(op)
    ensures PinsOf(Apply(s, op)) == PinsApply(PinsOf(s), op)
  {
    if op.text.Some? {
      match op
      case Set(gpio, text, ok) => SetRefines(s, gpio, text.value, ok);
      case SetAll(text, okA, okB) => AllRefines(s, text.value, okA, okB);
    }
  }

  /** Two pins of one port are the same if their bits are. */
  lemma SamePin(gpio: nat, k: nat)
    requires gpio < 16 && k < 16 && (gpio >= 8 <==> k >= 8)
    ensures PortOf(gpio) == PortOf(k) && (BitOf(gpio) == BitOf(k) <==> gpio == k)
  {
  }

  lemma SetRefines(s: State, gpio: nat, value: int, ok: bool)
    requires |s.cache| == |s.regs| == REG_MAX && gpio < 16
    ensures PinsOf(Apply(s, Set(gpio, Some(value), ok))) == PinsApply(PinsOf(s), Set(gpio, Some(value), ok))
  {
    var p, on := PinsOf(s), IsOn(value);
    var q := p.(want := p.want[gpio := on]);
    forall k: nat | k < 16 && (gpio >= 8 <==> k >= 8)
      ensures q.want[k] == Bit(Masked(s.cache[PortOf(gpio)], 1 << BitOf(gpio), on), BitOf(k))
    {
      SamePin(gpio, k);
      PinIsBit(s.cache, k);
      MaskedOneBit(s.cache[PortOf(k)], BitOf(gpio), BitOf(k), on);
    }
    PortWriteRefines(s, q, gpio >= 8, 1 << BitOf(gpio), value, ok);
  }

  lemma AllRefines(s: State, value: int, okA: bool, okB: bool)
    requires |s.cache| == |s.regs| == REG_MAX
    ensures PinsOf(Apply(s, SetAll(Some(value), okA, okB))) == PinsApply(PinsOf(s), SetAll(Some(value), okA, okB))
  {
    var p, on := PinsOf(s), IsOn(value);
    var a := p.(want := seq(16, k requires 0 <= k < 16 => if k < 8 then on else p.want[k]));
    forall k: nat | k < 8
      ensures Bit(Masked(s.cache[MCP23S08_REG_GPIO], 0xFF, on), k) == on
      ensures Bit(Masked(s.cache[MCP23S17_REG_GPIO], 0xFF, on), k) == on
    {
      MaskedAllBits(s.cache[MCP23S08_REG_GPIO], k, on);
      MaskedAllBits(s.cache[MCP23S17_REG_GPIO], k, on);
    }
    PortWriteRefines(s, a, false, 0xFF, value, okA);
    var t, q := CachedWrite(s, MCP23S08_REG_GPIO, 0xFF, value, okA), Transfer(a, false, okA);
    var b := q.(want := seq(16, _ => on));
    PortWriteRefines(t, b, true, 0xFF, value, okB);
    var wanted := Transfer(p.(want := seq(16, _ => on)), false, okA);
    assert b.want == wanted.want && b.shown == wanted.shown;
  }

  /** The cached bits after an operation. */
  lemma OpChangesCache(s: State, op: Op, p: nat)
    requires |s.cache| == |s.regs| == REG_MAX && Legal(op) && p < 16
    ensures PinIn(Apply(s, op).cache, p) ==
            if op.text.Some? && (op.SetAll? || op.gpio == p) then op.text.value % 256 != 0 else PinIn(s.cache, p)
  {
    OpRefines(s, op);
    assert PinIn(Apply(s, op).cache, p) == PinsOf(Apply(s, op)).want[p];
    assert PinIn(s.cache, p) == PinsOf(s).want[p];
  }

  /** From any cache and any device, sysfs writes with any SPI failures are writes on the sixteen booleans. */
  lemma {:induction false} DriverRefinesPins(s: State, ops: seq<Op>, n: nat)
    requires |s.cache| == |s.regs| == REG_MAX && n <= |ops| && forall i :: 0 <= i < |ops| ==> Legal(ops[i])
    ensures PinsOf(Exec(s, ops, n)) == PinsExec(PinsOf(s), ops, n)
  {
    if n > 0 {
      DriverRefinesPins(s, ops, n - 1);
      OpRefines(Exec(s, ops, n - 1), ops[n - 1]);
    }
  }

  // ----- what a user sees -----

  /** The last value written to a pin by the first n operations, or the initial one. */
  function LastWritten(ops: seq<Op>, n: nat, gpio: nat, initial: bool): bool
    requires n <= |ops|
  {
    if n == 0 then initial
    else
      var op := ops[n - 1];
      if op.text.Some? && (op.SetAll? || op.gpio == gpio) then op.text.value % 256 != 0
      else LastWritten(ops, n - 1, gpio, initial)
  }

  lemma {:induction false} WantIsLastWritten(p: Pins, ops: seq<Op>, n: nat, gpio: nat)
    requires |p.want| == |p.shown| == 16
    requires n <= |ops| && gpio < 16 && forall i :: 0 <= i < |ops| ==> Legal(ops[i])
    ensures PinsExec(p, ops, n).want[gpio] == LastWritten(ops, n, gpio, p.want[gpio])
  {
    if n > 0 {
      WantIsLastWritten(p, ops, n - 1, gpio);
    }
  }

  /**
   gpio_get returns what was last written to the pin (nonzero mod 256), or what the cache held at
   first, whatever the transfers did and whatever the device held.
   */
  lemma PinReadsLastWritten(s: State, ops: seq<Op>, gpio: nat)
    requires |s.cache| == |s.regs| == REG_MAX && gpio < 16 && forall i :: 0 <= i < |ops| ==> Legal(ops[i])
    ensures PinIn(Exec(s, ops, |ops|).cache, gpio) == LastWritten(ops, |ops|, gpio, PinIn(s.cache, gpio))
  {
    DriverRefinesPins(s, ops, |ops|);
    assert PinIn(Exec(s, ops, |ops|).cache, gpio) == PinsOf(Exec(s, ops, |ops|)).want[gpio];
    WantIsLastWritten(PinsOf(s), ops, |ops|, gpio);
  }

  /** The operation sends the higher or the lower port, and the transfer works. */
  predicate Transfers(op: Op, high: bool) {
    && op.text.Some?
    && match op
       case Set(gpio, _, ok) => (high <==> gpio >= 8) && ok
       case SetAll(_, okA, okB) => if high then okB else okA
  }

  /** The number of operations up to and including the last working transfer of the port. */
  function LastTransfer(ops: seq<Op>, n: nat, high: bool): (t: nat)
    requires n <= |ops|
    ensures t <= n
  {
    if n == 0 then 0 else if Transfers(ops[n - 1], high) then n else LastTransfer(ops, n - 1, high)
  }

  lemma {:induction false} ShownSinceTransfer(p: Pins, ops: seq<Op>, n: nat, gpio: nat)
    requires |p.want| == |p.shown| == 16
    requires n <= |ops| && gpio < 16 && forall i :: 0 <= i < |ops| ==> Legal(ops[i])
    ensures var t := LastTransfer(ops, n, gpio >= 8);
            PinsExec(p, ops, n).shown[gpio] == if t == 0 then p.shown[gpio] else PinsExec(p, ops, t).want[gpio]
  {
    if n > 0 {
      ShownSinceTransfer(p, ops, n - 1, gpio);
    }
  }

  /** Sysfs writes leave the direction of every pin as it was, so that outputs stay outputs. */
  lemma {:induction false} DirectionsAreKept(s: State, ops: seq<Op>, n: nat)
    requires |s.cache| == |s.regs| == REG_MAX && n <= |ops| && forall i :: 0 <= i < |ops| ==> Legal(ops[i])
    ensures Exec(s, ops, n).regs[0x00] == s.regs[0x00]
    ensures Exec(s, ops, n).regs[0x10] == s.regs[0x10]
  {
    if n > 0 {
      DirectionsAreKept(s, ops, n - 1);
      OpKeepsDirections(Exec(s, ops, n - 1), ops[n - 1]);
    }
  }

  lemma OpKeepsDirections(s: State, op: Op)
    requires |s.cache| == |s.regs| == REG_MAX && Legal(op)
    ensures Apply(s, op).regs[0x00] == s.regs[0x00]
    ensures Apply(s, op).regs[0x10] == s.regs[0x10]
  {
    if op.text.Some? {
      match op
      case Set(gpio, text, ok) => WriteKeepsDirections(s, gpio >= 8, 1 << BitOf(gpio), text.value, ok);
      case SetAll(text, okA, okB) =>
        WriteKeepsDirections(s, false, 0xFF, text.value, okA);
        WriteKeepsDirections(CachedWrite(s, Port(false), 0xFF, text.value, okA), true, 0xFF, text.value, okB);
    }
  }

  lemma WriteKeepsDirections(s: State, high: bool, mask: bv8, value: int, ok: bool)
    requires |s.cache| == |s.regs| == REG_MAX
    ensures CachedWrite(s, Port(high), mask, value, ok).regs[0x00] == s.regs[0x00]
    ensures CachedWrite(s, Port(high), mask, value, ok).regs[0x10] == s.regs[0x10]
  {
    FrameReachesPort(s.regs, high, Masked(s.cache[Port(high)], mask, IsOn(value)));
  }

  /**
   Each pin of the device shows what was last written to it up to the last working transfer of its
   port, and what it showed at first if there was none.
   */
  lemma DeviceShowsLastTransfer(s: State, ops: seq<Op>, gpio: nat)
    requires |s.cache| == |s.regs| == REG_MAX && gpio < 16 && forall i :: 0 <= i < |ops| ==> Legal(ops[i])
    ensures var t := LastTransfer(ops, |ops|, gpio >= 8);
            PinIn(Exec(s, ops, |ops|).regs, gpio) ==
            if t == 0 then PinIn(s.regs, gpio) else LastWritten(ops, t, gpio, PinIn(s.cache, gpio))
  {
    DriverRefinesPins(s, ops, |ops|);
    assert PinIn(Exec(s, ops, |ops|).regs, gpio) == PinsOf(Exec(s, ops, |ops|)).shown[gpio];
    ShownSinceTransfer(PinsOf(s), ops, |ops|, gpio);
    WantIsLastWritten(PinsOf(s), ops, LastTransfer(ops, |ops|, gpio >= 8), gpio);
  }

  /** The operation writes the port's cache entry. */
  predicate Writes(op: Op, high: bool) {
    op.text.Some? && (op.SetAll? || (high <==> op.gpio >= 8))
  }

  /** The port has been written, and its latest write has reached the device. */
  predicate LatestWriteWorked(ops: seq<Op>, n: nat, high: bool)
    requires n <= |ops|
  {
    n > 0 && (if Writes(ops[n - 1], high) then Transfers(ops[n - 1], high) else LatestWriteWorked(ops, n - 1, high))
  }

  /** Writing one port leaves the cache entry and the register of the other alone. */
  lemma PortsAreIndependent(s: State, high: bool, mask: bv8, value: int, ok: bool)
    requires |s.cache| == |s.regs| == REG_MAX
    ensures var t, reg, other := CachedWrite(s, Port(high), mask, value, ok), Port(high), Port(!high);
            && t.cache[other] == s.cache[other] && t.regs[other] == s.regs[other]
            && (ok ==> t.cache[reg] == t.regs[reg])
  {
    FrameReachesPort(s.regs, high, Masked(s.cache[Port(high)], mask, IsOn(value)));
  }

  lemma OpAndPort(s: State, op: Op, high: bool)
    requires |s.cache| == |s.regs| == REG_MAX && Legal(op)
    ensures var t, reg := Apply(s, op), Port(high);
            && (Transfers(op, high) ==> t.regs[reg] == t.cache[reg])
            && (!Writes(op, high) ==> t.regs[reg] == s.regs[reg] && t.cache[reg] == s.cache[reg])
  {
    if op.text.Some? {
      match op
      case Set(gpio, text, ok) =>
        PortsAreIndependent(s, gpio >= 8, 1 << BitOf(gpio), text.value, ok);
      case SetAll(text, okA, okB) =>
        PortsAreIndependent(s, false, 0xFF, text.value, okA);
        PortsAreIndependent(CachedWrite(s, Port(false), 0xFF, text.value, okA), true, 0xFF, text.value, okB);
    }
  }

  /** From any cache and any device, a port register equals the cache whenever its latest write has worked. */
  lemma {:induction false} DeviceEqualsCacheAfterSuccess(s: State, ops: seq<Op>, n: nat, high: bool)
    requires |s.cache| == |s.regs| == REG_MAX
    requires n <= |ops| && (forall i :: 0 <= i < |ops| ==> Legal(ops[i])) && LatestWriteWorked(ops, n, high)
    ensures var t, reg := Exec(s, ops, n), if high then 0x19 else 0x09; t.regs[reg] == t.cache[reg]
  {
    OpAndPort(Exec(s, ops, n - 1), ops[n - 1], high);
    if !Writes(ops[n - 1], high) {
      DeviceEqualsCacheAfterSuccess(s, ops, n - 1, high);
    }
  }
}
