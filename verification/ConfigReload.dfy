/**
 How a setting travels from the control tool to the daemon: the tool stores it in shared memory
 and sends SIGHUP, and the handler copies the cells into the daemon's variables
 (iralarm/iralarmctl.c:266-287, iralarm/iralarmd.c:346-362, 544-556).

 The daemon reads and writes cells through typed pointers, `unsigned char *` and `uint32_t *`;
 that these types agree with the type table is part of what is proved.  The signed `s_xmpp` is
 represented by its bit pattern.
 */
module ConfigReload {
  import opened SharedMemory
  import opened Wrappers

  /** IRSM_DATA, and the ids used to address it. */
  const TABLE: seq<Object> := [INT32, BYTE, BYTE, BYTE, BYTE, INT32, INT32, INT32, INT32, INT32, BYTE]

  const SHM_MLOOP := 0
  const SHM_ACTIVE := 1
  const SHM_SPKR := 2
  const SHM_XMPP := 3
  const SHM_VIDEO := 4
  const SHM_STLEDON := 5
  const SHM_STLEDOFF := 6
  const SHM_MINRECVD := 7
  const SHM_MINALRMS := 8
  const SHM_RSTALRMS := 9
  const SHM_ALARM := 10

  /** Width in bytes of the cell, and of the variable, with this id. */
  function Width(id: nat): nat {
    if SHM_ACTIVE <= id <= SHM_VIDEO || id == SHM_ALARM then 1 else 4
  }

  /** The values of this id are below this. */
  function Limit(id: nat): nat {
    if 1 <= id <= 4 || id == 10 then 0x100 else 0x1_0000_0000
  }

  /** A type table with the widths the daemon's pointers assume. */
  ghost predicate HasWidths(types: seq<Object>) {
    |types| == 11 && forall id: nat :: id < 11 ==> Size(types[id]) == Width(id)
  }

  /** The configured table has these widths, and all its cells fit the mapped pages. */
  lemma TableLayout()
    ensures HasWidths(TABLE) && Fits(TABLE, Mapped(TABLE))
    ensures Requested(TABLE) == 29 && Mapped(TABLE) == 4096
  {
    assert Offset(TABLE, 1) == 4 && Offset(TABLE, 2) == 5 && Offset(TABLE, 3) == 6 && Offset(TABLE, 4) == 7;
    assert Offset(TABLE, 5) == 8 && Offset(TABLE, 6) == 12 && Offset(TABLE, 7) == 16 && Offset(TABLE, 8) == 20;
    assert Offset(TABLE, 9) == 24 && Offset(TABLE, 10) == 28 && Offset(TABLE, 11) == 29;
    SmallTablesFitTheirPages(TABLE);
  }

  lemma EveryId(id: nat)
    requires id < SHM_ALARM
    ensures id == 0 || id == 1 || id == 2 || id == 3 || id == 4 || id == 5 || id == 6 || id == 7 || id == 8 || id == 9
  {
  }

  class Daemon {
    const xmppBuild: bool
    var aactive: nat
    var mainloop: nat
    var speaker: nat
    var xmpp: nat
    var video: nat
    var statusledOn: nat
    var statusledOff: nat
    var minrecvd: nat
    var minalarm: nat
    var rstalarm: nat

    constructor (xmppBuild: bool)
      ensures this.xmppBuild == xmppBuild
    {
      this.xmppBuild := xmppBuild;
    }

    /** The variable that belongs to a cell. */
    function Var(id: nat): nat
      requires id < SHM_ALARM
      reads this
    {
      match id
      case 0 => mainloop
      case 1 => aactive
      case 2 => speaker
      case 3 => xmpp
      case 4 => video
      case 5 => statusledOn
      case 6 => statusledOff
      case 7 => minrecvd
      case 8 => minalarm
      case _ => rstalarm
    }

    /** Shared memory and variables agree wherever SIGHUP reloads: builds without XMPP leave id 3 out. */
    ghost predicate Agrees(mem: Segment)
      requires mem.Valid() && HasWidths(mem.types)
      reads this, mem, mem.pOff, mem.ptr, mem.bytes
    {
      forall id: nat :: id < 10 && (id == 3 ==> xmppBuild) ==> Var(id) == mem.Values()[id]
    }

    /** The same, variable by variable. */
    ghost predicate Holds(v: seq<nat>)
      requires |v| == 11
      reads this
    {
      && mainloop == v[0] && aactive == v[1] && speaker == v[2] && (xmppBuild ==> xmpp == v[3]) && video == v[4]
      && statusledOn == v[5] && statusledOff == v[6]
      && minrecvd == v[7] && minalarm == v[8] && rstalarm == v[9]
    }

    lemma HoldsAt(v: seq<nat>, id: nat)
      requires |v| == 11 && Holds(v) && id < 10 && (id == 3 ==> xmppBuild)
      ensures Var(id) == v[id]
    {
      EveryId(id);
    }

    /** GETPTR_SAFE with an `unsigned char *`. */
    method GetByte(mem: Segment, id: nat, old': nat) returns (v: nat)
      requires mem.Valid() && (id < |mem.types| ==> Size(mem.types[id]) == 1)
      ensures v == if id < |mem.types| then mem.Values()[id] else old'
    {
      var p := mem.GetPtr(id);
      if p.None? {
        return old';
      }
      assert CellEnd(mem.types, id) <= mem.bytes.Length;
      v := mem.Load(p.value, 1);
    }

    /** GETPTR_SAFE with a `uint32_t *`. */
    method GetWord(mem: Segment, id: nat, old': nat) returns (v: nat)
      requires mem.Valid() && (id < |mem.types| ==> Size(mem.types[id]) == 4)
      ensures v == if id < |mem.types| then mem.Values()[id] else old'
    {
      var p := mem.GetPtr(id);
      if p.None? {
        return old';
      }
      assert CellEnd(mem.types, id) <= mem.bytes.Length;
      v := mem.Load(p.value, 4);
    }

    /** The first half of the SIGHUP branch. */
    method HupSwitches(mem: Segment)
      requires mem.Valid() && HasWidths(mem.types)
      modifies this`aactive, this`mainloop, this`speaker, this`xmpp, this`video
      ensures var v := mem.Values();
              && aactive == v[SHM_ACTIVE] && mainloop == v[SHM_MLOOP] && speaker == v[SHM_SPKR] && video == v[SHM_VIDEO]
              && xmpp == if xmppBuild then v[SHM_XMPP] else old(xmpp)
    {
      aactive := GetByte(mem, SHM_ACTIVE, aactive);
      mainloop := GetWord(mem, SHM_MLOOP, mainloop);
      speaker := GetByte(mem, SHM_SPKR, speaker);
      if xmppBuild {
        xmpp := GetByte(mem, SHM_XMPP, xmpp);
      }
      video := GetByte(mem, SHM_VIDEO, video);
    }

    /** The second half. */
    method HupTimesAndThresholds(mem: Segment)
      requires mem.Valid() && HasWidths(mem.types)
      modifies this`statusledOn, this`statusledOff, this`minrecvd, this`minalarm, this`rstalarm
      ensures var v := mem.Values();
              && statusledOn == v[SHM_STLEDON] && statusledOff == v[SHM_STLEDOFF]
              && minrecvd == v[SHM_MINRECVD] && minalarm == v[SHM_MINALRMS] && rstalarm == v[SHM_RSTALRMS]
    {
      statusledOn := GetWord(mem, SHM_STLEDON, statusledOn);
      statusledOff := GetWord(mem, SHM_STLEDOFF, statusledOff);
      minrecvd := GetWord(mem, SHM_MINRECVD, minrecvd);
      minalarm := GetWord(mem, SHM_MINALRMS, minalarm);
      rstalarm := GetWord(mem, SHM_RSTALRMS, rstalarm);
    }

    /** The SIGHUP branch of the signal handler. */
    method Hup(mem: Segment)
      requires mem.Valid() && HasWidths(mem.types)
      modifies this
      ensures Agrees(mem) && Holds(mem.Values())
      ensures !xmppBuild ==> xmpp == old(xmpp)
    {
      HupSwitches(mem);
      HupTimesAndThresholds(mem);
      forall id: nat | id < 10 && (id == 3 ==> xmppBuild)
        ensures Var(id) == mem.Values()[id]
      {
        HoldsAt(mem.Values(), id);
      }
    }

    /** The variables hold values of their C types. */
    ghost predicate InRange()
      reads this
    {
      forall id: nat :: id < SHM_ALARM ==> Var(id) < Limit(id)
    }

    /** SETPTR_SAFE: stores a variable into its cell. */
    method Put(mem: Segment, id: nat)
      requires mem.Valid() && HasWidths(mem.types) && id < SHM_ALARM && InRange()
      modifies mem.bytes
      ensures mem.Valid() && mem.Values() == old(mem.Values())[id := Var(id)]
    {
      assert Var(id) < Limit(id) == Modulus(mem.types[id]);
      mem.DoSet(id, Var(id));
    }

    method PutSwitches(mem: Segment)
      requires mem.Valid() && HasWidths(mem.types) && InRange()
      modifies mem.bytes
      ensures mem.Valid()
      ensures var v := mem.Values();
              && v[SHM_ACTIVE] == aactive && v[SHM_MLOOP] == mainloop && v[SHM_SPKR] == speaker && v[SHM_VIDEO] == video
              && (xmppBuild ==> v[SHM_XMPP] == xmpp)
    {
      Put(mem, SHM_ACTIVE);
      Put(mem, SHM_MLOOP);
      Put(mem, SHM_SPKR);
      if xmppBuild {
        Put(mem, SHM_XMPP);
      }
      Put(mem, SHM_VIDEO);
    }

    method PutTimes(mem: Segment)
      requires mem.Valid() && HasWidths(mem.types) && InRange()
      modifies mem.bytes
      ensures mem.Valid() && mem.Values()[SHM_STLEDON] == statusledOn && mem.Values()[SHM_STLEDOFF] == statusledOff
      ensures mem.Values()[..SHM_STLEDON] == old(mem.Values())[..SHM_STLEDON]
    {
      Put(mem, SHM_STLEDON);
      Put(mem, SHM_STLEDOFF);
    }

    method PutThresholds(mem: Segment)
      requires mem.Valid() && HasWidths(mem.types) && InRange()
      modifies mem.bytes
      ensures mem.Valid()
      ensures var v := mem.Values();
              && v[SHM_MINRECVD] == minrecvd && v[SHM_MINALRMS] == minalarm && v[SHM_RSTALRMS] == rstalarm
              && v[SHM_ALARM] == 0
      ensures mem.Values()[..SHM_MINRECVD] == old(mem.Values())[..SHM_MINRECVD]
    {
      Put(mem, SHM_MINRECVD);
      Put(mem, SHM_MINALRMS);
      Put(mem, SHM_RSTALRMS);
      mem.DoSet(SHM_ALARM, 0);
    }

    /** Before its loop the daemon stores its defaults, and None as the alarm state. */
    method PublishDefaults(mem: Segment)
      requires mem.Valid() && HasWidths(mem.types) && InRange()
      modifies mem.bytes
      ensures mem.Valid() && Agrees(mem) && Holds(mem.Values()) && mem.Values()[10] == 0
    {
      PutSwitches(mem);
      ghost var first := mem.Values();
      PutTimes(mem);
      ghost var second := mem.Values();
      PutThresholds(mem);
      ghost var v := mem.Values();
      assert forall i: nat :: i < SHM_MINRECVD ==> v[i] == v[..SHM_MINRECVD][i] == second[i];
      assert forall i: nat :: i < SHM_STLEDON ==> second[i] == second[..SHM_STLEDON][i] == first[i];
      forall id: nat | id < 10 && (id == 3 ==> xmppBuild)
        ensures Var(id) == v[id]
      {
        HoldsAt(v, id);
      }
    }
  }

  /** What `iralarmctl -s ID [-v VALUE]` did. */
  datatype Outcome = NoSuchId | ReadOnly | ValueMissing | Done

  /**
   The SET path of the control tool's main, with the SIGHUP delivered to the daemon.
   If memory and variables agreed before, a set changes exactly the addressed variable, to the
   value truncated to its width, and they agree again.
   */
  method SetAndHup(mem: Segment, daemon: Daemon, readOnly: bool, id: nat, value: Option<nat>) returns (outcome: Outcome)
    requires mem.Valid() && HasWidths(mem.types) && daemon.Agrees(mem)
    modifies mem.bytes, daemon
    ensures mem.Valid() && daemon.Agrees(mem)
    ensures outcome == if id >= 11 then NoSuchId else if readOnly then ReadOnly
                       else if value.None? then ValueMissing else Done
    ensures forall j: nat | j < SHM_ALARM ::
              daemon.Var(j) == if outcome == Done && j == id && (id == 3 ==> daemon.xmppBuild)
                               then value.value % Limit(id) else old(daemon.Var(j))
    ensures mem.Values() == if outcome == Done then old(mem.Values())[id := value.value % Limit(id)]
                            else old(mem.Values())
  {
    var p := mem.GetPtr(id);
    if p.None? {
      return NoSuchId;
    }
    if readOnly {
      return ReadOnly;
    }
    if value.None? {
      return ValueMissing;
    }
    mem.DoSet(id, value.value);
    daemon.Hup(mem);
    return Done;
  }
}
