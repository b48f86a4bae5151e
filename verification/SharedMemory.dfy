/**
 The shared memory segment of the daemon and its control tool (iralarm/irshmem.c,
 iralarm/iralarmctl.c:51-116).

 `irmem_init` lays out one cell per entry of a type table.  Its offsets are sums of the cell
 sizes, but it adds them to an `int` pointer, so cell i starts at byte 4 * p_off.  Values are
 stored little-endian.
 */
module SharedMemory {
  import opened Wrappers

  type byte = x: int | 0 <= x < 256

  datatype Object = BYTE | INT16 | INT32 | INT64

  /** The value of the enumerator is the size of the object. */
  function Size(t: Object): (n: nat)
    ensures 1 <= n <= 8
  {
    match t
    case BYTE => 1
    case INT16 => 2
    case INT32 => 4
    case INT64 => 8
  }

  const PAGE_SIZE := 4096
  const SIZEOF_INT := 4

  /** p_off of cell i: the sizes of the cells before it. */
  function Offset(types: seq<Object>, i: nat): nat
    requires i <= |types|
  {
    if i == 0 then 0 else Offset(types, i - 1) + Size(types[i - 1])
  }

  function CellStart(types: seq<Object>, i: nat): nat
    requires i <= |types|
  {
    SIZEOF_INT * Offset(types, i)
  }

  function CellEnd(types: seq<Object>, i: nat): nat
    requires i < |types|
  {
    CellStart(types, i) + Size(types[i])
  }

  /** Bytes asked for in shmget, and what the kernel maps for them. */
  function Requested(types: seq<Object>): nat {
    Offset(types, |types|)
  }

  function Mapped(types: seq<Object>): nat {
    (Requested(types) + PAGE_SIZE - 1) / PAGE_SIZE * PAGE_SIZE
  }

  /** Every cell lies within the first n bytes. */
  ghost predicate Fits(types: seq<Object>, n: nat) {
    forall i: nat :: i < |types| ==> CellEnd(types, i) <= n
  }

  // ----- layout -----

  lemma {:induction false} OffsetsGrow(types: seq<Object>, i: nat, j: nat)
    requires i < j <= |types|
    ensures Offset(types, i) + Size(types[i]) <= Offset(types, j)
    decreases j
  {
    if i < j - 1 {
      OffsetsGrow(types, i, j - 1);
    }
  }

  /** Cells are aligned to four bytes and pairwise disjoint, in the order of the table. */
  lemma CellsAreDisjoint(types: seq<Object>, i: nat, j: nat)
    requires i < j < |types|
    ensures CellStart(types, i) % 4 == 0 && CellStart(types, j) % 4 == 0
    ensures CellEnd(types, i) <= CellStart(types, j)
  {
    OffsetsGrow(types, i, j);
  }

  /** The segment contains all cells exactly when it contains the last one. */
  lemma FitsIffLastFits(types: seq<Object>, n: nat)
    requires types != []
    ensures Fits(types, n) <==> CellEnd(types, |types| - 1) <= n
  {
    if CellEnd(types, |types| - 1) <= n {
      forall i: nat | i < |types|
        ensures CellEnd(types, i) <= n
      {
        if i < |types| - 1 {
          CellsAreDisjoint(types, i, |types| - 1);
        }
      }
    }
  }

  /** The bytes asked for are enough only for a single cell: the request is not scaled, the offsets are. */
  lemma RequestedIsTooSmall(types: seq<Object>)
    requires types != []
    ensures Fits(types, Requested(types)) <==> |types| == 1
  {
    FitsIffLastFits(types, Requested(types));
    if |types| > 1 {
      OffsetsGrow(types, 0, |types| - 1);
    }
  }

  /**
   The mapped pages contain all cells exactly when the scaled layout ends within one page.  More
   pages do not help: each brings 4096 bytes, and takes 4096 more bytes of cells, four times scaled.
   */
  lemma FitsPagesIff(types: seq<Object>)
    requires types != []
    ensures Fits(types, Mapped(types)) <==> 4 * Requested(types) <= PAGE_SIZE + 3 * Size(types[|types| - 1])
  {
    FitsIffLastFits(types, Mapped(types));
    OffsetsGrow(types, 0, |types|);
  }

  /** So tables of up to 1024 bytes fit, and a larger one fits only within the width of its last cell. */
  lemma SmallTablesFitTheirPages(types: seq<Object>)
    requires types != []
    ensures Requested(types) <= 1024 ==> Fits(types, Mapped(types))
    ensures Requested(types) > 1030 ==> !Fits(types, Mapped(types))
  {
    FitsPagesIff(types);
  }

  // ----- little-endian integers -----

  function Pow256(w: nat): (p: nat)
    ensures p > 0
  {
    if w == 0 then 1 else 256 * Pow256(w - 1)
  }

  function Encode(v: nat, w: nat): (bs: seq<byte>)
    ensures |bs| == w
  {
    if w == 0 then [] else [v % 256] + Encode(v / 256, w - 1)
  }

  function Decode(bs: seq<byte>): nat {
    if bs == [] then 0 else bs[0] + 256 * Decode(bs[1..])
  }

  lemma ModStep(v: nat, p: nat)
    requires p > 0
    ensures v % (256 * p) == v % 256 + 256 * (v / 256 % p)
  {
    var q, r, d := v / 256 / p, v / 256 % p, 256 * p;
    assert v / 256 == p * q + r;
    assert v == 256 * (p * q + r) + v % 256;
    assert 256 * (p * q) == d * q;
    assert v == d * q + (v % 256 + 256 * r);
    RemainderIsUnique(v, d, q, v % 256 + 256 * r);
  }

  lemma {:induction false} MulMonotone(d: nat, a: nat, b: nat)
    ensures a < b ==> d * a + d <= d * b
  {
    if a < b {
      assert d * b == d * (b - 1) + d;
      MulMonotone(d, a, b - 1);
    }
  }

  lemma RemainderIsUnique(v: nat, d: nat, q: nat, r: nat)
    requires r < d && v == d * q + r
    ensures v % d == r
  {
    MulMonotone(d, q, v / d);
    MulMonotone(d, v / d, q);
  }

  lemma {:induction false} DecodeEncode(v: nat, w: nat)
    ensures Decode(Encode(v, w)) == v % Pow256(w)
  {
    if w > 0 {
      DecodeEncode(v / 256, w - 1);
      ModStep(v, Pow256(w - 1));
    }
  }

  /** The number in four bytes, and in the first one and the first two of them. */
  lemma LittleEndian(a: byte, b: byte, c: byte, d: byte)
    ensures Decode([a]) == a
    ensures Decode([a, b]) == a + 0x100 * b
    ensures Decode([a, b, c, d]) == a + 0x100 * b + 0x1_0000 * c + 0x100_0000 * d
  {
    LastByte(a);
    LastByte(b);
    LastByte(d);
    assert [a, b][1..] == [b] && [c, d][1..] == [d] && [b, c, d][1..] == [c, d] && [a, b, c, d][1..] == [b, c, d];
    assert Decode([c, d]) == c + 256 * d;
    assert Decode([b, c, d]) == b + 256 * c + 65536 * d;
  }

  lemma LastByte(a: byte)
    ensures Decode([a]) == a
  {
    assert [a][1..] == [];
    assert Decode([a][1..]) == 0;
  }

  /** An object holds the unsigned integers below this. */
  function Modulus(t: Object): nat {
    match t
    case BYTE => 0x100
    case INT16 => 0x1_0000
    case INT32 => 0x1_0000_0000
    case INT64 => 0x1_0000_0000_0000_0000
  }

  lemma WidthOfModulus(t: Object)
    ensures Pow256(Size(t)) == Modulus(t)
  {
    assert Pow256(1) == 0x100 && Pow256(2) == 0x1_0000;
    assert Pow256(3) == 0x100_0000 && Pow256(4) == 0x1_0000_0000;
    assert Pow256(5) == 0x100_0000_0000 && Pow256(6) == 0x1_0000_0000_0000;
    assert Pow256(7) == 0x100_0000_0000_0000 && Pow256(8) == 0x1_0000_0000_0000_0000;
  }

  // ----- cells -----

  function Cell(types: seq<Object>, seg: seq<byte>, i: nat): nat
    requires i < |types| && CellEnd(types, i) <= |seg|
  {
    Decode(seg[CellStart(types, i)..CellEnd(types, i)])
  }

  /** The abstract value of the segment: one number per id. */
  ghost function View(types: seq<Object>, seg: seq<byte>): (v: seq<nat>)
    requires Fits(types, |seg|)
    ensures |v| == |types|
  {
    seq(|types|, i requires 0 <= i < |types| => Cell(types, seg, i))
  }

  /** The segment after a value has been stored into cell id. */
  function Stored(types: seq<Object>, seg: seq<byte>, id: nat, value: nat): (r: seq<byte>)
    requires id < |types| && CellEnd(types, id) <= |seg|
    ensures |r| == |seg|
  {
    seg[..CellStart(types, id)] + Encode(value, Size(types[id])) + seg[CellEnd(types, id)..]
  }

  /** A set changes the addressed cell to the value truncated to its width, and no other cell. */
  lemma StoreRefinesUpdate(types: seq<Object>, seg: seq<byte>, id: nat, value: nat)
    requires Fits(types, |seg|) && id < |types|
    ensures View(types, Stored(types, seg, id, value)) ==
            View(types, seg)[id := value % Modulus(types[id])]
  {
    var r := Stored(types, seg, id, value);
    forall j: nat | j < |types|
      ensures Cell(types, r, j) == if j == id then value % Modulus(types[id]) else Cell(types, seg, j)
    {
      if j < id {
        CellsAreDisjoint(types, j, id);
        assert r[CellStart(types, j)..CellEnd(types, j)] == seg[CellStart(types, j)..CellEnd(types, j)];
      } else if id < j {
        CellsAreDisjoint(types, id, j);
        assert r[CellStart(types, j)..CellEnd(types, j)] == seg[CellStart(types, j)..CellEnd(types, j)];
      } else {
        assert r[CellStart(types, id)..CellEnd(types, id)] == Encode(value, Size(types[id]));
        DecodeEncode(value, Size(types[id]));
        WidthOfModulus(types[id]);
      }
    }
  }

  datatype Write = Write(id: nat, value: nat)

  function AfterWrites(types: seq<Object>, seg: seq<byte>, writes: seq<Write>): (r: seq<byte>)
    requires forall i :: 0 <= i < |writes| ==> writes[i].id < |types| && CellEnd(types, writes[i].id) <= |seg|
    ensures |r| == |seg|
  {
    if writes == [] then seg
    else
      var last := writes[|writes| - 1];
      Stored(types, AfterWrites(types, seg, writes[..|writes| - 1]), last.id, last.value)
  }

  /** The last value written to id, or the initial one. */
  function LastWritten(types: seq<Object>, writes: seq<Write>, id: nat, initial: nat): nat
    requires id < |types|
  {
    if writes == [] then initial
    else if writes[|writes| - 1].id == id then writes[|writes| - 1].value % Modulus(types[id])
    else LastWritten(types, writes[..|writes| - 1], id, initial)
  }

  /** After any sequence of sets, each cell reads as the last value set to it. */
  lemma {:induction false} CellsAreIndependent(types: seq<Object>, seg: seq<byte>, writes: seq<Write>, id: nat)
    requires Fits(types, |seg|) && id < |types|
    requires forall i :: 0 <= i < |writes| ==> writes[i].id < |types|
    ensures Cell(types, AfterWrites(types, seg, writes), id) ==
            LastWritten(types, writes, id, Cell(types, seg, id))
    decreases |writes|
  {
    if writes != [] {
      var before, last := writes[..|writes| - 1], writes[|writes| - 1];
      CellsAreIndependent(types, seg, before, id);
      var mid := AfterWrites(types, seg, before);
      StoreRefinesUpdate(types, mid, last.id, last.value);
      assert Cell(types, Stored(types, mid, last.id, last.value), id)
          == View(types, Stored(types, mid, last.id, last.value))[id];
    }
  }

  // ----- the attached segment -----

  class Segment {
    const types: seq<Object>      // initial[]
    const pOff: array<nat>        // shmem[i].p_off
    const ptr: array<nat>         // shmem[i].ptr, as an index into the segment
    const bytes: array<byte>      // the attached memory

    ghost predicate Valid()
      reads this, pOff, ptr
    {
      && pOff.Length == ptr.Length == |types|
      && Fits(types, bytes.Length)
      && pOff != ptr
      && forall i: nat :: i < |types| ==> pOff[i] == Offset(types, i) && ptr[i] == CellStart(types, i)
    }

    ghost function Values(): seq<nat>
      requires Valid()
      reads this, pOff, ptr, bytes
    {
      View(types, bytes[..])
    }

    /** The first loop of irmem_init. */
    static method LayOut(types: seq<Object>) returns (off: array<nat>)
      ensures fresh(off) && off.Length == |types|
      ensures forall i: nat :: i < |types| ==> off[i] == Offset(types, i)
    {
      off := new nat[|types|];
      var cur := 0;
      for i := 0 to |types|
        invariant cur == Offset(types, i)
        invariant forall k: nat :: k < i ==> off[k] == Offset(types, k)
      {
        off[i] := cur;
        cur := cur + Size(types[i]);
      }
    }

    /** The second loop, after shmget and shmat have delivered the memory. */
    static method Attach(types: seq<Object>, off: array<nat>) returns (at: array<nat>)
      requires off.Length == |types| && forall i: nat :: i < |types| ==> off[i] == Offset(types, i)
      ensures fresh(at) && at.Length == |types|
      ensures forall i: nat :: i < |types| ==> at[i] == CellStart(types, i)
    {
      at := new nat[|types|];
      for i := 0 to |types|
        invariant forall k: nat :: k < i ==> at[k] == CellStart(types, k)
      {
        at[i] := SIZEOF_INT * off[i];
      }
    }

    constructor (types: seq<Object>, memory: array<byte>)
      requires Fits(types, memory.Length)
      ensures Valid() && this.types == types && bytes == memory
      ensures fresh(pOff) && fresh(ptr)
    {
      this.types := types;
      bytes := memory;
      var off := LayOut(types);
      var at := Attach(types, off);
      pOff := off;
      ptr := at;
    }

    method GetPtr(id: nat) returns (p: Option<nat>)
      requires Valid()
      ensures p == if id < |types| then Some(CellStart(types, id)) else None
    {
      if id >= |types| {
        return None;
      }
      return Some(ptr[id]);
    }

    /** irmem_type: zero tells an unknown id, any other result how far the cell reaches. */
    method TypeOf(id: nat) returns (size: nat)
      ensures size == 0 <==> id >= |types|
      ensures id < |types| ==> CellStart(types, id) + size == CellEnd(types, id)
    {
      size := if id >= |types| then 0 else Size(types[id]);
    }

    /** Reads an unsigned integer of w bytes through a pointer. */
    method Load(p: nat, w: nat) returns (v: nat)
      requires p + w <= bytes.Length
      ensures v == Decode(bytes[p..p + w])
    {
      v := 0;
      var k := w;
      while k > 0
        invariant 0 <= k <= w
        invariant v == Decode(bytes[p + k..p + w])
      {
        k := k - 1;
        v := bytes[p + k] + 256 * v;
        assert bytes[p + k..p + w][1..] == bytes[p + k + 1..p + w];
      }
    }

    /** Writes an unsigned integer of w bytes through a pointer. */
    method Store(p: nat, w: nat, v: nat)
      requires p + w <= bytes.Length
      modifies bytes
      ensures bytes[..] == old(bytes[..p]) + Encode(v, w) + old(bytes[p + w..])
    {
      var rest := v;
      for k := 0 to w
        invariant forall i :: 0 <= i < bytes.Length && !(p <= i < p + k) ==> bytes[i] == old(bytes[i])
        invariant Encode(v, w) == bytes[p..p + k] + Encode(rest, w - k)
      {
        ghost var done := bytes[p..p + k];
        bytes[p + k] := rest % 256;
        assert bytes[p..p + k] == done;
        rest := rest / 256;
      }
      assert bytes[..] == old(bytes[..p]) + bytes[p..p + w] + old(bytes[p + w..]);
    }

    method DoGet(id: nat) returns (v: nat)
      requires Valid() && id < |types|
      ensures v == Values()[id]
    {
      var size := TypeOf(id);
      assert CellEnd(types, id) <= bytes.Length;
      v := Load(ptr[id], size);
    }

    method DoSet(id: nat, value: nat)
      requires Valid() && id < |types|
      modifies bytes
      ensures Valid()
      ensures bytes[..] == Stored(types, old(bytes[..]), id, value)
      ensures Values() == old(Values())[id := value % Modulus(types[id])]
    {
      var size := TypeOf(id);
      assert CellEnd(types, id) <= bytes.Length;
      Store(ptr[id], size, value);
      StoreRefinesUpdate(types, old(bytes[..]), id, value);
    }
  }
}
