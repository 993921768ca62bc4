/** Configuration writes and reads of `src/hw/pci/pci.c` in the values that a guest writes and reads. */
module PciRegisters {
  import opened GuestMemory
  import opened Spans
  import opened AddressSpace
  import opened PowersOfTwo
  import opened PciConfig

  /** Byte number `j` of a value. */
  function Digit(v: nat, j: nat): byte {
    if j == 0 then v % 0x100 else Digit(v / 0x100, j - 1)
  }

  /** A write puts the least significant byte first. */
  lemma {:induction false} LowBytesAt(v: nat, n: nat, j: nat)
    requires j < n
    ensures LowBytes(v, n)[j] == Digit(v, j)
    decreases n
  {
    if j == 0 {
    } else {
      LowBytesAt(v / 0x100, n - 1, j - 1);
    }
  }

  lemma TwoShifts(v: nat)
    ensures v / 0x100 / 0x100 == v / 0x1_0000
  {}

  lemma ThreeShifts(v: nat)
    ensures v / 0x100 / 0x100 / 0x100 == v / 0x100_0000
  {
    TwoShifts(v);
    var q := v / 0x1_0000;
    assert v == 0x1_0000 * q + v % 0x1_0000;
  }

  lemma DigitsOf(v: nat)
    ensures Digit(v, 0) == v % 0x100 && Digit(v, 1) == v / 0x100 % 0x100
    ensures Digit(v, 2) == v / 0x100 / 0x100 % 0x100 && Digit(v, 3) == v / 0x100 / 0x100 / 0x100 % 0x100
  {
    assert Digit(v, 1) == Digit(v / 0x100, 0);
    assert Digit(v, 2) == Digit(v / 0x100, 1) == Digit(v / 0x100 / 0x100, 0);
    assert Digit(v, 3) == Digit(v / 0x100, 2) == Digit(v / 0x100 / 0x100, 1) == Digit(v / 0x100 / 0x100 / 0x100, 0);
  }

  lemma FourDigits(v: nat)
    requires v < FOUR_GIB
    ensures v == (Digit(v, 0) as nat) + 0x100 * (Digit(v, 1) as nat) + 0x1_0000 * (Digit(v, 2) as nat)
                 + 0x100_0000 * (Digit(v, 3) as nat)
    ensures Digit(v, 0) == v % 0x100 && Digit(v, 1) == v / 0x100 % 0x100 && Digit(v, 2) == v / 0x1_0000 % 0x100
    ensures Digit(v, 3) == v / 0x100_0000
  {
    var v1 := v / 0x100;
    var v2 := v1 / 0x100;
    DigitsOf(v);
    TwoShifts(v);
    ThreeShifts(v);
    assert v2 / 0x100 < 0x100;
  }

  /** Four bytes are read as the value that was written. */
  lemma WordReadsBack(v: nat)
    requires v < FOUR_GIB
    ensures FromLe(LowBytes(v, 4)) == v
  {
    var bs := LowBytes(v, 4);
    FromLe32(bs);
    FourDigits(v);
    LowBytesAt(v, 4, 0);
    LowBytesAt(v, 4, 1);
    LowBytesAt(v, 4, 2);
    LowBytesAt(v, 4, 3);
  }

  /** The largest multiple of `size` that is not above `v`. */
  function Down(v: nat, size: nat): nat
    requires size > 0
  {
    v - v % size
  }

  /** A 32-bit write asks for its own value, rounded down to the region's size. */
  lemma WholeWordRequested(base: nat, val: nat, region: nat)
    requires base < FOUR_GIB && val < FOUR_GIB && region > 0
    ensures Requested(base, 0, 4, val, region) == Down(val, region)
  {
    var bs := Le32(base);
    assert bs[..0] + LowBytes(val, 4) + bs[4..] == LowBytes(val, 4);
    WordReadsBack(val);
  }

  lemma LeDigits(v: nat)
    requires v < FOUR_GIB
    ensures forall j :: 0 <= j < 4 ==> Le32(v)[j] == Digit(v, j)
  {
    FourDigits(v);
    HalfDigits(v);
  }

  lemma HalfDigits(v: nat)
    requires v < FOUR_GIB
    ensures Le32(v) == [v % 0x100, v / 0x100 % 0x100, v / 0x1_0000 % 0x100, v / 0x100_0000]
  {
    ThreeShifts(v);
    TwoShifts(v);
  }

  /** A narrower write replaces the bytes that it addresses and keeps the others of the current base. */
  lemma PartWordRequested(base: nat, at: nat, size: nat, val: nat, region: nat, d: seq<nat>)
    requires base < FOUR_GIB && at + size <= 4 && region > 0 && |d| == 4
    requires forall j :: 0 <= j < 4 ==> d[j] == if at <= j < at + size then Digit(val, j - at) else Digit(base, j)
    ensures var v := d[0] + 0x100 * d[1] + 0x1_0000 * d[2] + 0x100_0000 * d[3];
      Requested(base, at, size, val, region) == v - v % region
  {
    var bs := Le32(base);
    var all := bs[..at] + LowBytes(val, size) + bs[at + size..];
    LeDigits(base);
    forall j | 0 <= j < 4
      ensures all[j] == d[j]
    {
      if at <= j < at + size {
        LowBytesAt(val, size, j - at);
      }
    }
    FromLe32(all);
  }

  /** The 32-bit value that a guest reads at a register. */
  function Word(mmio: seq<IoRegion>, f: Function, off: nat): nat {
    FromLe(BytesShown(mmio, f, off, 4))
  }

  /** A guest that writes an address to a BAR, register 0x10 + 4i: if nothing is in the way there, the region moves
      to that address, rounded down to its size, and the register reads it back; otherwise both stay. */
  lemma BarWriteMoves(v: View, fns: seq<Function>, k: nat, i: nat, off: nat, r: IoRegion, val: nat,
                      mmio': seq<IoRegion>, fns': seq<Function>)
    requires k < |fns| && BusOk(v.mmio, fns) && BusOk(mmio', fns') && i < 6 && off == 0x10 + 4 * i && off % 4 == 0
    requires Holds(fns[k], i, r.id) && Get(v.mmio, r.id) == Some(r) && r.span.size > 0 && val < 0xffff_ffff
    requires Written(v, fns, k, off, val, 4, mmio', fns')
    ensures |fns'| == |fns|
    ensures var base := Down(val, r.span.size);
      if MoveFits(v, Mmio, r.id, base)
      then Get(mmio', r.id) == Some(r.(span := Span(base, r.span.size))) && Word(mmio', fns'[k], off) == base
      else Get(mmio', r.id) == Some(r) && Word(mmio', fns'[k], off) == r.span.base
  {
    MovedBar(v, fns, k, i, off, r, val, mmio', fns');
    assert FunctionOk(mmio', fns'[k]);
    BarReadsBack(mmio', fns'[k], i);
  }

  lemma MovedBar(v: View, fns: seq<Function>, k: nat, i: nat, off: nat, r: IoRegion, val: nat,
                 mmio': seq<IoRegion>, fns': seq<Function>)
    requires k < |fns| && BusOk(v.mmio, fns) && i < BARS && off % 4 == 0 && val < 0xffff_ffff
    requires Holds(fns[k], i, r.id) && Get(v.mmio, r.id) == Some(r) && r.span.size > 0
    requires BarWritten(v, fns, k, i, off, val, 4, mmio', fns')
    ensures |fns'| == |fns| && |fns'[k].bars| == BARS && fns'[k].bars[i] == Bar(Some(r.id), false)
    ensures var base := Down(val, r.span.size);
      Get(mmio', r.id) == Some(if MoveFits(v, Mmio, r.id, base) then r.(span := Span(base, r.span.size)) else r)
  {
    assert FunctionOk(v.mmio, fns[k]) && BarOk(Get(v.mmio, r.id), fns[k].config, i);
    WholeWordRequested(r.span.base, val, r.span.size);
    var at, base := IndexOf(v.mmio, r.id), Down(val, r.span.size);
    GetUpdate(v.mmio, at, r.(span := Span(base, r.span.size)), r.id);
  }

  /** All ones make the BAR show the mask of its size: 2^32 less the size; nothing moves. */
  lemma BarProbeShows(v: View, fns: seq<Function>, k: nat, i: nat, off: nat, r: IoRegion, mmio': seq<IoRegion>,
                      fns': seq<Function>)
    requires k < |fns| && BusOk(v.mmio, fns) && BusOk(mmio', fns') && i < 6 && off == 0x10 + 4 * i && off % 4 == 0
    requires Holds(fns[k], i, r.id) && Get(v.mmio, r.id) == Some(r)
    requires Written(v, fns, k, off, 0xffff_ffff, 4, mmio', fns')
    ensures mmio' == v.mmio && |fns'| == |fns| && Word(mmio', fns'[k], off) == 0x1_0000_0000 - r.span.size
  {
    ProbedBar(v, fns, k, i, off, r, mmio', fns');
    assert FunctionOk(mmio', fns'[k]);
    BarReadsBack(mmio', fns'[k], i);
  }

  lemma ProbedBar(v: View, fns: seq<Function>, k: nat, i: nat, off: nat, r: IoRegion, mmio': seq<IoRegion>,
                  fns': seq<Function>)
    requires k < |fns| && BusOk(v.mmio, fns) && i < BARS && off % 4 == 0 && Holds(fns[k], i, r.id)
    requires BarWritten(v, fns, k, i, off, 0xffff_ffff, 4, mmio', fns')
    ensures mmio' == v.mmio && |fns'| == |fns| && |fns'[k].bars| == BARS && fns'[k].bars[i] == Bar(Some(r.id), true)
  {
    assert FunctionOk(v.mmio, fns[k]);
  }

  /** A 16-bit command write: bit 1 switches every region of the function, bits 1, 2 and 10 can be read back, the
      others are zero. */
  lemma CommandWriteShows(v: View, fns: seq<Function>, k: nat, val: nat, mmio': seq<IoRegion>, fns': seq<Function>)
    requires k < |fns| && BusOk(v.mmio, fns) && val < 0x1_0000 && Written(v, fns, k, 4, val, 2, mmio', fns')
    requires BusOk(mmio', fns')
    ensures |fns'| == |fns| && |fns'[k].config| == 256
    ensures fns'[k].config[4] == (if val / 2 % 2 == 1 then 2 else 0) + (if val / 4 % 2 == 1 then 4 else 0)
    ensures fns'[k].config[5] == if val / 1024 % 2 == 1 then 4 else 0
    ensures |fns[k].config| == 256
    ensures forall j :: 0 <= j < 256 && j != 4 && j != 5 ==> fns'[k].config[j] == fns[k].config[j]
    ensures forall i: nat, id: nat :: Holds(fns[k], i, id) ==>
      Get(mmio', id).Some? && (Get(mmio', id).value.enabled <==> val / 2 % 2 == 1)
  {
    CommandStored(v, fns, k, val, mmio', fns');
    assert FunctionOk(mmio', fns'[k]);
    forall i: nat, id: nat | Holds(fns[k], i, id)
      ensures Get(mmio', id).Some? && (Get(mmio', id).value.enabled <==> val / 2 % 2 == 1)
    {
      assert BarOk(Get(mmio', fns'[k].bars[i].region.value), fns'[k].config, i);
    }
  }

  lemma CommandStored(v: View, fns: seq<Function>, k: nat, val: nat, mmio': seq<IoRegion>, fns': seq<Function>)
    requires k < |fns| && BusOk(v.mmio, fns) && val < 0x1_0000 && Written(v, fns, k, 4, val, 2, mmio', fns')
    ensures |fns'| == |fns| && |fns[k].config| == |fns'[k].config| == 256 && fns'[k].bars == fns[k].bars
    ensures fns'[k].config[4] == (if val / 2 % 2 == 1 then 2 else 0) + (if val / 4 % 2 == 1 then 4 else 0)
    ensures fns'[k].config[5] == if val / 1024 % 2 == 1 then 4 else 0
    ensures Decodes(fns'[k].config) <==> val / 2 % 2 == 1
    ensures forall j :: 0 <= j < 256 && j != 4 && j != 5 ==> fns'[k].config[j] == fns[k].config[j]
  {
    assert FunctionOk(v.mmio, fns[k]);
    var bytes := LowBytes(val, 2);
    LowBytesAt(val, 2, 0);
    LowBytesAt(val, 2, 1);
    DigitsOf(val);
    CommandBytes(fns[k].config, fns'[k].config, val, bytes);
  }

  lemma CommandBytes(config: seq<byte>, config': seq<byte>, val: nat, bytes: seq<byte>)
    requires |config| == |config'| == CONFIG_SIZE && |bytes| == 2 && val < 0x1_0000
    requires bytes[0] == val % 0x100 && bytes[1] == val / 0x100
    requires forall j :: 0 <= j < CONFIG_SIZE ==> config'[j] == ByteAfter(config, 4, bytes, j)
    ensures config'[4] == (if val / 2 % 2 == 1 then 2 else 0) + (if val / 4 % 2 == 1 then 4 else 0)
    ensures config'[5] == if val / 1024 % 2 == 1 then 4 else 0
    ensures forall j :: 0 <= j < 256 && j != 4 && j != 5 ==> config'[j] == config[j]
  {
    assert config'[4] == Stored(4, config[4], bytes[0]) && config'[5] == Stored(5, config[5], bytes[1]);
    KeptBits(val, bytes[0], bytes[1]);
  }

  lemma KeptBits(val: nat, low: byte, high: byte)
    requires val < 0x1_0000 && low == val % 0x100 && high == val / 0x100
    ensures low / 2 % 4 * 2 == (if val / 2 % 2 == 1 then 2 else 0) + (if val / 4 % 2 == 1 then 4 else 0)
    ensures high / 4 % 2 * 4 == if val / 1024 % 2 == 1 then 4 else 0
  {
    var l, h := low as nat, high as nat;
    assert val == 0x100 * h + l;
    assert val / 2 == 0x80 * h + l / 2 && val / 4 == 0x40 * h + l / 4;
    assert val / 1024 == h / 4;
  }

  /** Of the other registers below 0x40 only the interrupt line, byte 0x3c, takes what a guest writes. */
  lemma OtherWriteShows(v: View, fns: seq<Function>, k: nat, off: nat, val: nat, size: nat, mmio': seq<IoRegion>,
                        fns': seq<Function>)
    requires k < |fns| && BusOk(v.mmio, fns) && WellFormed(off, size) && off < 0x40
    requires Written(v, fns, k, off, val, size, mmio', fns') && !(0x10 <= off < 0x28) && (off >= 6 || off + size <= 4)
    ensures mmio' == v.mmio && |fns'| == |fns| && |fns[k].config| == |fns'[k].config| == 256
    ensures forall j :: 0 <= j < 256 ==>
      fns'[k].config[j] == if j == 0x3c && off <= 0x3c < off + size then Digit(val, 0x3c - off) else fns[k].config[j]
  {
    assert FunctionOk(v.mmio, fns[k]);
    if off <= 0x3c < off + size {
      LowBytesAt(val, size, 0x3c - off);
    }
  }

  /** Accesses are 1, 2 or 4 bytes at a multiple of their width within the 256 bytes. */
  lemma AccessTable(off: nat, size: nat)
    ensures WellFormed(off, size) <==>
      || (size == 1 && off <= 255) || (size == 2 && off % 2 == 0 && off <= 254)
      || (size == 4 && off % 4 == 0 && off <= 252)
  {}

  /** A 16-bit value from its two bytes. */
  function Pair(low: nat, high: nat): nat {
    low + 0x100 * high
  }

  lemma PlainByte(mmio: seq<IoRegion>, f: Function, at: nat)
    requires |f.config| == 256 && at < 256
    requires forall i :: 0 <= i < |f.bars| ==> !f.bars[i].probe || at < 0x10 + 4 * i || 0x14 + 4 * i <= at
    ensures ByteShown(mmio, f, at) == f.config[at]
  {}

  /** Outside the BARs, and in a BAR that is not probed, a guest reads the bytes of the configuration space, the
      lowest first. */
  lemma PlainRead(mmio: seq<IoRegion>, f: Function, off: nat)
    requires |f.config| == 256 && off < 256
    requires forall i :: 0 <= i < |f.bars| ==> !f.bars[i].probe || off + 4 <= 0x10 + 4 * i || 0x14 + 4 * i <= off
    ensures FromLe(BytesShown(mmio, f, off, 1)) == f.config[off]
    ensures off + 2 <= 256 ==> FromLe(BytesShown(mmio, f, off, 2)) == Pair(f.config[off], f.config[off + 1])
    ensures off + 4 <= 256 ==>
      FromLe(BytesShown(mmio, f, off, 4))
      == Pair(f.config[off], f.config[off + 1]) + 0x1_0000 * Pair(f.config[off + 2], f.config[off + 3])
  {
    forall x | off <= x < off + 4 && x < 256
      ensures ByteShown(mmio, f, x) == f.config[x]
    {
      PlainByte(mmio, f, x);
    }
    var one := BytesShown(mmio, f, off, 1);
    assert one == [f.config[off]] && one[1..] == [];
    if off + 2 <= 256 {
      var two := BytesShown(mmio, f, off, 2);
      assert two[1..] == [f.config[off + 1]] && two[1..][1..] == [];
    }
    if off + 4 <= 256 {
      var four := BytesShown(mmio, f, off, 4);
      FromLe32(four);
      assert four[0] == f.config[off + 0] && four[1] == f.config[off + 1] && four[2] == f.config[off + 2];
      assert four[3] == f.config[off + 3];
    }
  }

  /** A new function shows its pin in byte 0x3d, no interrupt line in 0x3c, and has no regions. */
  lemma NewcomerShows(devfn: nat, config: seq<byte>, pin: byte)
    requires |config| == 256
    ensures var f := Newcomer(devfn, config, pin);
      && f.devfn == devfn && |f.config| == 256 && f.config[0x3d] == pin && f.config[0x3c] == 0 && |f.bars| == 6
      && (forall j :: 0 <= j < 256 && j != 0x3c && j != 0x3d ==> f.config[j] == config[j])
      && forall i :: 0 <= i < 6 ==> f.bars[i].region.None? && !f.bars[i].probe
  {}
}
