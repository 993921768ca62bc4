/** Guest RAM: the region list, the lookups of `src/core/memory.c`, and the bytes behind them.
    A host address is a region index and an offset; the list is frozen once the VM is built. */
module GuestMemory {

  type byte = x: int | 0 <= x < 256

  const U64_MAX: nat := 0xffff_ffff_ffff_ffff

  datatype Region = Region(gpa: nat, size: nat, readonly: bool, reserved: bool)

  /** RAM contents. The host memory of different regions is separate, so a host byte can be
      named by the guest address it backs. */
  type Mem = map<nat, byte>

  datatype Chunk = NoChunk | Chunk(region: nat, offset: nat, len: nat)

  predicate Contains(r: Region, a: nat) {
    r.gpa <= a < r.gpa + r.size
  }

  predicate Disjoint(r: Region, s: Region) {
    r.gpa + r.size <= s.gpa || s.gpa + s.size <= r.gpa
  }

  /** Non-empty regions that do not wrap and do not overlap: what `vm_add_ram` admits. */
  ghost predicate Layout(rs: seq<Region>) {
    && (forall i :: 0 <= i < |rs| ==> rs[i].size > 0 && rs[i].gpa + rs[i].size <= U64_MAX)
    && forall i, j :: 0 <= i < j < |rs| ==> Disjoint(rs[i], rs[j])
  }

  function FindFrom(rs: seq<Region>, a: nat, from: nat): (i: nat)
    requires from <= |rs|
    ensures from <= i <= |rs|
    ensures i < |rs| ==> Contains(rs[i], a)
    ensures forall j :: from <= j < i ==> !Contains(rs[j], a)
    decreases |rs| - from
  {
    if from == |rs| || Contains(rs[from], a) then from else FindFrom(rs, a, from + 1)
  }

  /** Index of the first region that contains `a`, or the number of regions. */
  function Find(rs: seq<Region>, a: nat): (i: nat)
    ensures i <= |rs|
    ensures i < |rs| ==> Contains(rs[i], a)
    ensures forall j :: 0 <= j < i ==> !Contains(rs[j], a)
  {
    FindFrom(rs, a, 0)
  }

  /** The list scan of `find_region`. */
  method FindRegion(rs: seq<Region>, a: nat) returns (i: nat)
    ensures i == Find(rs, a)
  {
    i := 0;
    while i < |rs| && !(a >= rs[i].gpa && a - rs[i].gpa < rs[i].size)
      invariant i <= |rs|
      invariant Find(rs, a) == FindFrom(rs, a, i)
    {
      i := i + 1;
    }
  }

  /** Address `a` is backed by RAM that permits the access. */
  predicate Mapped(rs: seq<Region>, a: nat, write: bool) {
    var i := Find(rs, a);
    i < |rs| && !(write && rs[i].readonly)
  }

  /** `mem_map_chunk`: one host-contiguous piece, cut at the region's end. */
  function MapChunk(rs: seq<Region>, gpa: nat, len: nat, write: bool): Chunk {
    var i := Find(rs, gpa);
    if len == 0 || gpa > U64_MAX || len > U64_MAX - gpa || i == |rs| || (write && rs[i].readonly) then NoChunk
    else
      var offset := gpa - rs[i].gpa;
      var available := rs[i].size - offset;
      Chunk(i, offset, if len < available then len else available)
  }

  /** `mem_map_range`: the whole span or nothing. */
  function MapRange(rs: seq<Region>, gpa: nat, len: nat, write: bool): (c: Chunk)
    ensures c.Chunk? ==> c.len == len && c.region < |rs| && c.offset + len <= rs[c.region].size
    ensures c.Chunk? ==> rs[c.region].gpa + c.offset == gpa && !(write && rs[c.region].readonly)
  {
    var c := MapChunk(rs, gpa, len, write);
    if c.Chunk? && c.len == len then c else NoChunk
  }

  /** A non-empty span is mapped exactly when it does not wrap and one region with the permission
      holds all of it. */
  lemma RangeIsMapped(rs: seq<Region>, gpa: nat, len: nat, write: bool)
    requires Layout(rs)
    ensures MapRange(rs, gpa, len, write).Chunk? <==>
      0 < len && gpa + len <= U64_MAX && exists i :: 0 <= i < |rs| && Encloses(rs[i], gpa, len, write)
  {
    if i :| 0 <= i < |rs| && Encloses(rs[i], gpa, len, write) && len > 0 {
      FindUnique(rs, gpa, i);
    }
    var c := MapRange(rs, gpa, len, write);
    assert c.Chunk? ==> Encloses(rs[c.region], gpa, len, write);
  }

  predicate Encloses(r: Region, gpa: nat, len: nat, write: bool) {
    r.gpa <= gpa && gpa + len <= r.gpa + r.size && !(write && r.readonly)
  }

  lemma {:induction false} FindUnique(rs: seq<Region>, a: nat, i: nat)
    requires Layout(rs) && i < |rs| && Contains(rs[i], a)
    ensures Find(rs, a) == i
  {}

  /** Every byte of a chunk lies in the chunk's region, at consecutive offsets, with permission;
      and a chunk is refused only when its first byte is not accessible (or the span is empty or
      wraps). */
  lemma ChunkIsContiguous(rs: seq<Region>, gpa: nat, len: nat, write: bool, k: nat)
    requires Layout(rs)
    ensures var c := MapChunk(rs, gpa, len, write);
      && (c.Chunk? <==> 0 < len && gpa <= U64_MAX && len <= U64_MAX - gpa && Mapped(rs, gpa, write))
      && (c.Chunk? ==> 0 < c.len <= len)
      && (c.Chunk? && k < c.len ==>
            && Find(rs, gpa + k) == c.region && rs[c.region].gpa + c.offset + k == gpa + k
            && Mapped(rs, gpa + k, write))
  {}

  /** The RAM contents have a byte for every guest address that a region covers. */
  ghost predicate Backed(rs: seq<Region>, mem: Mem) {
    forall a :: Find(rs, a) < |rs| ==> a in mem
  }

  /** The guest address of the host byte at `offset` behind a region. */
  function HostByte(rs: seq<Region>, region: nat, offset: nat): nat
    requires region < |rs|
  {
    rs[region].gpa + offset
  }

  /** A memcpy from a host address. */
  function Load(rs: seq<Region>, mem: Mem, region: nat, offset: nat, n: nat): (bs: seq<byte>)
    requires Layout(rs) && Backed(rs, mem) && region < |rs| && offset + n <= rs[region].size
    ensures |bs| == n
  {
    seq(n, k requires 0 <= k < n => HostByteBacked(rs, mem, region, offset + k); mem[HostByte(rs, region, offset + k)])
  }

  lemma HostByteBacked(rs: seq<Region>, mem: Mem, region: nat, offset: nat)
    requires Layout(rs) && Backed(rs, mem) && region < |rs| && offset < rs[region].size
    ensures HostByte(rs, region, offset) in mem
  {}

  /** A memcpy of `src[from..end]` to a host address. */
  function CopyIn(rs: seq<Region>, mem: Mem, region: nat, offset: nat, src: seq<byte>, from: nat, end: nat): (m: Mem)
    requires from <= end <= |src| && region < |rs|
    ensures mem.Keys <= m.Keys
    decreases end
  {
    if end == from then mem
    else CopyIn(rs, mem, region, offset, src, from, end - 1)
           [HostByte(rs, region, offset + (end - 1 - from)) := src[end - 1]]
  }

  /** The guest physical memory space of a VM: frozen regions, mutable contents. */
  class RamSpace {
    const regions: seq<Region>
    var mem: Mem

    ghost predicate Valid()
      reads this
    {
      Layout(regions) && Backed(regions, mem)
    }

    constructor (regions: seq<Region>, mem: Mem)
      requires Layout(regions) && Backed(regions, mem)
      ensures Valid() && this.regions == regions && this.mem == mem
    {
      this.regions, this.mem := regions, mem;
    }

    /** The guest runs and writes `w` to its RAM. */
    method GuestRuns(w: Mem)
      requires Valid()
      modifies this
      ensures Valid() && mem == Overlay(old(mem), w)
    {
      mem := Overlay(mem, w);
    }
  }

  /** `mem` with the bytes of `w` written over it; nothing appears where there is no RAM. */
  function Overlay(mem: Mem, w: Mem): (m: Mem)
    ensures m.Keys == mem.Keys && forall a :: a in mem ==> m[a] == if a in w then w[a] else mem[a]
  {
    map a | a in mem :: if a in w then w[a] else mem[a]
  }

  // Little-endian fields of guest structures.

  predicate Has(mem: Mem, a: nat, n: nat) {
    forall x :: a <= x < a + n ==> x in mem
  }

  /** The byte at `a`; zero where there is no RAM, so that the field functions are total. */
  function ByteAt(mem: Mem, a: nat): byte {
    if a in mem then mem[a] else 0
  }

  function U16(mem: Mem, a: nat): (v: nat)
    ensures v < 0x1_0000
  {
    (ByteAt(mem, a) as nat) + 0x100 * (ByteAt(mem, a + 1) as nat)
  }

  function U32(mem: Mem, a: nat): (v: nat)
    ensures v < 0x1_0000_0000
  {
    U16(mem, a) + 0x1_0000 * U16(mem, a + 2)
  }

  function U64(mem: Mem, a: nat): (v: nat)
    ensures v <= U64_MAX
  {
    U32(mem, a) + 0x1_0000_0000 * U32(mem, a + 4)
  }

  function Le16(v: nat): (bs: seq<byte>)
    requires v < 0x1_0000
    ensures |bs| == 2
  {
    [v % 0x100, v / 0x100]
  }

  function Le32(v: nat): (bs: seq<byte>)
    requires v < 0x1_0000_0000
    ensures |bs| == 4
  {
    Le16(v % 0x1_0000) + Le16(v / 0x1_0000)
  }

  /** The value of little-endian bytes. */
  function FromLe(bs: seq<byte>): nat {
    if bs == [] then 0 else (bs[0] as nat) + 0x100 * FromLe(bs[1..])
  }

  lemma FromLe32(bs: seq<byte>)
    requires |bs| == 4
    ensures FromLe(bs) == (bs[0] as nat) + 0x100 * (bs[1] as nat) + 0x1_0000 * (bs[2] as nat)
                          + 0x100_0000 * (bs[3] as nat)
    ensures FromLe(bs) < 0x1_0000_0000
  {
    assert bs[3..][1..] == [] && bs[2..][1..] == bs[3..] && bs[1..][1..] == bs[2..];
    assert FromLe(bs[3..]) == bs[3] as nat + 0x100 * FromLe([]);
    assert FromLe(bs[2..]) == bs[2] as nat + 0x100 * FromLe(bs[3..]);
    assert FromLe(bs[1..]) == bs[1] as nat + 0x100 * FromLe(bs[2..]);
  }

  /** The two forms of a 32-bit field are inverse to each other. */
  lemma Le32RoundTrip(v: nat)
    requires v < 0x1_0000_0000
    ensures FromLe(Le32(v)) == v
  {
    FromLe32(Le32(v));
  }

  /** Write bytes at consecutive guest addresses. */
  function Poke(mem: Mem, a: nat, bs: seq<byte>): (m: Mem)
    ensures mem.Keys <= m.Keys
    ensures forall x :: a <= x < a + |bs| ==> x in m && m[x] == bs[x - a]
    ensures forall x :: x in mem && !(a <= x < a + |bs|) ==> m[x] == mem[x]
  {
    if bs == [] then mem
    else
      var last := |bs| - 1;
      Poke(mem, a, bs[..last])[a + last := bs[last]]
  }

}
