/** The split virtqueue of `src/hw/virtio/virtqueue.c` (sections 2.4.4 to 2.4.8 of VIRTIO 1.0). */
module Virtqueues {
  import opened GuestMemory
  import opened Streams
  import opened Chains
  import opened PowersOfTwo

  datatype Error = EINVAL | EFAULT | EIO | ELOOP

  /** Guest addresses of the three mapped rings. */
  datatype Rings = Unmapped | Rings(desc: nat, avail: nat, used: nat)

  /** `head` names the chain; the buffers are the descriptors' snapshots in chain order. */
  datatype Chain = Chain(head: nat, bufs: seq<Buf>, readable: nat, writable: nat)

  datatype PopResult = Nothing | Popped(chain: Chain) | Failed(error: Error)

  const U32_MAX: nat := 0xffff_ffff

  /** The whole span lies in one region with the needed permission. */
  predicate Fits(rs: seq<Region>, gpa: nat, len: nat, write: bool) {
    var i := Find(rs, gpa);
    gpa + len <= U64_MAX && i < |rs| && gpa + len <= rs[i].gpa + rs[i].size && !(write && rs[i].readonly)
  }

  /** The three rings of a queue of `size` entries are mapped, the used ring for writing. */
  predicate RingsFit(rs: seq<Region>, size: nat, q: Rings) {
    && q.Rings?
    && Fits(rs, q.desc, 16 * size, false)
    && Fits(rs, q.avail, 6 + 2 * size, false)
    && Fits(rs, q.used, 6 + 8 * size, true)
  }

  lemma FitsBacked(rs: seq<Region>, mem: Mem, gpa: nat, len: nat, write: bool)
    requires Layout(rs) && Backed(rs, mem) && Fits(rs, gpa, len, write)
    ensures Has(mem, gpa, len)
  {}

  function DescAt(mem: Mem, a: nat): (d: Desc)
    ensures d.addr <= U64_MAX && d.len <= U32_MAX && d.next < 0x1_0000
  {
    Desc(U64(mem, a), U32(mem, a + 8), U16(mem, a + 12), U16(mem, a + 14))
  }

  /** The descriptor table as the guest wrote it. */
  function Table(mem: Mem, a: nat, size: nat): (t: seq<Desc>)
    ensures |t| == size && forall i :: 0 <= i < size ==> t[i].addr <= U64_MAX && t[i].len <= U32_MAX
  {
    seq(size, i requires 0 <= i < size => DescAt(mem, a + 16 * i))
  }

  /** The mapping loop of `virtqueue_pop` for one buffer: it succeeds exactly when every byte is
      accessible. */
  method ProbeBuffer(rs: seq<Region>, gpa: nat, length: nat, write: bool) returns (ok: bool)
    requires Layout(rs) && gpa + length <= U64_MAX
    ensures ok <==> BufMapped(rs, Buf(gpa, length, write))
  {
    var a, left := gpa, length;
    while left > 0
      invariant a + left == gpa + length
      invariant forall x :: gpa <= x < a ==> Mapped(rs, x, write)
      decreases left
    {
      var c := MapChunk(rs, a, left, write);
      ChunkIsContiguous(rs, a, left, write, 0);
      if c.NoChunk? {
        return false;
      }
      forall x | a <= x < a + c.len
        ensures Mapped(rs, x, write)
      {
        ChunkIsContiguous(rs, a, left, write, x - a);
      }
      a := a + c.len;
      left := left - c.len;
    }
    return true;
  }

  /** The checks `virtqueue_pop` makes on one descriptor: flags and direction, address wrap and
      stream length, then the mapping of every byte. The stream length test never fails. */
  method CheckDesc(rs: seq<Region>, desc: Desc, sawWrite: bool, total: nat) returns (usable: bool, error: Error)
    requires Layout(rs) && desc.len <= U32_MAX && desc.addr <= U64_MAX && total <= 0xffff * U32_MAX
    ensures usable <==> Usable(rs, desc) && (sawWrite ==> IsWrite(desc))
    ensures !usable ==> error == if desc.flags >= 4 || (sawWrite && !IsWrite(desc)) then EINVAL else EFAULT
  {
    var write := IsWrite(desc);
    if desc.flags >= 4 || (sawWrite && !write) {
      return false, EINVAL;
    }
    if desc.len > U64_MAX - desc.addr || desc.len > U64_MAX - total {
      return false, EFAULT;
    }
    usable := ProbeBuffer(rs, desc.addr, desc.len, write);
    error := EFAULT;
  }

  /** The descriptor loop of `virtqueue_pop`: it accepts exactly the acceptable chains and
      stores at most one snapshot per table entry. `ELOOP` means a revisited descriptor. */
  method WalkChain(rs: seq<Region>, t: seq<Desc>, head: nat)
    returns (ok: bool, error: Error, bufs: seq<Buf>, readable: nat, writable: nat)
    requires Layout(rs) && |t| < 0x1_0000
    requires forall i :: 0 <= i < |t| ==> t[i].addr <= U64_MAX && t[i].len <= U32_MAX
    ensures ok <==> Acceptable(rs, t, head)
    ensures ok ==> exists p :: GoodChain(rs, t, head, p)
                               && bufs == BufsOf(t, p)
    ensures |bufs| <= |t|
    ensures ok ==> readable == |Stream(bufs, false)| && writable == |Stream(bufs, true)|
    ensures !ok && error == ELOOP ==>
      exists w :: w != [] && w[0] == head && Walk(t, w) && !Acyclic(w)
    ensures !ok ==> exists w, index :: FailsAt(rs, t, head, w, index, error)
  {
    ghost var w: seq<nat> := [];
    var index: nat := head;
    var sawWrite := false;
    bufs, readable, writable, error, ok := [], 0, 0, EFAULT, false;
    while true
      invariant |bufs| == |w| <= |t| && Arrived(t, head, w, index) && Sound(rs, t, w)
      invariant bufs == BufsOf(t, w)
      invariant sawWrite <==> SawWrite(t, w)
      invariant readable == |Stream(bufs, false)| <= |bufs| * U32_MAX
      invariant writable == |Stream(bufs, true)| <= |bufs| * U32_MAX
      invariant !ok && error == EFAULT
      decreases |t| - |bufs|
    {
      if index >= |t| {
        Reject(rs, t, head, w, index);
        assert FailsAt(rs, t, head, w, index, EFAULT);
        return;
      }
      if |bufs| == |t| {
        error := ELOOP;
        Reject(rs, t, head, w, index);
        LoopFound(t, head, w, index);
        assert FailsAt(rs, t, head, w, index, ELOOP);
        return;
      }
      var desc := t[index];
      var usable, why := CheckDesc(rs, desc, sawWrite, if IsWrite(desc) then writable else readable);
      if !usable {
        error := why;
        Reject(rs, t, head, w, index);
        assert FailsAt(rs, t, head, w, index, why);
        return;
      }
      if IsWrite(desc) {
        sawWrite := true;
        writable := writable + desc.len;
      } else {
        readable := readable + desc.len;
      }
      AppendBuf(bufs, BufOf(desc));
      bufs := bufs + [BufOf(desc)];
      Extend(t, head, w, index);
      ExtendSound(rs, t, head, w, index);
      w := w + [index];
      if !HasNext(desc) {
        Accept(rs, t, head, w);
        ok := true;
        return;
      }
      index := desc.next;
    }
  }

  /** The walk `w` arrives at the descriptor that cannot be used, and `error` is the reason: a bad index,
      too many descriptors, a bad flag or order, or memory that is not there. */
  ghost predicate FailsAt(rs: seq<Region>, t: seq<Desc>, head: nat, w: seq<nat>, index: nat, error: Error) {
    && |w| <= |t| && Arrived(t, head, w, index) && Sound(rs, t, w)
    && if index >= |t| then error == EFAULT
       else if |w| == |t| then error == ELOOP
       else if t[index].flags >= 4 || (SawWrite(t, w) && !IsWrite(t[index])) then error == EINVAL
       else error == EFAULT && !Usable(rs, t[index])
  }

  /** A chain fails in one place, with one error. */
  lemma OneFailure(rs: seq<Region>, t: seq<Desc>, head: nat, w: seq<nat>, index: nat, error: Error, v: seq<nat>,
                   next: nat, other: Error)
    requires FailsAt(rs, t, head, w, index, error) && FailsAt(rs, t, head, v, next, other)
    ensures w == v && index == next && error == other
  {
    if |w| <= |v| {
      NoLaterFailure(rs, t, head, w, index, error, v, next, other);
    } else {
      NoLaterFailure(rs, t, head, v, next, other, w, index, error);
    }
  }

  lemma NoLaterFailure(rs: seq<Region>, t: seq<Desc>, head: nat, w: seq<nat>, index: nat, error: Error, v: seq<nat>,
                       next: nat, other: Error)
    requires FailsAt(rs, t, head, w, index, error) && FailsAt(rs, t, head, v, next, other) && |w| <= |v|
    ensures w == v && index == next && error == other
  {
    SameWay(t, head, w, index, v, next);
    assert forall i :: 0 <= i < |w| ==> v[i] == w[i];
  }

  lemma AppendBuf(bufs: seq<Buf>, b: Buf)
    ensures forall write ::
      |Stream(bufs + [b], write)| == |Stream(bufs, write)| + if b.isWrite == write then b.len else 0
  {
    forall write: bool
      ensures |Stream(bufs + [b], write)| == |Stream(bufs, write)| + if b.isWrite == write then b.len else 0
    {
      StreamAppend(bufs, [b], write);
      assert Stream([b], write) == if b.isWrite == write then Span(b.gpa, b.len) else [];
    }
  }

  // ----- the byte streams of a popped chain

  /** What a successful pop hands out. */
  ghost predicate ChainOk(rs: seq<Region>, c: Chain) {
    && BufsMapped(rs, c.bufs)
    && c.readable == |Stream(c.bufs, false)| && c.writable == |Stream(c.bufs, true)|
  }

  lemma GoodBufsMapped(rs: seq<Region>, t: seq<Desc>, head: nat, p: seq<nat>)
    requires GoodChain(rs, t, head, p)
    ensures BufsMapped(rs, BufsOf(t, p))
  {}

  /** Guest addresses of a slice of the stream. */
  function Slice(bufs: seq<Buf>, write: bool, offset: nat, size: nat): seq<nat>
    requires offset + size <= |Stream(bufs, write)|
  {
    Stream(bufs, write)[offset..offset + size]
  }

  lemma SliceBacked(rs: seq<Region>, mem: Mem, bufs: seq<Buf>, write: bool)
    requires Layout(rs) && Backed(rs, mem) && BufsMapped(rs, bufs)
    ensures forall i :: 0 <= i < |Stream(bufs, write)| ==> Stream(bufs, write)[i] in mem
  {
    StreamMapped(rs, bufs, write);
  }

  /** `virtqueue_read`: every in-range read of an accepted chain succeeds and returns that slice
      of the readable stream, across buffer and region boundaries. */
  method ReadChain(rs: seq<Region>, mem: Mem, chain: Chain, offset: nat, size: nat) returns (ok: bool, data: seq<byte>)
    requires Layout(rs) && Backed(rs, mem) && ChainOk(rs, chain)
    ensures ok <==> offset + size <= chain.readable
    ensures ok ==> (forall a :: a in Slice(chain.bufs, false, offset, size) ==> a in mem)
                   && data == ReadAll(mem, Slice(chain.bufs, false, offset, size))
  {
    data := [];
    if offset > chain.readable || size > chain.readable - offset {
      return false, data;
    }
    SliceBacked(rs, mem, chain.bufs, false);
    ghost var at := Slice(chain.bufs, false, offset, size);
    var done := 0;
    while done < size
      invariant done <= size
      invariant data == ReadAll(mem, at)[..done]
    {
      var c := Map(rs, chain.bufs, false, offset + done);
      var n := if c.len > size - done then size - done else c.len;
      SliceRun(rs, chain.bufs, false, offset, size, done, c, done + n);
      LoadSlice(rs, mem, at, done, c.region, c.offset, n);
      data := data + Load(rs, mem, c.region, c.offset, n);
      done := done + n;
    }
    assert ReadAll(mem, at)[..size] == ReadAll(mem, at);
    ok := true;
  }

  /** A chunk that serves the stream serves the slice, at consecutive host bytes. */
  lemma SliceRun(rs: seq<Region>, bufs: seq<Buf>, write: bool, offset: nat, size: nat, done: nat, c: Chunk, next: nat)
    requires offset + size <= |Stream(bufs, write)| && done <= next <= size
    requires Serves(rs, Stream(bufs, write), write, offset + done, c) && next - done <= c.len
    ensures forall x :: done <= x < next ==>
      Slice(bufs, write, offset, size)[x] == HostByte(rs, c.region, c.offset + (x - done))
  {}

  lemma LoadSlice(rs: seq<Region>, mem: Mem, at: seq<nat>, p: nat, region: nat, offset: nat, n: nat)
    requires Layout(rs) && Backed(rs, mem) && region < |rs| && offset + n <= rs[region].size
    requires forall i :: 0 <= i < |at| ==> at[i] in mem
    requires p + n <= |at| && forall x :: p <= x < p + n ==> at[x] == HostByte(rs, region, offset + (x - p))
    ensures ReadAll(mem, at)[..p] + Load(rs, mem, region, offset, n) == ReadAll(mem, at)[..p + n]
  {}

  /** `virtqueue_write`: every in-range write of an accepted chain succeeds and is the write of
      its bytes one by one, in order, to that slice of the writable stream. */
  method WriteChain(ram: RamSpace, chain: Chain, offset: nat, data: seq<byte>) returns (ok: bool)
    requires ram.Valid() && ChainOk(ram.regions, chain)
    modifies ram
    ensures ram.Valid()
    ensures ok <==> offset + |data| <= chain.writable
    ensures ram.mem == if ok then WriteRange(old(ram.mem), Slice(chain.bufs, true, offset, |data|), data, 0, |data|)
                       else old(ram.mem)
  {
    ok := offset <= chain.writable && |data| <= chain.writable - offset;
    if ok {
      ram.mem := CopyLoop(ram.regions, ram.mem, chain, offset, data);
    }
  }

  /** The loop of `virtqueue_copy` for a write. */
  method CopyLoop(rs: seq<Region>, mem: Mem, chain: Chain, offset: nat, data: seq<byte>) returns (m: Mem)
    requires Layout(rs) && Backed(rs, mem) && ChainOk(rs, chain) && offset + |data| <= chain.writable
    ensures m == WriteRange(mem, Slice(chain.bufs, true, offset, |data|), data, 0, |data|)
    ensures Backed(rs, m)
  {
    ghost var at := Slice(chain.bufs, true, offset, |data|);
    m := mem;
    var done := 0;
    while done < |data|
      invariant done <= |data|
      invariant m == WriteRange(mem, at, data, 0, done)
    {
      var c := Map(rs, chain.bufs, true, offset + done);
      var next := done + if c.len > |data| - done then |data| - done else c.len;
      SliceRun(rs, chain.bufs, true, offset, |data|, done, c, next);
      StoreSlice(rs, mem, m, at, data, done, next, c.region, c.offset);
      m, done := CopyIn(rs, m, c.region, c.offset, data, done, next), next;
    }
    BackedMore(rs, mem, m);
  }

  lemma StoreSlice(rs: seq<Region>, mem: Mem, m: Mem, at: seq<nat>, bs: seq<byte>, p: nat, q: nat, region: nat,
                   offset: nat)
    requires p <= q <= |at| && q <= |bs| && region < |rs| && m == WriteRange(mem, at, bs, 0, p)
    requires forall x :: p <= x < q ==> at[x] == HostByte(rs, region, offset + (x - p))
    ensures CopyIn(rs, m, region, offset, bs, p, q) == WriteRange(mem, at, bs, 0, q)
  {}

  /** No byte of a writable stream is read-only RAM. */
  lemma WritableIsNotReadOnly(rs: seq<Region>, chain: Chain, i: nat)
    requires ChainOk(rs, chain) && i < chain.writable
    ensures var r := Find(rs, Stream(chain.bufs, true)[i]); r < |rs| && !rs[r].readonly
  {
    StreamMapped(rs, chain.bufs, true);
    assert Mapped(rs, Stream(chain.bufs, true)[i], true);
  }

  /** A write through an accepted chain leaves every byte outside the slice alone. */
  lemma WriteTouchesOnlySlice(mem: Mem, chain: Chain, offset: nat, data: seq<byte>, a: nat)
    requires offset + |data| <= |Stream(chain.bufs, true)|
    requires a in mem && a !in Slice(chain.bufs, true, offset, |data|)
    ensures WriteRange(mem, Slice(chain.bufs, true, offset, |data|), data, 0, |data|)[a] == mem[a]
  {
    WholeFrame(mem, Slice(chain.bufs, true, offset, |data|), data, a);
  }

  // ----- the rings

  /** The index field of the available ring. */
  function Available(mem: Mem, q: Rings): nat
    requires q.Rings?
  {
    U16(mem, q.avail + 2)
  }

  /** The head that the pop after `pops` earlier ones takes. */
  function NextHead(mem: Mem, size: nat, q: Rings, pops: nat): nat
    requires q.Rings? && size > 0
  {
    U16(mem, q.avail + 4 + 2 * (pops % size))
  }

  /** A chain is pending and the device accepts it. */
  ghost predicate CanPop(rs: seq<Region>, mem: Mem, size: nat, q: Rings, pops: nat)
    requires q.Rings? && size > 0
  {
    && Available(mem, q) != pops % 0x1_0000
    && (Available(mem, q) - pops % 0x1_0000) % 0x1_0000 <= size
    && Acceptable(rs, Table(mem, q.desc, size), NextHead(mem, size, q, pops))
  }

  /** The result of a pop on an enabled, unbroken queue that has popped `pops` chains: nothing is
      pending, or the pending head is taken exactly when its chain is acceptable. */
  ghost predicate PopSpec(rs: seq<Region>, mem: Mem, size: nat, q: Rings, pops: nat, r: PopResult)
    requires q.Rings? && size > 0
  {
    var t := Table(mem, q.desc, size);
    && (r.Nothing? <==> Available(mem, q) == pops % 0x1_0000)
    && (r.Popped? <==> CanPop(rs, mem, size, q, pops))
    && (r.Popped? ==>
          && r.chain.head == NextHead(mem, size, q, pops) && ChainOk(rs, r.chain) && |r.chain.bufs| <= size
          && exists p :: GoodChain(rs, t, r.chain.head, p) && r.chain.bufs == BufsOf(t, p))
    && (r.Failed? ==>
          if (Available(mem, q) - pops % 0x1_0000) % 0x1_0000 > size then r.error == EFAULT
          else exists w, index :: FailsAt(rs, t, NextHead(mem, size, q, pops), w, index, r.error))
    && (r == Failed(ELOOP) ==>
          exists w :: w != [] && w[0] == NextHead(mem, size, q, pops) && Walk(t, w) && !Acyclic(w))
  }

  /** The result of a pop on a queue with settings `c`. */
  ghost predicate PopsTo(rs: seq<Region>, mem: Mem, c: Config, broken: bool, pops: nat, r: PopResult) {
    if !c.enabled then r == Nothing
    else if broken then r == Failed(EIO)
    else c.rings.Rings? && c.size > 0 && PopSpec(rs, mem, c.size, c.rings, pops, r)
  }

  /** `virtqueue_pop` past the enabled and broken tests; `last` is the wrapped counter. */
  method Fetch(rs: seq<Region>, mem: Mem, size: nat, q: Rings, last: nat, ghost pops: nat) returns (r: PopResult)
    requires Layout(rs) && Backed(rs, mem) && RingsFit(rs, size, q)
    requires PowerOfTwo(size) && size < 0x1_0000 && last == pops % 0x1_0000
    ensures PopSpec(rs, mem, size, q, pops, r)
  {
    FitsBacked(rs, mem, q.avail, 6 + 2 * size, false);
    FitsBacked(rs, mem, q.desc, 16 * size, false);
    assert Has(mem, q.avail + 2, 2);
    var available := Available(mem, q);
    if available == last {
      return Nothing;
    }
    if (available - last) % 0x1_0000 > size {
      return Failed(EFAULT);
    }
    SlotOfWrapped(pops, size);
    var slot := last % size;
    assert Has(mem, q.avail + 4 + 2 * slot, 2);
    var head := U16(mem, q.avail + 4 + 2 * slot);
    r := FetchChain(rs, Table(mem, q.desc, size), head);
  }

  /** `virtqueue_pop` on values, as the device handlers use it: a pop on a queue with settings `c`. */
  method Take(rs: seq<Region>, mem: Mem, c: Config, broken: bool, last: nat, ghost pops: nat) returns (r: PopResult)
    requires Layout(rs) && Backed(rs, mem) && (c.enabled ==> RingsFit(rs, c.size, c.rings))
    requires PowerOfTwo(c.size) && c.size < 0x1_0000 && last == pops % 0x1_0000
    ensures r.Nothing? <==> Idle(mem, c, broken, pops)
    ensures r.Failed? <==> Jammed(rs, mem, c, broken, pops)
    ensures r.Popped? ==> !broken && Took(rs, mem, c, pops, r.chain) && |r.chain.bufs| <= c.size
    ensures PopsTo(rs, mem, c, broken, pops, r)
  {
    if !c.enabled {
      return Nothing;
    }
    if broken {
      return Failed(EIO);
    }
    r := Fetch(rs, mem, c.size, c.rings, last, pops);
  }

  method FetchChain(rs: seq<Region>, t: seq<Desc>, head: nat) returns (r: PopResult)
    requires Layout(rs) && |t| < 0x1_0000
    requires forall i :: 0 <= i < |t| ==> t[i].addr <= U64_MAX && t[i].len <= U32_MAX
    ensures r.Popped? || r.Failed?
    ensures r.Popped? <==> Acceptable(rs, t, head)
    ensures r.Popped? ==> r.chain.head == head && ChainOk(rs, r.chain) && |r.chain.bufs| <= |t|
    ensures r.Popped? ==> exists p :: GoodChain(rs, t, head, p) && r.chain.bufs == BufsOf(t, p)
    ensures r == Failed(ELOOP) ==> exists w :: w != [] && w[0] == head && Walk(t, w) && !Acyclic(w)
    ensures r.Failed? ==> exists w, index :: FailsAt(rs, t, head, w, index, r.error)
  {
    var ok, error, bufs, readable, writable := WalkChain(rs, t, head);
    if !ok {
      return Failed(error);
    }
    ghost var p :| GoodChain(rs, t, head, p) && bufs == BufsOf(t, p);
    GoodBufsMapped(rs, t, head, p);
    return Popped(Chain(head, bufs, readable, writable));
  }

  /** The memory after used element `slot` and the index field are written. */
  function UsedMem(mem: Mem, used: nat, slot: nat, id: nat, len: nat, idx: nat): (m: Mem)
    requires id <= U32_MAX && len <= U32_MAX && idx < 0x1_0000
    ensures mem.Keys <= m.Keys
  {
    Poke(Poke(mem, used + 4 + 8 * slot, Le32(id) + Le32(len)), used + 2, Le16(idx))
  }

  /** The memory after the push that follows `pushes` earlier ones. */
  function Pushed(mem: Mem, q: Rings, size: nat, pushes: nat, id: nat, len: nat): (m: Mem)
    requires q.Rings? && size > 0 && id <= U32_MAX && len <= U32_MAX
    ensures mem.Keys <= m.Keys
  {
    UsedMem(mem, q.used, pushes % size, id, len, (pushes + 1) % 0x1_0000)
  }

  /** The slot then holds the element and the index field the new count. */
  lemma UsedMemHolds(mem: Mem, used: nat, slot: nat, id: nat, len: nat, idx: nat)
    requires id <= U32_MAX && len <= U32_MAX && idx < 0x1_0000
    ensures var m := UsedMem(mem, used, slot, id, len, idx); var elem := used + 4 + 8 * slot;
      U32(m, elem) == id && U32(m, elem + 4) == len && U16(m, used + 2) == idx
  {}

  /** No other guest byte changes. */
  lemma UsedMemFrame(mem: Mem, used: nat, slot: nat, id: nat, len: nat, idx: nat, x: nat)
    requires id <= U32_MAX && len <= U32_MAX && idx < 0x1_0000
    requires x in mem && !(used + 4 + 8 * slot <= x < used + 12 + 8 * slot) && !(used + 2 <= x < used + 4)
    ensures UsedMem(mem, used, slot, id, len, idx)[x] == mem[x]
  {}

  lemma BackedMore(rs: seq<Region>, mem: Mem, m': Mem)
    requires Backed(rs, mem) && mem.Keys <= m'.Keys
    ensures Backed(rs, m')
  {}

  lemma WrapSucc(n: nat)
    ensures (n % 0x1_0000 + 1) % 0x1_0000 == (n + 1) % 0x1_0000
  {}

  // ----- the queue

  /** Guest memory once the status byte is stored. */
  ghost function WithStatus(chain: Chain, mem: Mem, status: byte): Mem
    requires 0 < chain.writable == |Stream(chain.bufs, true)|
  {
    WriteRange(mem, Slice(chain.bufs, true, chain.writable - 1, 1), [status], 0, 1)
  }

  /** Guest memory once the chain is also in the used ring. */
  ghost function Returned(chain: Chain, mem: Mem, status: byte, written: nat, q: Rings, size: nat, pushes: nat): Mem
    requires 0 < chain.writable == |Stream(chain.bufs, true)| && chain.head < 0x1_0000 && written < U32_MAX
    requires q.Rings? && size > 0
  {
    Pushed(WithStatus(chain, mem, status), q, size, pushes, chain.head, written + 1)
  }

  /** What a transport configures of a queue. */
  datatype Config = Config(max: nat, size: nat, enabled: bool, rings: Rings)

  predicate CanResize(c: Config, size: nat) {
    !c.enabled && PowerOfTwo(size) && size <= c.max
  }

  predicate CanMap(rs: seq<Region>, c: Config, q: Rings) {
    q.Rings? && q.desc % 16 == 0 && q.avail % 2 == 0 && q.used % 4 == 0 && RingsFit(rs, c.size, q)
  }

  function Resized(c: Config, size: nat): Config {
    if CanResize(c, size) then c.(size := size) else c
  }

  function Mapping(rs: seq<Region>, c: Config, q: Rings): Config {
    if CanMap(rs, c, q) then c.(enabled := true, rings := q) else c
  }

  function Fresh(c: Config): Config {
    Config(c.max, c.max, false, Unmapped)
  }

  // How a pop goes on a queue with settings `c` that has popped `pops` chains.

  /** There is nothing to pop. */
  ghost predicate Idle(mem: Mem, c: Config, broken: bool, pops: nat) {
    !c.enabled || (!broken && c.rings.Rings? && Available(mem, c.rings) == pops % 0x1_0000)
  }

  /** The queue is broken, or its rings show a chain that the device must not touch. */
  ghost predicate Jammed(rs: seq<Region>, mem: Mem, c: Config, broken: bool, pops: nat) {
    && c.enabled
    && (broken || (c.rings.Rings? && c.size > 0 && Available(mem, c.rings) != pops % 0x1_0000
                   && !CanPop(rs, mem, c.size, c.rings, pops)))
  }

  /** The next available chain is acceptable and is `chain`. */
  ghost predicate Took(rs: seq<Region>, mem: Mem, c: Config, pops: nat, chain: Chain) {
    && c.enabled && c.rings.Rings? && c.size > 0 && chain.head < 0x1_0000 && ChainOk(rs, chain)
    && PopSpec(rs, mem, c.size, c.rings, pops, Popped(chain))
  }

  /** The rings show one chain at most. */
  lemma OneChain(rs: seq<Region>, mem: Mem, c: Config, pops: nat, x: Chain, y: Chain)
    requires Took(rs, mem, c, pops, x) && Took(rs, mem, c, pops, y)
    ensures x == y
  {
    var t := Table(mem, c.rings.desc, c.size);
    var p :| GoodChain(rs, t, x.head, p) && x.bufs == BufsOf(t, p);
    var q :| GoodChain(rs, t, y.head, q) && y.bufs == BufsOf(t, q);
    OneWalk(rs, t, x.head, p, q);
  }

  class Virtqueue {
    const ram: RamSpace
    const maxSize: nat
    var queueSize: nat
    var broken: bool
    var enabled: bool
    var lastAvail: nat
    var lastUsed: nat
    var rings: Rings
    /** Snapshots of the current chain; storage for `maxSize` entries. */
    var bufs: seq<Buf>
    /** Chains popped and pushed since the last reset. */
    ghost var pops: nat
    ghost var pushes: nat

    ghost predicate Valid()
      reads this, ram
    {
      && ram.Valid()
      && PowerOfTwo(maxSize) && maxSize < 0x1_0000
      && PowerOfTwo(queueSize) && queueSize <= maxSize && |bufs| <= maxSize
      && lastAvail == pops % 0x1_0000 && lastUsed == pushes % 0x1_0000
      && (enabled ==> RingsFit(ram.regions, queueSize, rings))
    }

    function Settings(): Config
      reads this
    {
      Config(maxSize, queueSize, enabled, rings)
    }

    /** `virtqueue_create` for a size it accepts. */
    constructor (ram: RamSpace, size: nat)
      requires ram.Valid() && PowerOfTwo(size) && size < 0x1_0000
      ensures Valid() && this.ram == ram && maxSize == size && queueSize == size
      ensures !enabled && !broken && pops == 0 && pushes == 0
    {
      this.ram, maxSize, queueSize := ram, size, size;
      broken, enabled, lastAvail, lastUsed, rings, bufs := false, false, 0, 0, Unmapped, [];
      pops, pushes := 0, 0;
    }

    method SetSize(size: nat) returns (ok: bool)
      requires Valid()
      modifies this`queueSize
      ensures Valid()
      ensures ok <==> CanResize(old(Settings()), size)
      ensures Settings() == Resized(old(Settings()), size)
    {
      ok := !enabled && PowerOfTwo(size) && size <= maxSize;
      if ok {
        queueSize := size;
      }
    }

    /** `virtqueue_reset`: the counts start again. */
    method Reset()
      requires Valid()
      modifies this`enabled, this`broken, this`queueSize, this`lastAvail, this`lastUsed, this`rings, this`pops
      modifies this`pushes
      ensures Valid() && Settings() == Fresh(old(Settings())) && !broken && pops == 0 && pushes == 0
    {
      enabled, broken, queueSize, lastAvail, lastUsed, rings := false, false, maxSize, 0, 0, Unmapped;
      pops, pushes := 0, 0;
    }

    /** `virtqueue_disable`: the counts and the rings stay for a later resume. */
    method Disable()
      requires Valid()
      modifies this`enabled
      ensures Valid() && Settings() == old(Settings()).(enabled := false)
    {
      enabled := false;
    }

    /** `virtqueue_set_addrs`: the queue is enabled exactly when the three rings are aligned and
        wholly mapped. */
    method SetAddrs(desc: nat, avail: nat, used: nat) returns (ok: bool)
      requires Valid()
      modifies this`rings, this`enabled
      ensures Valid()
      ensures ok <==> CanMap(ram.regions, old(Settings()), Rings(desc, avail, used))
      ensures Settings() == Mapping(ram.regions, old(Settings()), Rings(desc, avail, used))
    {
      ok := desc % 16 == 0 && avail % 2 == 0 && used % 4 == 0;
      if ok {
        ok := MapRings(ram.regions, queueSize, desc, avail, used);
      }
      if ok {
        rings := Rings(desc, avail, used);
        enabled := true;
      }
    }

    /** `virtqueue_pop`. A failure breaks the queue and leaves the counter where it was; guest
        memory is only read. */
    method Pop() returns (r: PopResult)
      requires Valid()
      modifies this`bufs, this`broken, this`lastAvail, this`pops
      ensures Valid()
      ensures PopsTo(ram.regions, ram.mem, Settings(), old(broken), old(pops), r)
      ensures pops == old(pops) + (if r.Popped? then 1 else 0)
      ensures broken == (old(broken) || r.Failed?) && (r.Popped? ==> bufs == r.chain.bufs)
    {
      r := Take(ram.regions, ram.mem, Settings(), broken, lastAvail, pops);
      Record(r.Failed?, r.Popped?, if r.Popped? then r.chain.bufs else []);
    }

    /** What a pop leaves behind: a failure breaks the queue, a success advances the counter. */
    method Record(failed: bool, popped: bool, chain: seq<Buf>)
      requires Valid() && |chain| <= queueSize
      modifies this`bufs, this`broken, this`lastAvail, this`pops
      ensures Valid()
      ensures pops == old(pops) + (if popped then 1 else 0)
      ensures broken == (old(broken) || failed) && (popped ==> bufs == chain)
    {
      if failed {
        broken := true;
      }
      if popped {
        WrapSucc(pops);
        bufs := chain;
        lastAvail := (lastAvail + 1) % 0x1_0000;
        pops := pops + 1;
      }
    }

    /** `virtqueue_push`: the push after `pushes` earlier ones fills used slot
        `pushes` modulo the queue size and publishes the new count modulo 2^16. */
    method Push(head: nat, len: nat)
      requires Valid() && head < 0x1_0000 && len <= U32_MAX
      modifies this`lastUsed, this`pushes, ram
      ensures Valid()
      ensures enabled ==>
        && pushes == old(pushes) + 1
        && ram.mem == Pushed(old(ram.mem), rings, queueSize, old(pushes), head, len)
      ensures !enabled ==> pushes == old(pushes) && ram.mem == old(ram.mem)
    {
      if !enabled {
        return;
      }
      var m, idx := Publish(ram.regions, ram.mem, queueSize, rings, lastUsed, pushes, head, len);
      Commit(m, idx);
    }

    method Commit(m: Mem, idx: nat)
      requires Valid() && Backed(ram.regions, m) && idx == (pushes + 1) % 0x1_0000
      modifies this`lastUsed, this`pushes, ram
      ensures Valid() && ram.mem == m && pushes == old(pushes) + 1
    {
      ram.mem := m;
      lastUsed, pushes := idx, pushes + 1;
    }
  }

  /** The used element and the new index of `virtqueue_push`. */
  method Publish(rs: seq<Region>, mem: Mem, size: nat, rings: Rings, lastUsed: nat, ghost pushes: nat, head: nat,
                 len: nat)
    returns (m: Mem, idx: nat)
    requires Backed(rs, mem) && rings.Rings? && PowerOfTwo(size) && size <= 0x1_0000
    requires lastUsed == pushes % 0x1_0000 && head < 0x1_0000 && len <= U32_MAX
    ensures Backed(rs, m) && idx == (pushes + 1) % 0x1_0000
    ensures m == Pushed(mem, rings, size, pushes, head, len)
  {
    SlotOfWrapped(pushes, size);
    WrapSucc(pushes);
    idx := (lastUsed + 1) % 0x1_0000;
    m := UsedMem(mem, rings.used, lastUsed % size, head, len, idx);
    BackedMore(rs, mem, m);
  }

  /** What a device does with a finished chain: store the status in the last writable byte, then
      return the chain with one more byte than was `written`. */
  method PutBack(rs: seq<Region>, mem: Mem, size: nat, q: Rings, lastUsed: nat, ghost pushes: nat, chain: Chain,
                 status: byte, written: nat)
    returns (m: Mem, idx: nat)
    requires Layout(rs) && Backed(rs, mem) && ChainOk(rs, chain) && chain.writable > 0 && chain.head < 0x1_0000
    requires q.Rings? && PowerOfTwo(size) && size <= 0x1_0000 && lastUsed == pushes % 0x1_0000 && written < U32_MAX
    ensures Backed(rs, m) && idx == (pushes + 1) % 0x1_0000
    ensures m == Returned(chain, mem, status, written, q, size, pushes)
  {
    var stored := StoreStatus(rs, mem, chain, status);
    m, idx := Publish(rs, stored, size, q, lastUsed, pushes, chain.head, written + 1);
  }

  method StoreStatus(rs: seq<Region>, mem: Mem, chain: Chain, status: byte) returns (m: Mem)
    requires Layout(rs) && Backed(rs, mem) && ChainOk(rs, chain) && chain.writable > 0
    ensures Backed(rs, m) && m == WithStatus(chain, mem, status)
  {
    m := CopyLoop(rs, mem, chain, chain.writable - 1, [status]);
  }

  /** The three `mem_map_range` calls of `virtqueue_set_addrs`. */
  method MapRings(rs: seq<Region>, size: nat, desc: nat, avail: nat, used: nat) returns (ok: bool)
    requires size > 0
    ensures ok <==> RingsFit(rs, size, Rings(desc, avail, used))
  {
    var d := MapRange(rs, desc, 16 * size, false);
    var a := MapRange(rs, avail, 6 + 2 * size, false);
    var u := MapRange(rs, used, 6 + 8 * size, true);
    ok := d.Chunk? && a.Chunk? && u.Chunk?;
  }
}
