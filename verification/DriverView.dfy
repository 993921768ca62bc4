/** The split virtqueue as its driver sees it: the byte layout of descriptors, available ring and used ring
    (sections 2.4.5, 2.4.6 and 2.4.8 of VIRTIO 1.0, `src/hw/virtio/virtqueue.h`), stated without the device's
    own readers. */
module DriverView {
  import opened GuestMemory
  import opened Streams
  import opened Chains
  import opened Virtqueues
  import opened PowersOfTwo
  import opened QueueTurns

  /** Guest memory holds `v` in `n` bytes from `a` on, least significant byte first. */
  predicate Stores(mem: Mem, a: nat, n: nat, v: nat)
    decreases n
  {
    if n == 0 then v == 0 else a in mem && mem[a] == v % 0x100 && Stores(mem, a + 1, n - 1, v / 0x100)
  }

  lemma Stores16(mem: Mem, a: nat, v: nat)
    ensures Stores(mem, a, 2, v) <==> a in mem && a + 1 in mem && U16(mem, a) == v
  {
    assert Stores(mem, a, 2, v) <==> a in mem && mem[a] == v % 0x100 && Stores(mem, a + 1, 1, v / 0x100);
    assert Stores(mem, a + 1, 1, v / 0x100) <==>
      a + 1 in mem && mem[a + 1] == v / 0x100 % 0x100 && Stores(mem, a + 2, 0, v / 0x100 / 0x100);
  }

  /** A field is its lower 16 bits followed by the rest. */
  lemma StoresRest(mem: Mem, a: nat, n: nat, v: nat)
    requires n >= 2
    ensures Stores(mem, a, n, v) <==> Stores(mem, a, 2, v % 0x1_0000) && Stores(mem, a + 2, n - 2, v / 0x1_0000)
  {
    var q := v / 0x100;
    assert q / 0x100 == v / 0x1_0000 && v % 0x1_0000 % 0x100 == v % 0x100 && v % 0x1_0000 / 0x100 == q % 0x100;
    assert Stores(mem, a, n, v) <==> a in mem && mem[a] == v % 0x100 && Stores(mem, a + 1, n - 1, q);
    assert Stores(mem, a + 1, n - 1, q) <==>
      a + 1 in mem && mem[a + 1] == q % 0x100 && Stores(mem, a + 1 + 1, n - 1 - 1, q / 0x100);
    Stores16(mem, a, v % 0x1_0000);
  }

  lemma Stores32(mem: Mem, a: nat, v: nat)
    ensures Stores(mem, a, 4, v) <==> Has(mem, a, 4) && U32(mem, a) == v
  {
    StoresRest(mem, a, 4, v);
    Stores16(mem, a, v % 0x1_0000);
    Stores16(mem, a + 2, v / 0x1_0000);
  }

  lemma Stores64(mem: Mem, a: nat, v: nat)
    ensures Stores(mem, a, 8, v) <==> Has(mem, a, 8) && U64(mem, a) == v
  {
    var w := v / 0x1_0000;
    StoresRest(mem, a, 8, v);
    StoresRest(mem, a + 2, 6, w);
    Stores16(mem, a, v % 0x1_0000);
    Stores16(mem, a + 2, w % 0x1_0000);
    Stores32(mem, a + 4, w / 0x1_0000);
  }

  /** Whatever bytes a descriptor has, the device reads them as the layout says: the address in bytes 0 to 7,
      the length in 8 to 11, the flags in 12 and 13, the next index in 14 and 15. */
  lemma DescLayout(mem: Mem, a: nat, addr: nat, len: nat, flags: nat, next: nat)
    requires Has(mem, a, 16)
    ensures DescAt(mem, a) == Desc(addr, len, flags, next) <==>
      Stores(mem, a, 8, addr) && Stores(mem, a + 8, 4, len) && Stores(mem, a + 12, 2, flags)
      && Stores(mem, a + 14, 2, next)
  {
    Stores64(mem, a, addr);
    Stores32(mem, a + 8, len);
    Stores16(mem, a + 12, flags);
    Stores16(mem, a + 14, next);
  }

  // ----- what the driver posts, the device pops

  /** A buffer that the driver put into descriptor `index`. */
  datatype Part = Part(index: nat, addr: nat, len: nat, write: bool)

  /** The descriptor of part `k`: flag 1 says that a next one follows, flag 2 that the device may write. */
  predicate Described(mem: Mem, desc: nat, parts: seq<Part>, k: nat)
    requires k < |parts|
  {
    var p := parts[k]; var a := desc + 16 * p.index; var more := k + 1 < |parts|;
    && Stores(mem, a, 8, p.addr) && Stores(mem, a + 8, 4, p.len)
    && Stores(mem, a + 12, 2, (if more then 1 else 0) + (if p.write then 2 else 0))
    && (more ==> Stores(mem, a + 14, 2, parts[k + 1].index))
  }

  /** The driver wrote a chain as the specification demands: in the table, each descriptor once, readable
      before writable, every buffer in RAM. */
  ghost predicate Posts(rs: seq<Region>, mem: Mem, desc: nat, size: nat, parts: seq<Part>) {
    && parts != []
    && (forall k :: 0 <= k < |parts| ==> parts[k].index < size && Described(mem, desc, parts, k))
    && (forall k :: 0 <= k < |parts| ==> BufMapped(rs, BufferOf(parts[k])))
    && (forall j, k :: 0 <= j < k < |parts| ==> parts[j].index != parts[k].index)
    && forall j, k :: 0 <= j < k < |parts| && parts[j].write ==> parts[k].write
  }

  function BufferOf(p: Part): Buf {
    Buf(p.addr, p.len, p.write)
  }

  function Buffers(parts: seq<Part>): seq<Buf> {
    seq(|parts|, k requires 0 <= k < |parts| => BufferOf(parts[k]))
  }

  function Indices(parts: seq<Part>): seq<nat> {
    seq(|parts|, k requires 0 <= k < |parts| => parts[k].index)
  }

  lemma PartRead(mem: Mem, desc: nat, size: nat, parts: seq<Part>, k: nat)
    requires k < |parts| && Described(mem, desc, parts, k) && parts[k].index < size && Has(mem, desc, 16 * size)
    ensures var d := Table(mem, desc, size)[parts[k].index];
      && BufOf(d) == BufferOf(parts[k]) && d.flags < 4 && (HasNext(d) <==> k + 1 < |parts|)
      && (k + 1 < |parts| ==> d.next == parts[k + 1].index)
  {
    var a := desc + 16 * parts[k].index;
    var d := DescAt(mem, a);
    Stores64(mem, a, parts[k].addr);
    Stores32(mem, a + 8, parts[k].len);
    Stores16(mem, a + 12, (if k + 1 < |parts| then 1 else 0) + (if parts[k].write then 2 else 0));
    if k + 1 < |parts| {
      Stores16(mem, a + 14, parts[k + 1].index);
    }
  }

  /** Every part reads back as `PartRead` says. */
  ghost predicate ReadsBack(rs: seq<Region>, t: seq<Desc>, parts: seq<Part>, k: nat)
    requires k < |parts|
  {
    && parts[k].index < |t|
    && var d := t[parts[k].index];
       && BufOf(d) == BufferOf(parts[k]) && Usable(rs, d) && (HasNext(d) <==> k + 1 < |parts|)
       && (k + 1 < |parts| ==> d.next == parts[k + 1].index)
  }

  lemma PostedIsGood(rs: seq<Region>, mem: Mem, desc: nat, size: nat, parts: seq<Part>)
    requires Posts(rs, mem, desc, size, parts) && Has(mem, desc, 16 * size)
    ensures var t := Table(mem, desc, size); var p := Indices(parts);
      GoodChain(rs, t, parts[0].index, p) && BufsOf(t, p) == Buffers(parts)
  {
    var t := Table(mem, desc, size);
    forall k | 0 <= k < |parts|
      ensures ReadsBack(rs, t, parts, k)
    {
      PartRead(mem, desc, size, parts, k);
    }
    GoodParts(rs, t, parts);
  }

  lemma GoodParts(rs: seq<Region>, t: seq<Desc>, parts: seq<Part>)
    requires parts != [] && forall k :: 0 <= k < |parts| ==> ReadsBack(rs, t, parts, k)
    requires forall j, k :: 0 <= j < k < |parts| ==> parts[j].index != parts[k].index
    requires forall j, k :: 0 <= j < k < |parts| && parts[j].write ==> parts[k].write
    ensures var p := Indices(parts); GoodChain(rs, t, parts[0].index, p) && BufsOf(t, p) == Buffers(parts)
  {
    var p := Indices(parts);
    forall i | 1 <= i < |p|
      ensures LinkAt(t, p, i)
    {
      assert ReadsBack(rs, t, parts, i - 1) && ReadsBack(rs, t, parts, i);
    }
    assert ReadsBack(rs, t, parts, |parts| - 1);
    forall k | 0 <= k < |p|
      ensures p[k] < |t| && BufOf(t[p[k]]) == BufferOf(parts[k]) && Usable(rs, t[p[k]])
    {
      assert ReadsBack(rs, t, parts, k);
    }
    assert forall k :: 0 <= k < |p| ==> IsWrite(t[p[k]]) == BufOf(t[p[k]]).isWrite == parts[k].write;
  }

  /** The driver made the chain available: as entry number `pops` of the ring, with the ring's index `idx` not
      more than the queue size ahead. */
  predicate Offers(mem: Mem, c: Config, pops: nat, idx: nat, head: nat)
    requires c.rings.Rings? && c.size > 0
  {
    && Stores(mem, c.rings.avail + 2, 2, idx) && Stores(mem, c.rings.avail + 4 + 2 * (pops % c.size), 2, head)
    && 0 < (idx - pops % 0x1_0000) % 0x1_0000 <= c.size
  }

  lemma PostedCanPop(rs: seq<Region>, mem: Mem, c: Config, pops: nat, idx: nat, parts: seq<Part>)
    requires Layout(rs) && Backed(rs, mem) && 0 < c.size < 0x1_0000 && RingsFit(rs, c.size, c.rings)
    requires Posts(rs, mem, c.rings.desc, c.size, parts) && Offers(mem, c, pops, idx, parts[0].index)
    ensures CanPop(rs, mem, c.size, c.rings, pops) && NextHead(mem, c.size, c.rings, pops) == parts[0].index
    ensures Available(mem, c.rings) != pops % 0x1_0000
  {
    FitsBacked(rs, mem, c.rings.desc, 16 * c.size, false);
    PostedIsGood(rs, mem, c.rings.desc, c.size, parts);
    OffersNext(mem, c, pops, idx, parts[0].index);
  }

  /** What the driver posts, the device pops: a well-formed chain, made available, is taken next, with exactly
      the driver's buffers in the driver's order. */
  lemma PostedIsPopped(rs: seq<Region>, mem: Mem, c: Config, pops: nat, idx: nat, parts: seq<Part>,
                       r: PopResult)
    requires Layout(rs) && Backed(rs, mem) && c.enabled && c.size < 0x1_0000 && RingsFit(rs, c.size, c.rings)
    requires c.size > 0 && Posts(rs, mem, c.rings.desc, c.size, parts) && Offers(mem, c, pops, idx, parts[0].index)
    requires PopsTo(rs, mem, c, false, pops, r)
    ensures r.Popped? && r.chain.head == parts[0].index && r.chain.bufs == Buffers(parts)
    ensures r.chain.readable == |Stream(Buffers(parts), false)| && r.chain.writable == |Stream(Buffers(parts), true)|
  {
    PostedCanPop(rs, mem, c, pops, idx, parts);
    FitsBacked(rs, mem, c.rings.desc, 16 * c.size, false);
    PostedIsGood(rs, mem, c.rings.desc, c.size, parts);
    var t := Table(mem, c.rings.desc, c.size);
    var p :| GoodChain(rs, t, r.chain.head, p) && r.chain.bufs == BufsOf(t, p);
    OneWalk(rs, t, r.chain.head, p, Indices(parts));
  }

  lemma OffersNext(mem: Mem, c: Config, pops: nat, idx: nat, head: nat)
    requires c.rings.Rings? && c.size > 0 && Offers(mem, c, pops, idx, head)
    ensures NextHead(mem, c.size, c.rings, pops) == head && Available(mem, c.rings) != pops % 0x1_0000
    ensures (Available(mem, c.rings) - pops % 0x1_0000) % 0x1_0000 <= c.size
  {
    Stores16(mem, c.rings.avail + 2, idx);
    Stores16(mem, c.rings.avail + 4 + 2 * (pops % c.size), head);
  }

  /** And nothing else is: while the index in the ring equals the number of pops, there is nothing to take. */
  lemma NothingPosted(rs: seq<Region>, mem: Mem, c: Config, pops: nat, r: PopResult)
    requires c.enabled && c.rings.Rings? && c.size > 0 && PopsTo(rs, mem, c, false, pops, r)
    requires c.rings.avail + 2 in mem && c.rings.avail + 3 in mem
    ensures r.Nothing? <==> Stores(mem, c.rings.avail + 2, 2, pops % 0x1_0000)
  {
    Stores16(mem, c.rings.avail + 2, pops % 0x1_0000);
  }

  /** A notification serves what was posted: a handler that ends its work on an enabled queue, after the driver made
      a chain with room for a status available, has served exactly that chain first. */
  lemma KickServesPosted<S, E>(rs: seq<Region>, c: Config, right: Turn<S, E> -> bool, s: Stand<S>, g: Mem, m: Mem,
                               turns: Turns<S, E>, idx: nat, parts: seq<Part>)
    requires TurnsOk(rs, c, right, s, turns) && Interleaved([g], m, turns) && Finished([g], turns) && !s.broken
    requires Layout(rs) && Backed(rs, Overlay(m, g)) && c.enabled && 0 < c.size < 0x1_0000
    requires RingsFit(rs, c.size, c.rings) && Posts(rs, Overlay(m, g), c.rings.desc, c.size, parts)
    requires Offers(Overlay(m, g), c, s.pops, idx, parts[0].index) && |Stream(Buffers(parts), true)| > 0
    ensures turns.Turned? && turns.past.NoTurn? && turns.last.Serving? && turns.last.from == s
    ensures turns.last.chain.head == parts[0].index && turns.last.chain.bufs == Buffers(parts)
    ensures After(turns, s).pops == s.pops + 1 && After(turns, s).pushes == s.pushes + 1
  {
    OnlyTurn(g, m, turns);
    LastTurn(rs, c, right, s, turns);
    PostedIsTaken(rs, c, right, turns.last, idx, parts);
  }

  lemma PostedIsTaken<S, E>(rs: seq<Region>, c: Config, right: Turn<S, E> -> bool, t: Turn<S, E>, idx: nat,
                            parts: seq<Part>)
    requires TurnOk(rs, c, right, t) && !t.from.broken
    requires Layout(rs) && Backed(rs, t.before) && c.enabled && 0 < c.size < 0x1_0000
    requires RingsFit(rs, c.size, c.rings) && Posts(rs, t.before, c.rings.desc, c.size, parts)
    requires Offers(t.before, c, t.from.pops, idx, parts[0].index) && |Stream(Buffers(parts), true)| > 0
    ensures t.Serving? && t.chain.head == parts[0].index && t.chain.bufs == Buffers(parts)
  {
    PostedCanPop(rs, t.before, c, t.from.pops, idx, parts);
    if t.Serving? {
      PostedIsPopped(rs, t.before, c, t.from.pops, idx, parts, Popped(t.chain));
    } else if t.end.NoStatus? {
      PostedIsPopped(rs, t.before, c, t.from.pops, idx, parts, Popped(t.end.chain));
    }
  }

  lemma OnlyTurn<S, E>(g: Mem, m: Mem, turns: Turns<S, E>)
    requires Interleaved([g], m, turns) && Finished([g], turns)
    ensures turns.Turned? && turns.past.NoTurn? && turns.last.before == Overlay(m, g)
  {}

  /** What the device returns: used entry number `pushes` has the head in bytes 0 to 3 and the length in bytes
      4 to 7, and the ring's index, in bytes 2 and 3, is one more. */
  lemma PushedLayout(mem: Mem, q: Rings, size: nat, pushes: nat, head: nat, len: nat)
    requires q.Rings? && size > 0 && head <= U32_MAX && len <= U32_MAX
    ensures var m := Pushed(mem, q, size, pushes, head, len); var a := q.used + 4 + 8 * (pushes % size);
      && Stores(m, a, 4, head) && Stores(m, a + 4, 4, len) && Stores(m, q.used + 2, 2, (pushes + 1) % 0x1_0000)
  {
    UsedLayout(mem, q.used, pushes % size, head, len, (pushes + 1) % 0x1_0000);
  }

  lemma UsedLayout(mem: Mem, used: nat, slot: nat, head: nat, len: nat, idx: nat)
    requires head <= U32_MAX && len <= U32_MAX && idx < 0x1_0000
    ensures var m := UsedMem(mem, used, slot, head, len, idx); var a := used + 4 + 8 * slot;
      Stores(m, a, 4, head) && Stores(m, a + 4, 4, len) && Stores(m, used + 2, 2, idx)
  {
    var m := UsedMem(mem, used, slot, head, len, idx);
    var a := used + 4 + 8 * slot;
    UsedMemHolds(mem, used, slot, head, len, idx);
    UsedMemHas(mem, used, slot, head, len, idx);
    Stores32(m, a, head);
    Stores32(m, a + 4, len);
    Stores16(m, used + 2, idx);
  }

  lemma UsedMemHas(mem: Mem, used: nat, slot: nat, head: nat, len: nat, idx: nat)
    requires head <= U32_MAX && len <= U32_MAX && idx < 0x1_0000
    ensures var m := UsedMem(mem, used, slot, head, len, idx); var a := used + 4 + 8 * slot;
      Has(m, a, 4) && Has(m, a + 4, 4) && used + 2 in m && used + 3 in m
  {}
}
