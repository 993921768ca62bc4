/** The two byte streams of a descriptor chain. The device-readable (or device-writable) buffers
    of a chain, laid end to end, form one stream of guest addresses; `virtqueue_map` and
    `virtqueue_copy` of `src/hw/virtio/virtqueue.c` serve it in host-contiguous pieces. */
module Streams {
  import opened GuestMemory

  datatype Buf = Buf(gpa: nat, len: nat, isWrite: bool)

  function Span(gpa: nat, len: nat): seq<nat> {
    seq(len, i requires 0 <= i < len => gpa + i)
  }

  /** The guest addresses of the stream in one direction, in order. */
  function Stream(bufs: seq<Buf>, write: bool): seq<nat> {
    if bufs == [] then []
    else (if bufs[0].isWrite == write then Span(bufs[0].gpa, bufs[0].len) else []) + Stream(bufs[1..], write)
  }

  lemma {:induction false} StreamAppend(xs: seq<Buf>, ys: seq<Buf>, write: bool)
    ensures Stream(xs + ys, write) == Stream(xs, write) + Stream(ys, write)
  {
    if xs == [] {
      assert xs + ys == ys;
    } else {
      assert (xs + ys)[1..] == xs[1..] + ys;
      StreamAppend(xs[1..], ys, write);
    }
  }

  /** No wrap, and every byte is backed by RAM that permits the direction of the buffer. */
  ghost predicate BufMapped(rs: seq<Region>, b: Buf) {
    && b.gpa + b.len <= U64_MAX
    && forall a :: b.gpa <= a < b.gpa + b.len ==> Mapped(rs, a, b.isWrite)
  }

  ghost predicate BufsMapped(rs: seq<Region>, bufs: seq<Buf>) {
    forall i :: 0 <= i < |bufs| ==> BufMapped(rs, bufs[i])
  }

  ghost predicate AllMapped(rs: seq<Region>, at: seq<nat>, write: bool) {
    forall i :: 0 <= i < |at| ==> Mapped(rs, at[i], write)
  }

  lemma {:induction false} StreamMapped(rs: seq<Region>, bufs: seq<Buf>, write: bool)
    requires BufsMapped(rs, bufs)
    ensures AllMapped(rs, Stream(bufs, write), write)
  {
    if bufs == [] {
    } else {
      assert BufMapped(rs, bufs[0]);
      StreamMapped(rs, bufs[1..], write);
    }
  }

  /** The chunk serves the stream from position `off` on, at consecutive host offsets. */
  ghost predicate Serves(rs: seq<Region>, at: seq<nat>, write: bool, off: nat, c: Chunk) {
    && c.Chunk? && 0 < c.len && off + c.len <= |at|
    && c.region < |rs| && c.offset + c.len <= rs[c.region].size && !(write && rs[c.region].readonly)
    && forall x :: off <= x < off + c.len ==> at[x] == rs[c.region].gpa + c.offset + (x - off)
  }

  /** The host memory behind stream position `offset`, up to the end of its buffer or region. */
  function ChunkAt(rs: seq<Region>, bufs: seq<Buf>, write: bool, offset: nat): Chunk {
    if bufs == [] then NoChunk
    else if bufs[0].isWrite != write then ChunkAt(rs, bufs[1..], write, offset)
    else if offset >= bufs[0].len then ChunkAt(rs, bufs[1..], write, offset - bufs[0].len)
    else MapChunk(rs, bufs[0].gpa + offset, bufs[0].len - offset, write)
  }

  /** The chunk serves position `off` if the stream has it, and is no chunk otherwise. */
  ghost predicate Suits(rs: seq<Region>, at: seq<nat>, write: bool, off: nat, c: Chunk) {
    if off < |at| then Serves(rs, at, write, off, c) else c.NoChunk?
  }

  lemma SuitsLater(rs: seq<Region>, front: seq<nat>, at: seq<nat>, write: bool, off: nat, c: Chunk)
    requires Suits(rs, at, write, off, c)
    ensures Suits(rs, front + at, write, |front| + off, c)
  {}

  lemma SuitsFirst(rs: seq<Region>, b: Buf, rest: seq<nat>, offset: nat)
    requires Layout(rs) && BufMapped(rs, b) && offset < b.len
    ensures Suits(rs, Span(b.gpa, b.len) + rest, b.isWrite, offset,
                  MapChunk(rs, b.gpa + offset, b.len - offset, b.isWrite))
  {
    ChunkIsContiguous(rs, b.gpa + offset, b.len - offset, b.isWrite, 0);
  }

  lemma {:induction false} ChunkSuits(rs: seq<Region>, bufs: seq<Buf>, write: bool, offset: nat)
    requires Layout(rs) && BufsMapped(rs, bufs)
    ensures Suits(rs, Stream(bufs, write), write, offset, ChunkAt(rs, bufs, write, offset))
  {
    if bufs == [] {
    } else if bufs[0].isWrite != write {
      ChunkSuits(rs, bufs[1..], write, offset);
      assert Stream(bufs, write) == Stream(bufs[1..], write);
    } else if offset >= bufs[0].len {
      ChunkSuits(rs, bufs[1..], write, offset - bufs[0].len);
      SuitsLater(rs, Span(bufs[0].gpa, bufs[0].len), Stream(bufs[1..], write), write, offset - bufs[0].len,
                 ChunkAt(rs, bufs, write, offset));
    } else {
      assert BufMapped(rs, bufs[0]);
      SuitsFirst(rs, bufs[0], Stream(bufs[1..], write), offset);
    }
  }

  /** `virtqueue_map`: a chunk serving byte `offset` exactly when the stream has that byte. */
  method Map(rs: seq<Region>, bufs: seq<Buf>, write: bool, offset: nat) returns (c: Chunk)
    requires Layout(rs) && BufsMapped(rs, bufs)
    ensures c == ChunkAt(rs, bufs, write, offset)
    ensures offset < |Stream(bufs, write)| ==> Serves(rs, Stream(bufs, write), write, offset, c)
    ensures offset >= |Stream(bufs, write)| ==> c.NoChunk?
  {
    ChunkSuits(rs, bufs, write, offset);
    var rest: nat := offset;
    for i := 0 to |bufs|
      invariant ChunkAt(rs, bufs, write, offset) == ChunkAt(rs, bufs[i..], write, rest)
    {
      assert bufs[i..][1..] == bufs[i + 1..];
      if bufs[i].isWrite != write {
      } else if rest >= bufs[i].len {
        rest := rest - bufs[i].len;
      } else {
        c := MapChunk(rs, bufs[i].gpa + rest, bufs[i].len - rest, write);
        return;
      }
    }
    c := NoChunk;
  }

  /** The bytes at a list of addresses. */
  function ReadAll(mem: Mem, at: seq<nat>): (bs: seq<byte>)
    requires forall i :: 0 <= i < |at| ==> at[i] in mem
    ensures |bs| == |at|
  {
    seq(|at|, i requires 0 <= i < |at| => mem[at[i]])
  }

  /** Write `bs[p..q]` to the addresses `at[p..q]`, one byte at a time, in order. */
  function WriteRange(mem: Mem, at: seq<nat>, bs: seq<byte>, p: nat, q: nat): (m: Mem)
    requires p <= q <= |at| && q <= |bs|
    ensures mem.Keys <= m.Keys
    decreases q
  {
    if q == p then mem else WriteRange(mem, at, bs, p, q - 1)[at[q - 1] := bs[q - 1]]
  }

  lemma {:induction false} WriteSplit(mem: Mem, at: seq<nat>, bs: seq<byte>, p: nat, q: nat, r: nat)
    requires p <= q <= r <= |at| && r <= |bs|
    ensures WriteRange(mem, at, bs, p, r) == WriteRange(WriteRange(mem, at, bs, p, q), at, bs, q, r)
    decreases r
  {
    if r == q {
    } else {
      WriteSplit(mem, at, bs, p, q, r - 1);
    }
  }

  /** A guest byte outside the listed addresses keeps its value. */
  lemma {:induction false} WriteFrame(mem: Mem, at: seq<nat>, bs: seq<byte>, p: nat, q: nat, x: nat)
    requires p <= q <= |at| && q <= |bs| && x !in at[p..q] && x in mem
    ensures WriteRange(mem, at, bs, p, q)[x] == mem[x]
    decreases q
  {
    if q == p {
    } else {
      assert at[p..q] == at[p..q - 1] + [at[q - 1]];
      WriteFrame(mem, at, bs, p, q - 1, x);
    }
  }

  lemma WholeFrame(mem: Mem, at: seq<nat>, bs: seq<byte>, x: nat)
    requires |at| == |bs| && x !in at && x in mem
    ensures WriteRange(mem, at, bs, 0, |bs|)[x] == mem[x]
  {
    assert at[0..|bs|] == at;
    WriteFrame(mem, at, bs, 0, |bs|, x);
  }

  ghost predicate Injective(at: seq<nat>) {
    forall i, j :: 0 <= i < j < |at| ==> at[i] != at[j]
  }

  lemma {:induction false} ReadBackAt(mem: Mem, at: seq<nat>, bs: seq<byte>, p: nat, q: nat, k: nat)
    requires p <= k < q <= |at| && q <= |bs| && Injective(at)
    ensures at[k] in WriteRange(mem, at, bs, p, q) && WriteRange(mem, at, bs, p, q)[at[k]] == bs[k]
    decreases q
  {
    if k == q - 1 {
    } else {
      ReadBackAt(mem, at, bs, p, q - 1, k);
    }
  }

  /** Where no guest byte is addressed twice, reading back returns what was written. */
  lemma ReadBack(mem: Mem, at: seq<nat>, bs: seq<byte>)
    requires |bs| == |at| && Injective(at)
    ensures forall i :: 0 <= i < |at| ==> at[i] in WriteRange(mem, at, bs, 0, |at|)
    ensures ReadAll(WriteRange(mem, at, bs, 0, |at|), at) == bs
  {
    forall k | 0 <= k < |bs|
      ensures at[k] in WriteRange(mem, at, bs, 0, |at|)
      ensures WriteRange(mem, at, bs, 0, |at|)[at[k]] == bs[k]
    {
      ReadBackAt(mem, at, bs, 0, |bs|, k);
    }
  }
}
