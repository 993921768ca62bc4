/** The block device of `src/hw/virtio/virtio_blk.c`: request decoding and the chunked transfer
    between a chain's streams and the backend (section 5.2.6 of VIRTIO 1.0). */
module VirtioBlk {
  import opened GuestMemory
  import opened Streams
  import opened Virtqueues
  import opened VirtioStatus
  import opened QueueTurns
  import opened PowersOfTwo

  const SECTOR_SIZE: nat := 512
  const HEADER_SIZE: nat := 16
  const T_IN: nat := 0
  const T_OUT: nat := 1
  const T_FLUSH: nat := 4
  const T_GET_ID: nat := 8
  const S_OK: byte := 0
  const S_IOERR: byte := 1
  const S_UNSUPP: byte := 2

  // The backend. Transfers may be short and errors may follow partial I/O; the caller keeps every
  // access within the capacity and never writes a read-only disk.

  /** How the backend answers one call: it moves up to `moved` bytes and, with `failed`, then reports
      an error. */
  datatype Reply = Reply(moved: nat, failed: bool)

  /** The answers to all calls, by call number: a list as long as needed, and one answer for ever after. */
  datatype Backend = Backend(script: seq<Reply>, rest: Reply)

  function ReplyTo(b: Backend, call: nat): Reply {
    if call < |b.script| then b.script[call] else b.rest
  }

  /** The bytes that a call for `count` moves. */
  function Moves(r: Reply, count: nat): (n: nat)
    ensures n <= count
  {
    if r.moved < count then r.moved else count
  }

  /** The call does all that was asked and reports success. */
  predicate Full(r: Reply, count: nat) {
    !r.failed && count <= r.moved
  }

  /** `result` is the return value, `got` what was placed in the caller's buffer. */
  method BackendRead(r: Reply, disk: seq<byte>, offset: nat, count: nat) returns (result: int, got: seq<byte>)
    requires offset + count <= |disk|
    ensures got == Sectors(disk, offset, Moves(r, count))
    ensures result == count <==> Full(r, count)
    ensures result == if r.failed then -1 else |got|
  {
    got := Sectors(disk, offset, Moves(r, count));
    result := if r.failed then -1 else |got|;
  }

  /** `moved` is how much of the caller's buffer reached the disk. */
  method BackendWrite(r: Reply, disk: seq<byte>, readonly: bool, offset: nat, bytes: seq<byte>)
    returns (result: int, moved: nat, disk': seq<byte>)
    requires offset + |bytes| <= |disk| && !readonly
    ensures moved == Moves(r, |bytes|) && disk' == Overwrite(disk, offset, bytes, moved)
    ensures result == |bytes| <==> Full(r, |bytes|)
  {
    moved := Moves(r, |bytes|);
    disk' := Overwrite(disk, offset, bytes, moved);
    result := if r.failed then -1 else moved;
  }

  // The calls of one transfer.

  /** Backend call `number`, for the `want` bytes at position `from` of the data, through the host
      memory of `chunk`. */
  datatype Call = Call(number: nat, from: nat, want: nat, chunk: Chunk)

  /** The calls made so far. */
  datatype Calls = NoCall | Called(past: Calls, last: Call)

  /** The number of the next call, when the first of them has number `first`. */
  function NextCall(calls: Calls, first: nat): nat {
    if calls.NoCall? then first else calls.last.number + 1
  }

  /** How far the calls ask. */
  function Reached(calls: Calls): nat {
    if calls.NoCall? then 0 else calls.last.from + calls.last.want
  }

  /** A call at position `from` asks for as much as one piece of host memory behind the stream takes, and
      no more than is left; `skip` is where the data starts in the stream. */
  ghost predicate CallOk(rs: seq<Region>, bufs: seq<Buf>, write: bool, skip: nat, total: nat, from: nat, c: Call) {
    && c.from == from < total && c.chunk == ChunkAt(rs, bufs, write, skip + from) && c.chunk.Chunk?
    && 0 < c.want == Least(c.chunk.len, total - from) && Serves(rs, Stream(bufs, write), write, skip + from, c.chunk)
  }

  function Least(a: nat, b: nat): nat {
    if a < b then a else b
  }

  /** The next call: as much as one chunk takes. */
  method NextChunk(rs: seq<Region>, bufs: seq<Buf>, write: bool, skip: nat, total: nat, from: nat, number: nat)
    returns (c: Call)
    requires Layout(rs) && BufsMapped(rs, bufs) && from < total && skip + total <= |Stream(bufs, write)|
    ensures c.number == number && CallOk(rs, bufs, write, skip, total, from, c)
  {
    var chunk := Map(rs, bufs, write, skip + from);
    c := Call(number, from, if chunk.len > total - from then total - from else chunk.len, chunk);
  }

  /** The calls follow each other without a gap. */
  ghost predicate InTurn(rs: seq<Region>, bufs: seq<Buf>, write: bool, skip: nat, total: nat, first: nat, calls: Calls)
  {
    calls.Called? ==>
      && InTurn(rs, bufs, write, skip, total, first, calls.past)
      && calls.last.number == NextCall(calls.past, first)
      && CallOk(rs, bufs, write, skip, total, Reached(calls.past), calls.last)
  }

  /** Every call was answered in full. */
  predicate AllFull(backend: Backend, calls: Calls) {
    calls.Called? ==> AllFull(backend, calls.past) && Full(ReplyTo(backend, calls.last.number), calls.last.want)
  }

  /** The bytes that the calls moved, when all but the last were answered in full. */
  function Travelled(backend: Backend, calls: Calls): nat {
    if calls.NoCall? then 0 else calls.last.from + Moves(ReplyTo(backend, calls.last.number), calls.last.want)
  }

  /** The bytes that the calls reported, when all but the last were answered in full. */
  function Reported(backend: Backend, calls: Calls): nat {
    if calls.NoCall? then 0
    else
      var r := ReplyTo(backend, calls.last.number);
      calls.last.from + if r.failed then 0 else Moves(r, calls.last.want)
  }

  /** The transfer goes on until a call is not answered in full, or everything is asked for. */
  predicate Transferred(backend: Backend, calls: Calls, total: nat, ok: bool) {
    if ok then AllFull(backend, calls) && Reached(calls) == total
    else calls.Called? && AllFull(backend, calls.past) && !AllFull(backend, calls)
  }

  /** `d` with its bytes from `offset` on replaced by the first `n` bytes of `src`. */
  function Overwrite(d: seq<byte>, offset: nat, src: seq<byte>, n: nat): (r: seq<byte>)
    requires n <= |src| && offset + n <= |d|
    ensures |r| == |d|
  {
    d[..offset] + src[..n] + d[offset + n..]
  }

  lemma OverwriteMore(d: seq<byte>, offset: nat, src: seq<byte>, p: nat, part: seq<byte>, n: nat)
    requires p + |part| <= |src| && offset + |src| <= |d| && part == src[p..p + |part|] && n <= |part|
    ensures Overwrite(Overwrite(d, offset, src, p), offset + p, part, n) == Overwrite(d, offset, src, p + n)
  {}

  /** The bytes of the disk from `offset` on. */
  function Sectors(disk: seq<byte>, offset: nat, total: nat): (bs: seq<byte>)
    requires offset + total <= |disk|
    ensures |bs| == total
  {
    disk[offset..offset + total]
  }

  /** Guest memory after the first `n` bytes of `src` reached the start of the writable stream. */
  function Landed(mem: Mem, bufs: seq<Buf>, src: seq<byte>, n: nat): (m: Mem)
    requires |src| <= |Stream(bufs, true)| && n <= |src|
    ensures mem.Keys <= m.Keys
  {
    WriteRange(mem, Slice(bufs, true, 0, |src|), src, 0, n)
  }

  lemma PartOfSectors(d: seq<byte>, offset: nat, total: nat, p: nat, q: nat)
    requires offset + total <= |d| && p <= q <= total
    ensures Sectors(d, offset, total)[p..q] == Sectors(d, offset + p, q - p)
  {
    var whole := Sectors(d, offset, total);
    var l, r := whole[p..q], Sectors(d, offset + p, q - p);
    forall i | 0 <= i < |l|
      ensures l[i] == r[i]
    {
      assert l[i] == whole[p + i] == d[offset + (p + i)];
    }
  }

  /** The loop for VIRTIO_BLK_T_IN: the first `moved` bytes of the disk range land in the writable
      stream; on success, which needs every backend call answered in full, the whole range. */
  method TransferIn(rs: seq<Region>, mem: Mem, disk: seq<byte>, chain: Chain, offset: nat, total: nat,
                    backend: Backend, first: nat)
    returns (ok: bool, written: nat, moved: nat, m: Mem, calls: Calls)
    requires Layout(rs) && Backed(rs, mem) && ChainOk(rs, chain)
    requires total <= chain.writable && offset + total <= |disk|
    ensures InTurn(rs, chain.bufs, true, 0, total, first, calls)
    ensures Transferred(backend, calls, total, ok) && (ok ==> moved == total == written)
    ensures written == Reported(backend, calls) <= moved == Travelled(backend, calls) <= total
    ensures m == Landed(mem, chain.bufs, Sectors(disk, offset, total), moved)
    ensures Backed(rs, m)
  {
    moved, written, m, calls := 0, 0, mem, NoCall;
    var made := first;
    while moved < total
      invariant moved == Reached(calls) <= total && made == NextCall(calls, first) && AllFull(backend, calls)
      invariant written == moved
      invariant InTurn(rs, chain.bufs, true, 0, total, first, calls)
      invariant m == Landed(mem, chain.bufs, Sectors(disk, offset, total), moved)
      decreases total - moved
    {
      var r := ReplyTo(backend, made);
      var n, c, next, m' := InChunk(rs, mem, m, disk, chain, offset, total, moved, made, r);
      m, moved, calls, made := m', next, Called(calls, c), made + 1;
      if n > 0 {
        written := written + n;
      }
      if n != c.want {
        BackedMore(rs, mem, m);
        return false, written, moved, m, calls;
      }
    }
    BackedMore(rs, mem, m);
    FullAreReported(rs, chain.bufs, true, 0, total, backend, first, calls);
    ok := true;
  }

  lemma FullAreReported(rs: seq<Region>, bufs: seq<Buf>, write: bool, skip: nat, total: nat, backend: Backend,
                        first: nat, calls: Calls)
    requires InTurn(rs, bufs, write, skip, total, first, calls) && AllFull(backend, calls)
    ensures Reported(backend, calls) == Travelled(backend, calls) == Reached(calls)
  {}

  /** One turn of that loop: the backend is asked for `c.want` bytes straight into guest memory. */
  method InChunk(rs: seq<Region>, ghost mem: Mem, m: Mem, disk: seq<byte>, chain: Chain, offset: nat, total: nat,
                 moved: nat, number: nat, r: Reply)
    returns (n: int, c: Call, next: nat, m': Mem)
    requires Layout(rs) && ChainOk(rs, chain) && moved < total <= chain.writable && offset + total <= |disk|
    requires m == Landed(mem, chain.bufs, Sectors(disk, offset, total), moved)
    ensures c.number == number && CallOk(rs, chain.bufs, true, 0, total, moved, c)
    ensures n == (if r.failed then -1 else Moves(r, c.want)) && (n == c.want <==> Full(r, c.want))
    ensures next == moved + Moves(r, c.want) && m' == Landed(mem, chain.bufs, Sectors(disk, offset, total), next)
  {
    c := NextChunk(rs, chain.bufs, true, 0, total, moved, number);
    var bytes;
    n, bytes := BackendRead(r, disk, offset + moved, c.want);
    next := moved + |bytes|;
    PartOfSectors(disk, offset, total, moved, next);
    StoreChunk(rs, mem, m, chain.bufs, Sectors(disk, offset, total), moved, next, c.chunk, bytes);
    m' := CopyIn(rs, m, c.chunk.region, c.chunk.offset, bytes, 0, |bytes|);
  }

  lemma StoreChunk(rs: seq<Region>, mem: Mem, m: Mem, bufs: seq<Buf>, src: seq<byte>, p: nat, q: nat, c: Chunk,
                   got: seq<byte>)
    requires |src| <= |Stream(bufs, true)| && p <= q <= |src|
    requires Serves(rs, Stream(bufs, true), true, p, c) && q - p <= c.len && got == src[p..q]
    requires m == Landed(mem, bufs, src, p)
    ensures CopyIn(rs, m, c.region, c.offset, got, 0, |got|) == Landed(mem, bufs, src, q)
  {
    SliceRun(rs, bufs, true, 0, |src|, p, c, q);
    StoreSlice(rs, mem, m, Slice(bufs, true, 0, |src|), src, p, q, c.region, c.offset);
    CopyPart(rs, m, c.region, c.offset, src, p, q, got);
  }

  lemma {:induction false} CopyPart(rs: seq<Region>, mem: Mem, region: nat, offset: nat, src: seq<byte>, p: nat,
                                    q: nat, part: seq<byte>)
    requires p <= q <= |src| && region < |rs| && part == src[p..q]
    ensures CopyIn(rs, mem, region, offset, part, 0, |part|) == CopyIn(rs, mem, region, offset, src, p, q)
    decreases q
  {
    if q == p {
    } else {
      var shorter := part[..|part| - 1];
      CopyPart(rs, mem, region, offset, src, p, q - 1, shorter);
      CopyPrefix(rs, mem, region, offset, part, |part| - 1, shorter);
    }
  }

  lemma {:induction false} CopyPrefix(rs: seq<Region>, mem: Mem, region: nat, offset: nat, src: seq<byte>, n: nat,
                                      part: seq<byte>)
    requires n <= |part| && n <= |src| && region < |rs| && part[..n] == src[..n]
    ensures CopyIn(rs, mem, region, offset, part, 0, n) == CopyIn(rs, mem, region, offset, src, 0, n)
  {
    if n == 0 {
    } else {
      assert part[..n - 1] == part[..n][..n - 1] && src[..n - 1] == src[..n][..n - 1];
      assert part[n - 1] == part[..n][n - 1] && src[n - 1] == src[..n][n - 1];
      CopyPrefix(rs, mem, region, offset, src, n - 1, part);
    }
  }

  /** The loop for VIRTIO_BLK_T_OUT: the first `moved` bytes of the readable stream after the
      header land on the disk; on success, which needs every backend call answered in full, all. */
  method TransferOut(rs: seq<Region>, mem: Mem, disk: seq<byte>, readonly: bool, chain: Chain, offset: nat, total: nat,
                     backend: Backend, first: nat)
    returns (ok: bool, moved: nat, disk': seq<byte>, calls: Calls)
    requires Layout(rs) && Backed(rs, mem) && ChainOk(rs, chain) && !readonly
    requires HEADER_SIZE + total <= chain.readable && offset + total <= |disk|
    ensures InTurn(rs, chain.bufs, false, HEADER_SIZE, total, first, calls)
    ensures Transferred(backend, calls, total, ok) && (ok ==> moved == total)
    ensures moved == Travelled(backend, calls) && Stored(mem, disk, chain, offset, total, moved, disk')
  {
    PayloadIsBacked(rs, mem, chain, total);
    moved, disk', calls := 0, disk, NoCall;
    var made := first;
    assert Overwrite(disk, offset, Payload(mem, chain, total), 0) == disk;
    while moved < total
      invariant moved == Reached(calls) <= total && made == NextCall(calls, first) && AllFull(backend, calls)
      invariant moved == Travelled(backend, calls)
      invariant InTurn(rs, chain.bufs, false, HEADER_SIZE, total, first, calls)
      invariant disk' == Overwrite(disk, offset, Payload(mem, chain, total), moved)
      decreases total - moved
    {
      var r := ReplyTo(backend, made);
      var n, c, next, d := OutChunk(rs, mem, disk, disk', readonly, chain, offset, total, moved, made, r);
      disk', moved, calls, made := d, next, Called(calls, c), made + 1;
      if n != c.want {
        return false, moved, disk', calls;
      }
    }
    ok := true;
  }

  /** One turn of that loop: the backend is offered `c.want` bytes straight from guest memory. */
  method OutChunk(rs: seq<Region>, mem: Mem, ghost disk: seq<byte>, d: seq<byte>, readonly: bool, chain: Chain,
                  offset: nat, total: nat, moved: nat, number: nat, r: Reply)
    returns (n: int, c: Call, next: nat, d': seq<byte>)
    requires Layout(rs) && Backed(rs, mem) && ChainOk(rs, chain) && !readonly && PayloadBacked(mem, chain, total)
    requires moved < total && HEADER_SIZE + total <= chain.readable && offset + total <= |disk|
    requires d == Overwrite(disk, offset, Payload(mem, chain, total), moved)
    ensures c.number == number && CallOk(rs, chain.bufs, false, HEADER_SIZE, total, moved, c)
    ensures n == c.want <==> Full(r, c.want)
    ensures next == moved + Moves(r, c.want) && d' == Overwrite(disk, offset, Payload(mem, chain, total), next)
  {
    var bytes;
    c, bytes := LoadOut(rs, mem, chain, total, moved, number);
    n, next, d' := PutPart(r, disk, d, readonly, offset, Payload(mem, chain, total), moved, bytes);
  }

  method LoadOut(rs: seq<Region>, mem: Mem, chain: Chain, total: nat, moved: nat, number: nat)
    returns (c: Call, bytes: seq<byte>)
    requires Layout(rs) && Backed(rs, mem) && ChainOk(rs, chain) && PayloadBacked(mem, chain, total)
    requires moved < total && HEADER_SIZE + total <= chain.readable
    ensures c.number == number && CallOk(rs, chain.bufs, false, HEADER_SIZE, total, moved, c)
    ensures bytes == Payload(mem, chain, total)[moved..moved + c.want] && |bytes| == c.want
  {
    c := NextChunk(rs, chain.bufs, false, HEADER_SIZE, total, moved, number);
    LoadPayload(rs, mem, chain, total, moved, moved + c.want, c.chunk);
    bytes := Load(rs, mem, c.chunk.region, c.chunk.offset, c.want);
  }

  /** Offer the backend a part of `src` after its first `moved` bytes are on the disk. */
  method PutPart(r: Reply, ghost disk: seq<byte>, d: seq<byte>, readonly: bool, offset: nat, ghost src: seq<byte>,
                 moved: nat, bytes: seq<byte>)
    returns (n: int, next: nat, d': seq<byte>)
    requires !readonly && moved + |bytes| <= |src| && offset + |src| <= |disk| && bytes == src[moved..moved + |bytes|]
    requires d == Overwrite(disk, offset, src, moved)
    ensures n == |bytes| <==> Full(r, |bytes|)
    ensures next == moved + Moves(r, |bytes|) && d' == Overwrite(disk, offset, src, next)
  {
    var got;
    n, got, d' := BackendWrite(r, d, readonly, offset + moved, bytes);
    next := moved + got;
    OverwriteMore(disk, offset, src, moved, bytes, got);
  }

  lemma LoadChunk(rs: seq<Region>, mem: Mem, bufs: seq<Buf>, offset: nat, total: nat, p: nat, q: nat, c: Chunk)
    requires Layout(rs) && Backed(rs, mem) && offset + total <= |Stream(bufs, false)| && p <= q <= total
    requires Serves(rs, Stream(bufs, false), false, offset + p, c) && q - p <= c.len
    requires forall i :: 0 <= i < total ==> Slice(bufs, false, offset, total)[i] in mem
    requires c.region < |rs| && c.offset + c.len <= rs[c.region].size
    ensures Load(rs, mem, c.region, c.offset, q - p) == ReadAll(mem, Slice(bufs, false, offset, total))[p..q]
  {
    SliceRun(rs, bufs, false, offset, total, p, c, q);
    LoadSlice(rs, mem, Slice(bufs, false, offset, total), p, c.region, c.offset, q - p);
    var all := ReadAll(mem, Slice(bufs, false, offset, total));
    assert all[..q][p..] == all[p..q];
  }

  lemma LoadPayload(rs: seq<Region>, mem: Mem, chain: Chain, total: nat, p: nat, q: nat, c: Chunk)
    requires Layout(rs) && Backed(rs, mem) && PayloadBacked(mem, chain, total) && p <= q <= total
    requires Serves(rs, Stream(chain.bufs, false), false, HEADER_SIZE + p, c) && q - p <= c.len
    ensures Load(rs, mem, c.region, c.offset, q - p) == Payload(mem, chain, total)[p..q]
  {
    LoadChunk(rs, mem, chain.bufs, HEADER_SIZE, total, p, q, c);
  }

  /** The readable stream after the request header. */
  function Payload(mem: Mem, chain: Chain, total: nat): (bs: seq<byte>)
    requires PayloadBacked(mem, chain, total)
    ensures |bs| == total
  {
    ReadAll(mem, Slice(chain.bufs, false, HEADER_SIZE, total))
  }

  ghost predicate PayloadBacked(mem: Mem, chain: Chain, total: nat) {
    && HEADER_SIZE + total <= |Stream(chain.bufs, false)|
    && forall i :: 0 <= i < total ==> Slice(chain.bufs, false, HEADER_SIZE, total)[i] in mem
  }

  lemma PayloadIsBacked(rs: seq<Region>, mem: Mem, chain: Chain, total: nat)
    requires Layout(rs) && Backed(rs, mem) && ChainOk(rs, chain) && HEADER_SIZE + total <= chain.readable
    ensures PayloadBacked(mem, chain, total)
  {
    SliceBacked(rs, mem, chain.bufs, false);
  }

  // ----- one request

  datatype Header = Header(kind: nat, sector: nat)

  ghost predicate HeaderBacked(mem: Mem, chain: Chain) {
    && HEADER_SIZE <= |Stream(chain.bufs, false)|
    && forall a :: a in Slice(chain.bufs, false, 0, HEADER_SIZE) ==> a in mem
  }

  /** The 16-byte header at the start of the readable stream: type at 0, sector at 8. */
  function HeaderOf(mem: Mem, chain: Chain): Header
    requires HeaderBacked(mem, chain)
  {
    var bs := ReadAll(mem, Slice(chain.bufs, false, 0, HEADER_SIZE));
    Header(FromLe(bs[..4]), FromLe(bs[8..16]))
  }

  predicate IsInput(kind: nat) {
    kind == T_IN || kind == T_GET_ID
  }

  /** The data bytes of a request: everything but the header and the status byte. */
  function Total(chain: Chain, kind: nat): nat
    requires chain.writable > 0 && chain.readable >= HEADER_SIZE
  {
    if IsInput(kind) then chain.writable - 1 else chain.readable - HEADER_SIZE
  }

  /** Nothing but the header is readable, or nothing but the status is writable. */
  predicate Shaped(chain: Chain, kind: nat)
    requires chain.writable > 0 && chain.readable >= HEADER_SIZE
  {
    && (if IsInput(kind) then chain.readable == HEADER_SIZE else chain.writable == 1)
    && Total(chain, kind) < U32_MAX
  }

  function Offset(sector: nat): nat {
    SECTOR_SIZE * sector
  }

  /** A whole number of sectors within the disk. */
  predicate InRange(capacity: nat, sector: nat, total: nat) {
    total % SECTOR_SIZE == 0 && Offset(sector) + total <= capacity
  }

  /** The checks made before a transfer, with the overflow tests the code makes. */
  method CheckRange(capacity: nat, sector: nat, total: nat) returns (ok: bool)
    requires capacity <= U64_MAX
    ensures ok <==> InRange(capacity, sector, total)
    ensures ok <==> total % 512 == 0 && 512 * sector + total <= capacity
  {
    if sector > U64_MAX / SECTOR_SIZE || total % SECTOR_SIZE != 0 {
      return false;
    }
    var offset := Offset(sector);
    ok := !(offset > capacity || total > capacity - offset);
  }

  /** What serving one request may do: `moved` counts the bytes that actually travelled, `calls` are
      the backend calls made. */
  datatype Effect = Effect(status: byte, written: nat, moved: nat, mem: Mem, disk: seq<byte>, calls: Calls)

  /** The host side of the device: guest RAM, the answers of the backend, and what it can do. */
  datatype Host = Host(rs: seq<Region>, backend: Backend, readonly: bool, canFlush: bool)

  predicate Refused(mem: Mem, disk: seq<byte>, e: Effect) {
    e == Effect(S_IOERR, 0, 0, mem, disk, NoCall)
  }

  /** An in-range IN succeeds exactly when the backend answers every call in full. */
  ghost predicate InEffect(h: Host, first: nat, mem: Mem, disk: seq<byte>, chain: Chain, sector: nat, e: Effect)
    requires 0 < chain.writable == |Stream(chain.bufs, true)|
  {
    var total := chain.writable - 1;
    if !InRange(|disk|, sector, total) then Refused(mem, disk, e)
    else
      && e.status == (if AllFull(h.backend, e.calls) then S_OK else S_IOERR) && e.disk == disk
      && InTurn(h.rs, chain.bufs, true, 0, total, first, e.calls)
      && Transferred(h.backend, e.calls, total, e.status == S_OK) && (e.status == S_OK ==> e.written == total)
      && e.written == Reported(h.backend, e.calls) <= e.moved == Travelled(h.backend, e.calls) <= total
      && e.mem == Landed(mem, chain.bufs, Sectors(disk, Offset(sector), total), e.moved)
  }

  /** The first `moved` payload bytes are on the disk. */
  ghost predicate Stored(mem: Mem, disk: seq<byte>, chain: Chain, offset: nat, total: nat, moved: nat, d: seq<byte>) {
    && moved <= total && offset + total <= |disk|
    && PayloadBacked(mem, chain, total)
    && d == Overwrite(disk, offset, Payload(mem, chain, total), moved)
  }

  /** So does an in-range OUT to a disk that is not read-only. */
  ghost predicate OutEffect(h: Host, first: nat, mem: Mem, disk: seq<byte>, chain: Chain, sector: nat, e: Effect)
    requires HEADER_SIZE <= chain.readable
  {
    var total := chain.readable - HEADER_SIZE;
    if !InRange(|disk|, sector, total) || h.readonly then Refused(mem, disk, e)
    else
      && e.status == (if AllFull(h.backend, e.calls) then S_OK else S_IOERR) && e.written == 0 && e.mem == mem
      && InTurn(h.rs, chain.bufs, false, HEADER_SIZE, total, first, e.calls)
      && Transferred(h.backend, e.calls, total, e.status == S_OK) && (e.status == S_OK ==> e.moved == total)
      && e.moved == Travelled(h.backend, e.calls)
      && Stored(mem, disk, chain, Offset(sector), total, e.moved, e.disk)
  }

  ghost predicate IdEffect(mem: Mem, disk: seq<byte>, chain: Chain, e: Effect)
    requires 0 < chain.writable == |Stream(chain.bufs, true)|
  {
    if chain.writable - 1 < |DISK_ID| then Refused(mem, disk, e)
    else
      && e.status == S_OK && e.written == e.moved == |DISK_ID| && e.disk == disk && e.calls == NoCall
      && e.mem == WriteRange(mem, Slice(chain.bufs, true, 0, |DISK_ID|), DISK_ID, 0, |DISK_ID|)
  }

  /** The call number of a flush is `first`. */
  predicate FlushEffect(h: Host, first: nat, mem: Mem, disk: seq<byte>, e: Effect) {
    && e.mem == mem && e.disk == disk && e.written == e.moved == 0
    && (if !h.canFlush then e.status == S_UNSUPP && e.calls == NoCall
        else
          && e.status == (if ReplyTo(h.backend, first).failed then S_IOERR else S_OK)
          && e.calls == Called(NoCall, Call(first, 0, 0, NoChunk)))
  }

  /** The effect that the specification of the block device allows for a request. */
  ghost predicate Answered(h: Host, first: nat, mem: Mem, disk: seq<byte>, chain: Chain, req: Header, e: Effect)
    requires 0 < chain.writable == |Stream(chain.bufs, true)| && HEADER_SIZE <= chain.readable
  {
    if !Shaped(chain, req.kind) then Refused(mem, disk, e)
    else if req.kind == T_IN then InEffect(h, first, mem, disk, chain, req.sector, e)
    else if req.kind == T_OUT then OutEffect(h, first, mem, disk, chain, req.sector, e)
    else if req.kind == T_GET_ID then IdEffect(mem, disk, chain, e)
    else if req.kind != T_FLUSH then e == Effect(S_UNSUPP, 0, 0, mem, disk, NoCall)
    else if chain.readable != HEADER_SIZE then Refused(mem, disk, e)
    else FlushEffect(h, first, mem, disk, e)
  }

  /** The request is the one in the header. */
  ghost predicate Allowed(h: Host, first: nat, mem: Mem, disk: seq<byte>, chain: Chain, e: Effect)
    requires 0 < chain.writable == |Stream(chain.bufs, true)| && HeaderBacked(mem, chain)
    requires HEADER_SIZE <= chain.readable
  {
    Answered(h, first, mem, disk, chain, HeaderOf(mem, chain), e)
  }

  const DISK_ID: seq<byte> := [77, 79, 68, 86, 77, 45, 68, 73, 83, 75, 0, 0, 0, 0, 0, 0, 0, 0, 0, 0]

  /** One request, from the header to the status (the status byte itself is written later); the
      backend calls it makes are numbered from `first`. */
  method Serve(h: Host, first: nat, mem: Mem, disk: seq<byte>, chain: Chain) returns (e: Effect)
    requires Layout(h.rs) && Backed(h.rs, mem) && ChainOk(h.rs, chain) && chain.writable > 0 && |disk| <= U64_MAX
    ensures Backed(h.rs, e.mem) && |e.disk| == |disk| && e.written < U32_MAX
    ensures Served(h, first, mem, disk, chain, e)
  {
    var ok, hdr := ReadChain(h.rs, mem, chain, 0, HEADER_SIZE);
    if !ok {
      return Effect(S_IOERR, 0, 0, mem, disk, NoCall);
    }
    var req := Header(FromLe(hdr[..4]), FromLe(hdr[8..16]));
    e := Answer(h, first, mem, disk, chain, req);
  }

  method Answer(h: Host, first: nat, mem: Mem, disk: seq<byte>, chain: Chain, req: Header) returns (e: Effect)
    requires Layout(h.rs) && Backed(h.rs, mem) && ChainOk(h.rs, chain) && chain.writable > 0 && |disk| <= U64_MAX
    requires HEADER_SIZE <= chain.readable
    ensures Backed(h.rs, e.mem) && |e.disk| == |disk| && e.written < U32_MAX
    ensures Answered(h, first, mem, disk, chain, req, e)
  {
    var kind := req.kind;
    e := Effect(S_IOERR, 0, 0, mem, disk, NoCall);
    if !Shaped(chain, kind) {
      return;
    }
    if kind == T_IN {
      e := ServeIn(h, first, mem, disk, chain, req.sector);
    } else if kind == T_OUT {
      e := ServeOut(h, first, mem, disk, chain, req.sector);
    } else if kind == T_GET_ID {
      if Total(chain, kind) >= |DISK_ID| {
        var m := CopyLoop(h.rs, mem, chain, 0, DISK_ID);
        e := Effect(S_OK, |DISK_ID|, |DISK_ID|, m, disk, NoCall);
      }
    } else if kind == T_FLUSH {
      if Total(chain, kind) == 0 {
        if !h.canFlush {
          e := e.(status := S_UNSUPP);
        } else {
          e := e.(status := if ReplyTo(h.backend, first).failed then S_IOERR else S_OK,
                  calls := Called(NoCall, Call(first, 0, 0, NoChunk)));
        }
      }
    } else {
      e := e.(status := S_UNSUPP);
    }
  }

  method ServeIn(h: Host, first: nat, mem: Mem, disk: seq<byte>, chain: Chain, sector: nat) returns (e: Effect)
    requires Layout(h.rs) && Backed(h.rs, mem) && ChainOk(h.rs, chain) && |disk| <= U64_MAX
    requires 0 < chain.writable <= U32_MAX
    ensures InEffect(h, first, mem, disk, chain, sector, e)
    ensures Backed(h.rs, e.mem) && e.disk == disk && e.written < U32_MAX
  {
    var total := chain.writable - 1;
    var ok := CheckRange(|disk|, sector, total);
    if !ok {
      return Effect(S_IOERR, 0, 0, mem, disk, NoCall);
    }
    var done, written, moved, m, calls := TransferIn(h.rs, mem, disk, chain, Offset(sector), total, h.backend, first);
    e := Effect(if done then S_OK else S_IOERR, written, moved, m, disk, calls);
  }

  method ServeOut(h: Host, first: nat, mem: Mem, disk: seq<byte>, chain: Chain, sector: nat) returns (e: Effect)
    requires Layout(h.rs) && Backed(h.rs, mem) && ChainOk(h.rs, chain) && |disk| <= U64_MAX
    requires HEADER_SIZE <= chain.readable
    ensures OutEffect(h, first, mem, disk, chain, sector, e)
    ensures e.mem == mem && |e.disk| == |disk| && e.written == 0
  {
    var total := chain.readable - HEADER_SIZE;
    var ok := CheckRange(|disk|, sector, total);
    if !ok || h.readonly {
      return Effect(S_IOERR, 0, 0, mem, disk, NoCall);
    }
    var done, moved, d, calls :=
      TransferOut(h.rs, mem, disk, h.readonly, chain, Offset(sector), total, h.backend, first);
    e := Effect(if done then S_OK else S_IOERR, 0, moved, mem, d, calls);
  }

  // ----- what the guest may rely on

  /** A successful IN leaves the disk sectors in the writable stream and the byte kept for the
      status alone, when the guest's writable buffers do not overlap. */
  lemma InDelivers(h: Host, first: nat, mem: Mem, disk: seq<byte>, chain: Chain, sector: nat, e: Effect)
    requires 0 < chain.writable == |Stream(chain.bufs, true)| && Injective(Stream(chain.bufs, true))
    requires InEffect(h, first, mem, disk, chain, sector, e) && e.status == S_OK
    ensures var at := Slice(chain.bufs, true, 0, chain.writable - 1);
      var last := Stream(chain.bufs, true)[chain.writable - 1];
      && 512 * sector + |at| <= |disk| && e.written == |at|
      && (forall i :: 0 <= i < |at| ==> at[i] in e.mem)
      && ReadAll(e.mem, at) == disk[512 * sector..][..|at|]
      && (last in mem ==> e.mem[last] == mem[last])
  {
    var total := chain.writable - 1;
    DeliveredOnce(mem, Stream(chain.bufs, true), Sectors(disk, Offset(sector), total), total);
    assert Sectors(disk, Offset(sector), total) == disk[512 * sector..][..total];
  }

  /** Distinct addresses: the first `total` hold the source, the one after them is untouched. */
  lemma DeliveredOnce(mem: Mem, all: seq<nat>, src: seq<byte>, total: nat)
    requires total < |all| && total == |src| && Injective(all)
    ensures var at := all[0..0 + total]; var m := WriteRange(mem, at, src, 0, total);
      && (forall i :: 0 <= i < total ==> at[i] in m) && ReadAll(m, at) == src
      && (all[total] in mem ==> m[all[total]] == mem[all[total]])
  {
    var at := all[0..0 + total];
    assert forall i :: 0 <= i < total ==> at[i] == all[i];
    ReadBack(mem, at, src);
    if all[total] in mem {
      assert at[0..total] == at;
      WriteFrame(mem, at, src, 0, total, all[total]);
    }
  }

  /** A successful OUT makes the disk range equal the readable stream after the header and leaves
      every other disk byte alone. */
  lemma OutStores(h: Host, first: nat, mem: Mem, disk: seq<byte>, chain: Chain, sector: nat, e: Effect)
    requires HEADER_SIZE <= chain.readable == |Stream(chain.bufs, false)|
    requires OutEffect(h, first, mem, disk, chain, sector, e) && e.status == S_OK
    ensures var at := Stream(chain.bufs, false)[16..]; var place := 512 * sector;
      && !h.readonly && place + |at| <= |disk| == |e.disk|
      && (forall i :: 0 <= i < |at| ==> at[i] in mem && e.disk[place + i] == mem[at[i]])
      && forall i :: 0 <= i < |disk| && !(place <= i < place + |at|) ==> e.disk[i] == disk[i]
  {
    var at, total := Stream(chain.bufs, false)[16..], chain.readable - HEADER_SIZE;
    assert Slice(chain.bufs, false, HEADER_SIZE, total) == at;
    var payload := Payload(mem, chain, total);
    assert forall i :: 0 <= i < |at| ==> at[i] in mem && payload[i] == mem[at[i]];
  }

  /** A backend that answers every call in full: then every well-shaped request that is in range
      succeeds, an OUT only on a disk that is not read-only. */
  lemma HealthyBackendSucceeds(h: Host, first: nat, mem: Mem, disk: seq<byte>, chain: Chain, e: Effect)
    requires 0 < chain.writable == |Stream(chain.bufs, true)| && HeaderBacked(mem, chain)
    requires HEADER_SIZE <= chain.readable
    requires Allowed(h, first, mem, disk, chain, e) && forall k :: Full(ReplyTo(h.backend, k), |disk|)
    ensures var req := HeaderOf(mem, chain);
      (req.kind == T_IN || req.kind == T_OUT) && Shaped(chain, req.kind) ==>
        (e.status == S_OK <==>
           InRange(|disk|, req.sector, Total(chain, req.kind)) && !(req.kind == T_OUT && h.readonly))
  {}

  /** What an OUT stored, an IN of the same sectors delivers: two successful requests whose data parts
      are equally long, with any guest memory and any chain for the second. */
  lemma WrittenThenRead(h: Host, first: nat, mem: Mem, disk: seq<byte>, out: Chain, sector: nat, e: Effect,
                        h': Host, first': nat, mem': Mem, into: Chain, e': Effect)
    requires HEADER_SIZE <= out.readable && 0 < into.writable == |Stream(into.bufs, true)|
    requires Injective(Stream(into.bufs, true)) && into.writable - 1 == out.readable - HEADER_SIZE
    requires OutEffect(h, first, mem, disk, out, sector, e) && e.status == S_OK
    requires InEffect(h', first', mem', e.disk, into, sector, e') && e'.status == S_OK
    ensures var at := Slice(into.bufs, true, 0, into.writable - 1);
      && PayloadBacked(mem, out, |at|) && (forall i :: 0 <= i < |at| ==> at[i] in e'.mem)
      && ReadAll(e'.mem, at) == Payload(mem, out, |at|)
  {
    OnDisk(h, first, mem, disk, out, sector, e, out.readable - HEADER_SIZE);
    InDelivers(h', first', mem', e.disk, into, sector, e');
  }

  lemma OnDisk(h: Host, first: nat, mem: Mem, disk: seq<byte>, chain: Chain, sector: nat, e: Effect, total: nat)
    requires HEADER_SIZE <= chain.readable && total == chain.readable - HEADER_SIZE
    requires OutEffect(h, first, mem, disk, chain, sector, e) && e.status == S_OK
    ensures PayloadBacked(mem, chain, total) && 512 * sector + total <= |e.disk|
    ensures e.disk[512 * sector..][..total] == Payload(mem, chain, total)
  {}

  // ----- the table of requests, in the numbers of the specification

  /** The value of `n` bytes of a stream from position `from` on, least significant first. */
  function StreamValue(mem: Mem, at: seq<nat>, from: nat, n: nat): nat
    requires from + n <= |at| && forall i :: 0 <= i < |at| ==> at[i] in mem
    decreases n
  {
    if n == 0 then 0 else (mem[at[from]] as nat) + 0x100 * StreamValue(mem, at, from + 1, n - 1)
  }

  lemma {:induction false} ValueOfSlice(mem: Mem, at: seq<nat>, from: nat, n: nat)
    requires from + n <= |at| && forall i :: 0 <= i < |at| ==> at[i] in mem
    ensures FromLe(ReadAll(mem, at)[from..from + n]) == StreamValue(mem, at, from, n)
    decreases n
  {
    if n == 0 {
    } else {
      var bs := ReadAll(mem, at);
      assert bs[from..from + n][1..] == bs[from + 1..from + 1 + (n - 1)];
      ValueOfSlice(mem, at, from + 1, n - 1);
    }
  }

  /** The effect of a request that is answered without touching disk or memory. */
  predicate Only(mem: Mem, disk: seq<byte>, status: byte, e: Effect) {
    e == Effect(status, 0, 0, mem, disk, NoCall)
  }

  /** What the driver's request means: the type is in bytes 0 to 3 of the readable stream and the sector in bytes
      8 to 15; type 0 reads, 1 writes, 4 flushes, 8 asks for the identity; status 0 is success, 1 an error, 2
      an unknown request. */
  lemma RequestTable(h: Host, first: nat, mem: Mem, disk: seq<byte>, chain: Chain, e: Effect)
    requires Served(h, first, mem, disk, chain, e) && chain.readable == |Stream(chain.bufs, false)|
    requires forall i :: 0 <= i < chain.readable ==> Stream(chain.bufs, false)[i] in mem
    ensures var at := Stream(chain.bufs, false); var r, w := chain.readable, chain.writable;
      && (r < 16 ==> Only(mem, disk, 1, e))
      && (r >= 16 ==>
            var kind, sector := StreamValue(mem, at, 0, 4), StreamValue(mem, at, 8, 8);
            && (kind == 0 ==> ReadRequest(h, mem, disk, r, w, sector, e))
            && (kind == 1 ==> WriteRequest(h, mem, disk, r, w, sector, e))
            && (kind == 4 ==> FlushRequest(h, first, mem, disk, r, w, e))
            && (kind == 8 ==> IdentityRequest(mem, disk, r, w, e))
            && (kind !in {0, 1, 4, 8} ==>
                  Only(mem, disk, if w == 1 && r - 16 < 0xffff_ffff then 2 else 1, e)))
  {
    var at := Stream(chain.bufs, false);
    if chain.readable >= 16 {
      HeaderIsThere(mem, at);
      assert Slice(chain.bufs, false, 0, HEADER_SIZE) == at[..16];
    }
  }

  lemma HeaderIsThere(mem: Mem, at: seq<nat>)
    requires |at| >= 16 && forall i :: 0 <= i < |at| ==> at[i] in mem
    ensures var bs := ReadAll(mem, at[..16]);
      FromLe(bs[..4]) == StreamValue(mem, at, 0, 4) && FromLe(bs[8..16]) == StreamValue(mem, at, 8, 8)
  {
    var bs, all := ReadAll(mem, at[..16]), ReadAll(mem, at);
    assert bs == all[..16];
    assert bs[..4] == all[0..0 + 4] && bs[8..16] == all[8..8 + 8];
    ValueOfSlice(mem, at, 0, 4);
    ValueOfSlice(mem, at, 8, 8);
  }

  predicate ReadRequest(h: Host, mem: Mem, disk: seq<byte>, r: nat, w: nat, sector: nat, e: Effect) {
    if r == 16 && 0 < w <= 0xffff_ffff && (w - 1) % 512 == 0 && 512 * sector + (w - 1) <= |disk|
    then e.status == (if AllFull(h.backend, e.calls) then 0 else 1) && e.disk == disk
    else Only(mem, disk, 1, e)
  }

  predicate WriteRequest(h: Host, mem: Mem, disk: seq<byte>, r: nat, w: nat, sector: nat, e: Effect)
    requires r >= 16
  {
    if w == 1 && r - 16 < 0xffff_ffff && (r - 16) % 512 == 0 && 512 * sector + (r - 16) <= |disk| && !h.readonly
    then e.status == (if AllFull(h.backend, e.calls) then 0 else 1) && e.mem == mem && e.written == 0
    else Only(mem, disk, 1, e)
  }

  predicate FlushRequest(h: Host, first: nat, mem: Mem, disk: seq<byte>, r: nat, w: nat, e: Effect) {
    if w != 1 || r != 16 then Only(mem, disk, 1, e)
    else if !h.canFlush then Only(mem, disk, 2, e)
    else
      && e.status == (if ReplyTo(h.backend, first).failed then 1 else 0)
      && e.mem == mem && e.disk == disk && e.written == 0
  }

  /** The identity is "MODVM-DISK", padded with zeros to 20 bytes. */
  predicate IdentityRequest(mem: Mem, disk: seq<byte>, r: nat, w: nat, e: Effect) {
    if r == 16 && 21 <= w <= 0xffff_ffff then e.status == 0 && e.written == 20 && e.disk == disk
    else Only(mem, disk, 1, e)
  }

  /** And the identity is in the writable stream. */
  lemma IdentityBytes(mem: Mem, disk: seq<byte>, chain: Chain, e: Effect)
    requires 0 < chain.writable == |Stream(chain.bufs, true)| && Injective(Stream(chain.bufs, true))
    requires IdEffect(mem, disk, chain, e) && e.status == 0
    ensures var at := Stream(chain.bufs, true)[..20];
      && (forall i :: 0 <= i < 20 ==> at[i] in e.mem)
      && ReadAll(e.mem, at) == [77, 79, 68, 86, 77, 45, 68, 73, 83, 75] + seq(10, i => 0)
  {
    var at := Stream(chain.bufs, true)[..20];
    assert Slice(chain.bufs, true, 0, 20) == at;
    ReadBack(mem, at, DISK_ID);
  }

  /** Whatever the request, a read-only disk and the bytes outside an OUT's range never change,
      guest memory outside the data part of the writable stream never changes, and the length
      reported to the driver stays within 32 bits. */
  lemma EffectIsConfined(h: Host, first: nat, mem: Mem, disk: seq<byte>, chain: Chain, e: Effect, a: nat, i: nat)
    requires 0 < chain.writable == |Stream(chain.bufs, true)| && HeaderBacked(mem, chain)
    requires HEADER_SIZE <= chain.readable
    requires Allowed(h, first, mem, disk, chain, e)
    ensures h.readonly ==> e.disk == disk
    ensures |e.disk| == |disk| && e.written + 1 <= U32_MAX
    ensures var req := HeaderOf(mem, chain); i < |disk| && e.disk[i] != disk[i] ==>
      req.kind == 1 && 512 * req.sector <= i < 512 * req.sector + (chain.readable - 16)
    ensures a in mem && a !in Slice(chain.bufs, true, 0, chain.writable - 1) ==> a in e.mem && e.mem[a] == mem[a]
  {
    var req := HeaderOf(mem, chain);
    if Shaped(chain, req.kind) {
      if req.kind == T_IN {
        InIsConfined(h, first, mem, disk, chain, req.sector, e, a);
      } else if req.kind == T_OUT {
        OutIsConfined(h, first, mem, disk, chain, req.sector, e, i);
      } else if req.kind == T_GET_ID {
        IdIsConfined(mem, disk, chain, e, a);
      }
    }
  }

  lemma InIsConfined(h: Host, first: nat, mem: Mem, disk: seq<byte>, chain: Chain, sector: nat, e: Effect, a: nat)
    requires 0 < chain.writable == |Stream(chain.bufs, true)| && InEffect(h, first, mem, disk, chain, sector, e)
    ensures e.disk == disk && e.written <= chain.writable - 1
    ensures a in mem && a !in Slice(chain.bufs, true, 0, chain.writable - 1) ==> a in e.mem && e.mem[a] == mem[a]
  {
    var total := chain.writable - 1;
    var at := Slice(chain.bufs, true, 0, total);
    if InRange(|disk|, sector, total) && a in mem && a !in at {
      PrefixFrame(mem, at, Sectors(disk, Offset(sector), total), e.moved, a);
    }
  }

  lemma OutIsConfined(h: Host, first: nat, mem: Mem, disk: seq<byte>, chain: Chain, sector: nat, e: Effect, i: nat)
    requires HEADER_SIZE <= chain.readable && OutEffect(h, first, mem, disk, chain, sector, e)
    ensures e.mem == mem && e.written == 0 && |e.disk| == |disk| && (h.readonly ==> e.disk == disk)
    ensures i < |disk| && e.disk[i] != disk[i] ==> 512 * sector <= i < 512 * sector + (chain.readable - HEADER_SIZE)
  {}

  lemma IdIsConfined(mem: Mem, disk: seq<byte>, chain: Chain, e: Effect, a: nat)
    requires 0 < chain.writable == |Stream(chain.bufs, true)| && IdEffect(mem, disk, chain, e)
    ensures e.disk == disk && e.written <= chain.writable - 1
    ensures a in mem && a !in Slice(chain.bufs, true, 0, chain.writable - 1) ==> a in e.mem && e.mem[a] == mem[a]
  {
    var all := Slice(chain.bufs, true, 0, chain.writable - 1);
    if chain.writable - 1 >= |DISK_ID| && a in mem && a !in all {
      assert Slice(chain.bufs, true, 0, |DISK_ID|) == all[..|DISK_ID|];
      PrefixFrame(mem, all[..|DISK_ID|], DISK_ID, |DISK_ID|, a);
    }
  }

  lemma PrefixFrame(mem: Mem, at: seq<nat>, src: seq<byte>, moved: nat, a: nat)
    requires moved <= |src| && moved <= |at| && a in mem && a !in at
    ensures var m := WriteRange(mem, at, src, 0, moved); a in m && m[a] == mem[a]
  {}

  // ----- the queue handler

  /** The effect of a popped chain, short headers included. */
  ghost predicate Served(h: Host, first: nat, mem: Mem, disk: seq<byte>, chain: Chain, e: Effect) {
    && 0 < chain.writable == |Stream(chain.bufs, true)|
    && if chain.readable < HEADER_SIZE then Refused(mem, disk, e)
       else HeaderBacked(mem, chain) && Allowed(h, first, mem, disk, chain, e)
  }

  /** The device's own state: the disk and the number of backend calls made so far. */
  datatype Disk = Disk(bytes: seq<byte>, calls: nat)

  /** A chain with room for a status is served and returned by push number `pushes`. */
  ghost predicate Right(h: Host, c: Config, t: Turn<Disk, Effect>) {
    if t.Stopping? then t.end.NoStatus? ==> t.end.chain.writable == 0
    else
      && c.rings.Rings? && c.size > 0 && t.chain.head < 0x1_0000 && t.e.written < U32_MAX
      && Served(h, t.from.own.calls, t.before, t.from.own.bytes, t.chain, t.e)
      && t.own == Disk(t.e.disk, NextCall(t.e.calls, t.from.own.calls))
      && t.after == Returned(t.chain, t.e.mem, t.e.status, t.e.written, c.rings, c.size, t.from.pushes)
  }

  ghost function Rule(h: Host, c: Config): Turn<Disk, Effect> -> bool {
    t => Right(h, c, t)
  }

  /** One turn of the loop, on values: what to store, and the turn. */
  method TakeTurn(h: Host, c: Config, ghost s: Stand<Disk>, ghost turns: Turns<Disk, Effect>, ghost from: Stand<Disk>,
                  mem: Mem, disk: seq<byte>, call: nat, broken: bool, lastAvail: nat, lastUsed: nat)
    returns (r: PopResult, e: Effect, m: Mem, idx: nat, ghost t: Turn<Disk, Effect>)
    requires Layout(h.rs) && Backed(h.rs, mem) && |disk| <= U64_MAX && PowerOfTwo(c.size) && c.size < 0x1_0000
    requires c.enabled ==> RingsFit(h.rs, c.size, c.rings)
    requires lastAvail == from.pops % 0x1_0000 && lastUsed == from.pushes % 0x1_0000
    requires from.own == Disk(disk, call) && from.broken == broken
    requires TurnsOk(h.rs, c, Rule(h, c), s, turns) && GoesOn(turns) && After(turns, s) == from
    ensures TurnsOk(h.rs, c, Rule(h, c), s, Turned(turns, t)) && (r.Popped? ==> |r.chain.bufs| <= c.size)
    ensures t == if r.Popped? && r.chain.writable > 0
                 then Serving(from, mem, r.chain, e, Disk(e.disk, NextCall(e.calls, call)), m)
                 else Stopping(from, mem, if r.Nothing? then Drained else if r.Failed? then Jam else NoStatus(r.chain))
    ensures Backed(h.rs, m) && |e.disk| == |disk| && idx == (from.pushes + 1) % 0x1_0000
  {
    WrapSucc(from.pushes);
    r := Take(h.rs, mem, c, broken, lastAvail, from.pops);
    if r.Popped? && r.chain.writable > 0 {
      e, m, idx, t := ServeTurn(h, c, s, turns, from, mem, disk, call, r.chain, lastUsed);
    } else {
      e, m, idx := Effect(S_IOERR, 0, 0, mem, disk, NoCall), mem, (lastUsed + 1) % 0x1_0000;
      t := Stopping(from, mem, if r.Nothing? then Drained else if r.Failed? then Jam else NoStatus(r.chain));
      Stops(h.rs, c, Rule(h, c), s, turns, t);
    }
  }

  /** A turn that serves `chain`. */
  method ServeTurn(h: Host, c: Config, ghost s: Stand<Disk>, ghost turns: Turns<Disk, Effect>, ghost from: Stand<Disk>,
                   mem: Mem, disk: seq<byte>, call: nat, chain: Chain, lastUsed: nat)
    returns (e: Effect, m: Mem, idx: nat, ghost t: Turn<Disk, Effect>)
    requires Layout(h.rs) && Backed(h.rs, mem) && |disk| <= U64_MAX && PowerOfTwo(c.size) && c.size < 0x1_0000
    requires Took(h.rs, mem, c, from.pops, chain) && chain.writable > 0 && lastUsed == from.pushes % 0x1_0000
    requires from.own == Disk(disk, call) && !from.broken
    requires TurnsOk(h.rs, c, Rule(h, c), s, turns) && GoesOn(turns) && After(turns, s) == from
    ensures TurnsOk(h.rs, c, Rule(h, c), s, Turned(turns, t))
    ensures t == Serving(from, mem, chain, e, Disk(e.disk, NextCall(e.calls, call)), m)
    ensures Backed(h.rs, m) && |e.disk| == |disk| && idx == (from.pushes + 1) % 0x1_0000
  {
    e, m, idx := Complete(h, c, mem, disk, call, chain, lastUsed, from.pushes);
    t := ServedTurn(h, c, from, mem, disk, call, chain, e, m);
    OneMore(h.rs, c, Rule(h, c), s, turns, t);
  }

  lemma ServedTurn(h: Host, c: Config, from: Stand<Disk>, mem: Mem, disk: seq<byte>, call: nat, chain: Chain, e: Effect,
                   m: Mem)
    returns (t: Turn<Disk, Effect>)
    requires !from.broken && from.own == Disk(disk, call) && Took(h.rs, mem, c, from.pops, chain)
    requires Served(h, call, mem, disk, chain, e) && e.written < U32_MAX
    requires m == Returned(chain, e.mem, e.status, e.written, c.rings, c.size, from.pushes)
    ensures t == Serving(from, mem, chain, e, Disk(e.disk, NextCall(e.calls, call)), m)
    ensures TurnOk(h.rs, c, Rule(h, c), t)
  {
    t := Serving(from, mem, chain, e, Disk(e.disk, NextCall(e.calls, call)), m);
    assert Right(h, c, t);
  }

  /** Serve one chain, write its status to the last writable byte and return it to the driver with the
      number of bytes written. */
  method Complete(h: Host, c: Config, mem: Mem, disk: seq<byte>, call: nat, chain: Chain, lastUsed: nat,
                  ghost pushes: nat)
    returns (e: Effect, m: Mem, idx: nat)
    requires Layout(h.rs) && Backed(h.rs, mem) && |disk| <= U64_MAX && PowerOfTwo(c.size) && c.size < 0x1_0000
    requires c.rings.Rings? && ChainOk(h.rs, chain) && chain.writable > 0 && chain.head < 0x1_0000
    requires lastUsed == pushes % 0x1_0000
    ensures Served(h, call, mem, disk, chain, e) && e.written < U32_MAX && |e.disk| == |disk|
    ensures m == Returned(chain, e.mem, e.status, e.written, c.rings, c.size, pushes)
    ensures Backed(h.rs, m) && idx == (pushes + 1) % 0x1_0000
  {
    e := Serve(h, call, mem, disk, chain);
    m, idx := PutBack(h.rs, e.mem, c.size, c.rings, lastUsed, pushes, chain, e.status, e.written);
  }

  /** A read-only disk is never changed, whatever the guest asks. */
  lemma {:induction false} ReadonlyIsKept(h: Host, c: Config, s: Stand<Disk>, turns: Turns<Disk, Effect>)
    requires TurnsOk(h.rs, c, Rule(h, c), s, turns) && h.readonly
    ensures After(turns, s).own.bytes == s.own.bytes
  {
    if turns.NoTurn? {
    } else {
      LastTurn(h.rs, c, Rule(h, c), s, turns);
      ReadonlyIsKept(h, c, s, turns.past);
      var t := turns.last;
      if t.Serving? {
        assert Right(h, c, t);
        ServedReadonly(h, t.from.own.calls, t.before, t.from.own.bytes, t.chain, t.e);
      }
    }
  }

  lemma ServedReadonly(h: Host, first: nat, mem: Mem, disk: seq<byte>, chain: Chain, e: Effect)
    requires Served(h, first, mem, disk, chain, e) && h.readonly
    ensures e.disk == disk
  {}

  // ----- what a request does is determined

  function Count(calls: Calls): nat {
    if calls.NoCall? then 0 else Count(calls.past) + 1
  }

  lemma {:induction false} SameCalls(rs: seq<Region>, bufs: seq<Buf>, write: bool, skip: nat, total: nat, first: nat,
                                     x: Calls, y: Calls)
    requires InTurn(rs, bufs, write, skip, total, first, x) && InTurn(rs, bufs, write, skip, total, first, y)
    requires Count(x) == Count(y)
    ensures x == y
  {
    if x.NoCall? {
    } else {
      SameCalls(rs, bufs, write, skip, total, first, x.past, y.past);
    }
  }

  /** Calls that others go beyond were all answered in full and left something to ask for. */
  lemma {:induction false} NotTheEnd(rs: seq<Region>, bufs: seq<Buf>, write: bool, skip: nat, total: nat, first: nat,
                                     backend: Backend, x: Calls, y: Calls)
    requires InTurn(rs, bufs, write, skip, total, first, x) && InTurn(rs, bufs, write, skip, total, first, y)
    requires Count(x) < Count(y) && AllFull(backend, y.past)
    ensures AllFull(backend, x) && Reached(x) < total
    decreases y
  {
    if Count(x) == Count(y.past) {
      SameCalls(rs, bufs, write, skip, total, first, x, y.past);
    } else {
      NotTheEnd(rs, bufs, write, skip, total, first, backend, x, y.past);
    }
  }

  /** A transfer makes one list of calls, whatever the backend answers. */
  lemma OneTransfer(rs: seq<Region>, bufs: seq<Buf>, write: bool, skip: nat, total: nat, first: nat, backend: Backend,
                    x: Calls, ok: bool, y: Calls, ok': bool)
    requires InTurn(rs, bufs, write, skip, total, first, x) && InTurn(rs, bufs, write, skip, total, first, y)
    requires Transferred(backend, x, total, ok) && Transferred(backend, y, total, ok')
    ensures x == y && ok == ok'
  {
    if Count(x) < Count(y) {
      NotTheEnd(rs, bufs, write, skip, total, first, backend, x, y);
    } else if Count(y) < Count(x) {
      NotTheEnd(rs, bufs, write, skip, total, first, backend, y, x);
    } else {
      SameCalls(rs, bufs, write, skip, total, first, x, y);
    }
  }

  /** Whatever the guest asks and the backend answers, a request has exactly one effect. */
  lemma OneEffect(h: Host, first: nat, mem: Mem, disk: seq<byte>, chain: Chain, d: Effect, e: Effect)
    requires Served(h, first, mem, disk, chain, d) && Served(h, first, mem, disk, chain, e)
    ensures d == e
  {
    if HEADER_SIZE <= chain.readable {
      OneAnswer(h, first, mem, disk, chain, HeaderOf(mem, chain), d, e);
    }
  }

  lemma OneAnswer(h: Host, first: nat, mem: Mem, disk: seq<byte>, chain: Chain, req: Header, d: Effect, e: Effect)
    requires 0 < chain.writable == |Stream(chain.bufs, true)| && HEADER_SIZE <= chain.readable
    requires Answered(h, first, mem, disk, chain, req, d) && Answered(h, first, mem, disk, chain, req, e)
    ensures d == e
  {
    if !Shaped(chain, req.kind) {
    } else if req.kind == T_IN {
      OneIn(h, first, mem, disk, chain, req.sector, d, e);
    } else if req.kind == T_OUT {
      OneOut(h, first, mem, disk, chain, req.sector, d, e);
    } else if req.kind == T_GET_ID {
      OneId(mem, disk, chain, d, e);
    } else if req.kind == T_FLUSH && chain.readable == HEADER_SIZE {
      OneFlush(h, first, mem, disk, d, e);
    }
  }

  lemma OneId(mem: Mem, disk: seq<byte>, chain: Chain, d: Effect, e: Effect)
    requires 0 < chain.writable == |Stream(chain.bufs, true)|
    requires IdEffect(mem, disk, chain, d) && IdEffect(mem, disk, chain, e)
    ensures d == e
  {}

  lemma OneFlush(h: Host, first: nat, mem: Mem, disk: seq<byte>, d: Effect, e: Effect)
    requires FlushEffect(h, first, mem, disk, d) && FlushEffect(h, first, mem, disk, e)
    ensures d == e
  {}

  lemma OneIn(h: Host, first: nat, mem: Mem, disk: seq<byte>, chain: Chain, sector: nat, d: Effect, e: Effect)
    requires 0 < chain.writable == |Stream(chain.bufs, true)|
    requires InEffect(h, first, mem, disk, chain, sector, d) && InEffect(h, first, mem, disk, chain, sector, e)
    ensures d == e
  {
    var total := chain.writable - 1;
    if InRange(|disk|, sector, total) {
      OneTransfer(h.rs, chain.bufs, true, 0, total, first, h.backend, d.calls, d.status == S_OK, e.calls,
                  e.status == S_OK);
    }
  }

  lemma OneStored(mem: Mem, disk: seq<byte>, chain: Chain, offset: nat, total: nat, moved: nat, d: seq<byte>,
                  e: seq<byte>)
    requires Stored(mem, disk, chain, offset, total, moved, d) && Stored(mem, disk, chain, offset, total, moved, e)
    ensures d == e
  {}

  lemma OneOut(h: Host, first: nat, mem: Mem, disk: seq<byte>, chain: Chain, sector: nat, d: Effect, e: Effect)
    requires HEADER_SIZE <= chain.readable
    requires OutEffect(h, first, mem, disk, chain, sector, d) && OutEffect(h, first, mem, disk, chain, sector, e)
    ensures d == e
  {
    var total := chain.readable - HEADER_SIZE;
    if InRange(|disk|, sector, total) && !h.readonly {
      OneTransfer(h.rs, chain.bufs, false, HEADER_SIZE, total, first, h.backend, d.calls, d.status == S_OK, e.calls,
                  e.status == S_OK);
      assert d.moved == e.moved;
      OneStored(mem, disk, chain, Offset(sector), total, d.moved, d.disk, e.disk);
    } else {
      assert Refused(mem, disk, d) && Refused(mem, disk, e);
    }
  }

  /** So the handler's history is determined by the ring, the guest's writes and the backend's answers. */
  lemma RuleIsFunctional(h: Host, c: Config)
    ensures Functional(Rule(h, c))
  {
    forall t, u | Rule(h, c)(t) && Rule(h, c)(u) && SamePop(t, u)
      ensures t == u
    {
      if t.Serving? && u.Serving? {
        OneEffect(h, t.from.own.calls, t.before, t.from.own.bytes, t.chain, t.e, u.e);
      }
    }
  }

  class BlkDevice {
    const vq: Virtqueue
    const backend: Backend
    const readonly: bool
    const canFlush: bool
    var dev: Dev
    var disk: seq<byte>
    /** The number of backend calls made so far. */
    var calls: nat

    ghost predicate Valid()
      reads this, vq, vq.ram
    {
      vq.Valid() && |disk| <= U64_MAX
    }

    function Env(): Host {
      Host(vq.ram.regions, backend, readonly, canFlush)
    }

    ghost function Now(): Stand<Disk>
      reads this, vq
    {
      Stand(vq.pops, vq.pushes, vq.broken, dev, Disk(disk, calls))
    }

    constructor (vq: Virtqueue, disk: seq<byte>, backend: Backend, readonly: bool, canFlush: bool)
      requires vq.Valid() && |disk| <= U64_MAX
      ensures Valid() && this.vq == vq && Env() == Host(vq.ram.regions, backend, readonly, canFlush)
      ensures Now() == Stand(vq.pops, vq.pushes, vq.broken, VirtioStatus.Reset, Disk(disk, 0))
    {
      this.vq, this.disk, this.backend, this.readonly, this.canFlush := vq, disk, backend, readonly, canFlush;
      dev, calls := VirtioStatus.Reset, 0;
    }

    /** `virtio_blk_notify_queue`. Before turn k the guest writes `guest[k]`; the loop takes its turns until
        one stops it or the guest is silent. A device that is not ready does nothing. */
    method Notify(guest: seq<Mem>) returns (irq: bool, ghost turns: Turns<Disk, Effect>)
      requires Valid()
      modifies this`disk, this`dev, this`calls, vq.ram
      modifies vq`bufs, vq`broken, vq`lastAvail, vq`pops, vq`lastUsed, vq`pushes
      ensures Valid() && TurnsOk(Env().rs, vq.Settings(), Rule(Env(), vq.Settings()), old(Now()), turns)
      ensures Interleaved(guest, old(vq.ram.mem), turns)
      ensures Now() == After(turns, old(Now())) && vq.ram.mem == MemAfter(turns, old(vq.ram.mem))
      ensures if old(Ready(dev)) then Finished(guest, turns) else turns.NoTurn?
      ensures irq <==> vq.pushes > old(vq.pushes)
    {
      irq, turns := false, NoTurn;
      if !Ready(dev) {
        return;
      }
      ghost var h, c, s, m := Env(), vq.Settings(), Now(), vq.ram.mem;
      for k := 0 to |guest|
        invariant Valid() && c == vq.Settings() && old(vq.pushes) <= vq.pushes && (irq <==> vq.pushes > old(vq.pushes))
        invariant TurnsOk(h.rs, c, Rule(h, c), s, turns) && Now() == After(turns, s) && GoesOn(turns)
        invariant Interleaved(guest, m, turns) && Length(turns) == k && vq.ram.mem == MemAfter(turns, m)
      {
        vq.ram.GuestRuns(guest[k]);
        var more;
        more, turns := Round(h, c, s, turns);
        if !more {
          return;
        }
        irq := true;
      }
    }

    /** One turn of the loop. */
    method Round(ghost h: Host, ghost c: Config, ghost s: Stand<Disk>, ghost turns: Turns<Disk, Effect>)
      returns (more: bool, ghost turns': Turns<Disk, Effect>)
      requires Valid() && h == Env() && c == vq.Settings() && TurnsOk(h.rs, c, Rule(h, c), s, turns)
      requires Now() == After(turns, s) && GoesOn(turns)
      modifies this`disk, this`dev, this`calls, vq.ram
      modifies vq`bufs, vq`broken, vq`lastAvail, vq`pops, vq`lastUsed, vq`pushes
      ensures Valid() && TurnsOk(h.rs, c, Rule(h, c), s, turns') && Now() == After(turns', s)
      ensures turns'.Turned? && turns'.past == turns && turns'.last.before == old(vq.ram.mem)
      ensures more <==> turns'.last.Serving?
      ensures vq.ram.mem == if more then turns'.last.after else old(vq.ram.mem)
      ensures vq.pushes == old(vq.pushes) + (if more then 1 else 0)
    {
      var r, e, m, idx;
      ghost var t;
      r, e, m, idx, t := TakeTurn(Env(), vq.Settings(), s, turns, Now(), vq.ram.mem, disk, calls, vq.broken,
                                  vq.lastAvail, vq.lastUsed);
      turns' := Turned(turns, t);
      more := r.Popped? && r.chain.writable > 0;
      Apply(r.Failed?, r.Popped?, more, if r.Popped? then r.chain.bufs else [], m, idx, e.disk,
            NextCall(e.calls, calls));
    }

    /** Store what a turn did. */
    method Apply(failed: bool, popped: bool, served: bool, bufs: seq<Buf>, m: Mem, idx: nat, d: seq<byte>, call: nat)
      requires Valid() && |bufs| <= vq.queueSize && Backed(vq.ram.regions, m) && |d| <= U64_MAX && !(failed && popped)
      requires (served ==> popped) && idx == (vq.pushes + 1) % 0x1_0000
      modifies this`disk, this`dev, this`calls, vq.ram
      modifies vq`bufs, vq`broken, vq`lastAvail, vq`pops, vq`lastUsed, vq`pushes
      ensures Valid() && vq.ram.mem == if served then m else old(vq.ram.mem)
      ensures Now() == Stand(old(vq.pops) + (if popped then 1 else 0), old(vq.pushes) + (if served then 1 else 0),
                             old(vq.broken) || failed,
                             if failed || (popped && !served) then Fail(old(dev)) else old(dev),
                             if served then Disk(d, call) else Disk(old(disk), old(calls)))
    {
      vq.Record(failed, popped, bufs);
      if served {
        vq.Commit(m, idx);
        disk, calls := d, call;
      } else if failed || popped {
        dev := Fail(dev);
      }
    }
  }
}
