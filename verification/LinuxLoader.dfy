/** Boot placement of `src/loader/linux_x86.c`: the memory map handed to the kernel, the usable run above
    1 MiB, where kernel and initrd go, and the chunked copies. The header fields are parameters. */
module LinuxLoader {
  import opened GuestMemory
  import opened Streams
  import Virtqueues
  import opened PowersOfTwo
  import BarAllocator
  import Spans

  const KERNEL: nat := 0x10_0000
  const PAGE: nat := 4096
  const ZERO_PAGE: nat := 0x9_0000
  const CMDLINE: nat := 0x9_e000

  // ----- the usable run

  predicate Open(r: Region) {
    !r.readonly && !r.reserved
  }

  /** `a` is ordinary writable RAM. */
  predicate Usable(rs: seq<Region>, a: nat) {
    var i := Find(rs, a);
    i < |rs| && Open(rs[i])
  }

  ghost predicate AllUsable(rs: seq<Region>, from: nat, end: nat) {
    forall a :: from <= a < end ==> Usable(rs, a)
  }

  /** One pass of the fixpoint over the region list, in list order. */
  method ExtendOnce(rs: seq<Region>, low: nat) returns (top: nat, extended: bool)
    requires Layout(rs) && low >= KERNEL && AllUsable(rs, KERNEL, low)
    ensures top >= low && AllUsable(rs, KERNEL, top) && (extended ==> top > low) && (top > low ==> top <= U64_MAX)
    ensures !extended ==> top == low && !Usable(rs, low)
  {
    top, extended := low, false;
    for i := 0 to |rs|
      invariant top >= low && AllUsable(rs, KERNEL, top) && (extended ==> top > low) && (top > low ==> top <= U64_MAX)
      invariant !extended ==> top == low && forall j :: 0 <= j < i ==> !(Open(rs[j]) && Contains(rs[j], low))
    {
      var base, end := rs[i].gpa, rs[i].gpa + rs[i].size;
      if Open(rs[i]) && base <= top && end > top {
        forall a | KERNEL <= a < end
          ensures Usable(rs, a)
        {
          if a >= top {
            FindUnique(rs, a, i);
          }
        }
        top, extended := end, true;
      }
    }
  }

  /** The fixpoint: everything from 1 MiB up to the result is usable, and the result is the end of
      that run or 4 GiB. */
  method LowRam(rs: seq<Region>) returns (top: nat)
    requires Layout(rs)
    ensures IsLowRam(rs, top)
  {
    top := KERNEL;
    var extended := true;
    while extended
      invariant top >= KERNEL && AllUsable(rs, KERNEL, top) && (top > KERNEL ==> top <= U64_MAX)
      invariant !extended ==> !Usable(rs, top)
      decreases U64_MAX - top, extended
    {
      top, extended := ExtendOnce(rs, top);
    }
    if top > FOUR_GIB {
      top := FOUR_GIB;
    }
  }

  /** Only one value fits that description: the order of the regions does not matter. */
  lemma RunEndIsUnique(rs: seq<Region>, s: nat, t: nat)
    requires IsLowRam(rs, s) && IsLowRam(rs, t)
    ensures s == t
  {}

  // ----- placement

  datatype Setup = Setup(pref: nat, relocatable: bool, alignment: nat, initSize: nat, initrdMax: nat)

  datatype Error = EINVAL | ENOSPC | EFAULT | E2BIG

  datatype Placement = Refused(error: Error) | Placed(start: nat, end: nat)

  /** `s` is a start the header allows. */
  predicate Allowed(h: Setup, s: nat) {
    && KERNEL <= s && h.pref <= s
    && if h.relocatable then PowerOfTwo(h.alignment) && s % h.alignment == 0 else s == h.pref
  }

  /** The header of a relocatable kernel asks for a bad alignment, or for one that would wrap. */
  predicate NoStart(h: Setup) {
    h.relocatable && (!PowerOfTwo(h.alignment) || Floor(h) > U64_MAX - (h.alignment - 1))
  }

  /** Where the search for a start begins. */
  function Floor(h: Setup): nat {
    if h.pref < KERNEL then KERNEL else h.pref
  }

  /** Where the kernel runs: the lowest start the header allows, refused exactly when the workspace
      from there does not end within low RAM. */
  method PlaceKernel(h: Setup, low: nat) returns (p: Placement)
    requires KERNEL <= low <= FOUR_GIB && h.pref <= U64_MAX
    ensures p.Placed? <==> WorkspaceFits(h, low)
    ensures p.Placed? ==> !NoStart(h)
    ensures p.Placed? ==> Starts(h, p.start) && p.end == p.start + h.initSize <= low
    ensures p.Refused? ==> p.error == if NoStart(h) then EINVAL else ENOSPC
  {
    var ok, start := PickStart(h);
    if !ok {
      return Refused(EINVAL);
    }
    if h.initSize == 0 || start < KERNEL || start >= low || h.initSize > low - start {
      return Refused(ENOSPC);
    }
    return Placed(start, start + h.initSize);
  }

  /** The start before it is compared with RAM. */
  method PickStart(h: Setup) returns (ok: bool, start: nat)
    requires h.pref <= U64_MAX
    ensures ok <==> !NoStart(h)
    ensures !ok ==> forall s: nat :: Allowed(h, s) ==> s >= FOUR_GIB
    ensures ok && start < KERNEL ==> forall s: nat :: !Allowed(h, s)
    ensures ok && start >= KERNEL ==> Starts(h, start)
  {
    start := h.pref;
    if h.relocatable {
      if h.alignment == 0 || !PowerOfTwo(h.alignment) {
        return false, start;
      }
      if start < KERNEL {
        start := KERNEL;
      }
      if start > U64_MAX - (h.alignment - 1) {
        OutOfReach(h, start);
        return false, start;
      }
      AlignedStart(h, start);
      start := BarAllocator.AlignUp(start, h.alignment);
    }
    ok := true;
  }

  /** A start that would wrap lies above 4 GiB. */
  lemma OutOfReach(h: Setup, from: nat)
    requires h.relocatable && h.alignment > 0 && from == Floor(h)
    requires from > U64_MAX - (h.alignment - 1)
    ensures forall s: nat :: Allowed(h, s) ==> s >= FOUR_GIB
  {
    forall s: nat | Allowed(h, s)
      ensures s >= FOUR_GIB
    {
      if s < h.alignment {
        UniqueMod(s, h.alignment, 0, s);
      }
    }
  }

  lemma AlignedStart(h: Setup, from: nat)
    requires h.relocatable && PowerOfTwo(h.alignment) && from == Floor(h)
    ensures Allowed(h, BarAllocator.AlignUp(from, h.alignment))
    ensures forall s: nat :: Allowed(h, s) ==> BarAllocator.AlignUp(from, h.alignment) <= s
  {
    BarAllocator.AlignUpIsLeast(from, h.alignment, 0);
    forall s: nat | Allowed(h, s)
      ensures BarAllocator.AlignUp(from, h.alignment) <= s
    {
      BarAllocator.AlignUpIsLeast(from, h.alignment, s);
    }
  }

  /** `g` is a place for the initrd: page aligned, below the limit, above workspace and payload. */
  predicate Fits(g: nat, size: nat, limit: nat, runtimeEnd: nat, payload: nat) {
    g % PAGE == 0 && g + size <= limit && runtimeEnd <= g && KERNEL + payload <= g
  }

  /** The initrd goes to the highest place, and is refused exactly when there is none. */
  method PlaceInitrd(size: nat, initrdMax: nat, low: nat, runtimeEnd: nat, payload: nat) returns (p: Placement)
    requires size > 0
    ensures var limit := Limit(initrdMax, low);
      && (p.Placed? <==> exists g: nat :: Fits(g, size, limit, runtimeEnd, payload))
      && (p.Refused? ==> p.error == ENOSPC)
      && (p.Placed? ==> Fits(p.start, size, limit, runtimeEnd, payload) && p.end == p.start + size
                        && forall g: nat :: Fits(g, size, limit, runtimeEnd, payload) ==> g <= p.start)
  {
    var limit := Limit(initrdMax, low);
    if size > limit {
      return Refused(ENOSPC);
    }
    var start := (limit - size) - (limit - size) % PAGE;
    assert forall g: nat :: Fits(g, size, limit, runtimeEnd, payload) ==> g <= start;
    if start < runtimeEnd || start < KERNEL + payload {
      return Refused(ENOSPC);
    }
    assert Fits(start, size, limit, runtimeEnd, payload);
    return Placed(start, start + size);
  }

  // ----- the copies

  /** A chunked copy into usable RAM never meets an unmapped or read-only chunk, and stores the
      image byte by byte. */
  method CopyImage(rs: seq<Region>, mem: Mem, gpa: nat, image: seq<byte>) returns (ok: bool, m: Mem)
    requires Layout(rs) && Backed(rs, mem) && AllUsable(rs, gpa, gpa + |image|) && gpa + |image| <= U64_MAX
    ensures ok && Backed(rs, m)
    ensures m == WriteRange(mem, Span(gpa, |image|), image, 0, |image|)
  {
    ghost var at := Span(gpa, |image|);
    m := mem;
    var done := 0;
    while done < |image|
      invariant done <= |image| && m == WriteRange(mem, at, image, 0, done)
    {
      UsableIsMapped(rs, gpa + done, gpa + |image|);
      ChunkIsContiguous(rs, gpa + done, |image| - done, true, 0);
      var c := MapChunk(rs, gpa + done, |image| - done, true);
      if c.NoChunk? {
        return false, m;
      }
      var next := done + c.len;
      ChunkRun(rs, gpa, |image|, done, next, c);
      Virtqueues.StoreSlice(rs, mem, m, at, image, done, next, c.region, c.offset);
      m := CopyIn(rs, m, c.region, c.offset, image, done, next);
      done := next;
    }
    Virtqueues.BackedMore(rs, mem, m);
    ok := true;
  }

  lemma UsableIsMapped(rs: seq<Region>, a: nat, end: nat)
    requires AllUsable(rs, a, end) && a < end
    ensures Mapped(rs, a, true)
  {
    assert Usable(rs, a);
  }

  lemma ChunkRun(rs: seq<Region>, gpa: nat, n: nat, p: nat, q: nat, c: Chunk)
    requires Layout(rs) && p <= q <= n && c == MapChunk(rs, gpa + p, n - p, true) && c.Chunk? && q - p <= c.len
    ensures c.region < |rs|
    ensures forall x :: p <= x < q ==> Span(gpa, n)[x] == HostByte(rs, c.region, c.offset + (x - p))
  {}

  /** What was copied can be read back. */
  lemma ImageReadsBack(mem: Mem, gpa: nat, image: seq<byte>, a: nat)
    ensures var m := WriteRange(mem, Span(gpa, |image|), image, 0, |image|);
      && (gpa <= a < gpa + |image| ==> a in m && m[a] == image[a - gpa])
      && (a in mem && !(gpa <= a < gpa + |image|) ==> a in m && m[a] == mem[a])
  {
    var at := Span(gpa, |image|);
    if gpa <= a < gpa + |image| {
      assert at[a - gpa] == a;
      ReadBackAt(mem, at, image, 0, |image|, a - gpa);
    } else if a in mem {
      WriteFrame(mem, at, image, 0, |image|, a);
    }
  }

  /** Bytes of `image` at `gpa` and up. */
  ghost predicate Holds(m: Mem, gpa: nat, image: seq<byte>) {
    forall a :: gpa <= a < gpa + |image| ==> a in m && m[a] == image[a - gpa]
  }

  datatype Loaded = Rejected(error: Error) | Loaded(start: nat, end: nat, initrd: Spans.Option<nat>, table: seq<Entry>)

  /** The end of the usable run from 1 MiB. */
  ghost predicate IsLowRam(rs: seq<Region>, low: nat) {
    KERNEL <= low <= FOUR_GIB && AllUsable(rs, KERNEL, low) && (low < FOUR_GIB ==> !Usable(rs, low))
  }

  /** The lowest start that the header allows. */
  ghost predicate Starts(h: Setup, s: nat) {
    Allowed(h, s) && forall t: nat :: Allowed(h, t) ==> s <= t
  }

  function Limit(initrdMax: nat, low: nat): nat {
    if initrdMax + 1 > low then low else initrdMax + 1
  }

  /** Without an initrd nothing more is needed; an initrd must not be empty and needs a place. */
  ghost predicate InitrdFits(initrd: Spans.Option<seq<byte>>, h: Setup, low: nat, runtimeEnd: nat, payload: nat) {
    initrd.Some? ==>
      |initrd.value| > 0 && exists g: nat :: Fits(g, |initrd.value|, Limit(h.initrdMax, low), runtimeEnd, payload)
  }

  /** The boot parameters and the command line are mapped for writing and the memory map fits. */
  predicate TablesFit(rs: seq<Region>) {
    PagesMap(rs) && |rs| <= MAX_ENTRIES
  }

  predicate PagesMap(rs: seq<Region>) {
    MapRange(rs, ZERO_PAGE, PAGE, true).Chunk? && MapRange(rs, CMDLINE, PAGE, true).Chunk?
  }

  /** A guest with this RAM can boot this kernel and initrd. */
  ghost predicate Bootable(rs: seq<Region>, h: Setup, payload: nat, initrd: Spans.Option<seq<byte>>, low: nat) {
    && h.initSize > 0 && TablesFit(rs) && KERNEL + payload <= low
    && exists s: nat ::
         Starts(h, s) && s + h.initSize <= low && InitrdFits(initrd, h, low, s + h.initSize, payload)
  }

  /** Why a load is refused: the first test that fails. */
  ghost function Reason(rs: seq<Region>, h: Setup, payload: nat, initrd: Spans.Option<seq<byte>>, low: nat): Error {
    if Refuses(rs, h, payload, low) then EarlyReason(rs, h, low)
    else if initrd.Some? && initrd.value == [] then EINVAL
    else ENOSPC
  }

  /** Nothing is copied. */
  ghost predicate Refuses(rs: seq<Region>, h: Setup, payload: nat, low: nat) {
    !WorkspaceFits(h, low) || !TablesFit(rs) || KERNEL + payload > low
  }

  ghost predicate WorkspaceFits(h: Setup, low: nat) {
    h.initSize > 0 && exists s: nat :: Starts(h, s) && s + h.initSize <= low
  }

  ghost function EarlyReason(rs: seq<Region>, h: Setup, low: nat): Error {
    if NoStart(h) then EINVAL
    else if !WorkspaceFits(h, low) then ENOSPC
    else if !PagesMap(rs) then EFAULT
    else if |rs| > MAX_ENTRIES then E2BIG
    else ENOSPC
  }

  /** Guest bytes outside the payload, the initrd and the two pages of tables keep their values. */
  ghost predicate Untouched(mem: Mem, m: Mem, payload: nat, at: Spans.Option<nat>, initrd: Spans.Option<seq<byte>>) {
    forall a :: a in mem && !(KERNEL <= a < KERNEL + payload) && !InTables(a) && !InInitrd(a, at, initrd) ==>
      a in m && m[a] == mem[a]
  }

  predicate InInitrd(a: nat, at: Spans.Option<nat>, initrd: Spans.Option<seq<byte>>) {
    at.Some? && initrd.Some? && at.value <= a < at.value + |initrd.value|
  }

  predicate InTables(a: nat) {
    ZERO_PAGE <= a < ZERO_PAGE + PAGE || CMDLINE <= a < CMDLINE + PAGE
  }

  /** The loading steps in order, for a bzImage payload and an initrd if there is one. The load succeeds
      exactly when the guest is bootable; then everything lies in the usable run, the initrd avoids
      payload and workspace and respects the header's limit, and both images are in guest memory. */
  method Load(rs: seq<Region>, mem: Mem, h: Setup, payload: seq<byte>, initrd: Spans.Option<seq<byte>>)
    returns (r: Loaded, m: Mem, ghost low: nat)
    requires Layout(rs) && Backed(rs, mem) && h.pref <= U64_MAX
    ensures Backed(rs, m) && IsLowRam(rs, low)
    ensures r.Loaded? <==> Bootable(rs, h, |payload|, initrd, low)
    ensures r.Loaded? ==>
      && Starts(h, r.start) && r.end == r.start + h.initSize && AllUsable(rs, r.start, r.end)
      && AllUsable(rs, KERNEL, KERNEL + |payload|) && Holds(m, KERNEL, payload)
      && (r.initrd.Some? <==> initrd.Some?)
      && Ascending(r.table) && multiset(r.table) == multiset(Entries(rs))
    ensures r.Loaded? && initrd.Some? ==>
      && AllUsable(rs, r.initrd.value, r.initrd.value + |initrd.value|) && Holds(m, r.initrd.value, initrd.value)
      && Fits(r.initrd.value, |initrd.value|, Limit(h.initrdMax, low), r.end, |payload|)
    ensures r.Rejected? ==> r.error == Reason(rs, h, |payload|, initrd, low)
    ensures Untouched(mem, m, |payload|, if r.Loaded? then r.initrd else Spans.None, initrd)
  {
    m := mem;
    var k, table, top := Plan(rs, h, |payload|, initrd);
    low := top;
    if k.Refused? {
      return Rejected(k.error), m, low;
    }
    var _, m1 := CopyImage(rs, m, KERNEL, payload);
    var error, at, m2 := LoadInitrd(rs, mem, m1, h, top, k.end, payload, initrd);
    m := m2;
    r := if error.Some? then Rejected(error.value) else Loaded(k.start, k.end, at, table);
  }

  /** There is only one lowest start. */
  lemma BootableAt(rs: seq<Region>, h: Setup, payload: nat, initrd: Spans.Option<seq<byte>>, low: nat, s: nat)
    requires h.initSize > 0 && TablesFit(rs) && KERNEL + payload <= low && Starts(h, s) && s + h.initSize <= low
    ensures Bootable(rs, h, payload, initrd, low) <==> InitrdFits(initrd, h, low, s + h.initSize, payload)
  {
    assert forall t: nat :: Starts(h, t) ==> t == s;
  }

  /** What is decided before anything is copied. */
  method Plan(rs: seq<Region>, h: Setup, payload: nat, ghost initrd: Spans.Option<seq<byte>>)
    returns (k: Placement, table: seq<Entry>, low: nat)
    requires Layout(rs) && h.pref <= U64_MAX
    ensures IsLowRam(rs, low)
    ensures k.Refused? ==> !Bootable(rs, h, payload, initrd, low) && k.error == EarlyReason(rs, h, low)
    ensures k.Refused? <==> Refuses(rs, h, payload, low)
    ensures k.Placed? ==>
      && (Bootable(rs, h, payload, initrd, low) <==> InitrdFits(initrd, h, low, k.end, payload))
      && Starts(h, k.start) && k.end == k.start + h.initSize <= low && KERNEL + payload <= low
      && AllUsable(rs, k.start, k.end) && AllUsable(rs, KERNEL, KERNEL + payload)
      && Ascending(table) && multiset(table) == multiset(Entries(rs))
  {
    k, table, low := Prepare(rs, h, payload);
    if k.Placed? {
      BootableAt(rs, h, payload, initrd, low, k.start);
    }
  }

  /** The steps before anything is copied. */
  method Prepare(rs: seq<Region>, h: Setup, payload: nat) returns (k: Placement, table: seq<Entry>, low: nat)
    requires Layout(rs) && h.pref <= U64_MAX
    ensures IsLowRam(rs, low)
    ensures k.Refused? <==> Refuses(rs, h, payload, low)
    ensures k.Refused? ==> k.error == EarlyReason(rs, h, low)
    ensures k.Placed? ==> Starts(h, k.start) && k.end == k.start + h.initSize <= low
    ensures k.Placed? ==> Ascending(table) && multiset(table) == multiset(Entries(rs))
  {
    table := [];
    low := LowRam(rs);
    k := PlaceKernel(h, low);
    if k.Placed? {
      var error;
      error, table := PrepareTables(rs, low, payload);
      if error.Some? {
        k := Refused(error.value);
      }
    }
  }

  /** The tests after the kernel has its place. */
  method PrepareTables(rs: seq<Region>, low: nat, payload: nat) returns (error: Spans.Option<Error>, table: seq<Entry>)
    requires Layout(rs)
    ensures error.None? <==> TablesFit(rs) && KERNEL + payload <= low
    ensures error.Some? ==>
      error.value == if !PagesMap(rs) then EFAULT else if |rs| > MAX_ENTRIES then E2BIG else ENOSPC
    ensures error.None? ==> Ascending(table) && multiset(table) == multiset(Entries(rs))
  {
    error, table := Spans.None, [];
    if MapRange(rs, ZERO_PAGE, PAGE, true).NoChunk? || MapRange(rs, CMDLINE, PAGE, true).NoChunk? {
      return Spans.Some(EFAULT), table;
    }
    var ok;
    ok, table := BuildTable(rs);
    if !ok {
      return Spans.Some(E2BIG), table;
    }
    if KERNEL + payload > low {
      return Spans.Some(ENOSPC), table;
    }
  }

  /** The initrd part, once the payload is in memory. */
  method LoadInitrd(rs: seq<Region>, ghost mem: Mem, m: Mem, h: Setup, low: nat, runtimeEnd: nat, payload: seq<byte>,
                    initrd: Spans.Option<seq<byte>>)
    returns (error: Spans.Option<Error>, at: Spans.Option<nat>, m': Mem)
    requires Layout(rs) && Backed(rs, m) && IsLowRam(rs, low)
    requires m == WriteRange(mem, Span(KERNEL, |payload|), payload, 0, |payload|)
    ensures Backed(rs, m') && (at.Some? ==> initrd.Some?)
    ensures error.None? <==> InitrdFits(initrd, h, low, runtimeEnd, |payload|)
    ensures error.Some? ==> initrd.Some? && error.value == if initrd.value == [] then EINVAL else ENOSPC
    ensures Untouched(mem, m', |payload|, if error.None? then at else Spans.None, initrd)
    ensures error.None? ==> Holds(m', KERNEL, payload) && (initrd.Some? ==> at.Some?)
    ensures error.None? && initrd.Some? ==>
      && Fits(at.value, |initrd.value|, Limit(h.initrdMax, low), runtimeEnd, |payload|)
      && AllUsable(rs, at.value, at.value + |initrd.value|) && Holds(m', at.value, initrd.value)
  {
    error, at, m' := Spans.None, Spans.None, m;
    PayloadFrame(mem, payload);
    if initrd.None? {
      PayloadHeld(mem, payload);
      return;
    }
    if |initrd.value| == 0 {
      return Spans.Some(EINVAL), at, m';
    }
    var p := PlaceInitrd(|initrd.value|, h.initrdMax, low, runtimeEnd, |payload|);
    if p.Refused? {
      return Spans.Some(p.error), at, m';
    }
    var _, m2 := CopyImage(rs, m, p.start, initrd.value);
    BothHeld(mem, payload, p.start, initrd.value);
    InitrdFrame(mem, m, |payload|, p.start, initrd.value);
    at, m' := Spans.Some(p.start), m2;
  }

  lemma PayloadHeld(mem: Mem, payload: seq<byte>)
    ensures Holds(WriteRange(mem, Span(KERNEL, |payload|), payload, 0, |payload|), KERNEL, payload)
  {
    forall a | KERNEL <= a < KERNEL + |payload|
      ensures var m := WriteRange(mem, Span(KERNEL, |payload|), payload, 0, |payload|);
        a in m && m[a] == payload[a - KERNEL]
    {
      ImageReadsBack(mem, KERNEL, payload, a);
    }
  }

  lemma PayloadFrame(mem: Mem, payload: seq<byte>)
    ensures Untouched(mem, WriteRange(mem, Span(KERNEL, |payload|), payload, 0, |payload|), |payload|, Spans.None,
                      Spans.None)
  {
    var m := WriteRange(mem, Span(KERNEL, |payload|), payload, 0, |payload|);
    forall a | a in mem && !(KERNEL <= a < KERNEL + |payload|)
      ensures a in m && m[a] == mem[a]
    {
      ImageReadsBack(mem, KERNEL, payload, a);
    }
  }

  lemma InitrdFrame(mem: Mem, m: Mem, payload: nat, at: nat, initrd: seq<byte>)
    requires Untouched(mem, m, payload, Spans.None, Spans.None)
    ensures Untouched(mem, WriteRange(m, Span(at, |initrd|), initrd, 0, |initrd|), payload, Spans.Some(at),
                      Spans.Some(initrd))
  {
    var m' := WriteRange(m, Span(at, |initrd|), initrd, 0, |initrd|);
    forall a | a in m && !(at <= a < at + |initrd|)
      ensures a in m' && m'[a] == m[a]
    {
      ImageReadsBack(m, at, initrd, a);
    }
  }

  lemma BothHeld(mem: Mem, payload: seq<byte>, at: nat, initrd: seq<byte>)
    requires KERNEL + |payload| <= at
    ensures var m1 := WriteRange(mem, Span(KERNEL, |payload|), payload, 0, |payload|);
      var m2 := WriteRange(m1, Span(at, |initrd|), initrd, 0, |initrd|);
      Holds(m2, KERNEL, payload) && Holds(m2, at, initrd)
  {
    var m1 := WriteRange(mem, Span(KERNEL, |payload|), payload, 0, |payload|);
    var m2 := WriteRange(m1, Span(at, |initrd|), initrd, 0, |initrd|);
    forall a | KERNEL <= a < KERNEL + |payload|
      ensures a in m2 && m2[a] == payload[a - KERNEL]
    {
      ImageReadsBack(mem, KERNEL, payload, a);
      ImageReadsBack(m1, at, initrd, a);
    }
    forall a | at <= a < at + |initrd|
      ensures a in m2 && m2[a] == initrd[a - at]
    {
      ImageReadsBack(m1, at, initrd, a);
    }
  }

  // ----- the memory map

  datatype Entry = Entry(addr: nat, size: nat, usable: bool)

  function EntryOf(r: Region): Entry {
    Entry(r.gpa, r.size, Open(r))
  }

  function Entries(rs: seq<Region>): (es: seq<Entry>)
    ensures |es| == |rs| && forall i :: 0 <= i < |rs| ==> es[i] == EntryOf(rs[i])
  {
    if rs == [] then [] else Entries(rs[..|rs| - 1]) + [EntryOf(rs[|rs| - 1])]
  }

  /** Each entry ends before the next begins. */
  ghost predicate Ascending(t: seq<Entry>) {
    forall i, j :: 0 <= i < j < |t| ==> t[i].addr + t[i].size <= t[j].addr
  }

  const MAX_ENTRIES: nat := 128

  /** `linux_x86_e820_table_build`: every region once, in ascending order without overlap, usable exactly
      when ordinary RAM; refused when there are more than 128. */
  method BuildTable(rs: seq<Region>) returns (ok: bool, table: seq<Entry>)
    requires Layout(rs)
    ensures ok <==> |rs| <= 128
    ensures ok ==> Ascending(table) && multiset(table) == multiset(Entries(rs))
  {
    table := [];
    for k := 0 to |rs|
      invariant k <= MAX_ENTRIES && table == Built(rs, k)
    {
      if k == MAX_ENTRIES {
        return false, table;
      }
      table := Insert(table, EntryOf(rs[k]));
    }
    BuiltIsRight(rs, |rs|);
    assert rs[..|rs|] == rs;
    ok := true;
  }

  /** Where an entry at `a` goes: after the last one that does not lie above it. */
  function Place(table: seq<Entry>, a: nat): (index: nat)
    ensures index <= |table| && (index > 0 ==> table[index - 1].addr <= a)
    ensures forall i :: index <= i < |table| ==> a < table[i].addr
  {
    var last := |table| - 1;
    if table == [] || table[last].addr <= a then |table| else Place(table[..last], a)
  }

  /** The entries of the first `k` regions, inserted one after the other. */
  function Built(rs: seq<Region>, k: nat): (t: seq<Entry>)
    requires k <= |rs|
    ensures |t| == k
  {
    if k == 0 then []
    else
      var t, e := Built(rs, k - 1), EntryOf(rs[k - 1]);
      Inserted(t, Place(t, e.addr), e)
  }

  lemma {:induction false} BuiltIsRight(rs: seq<Region>, k: nat)
    requires Layout(rs) && k <= |rs|
    ensures Ascending(Built(rs, k)) && multiset(Built(rs, k)) == multiset(Entries(rs[..k]))
  {
    if k > 0 {
      BuiltIsRight(rs, k - 1);
      var t, e := Built(rs, k - 1), EntryOf(rs[k - 1]);
      StillRight(rs, k, t, e);
      assert Built(rs, k) == Inserted(t, Place(t, e.addr), e);
    } else {
      assert rs[..0] == [];
    }
  }

  lemma StillRight(rs: seq<Region>, k: nat, t: seq<Entry>, e: Entry)
    requires Layout(rs) && 0 < k <= |rs| && Ascending(t) && multiset(t) == multiset(Entries(rs[..k - 1]))
    requires e == EntryOf(rs[k - 1])
    ensures var next := Inserted(t, Place(t, e.addr), e);
      Ascending(next) && multiset(next) == multiset(Entries(rs[..k]))
  {
    FitsBetween(rs, k - 1, t);
    PlaceFits(t, e);
    InsertKeeps(t, Place(t, e.addr), e);
    EntriesSnoc(rs, k);
  }

  lemma PlaceFits(t: seq<Entry>, e: Entry)
    requires ApartFrom(t, e) && forall i :: 0 <= i < |t| ==> t[i].size > 0
    ensures forall i :: Place(t, e.addr) <= i < |t| ==> e.addr + e.size <= t[i].addr
  {}

  lemma EntriesSnoc(rs: seq<Region>, k: nat)
    requires 0 < k <= |rs|
    ensures multiset(Entries(rs[..k])) == multiset(Entries(rs[..k - 1])) + multiset{EntryOf(rs[k - 1])}
  {
    assert rs[..k][..k - 1] == rs[..k - 1];
    assert Entries(rs[..k]) == Entries(rs[..k - 1]) + [EntryOf(rs[k - 1])];
  }

  ghost predicate ApartFrom(t: seq<Entry>, e: Entry) {
    forall i :: 0 <= i < |t| ==> t[i].addr + t[i].size <= e.addr || e.addr + e.size <= t[i].addr
  }

  lemma FitsBetween(rs: seq<Region>, k: nat, table: seq<Entry>)
    requires Layout(rs) && k < |rs| && multiset(table) == multiset(Entries(rs[..k]))
    ensures ApartFrom(table, EntryOf(rs[k])) && rs[k].size > 0
    ensures forall i :: 0 <= i < |table| ==> table[i].size > 0
  {
    var es := Entries(rs[..k]);
    forall i | 0 <= i < |table|
      ensures table[i].size > 0
      ensures table[i].addr + table[i].size <= rs[k].gpa || rs[k].gpa + rs[k].size <= table[i].addr
    {
      assert table[i] in multiset(table);
      assert table[i] in es;
      var j :| 0 <= j < |es| && es[j] == table[i];
      assert es[j] == EntryOf(rs[j]) && Disjoint(rs[j], rs[k]);
    }
  }

  /** The shifting loop of the insertion. */
  method Insert(table: seq<Entry>, e: Entry) returns (t: seq<Entry>)
    ensures t == Inserted(table, Place(table, e.addr), e)
  {
    t := table + [e];
    var index := |table|;
    ghost var hole := e;
    assert table[..|table|] == table;
    while index > 0 && t[index - 1].addr > e.addr
      invariant 0 <= index <= |table| && t == Inserted(table, index, hole)
      invariant Place(table[..index], e.addr) == Place(table, e.addr)
    {
      Shifted(table, index, hole);
      assert table[..index][..index - 1] == table[..index - 1];
      hole := t[index - 1];
      t := t[index := t[index - 1]];
      index := index - 1;
    }
    Filled(table, index, hole, e);
    t := t[index := e];
  }

  /** The table with `e` at `index`: the same entries and `e`, still ascending. */
  lemma InsertKeeps(table: seq<Entry>, index: nat, e: Entry)
    requires Ascending(table) && ApartFrom(table, e) && e.size > 0 && forall i :: 0 <= i < |table| ==> table[i].size > 0
    requires index <= |table| && (index > 0 ==> table[index - 1].addr <= e.addr)
    requires forall i :: index <= i < |table| ==> e.addr + e.size <= table[i].addr
    ensures Ascending(Inserted(table, index, e)) && multiset(Inserted(table, index, e)) == multiset(table) + multiset{e}
  {
    var front, back := table[..index], table[index..];
    SliceAscends(table, index);
    forall i | 0 <= i < |front|
      ensures front[i].addr + front[i].size <= e.addr
    {
      EndsBefore(table, index, e, i);
    }
    InsertedAscends(front, e, back);
    InsertedOnce(front, e, back);
    assert table == front + back;
  }

  lemma SliceAscends(table: seq<Entry>, index: nat)
    requires Ascending(table) && index <= |table|
    ensures Ascending(table[..index]) && Ascending(table[index..])
  {}

  lemma InsertedOnce(front: seq<Entry>, e: Entry, back: seq<Entry>)
    ensures multiset(front + [e] + back) == multiset(front + back) + multiset{e}
  {}

  function Inserted(table: seq<Entry>, index: nat, e: Entry): (t: seq<Entry>)
    requires index <= |table|
    ensures |t| == |table| + 1
  {
    table[..index] + [e] + table[index..]
  }

  /** One round of the shift moves the hole down by one entry. */
  lemma Shifted(table: seq<Entry>, index: nat, hole: Entry)
    requires 0 < index <= |table|
    ensures Inserted(table, index, hole)[index - 1] == table[index - 1]
    ensures Inserted(table, index, hole)[index := table[index - 1]] == Inserted(table, index - 1, table[index - 1])
  {}

  lemma Filled(table: seq<Entry>, index: nat, hole: Entry, e: Entry)
    requires index <= |table|
    ensures Inserted(table, index, hole)[index := e] == Inserted(table, index, e)
    ensures index > 0 ==> Inserted(table, index, hole)[index - 1] == table[index - 1]
  {}

  lemma InsertedAscends(front: seq<Entry>, e: Entry, back: seq<Entry>)
    requires Ascending(front) && Ascending(back)
    requires forall i :: 0 <= i < |front| ==> front[i].addr + front[i].size <= e.addr
    requires forall i :: 0 <= i < |back| ==> e.addr + e.size <= back[i].addr
    ensures Ascending(front + [e] + back)
  {}

  lemma EndsBefore(table: seq<Entry>, index: nat, e: Entry, i: nat)
    requires Ascending(table) && ApartFrom(table, e) && e.size > 0 && 0 < index <= |table| && i < index
    requires table[index - 1].addr <= e.addr && table[i].size > 0
    ensures table[i].addr + table[i].size <= e.addr
  {}

  // ----- in numbers

  /** With one bank the two pages at 0x90000 and 0x9e000 decide about the tables, and it must not be read-only. */
  lemma TablesNeed(base: nat, end: nat, readonly: bool, reserved: bool)
    requires base < end <= U64_MAX
    ensures TablesFit([Region(base, end - base, readonly, reserved)]) <==>
      base <= 0x9_0000 && 0x9_f000 <= end && !readonly
  {}

  /** On a machine with one bank of RAM from 0 up to at most 4 GiB the usable run ends where the bank ends, and a
      kernel that cannot be moved boots exactly when it prefers an address from 1 MiB on and its workspace and its
      payload, loaded at 1 MiB, end within the bank. */
  lemma OneBankBoots(size: nat, h: Setup, payload: nat)
    requires 0x10_0000 <= size <= 0x1_0000_0000 && !h.relocatable
    ensures IsLowRam([Region(0, size, false, false)], size)
    ensures Bootable([Region(0, size, false, false)], h, payload, Spans.None, size) <==>
      h.initSize > 0 && 0x10_0000 <= h.pref && h.pref + h.initSize <= size && 0x10_0000 + payload <= size
  {
    var rs := [Region(0, size, false, false)];
    TablesNeed(0, size, false, false);
    forall a | 0x10_0000 <= a < size
      ensures Usable(rs, a)
    {
      assert Contains(rs[0], a);
    }
    assert forall s: nat :: Starts(h, s) ==> s == h.pref && 0x10_0000 <= s;
    if h.initSize > 0 && 0x10_0000 <= h.pref && h.pref + h.initSize <= size && 0x10_0000 + payload <= size {
      assert Starts(h, h.pref);
      BootableAt(rs, h, payload, Spans.None, size, h.pref);
    }
  }

  /** The highest page below the limits that is above the workspace and the payload. */
  lemma InitrdPlaces(g: nat, size: nat, initrdMax: nat, low: nat, runtimeEnd: nat, payload: nat)
    ensures Fits(g, size, Limit(initrdMax, low), runtimeEnd, payload) <==>
      g % 4096 == 0 && g + size <= low && g + size <= initrdMax + 1 && runtimeEnd <= g && 0x10_0000 + payload <= g
  {}

  /** An entry of the memory map is the bank, usable unless read-only or reserved. */
  lemma EntryShows(rs: seq<Region>, i: nat)
    requires i < |rs|
    ensures Entries(rs)[i] == Entry(rs[i].gpa, rs[i].size, !rs[i].readonly && !rs[i].reserved)
  {}

  /** What a load leaves alone: everything outside the payload at 1 MiB, the initrd and the pages at 0x90000 and
      0x9e000. */
  lemma LoadKeeps(mem: Mem, m: Mem, payload: nat, at: Spans.Option<nat>, initrd: Spans.Option<seq<byte>>, a: nat)
    requires Untouched(mem, m, payload, at, initrd) && a in mem && !(0x10_0000 <= a < 0x10_0000 + payload)
    requires !(0x9_0000 <= a < 0x9_1000) && !(0x9_e000 <= a < 0x9_f000)
    requires at.Some? && initrd.Some? ==> !(at.value <= a < at.value + |initrd.value|)
    ensures a in m && m[a] == mem[a]
  {}
}
