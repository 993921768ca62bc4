/** The guest address space: RAM banks of `src/core/memory.c` and I/O regions of
    `src/core/io_map.c`, with the changes and lookups made under the VM I/O lock. */
module AddressSpace {
  import opened GuestMemory
  import opened Spans

  datatype Space = Pio | Mmio

  datatype Error = EINVAL | EBUSY | EOVERFLOW | ENOMEM | ENOSPC | EEXIST | ENOENT

  datatype Outcome = Ok | Err(error: Error)

  /** A registered region; `id` is the stable handle that its owner keeps. */
  datatype IoRegion = IoRegion(id: nat, span: Span, dev: nat, enabled: bool)

  function IoSpans(rs: seq<IoRegion>): (ss: seq<Span>)
    ensures |ss| == |rs|
  {
    seq(|rs|, i requires 0 <= i < |rs| => rs[i].span)
  }

  function RamSpans(rs: seq<Region>): (ss: seq<Span>)
    ensures |ss| == |rs|
  {
    seq(|rs|, i requires 0 <= i < |rs| => Span(rs[i].gpa, rs[i].size))
  }

  ghost predicate Bounded(ss: seq<Span>) {
    forall i :: 0 <= i < |ss| ==> ss[i].size > 0 && ss[i].base + ss[i].size <= U64_MAX
  }

  ghost predicate Separate(ss: seq<Span>, ts: seq<Span>) {
    forall i, j :: 0 <= i < |ss| && 0 <= j < |ts| ==> !Overlap(ss[i], ts[j])
  }

  function Sum(rs: seq<Region>): nat {
    if rs == [] then 0 else Sum(rs[..|rs| - 1]) + rs[|rs| - 1].size
  }

  ghost predicate Ids(rs: seq<IoRegion>, nextId: nat) {
    && (forall i :: 0 <= i < |rs| ==> rs[i].id < nextId)
    && forall i, j :: 0 <= i < j < |rs| ==> rs[i].id != rs[j].id
  }

  datatype View = View(ram: seq<Region>, total: nat, mmio: seq<IoRegion>, pio: seq<IoRegion>, nextId: nat)

  /** RAM and MMIO jointly disjoint, PIO disjoint, no range empty or wrapping, `total` the sum. */
  ghost predicate Sound(v: View) {
    && Bounded(RamSpans(v.ram)) && Bounded(IoSpans(v.mmio)) && Bounded(IoSpans(v.pio))
    && Apart(RamSpans(v.ram)) && Apart(IoSpans(v.mmio)) && Apart(IoSpans(v.pio))
    && Separate(RamSpans(v.ram), IoSpans(v.mmio))
    && v.total == Sum(v.ram) && v.total <= U64_MAX
    && Ids(v.mmio, v.nextId) && Ids(v.pio, v.nextId)
  }

  /** Guest RAM as the virtqueue and loader models use it. */
  lemma SoundIsLayout(v: View)
    requires Sound(v)
    ensures Layout(v.ram)
  {
    var ss := RamSpans(v.ram);
    forall i | 0 <= i < |v.ram|
      ensures v.ram[i].size > 0 && v.ram[i].gpa + v.ram[i].size <= U64_MAX
    {
      assert ss[i].size > 0;
    }
    forall i, j | 0 <= i < j < |v.ram|
      ensures Disjoint(v.ram[i], v.ram[j])
    {
      assert !Overlap(ss[i], ss[j]);
    }
  }

  // ----- the three changes keep the space sound

  lemma SoundAddRam(v: View, r: Region)
    requires Sound(v) && r.size > 0 && r.gpa + r.size <= U64_MAX && v.total + r.size <= U64_MAX
    requires Clear(RamSpans(v.ram), Span(r.gpa, r.size)) && Clear(IoSpans(v.mmio), Span(r.gpa, r.size))
    ensures Sound(v.(ram := v.ram + [r], total := v.total + r.size))
  {
    var ss, t := RamSpans(v.ram), Span(r.gpa, r.size);
    assert RamSpans(v.ram + [r]) == ss + [t];
    ApartAppend(ss, t);
    assert (v.ram + [r])[..|v.ram|] == v.ram;
  }

  lemma SoundAddMmio(v: View, r: IoRegion)
    requires Sound(v) && r.span.size > 0 && r.span.base + r.span.size <= U64_MAX && r.id == v.nextId
    requires Clear(RamSpans(v.ram), r.span) && Clear(IoSpans(v.mmio), r.span)
    ensures Sound(v.(mmio := v.mmio + [r], nextId := v.nextId + 1))
  {
    assert IoSpans(v.mmio + [r]) == IoSpans(v.mmio) + [r.span];
    ApartAppend(IoSpans(v.mmio), r.span);
  }

  lemma SoundAddPio(v: View, r: IoRegion)
    requires Sound(v) && r.span.size > 0 && r.span.base + r.span.size <= U64_MAX && r.id == v.nextId
    requires Clear(IoSpans(v.pio), r.span)
    ensures Sound(v.(pio := v.pio + [r], nextId := v.nextId + 1))
  {
    assert IoSpans(v.pio + [r]) == IoSpans(v.pio) + [r.span];
    ApartAppend(IoSpans(v.pio), r.span);
  }

  lemma SoundRemoveMmio(v: View, k: nat)
    requires Sound(v) && k < |v.mmio|
    ensures Sound(v.(mmio := v.mmio[..k] + v.mmio[k + 1..]))
  {
    assert IoSpans(v.mmio[..k] + v.mmio[k + 1..]) == IoSpans(v.mmio)[..k] + IoSpans(v.mmio)[k + 1..];
    ApartRemove(IoSpans(v.mmio), k);
  }

  /** A move to a place clear of RAM and of the other regions, or a change of the decode flag. */
  lemma SoundMoveMmio(v: View, k: nat, base: nat, enabled: bool)
    requires Sound(v) && k < |v.mmio| && base + v.mmio[k].span.size <= U64_MAX
    requires var t := Span(base, v.mmio[k].span.size);
      Clear(RamSpans(v.ram), t) && Clear(IoSpans(v.mmio)[..k] + IoSpans(v.mmio)[k + 1..], t)
    ensures Sound(v.(mmio := v.mmio[k := v.mmio[k].(span := Span(base, v.mmio[k].span.size), enabled := enabled)]))
  {
    var t := Span(base, v.mmio[k].span.size);
    var moved := v.mmio[k := v.mmio[k].(span := t, enabled := enabled)];
    assert v.mmio[k].span.size == IoSpans(v.mmio)[k].size > 0;
    assert IoSpans(moved) == IoSpans(v.mmio)[k := t];
    ApartMove(IoSpans(v.mmio), k, t);
  }

  lemma SoundRemovePio(v: View, k: nat)
    requires Sound(v) && k < |v.pio|
    ensures Sound(v.(pio := v.pio[..k] + v.pio[k + 1..]))
  {
    assert IoSpans(v.pio[..k] + v.pio[k + 1..]) == IoSpans(v.pio)[..k] + IoSpans(v.pio)[k + 1..];
    ApartRemove(IoSpans(v.pio), k);
  }

  lemma SoundMovePio(v: View, k: nat, base: nat)
    requires Sound(v) && k < |v.pio| && base + v.pio[k].span.size <= U64_MAX
    requires Clear(IoSpans(v.pio)[..k] + IoSpans(v.pio)[k + 1..], Span(base, v.pio[k].span.size))
    ensures Sound(v.(pio := v.pio[k := v.pio[k].(span := Span(base, v.pio[k].span.size))]))
  {
    var t := Span(base, v.pio[k].span.size);
    var moved := v.pio[k := v.pio[k].(span := t)];
    assert v.pio[k].span.size == IoSpans(v.pio)[k].size > 0;
    assert IoSpans(moved) == IoSpans(v.pio)[k := t];
    ApartMove(IoSpans(v.pio), k, t);
  }

  // ----- handles

  /** Position of the region with handle `id`, or the length of the list. */
  function IndexOf(rs: seq<IoRegion>, id: nat): (k: nat)
    ensures k <= |rs| && (k < |rs| ==> rs[k].id == id)
    ensures forall j :: 0 <= j < k ==> rs[j].id != id
  {
    if rs == [] || rs[0].id == id then 0 else 1 + IndexOf(rs[1..], id)
  }

  function Get(rs: seq<IoRegion>, id: nat): Option<IoRegion> {
    var k := IndexOf(rs, id);
    if k < |rs| then Some(rs[k]) else None
  }

  lemma GetAppend(rs: seq<IoRegion>, r: IoRegion, id: nat)
    requires forall i :: 0 <= i < |rs| ==> rs[i].id != r.id
    ensures Get(rs + [r], id) == if id == r.id then Some(r) else Get(rs, id)
  {
    var k := IndexOf(rs, id);
    if k < |rs| {
      assert (rs + [r])[k].id == id;
    } else if id == r.id {
      assert (rs + [r])[|rs|].id == id;
    }
  }

  lemma GetUpdate(rs: seq<IoRegion>, k: nat, r: IoRegion, id: nat)
    requires k < |rs| && r.id == rs[k].id && IndexOf(rs, r.id) == k
    ensures Get(rs[k := r], id) == if id == r.id then Some(r) else Get(rs, id)
  {
    var rs' := rs[k := r];
    assert forall j :: 0 <= j < |rs| ==> rs'[j].id == rs[j].id;
    assert IndexOf(rs', id) == IndexOf(rs, id) by { SameFind(rs, rs', id); }
  }

  lemma SameFind(rs: seq<IoRegion>, rs': seq<IoRegion>, id: nat)
    requires |rs| == |rs'| && forall j :: 0 <= j < |rs| ==> rs'[j].id == rs[j].id
    ensures IndexOf(rs', id) == IndexOf(rs, id)
  {}

  lemma GetRemove(rs: seq<IoRegion>, k: nat, nextId: nat, id: nat)
    requires Ids(rs, nextId) && k < |rs|
    ensures Get(rs[..k] + rs[k + 1..], id) == if id == rs[k].id then None else Get(rs, id)
  {
    var rest := rs[..k] + rs[k + 1..];
    assert forall j :: 0 <= j < |rest| ==> rest[j] == rs[if j < k then j else j + 1];
    var f, g := IndexOf(rs, id), IndexOf(rest, id);
    if id != rs[k].id && f < |rs| {
      var at := if f < k then f else f - 1;
      assert rest[at].id == id;
      assert g <= at;
    }
  }

  // ----- the VM's address space

  /** The checks of `vm_add_ram`, in its order. */
  method CheckRam(ram: seq<Region>, total: nat, mmio: seq<IoRegion>, r: Region, pageSize: nat, failed: bool)
    returns (o: Outcome)
    requires pageSize > 0 && r.gpa <= U64_MAX && total <= U64_MAX
    ensures o.Ok? <==> RamFits(ram, total, mmio, r, pageSize) && !failed
    ensures var span := Span(r.gpa, r.size);
      o == Err(EBUSY) ==> !(Clear(RamSpans(ram), span) && Clear(IoSpans(mmio), span))
  {
    if r.size == 0 {
      return Err(EINVAL);
    }
    if r.size > U64_MAX - total || U64_MAX - r.gpa < r.size {
      return Err(EOVERFLOW);
    }
    if r.gpa % pageSize != 0 || r.size % pageSize != 0 {
      return Err(EINVAL);
    }
    var clear := Scan(RamSpans(ram), Span(r.gpa, r.size));
    if clear {
      clear := Scan(IoSpans(mmio), Span(r.gpa, r.size));
    }
    if !clear {
      return Err(EBUSY);
    }
    o := if failed then Err(ENOMEM) else Ok;
  }

  class Vm {
    const pageSize: nat
    var ram: seq<Region>
    var total: nat
    var mmio: seq<IoRegion>
    var pio: seq<IoRegion>
    var nextId: nat

    ghost predicate Valid()
      reads this
    {
      pageSize > 0 && Sound(Now())
    }

    ghost function Now(): View
      reads this
    {
      View(ram, total, mmio, pio, nextId)
    }

    constructor (pageSize: nat)
      requires pageSize > 0
      ensures Valid() && Now() == View([], 0, [], [], 0)
    {
      this.pageSize := pageSize;
      ram, total, mmio, pio, nextId := [], 0, [], [], 0;
    }

    /** `vm_add_ram` on a VM being built; `failed` is a failed allocation or accelerator mapping. */
    method AddRam(r: Region, failed: bool) returns (o: Outcome)
      requires Valid() && r.gpa <= U64_MAX
      modifies this`ram, this`total
      ensures Valid()
      ensures o.Ok? <==> RamFits(old(ram), old(total), mmio, r, pageSize) && !failed
      ensures Now() == if o.Ok? then old(Now()).(ram := old(ram) + [r], total := old(total) + r.size) else old(Now())
    {
      o := CheckRam(ram, total, mmio, r, pageSize, failed);
      if o.Ok? {
        Mount(r);
      }
    }

    method Mount(r: Region)
      requires Valid() && r.size > 0 && total + r.size <= U64_MAX && r.gpa + r.size <= U64_MAX
      requires Clear(RamSpans(ram), Span(r.gpa, r.size)) && Clear(IoSpans(mmio), Span(r.gpa, r.size))
      modifies this`ram, this`total
      ensures Valid() && Now() == old(Now()).(ram := old(ram) + [r], total := old(total) + r.size)
    {
      SoundAddRam(Now(), r);
      ram, total := ram + [r], total + r.size;
    }

    /** The RAM of a VM that is built, with its contents. */
    method Memory(contents: Mem) returns (space: RamSpace)
      requires Valid() && Backed(ram, contents)
      ensures fresh(space) && space.Valid() && space.regions == ram && space.mem == contents
    {
      SoundIsLayout(Now());
      space := new RamSpace(ram, contents);
    }

    /** `io_map_register_region_locked`; `failed` is a failed allocation in the device's pool. */
    method Register(space: Space, span: Span, dev: nat, failed: bool) returns (o: Outcome, id: nat)
      requires Valid() && span.base <= U64_MAX
      modifies this`mmio, this`pio, this`nextId
      ensures Valid() && id == old(nextId)
      ensures o.Ok? <==> IoFits(old(Now()), space, span) && !failed
      ensures o.Err? && span.size > 0 && span.base + span.size <= U64_MAX ==>
        o.error == if IoFits(old(Now()), space, span) then ENOMEM else EBUSY
      ensures Now() == if o.Ok? then WithRegion(old(Now()), space, span, dev) else old(Now())
    {
      id := nextId;
      if span.size == 0 {
        return Err(EINVAL), id;
      }
      if span.size > U64_MAX || span.base > U64_MAX - span.size {
        return Err(EOVERFLOW), id;
      }
      var clear := Scan(IoSpans(if space.Pio? then pio else mmio), span);
      if clear && space.Mmio? {
        clear := Scan(RamSpans(ram), span);
      }
      if !clear {
        return Err(EBUSY), id;
      }
      if failed {
        return Err(ENOMEM), id;
      }
      var r := IoRegion(id, span, dev, true);
      if space.Pio? {
        SoundAddPio(Now(), r);
        pio := pio + [r];
      } else {
        SoundAddMmio(Now(), r);
        mmio := mmio + [r];
      }
      nextId := nextId + 1;
      o := Ok;
    }

    /** `io_map_relocate_region_locked` */
    method Relocate(space: Space, id: nat, base: nat) returns (o: Outcome)
      requires Valid() && Get(RegionsOf(Now(), space), id).Some? && base <= U64_MAX
      modifies this`mmio, this`pio
      ensures Valid()
      ensures o.Ok? <==> MoveFits(old(Now()), space, id, base)
      ensures Now() == if o.Ok? then WithRegions(old(Now()), space, Moved(RegionsOf(old(Now()), space), id, base))
                       else old(Now())
    {
      if space.Mmio? {
        o := RelocateMmio(id, base);
      } else {
        o := RelocatePio(id, base);
      }
    }

    method RelocatePio(id: nat, base: nat) returns (o: Outcome)
      requires Valid() && Get(pio, id).Some? && base <= U64_MAX
      modifies this`pio
      ensures Valid()
      ensures o.Ok? <==> MoveFits(old(Now()), Pio, id, base)
      ensures pio == if o.Ok? then Moved(old(pio), id, base) else old(pio)
    {
      var k := IndexOf(pio, id);
      var size := pio[k].span.size;
      assert IoSpans(pio)[k].size > 0;
      if base > U64_MAX - size {
        return Err(EOVERFLOW);
      }
      var t := Span(base, size);
      var others := IoSpans(pio)[..k] + IoSpans(pio)[k + 1..];
      assert IoSpans(Without(pio, id)) == others;
      var clear := Scan(others, t);
      if !clear {
        return Err(EBUSY);
      }
      SoundMovePio(Now(), k, base);
      pio := pio[k := pio[k].(span := t)];
      o := Ok;
    }

    method RelocateMmio(id: nat, base: nat) returns (o: Outcome)
      requires Valid() && Get(mmio, id).Some? && base <= U64_MAX
      modifies this`mmio
      ensures Valid()
      ensures o.Ok? <==> MoveFits(old(Now()), Mmio, id, base)
      ensures mmio == if o.Ok? then Moved(old(mmio), id, base) else old(mmio)
    {
      var k := IndexOf(mmio, id);
      var size := mmio[k].span.size;
      assert IoSpans(mmio)[k].size > 0;
      if base > U64_MAX - size {
        return Err(EOVERFLOW);
      }
      var t := Span(base, size);
      var others := IoSpans(mmio)[..k] + IoSpans(mmio)[k + 1..];
      assert IoSpans(Without(mmio, id)) == others;
      var clear := Scan(others, t);
      if clear {
        clear := Scan(RamSpans(ram), t);
      }
      if !clear {
        return Err(EBUSY);
      }
      SoundMoveMmio(Now(), k, base, mmio[k].enabled);
      mmio := mmio[k := mmio[k].(span := t)];
      o := Ok;
    }

    /** The decode switch that PCI command writes throw. */
    method SetEnabled(id: nat, on: bool)
      requires Valid() && Get(mmio, id).Some?
      modifies this`mmio
      ensures Valid() && mmio == Switched(old(mmio), id, on)
    {
      var k := IndexOf(mmio, id);
      StaysClear(Now(), k);
      SoundMoveMmio(Now(), k, mmio[k].span.base, on);
      mmio := mmio[k := mmio[k].(enabled := on)];
    }

    /** `io_region_unregister` */
    method Unregister(space: Space, id: nat)
      requires Valid() && Get(RegionsOf(Now(), space), id).Some?
      modifies this`mmio, this`pio
      ensures Valid() && Now() == WithRegions(old(Now()), space, Without(RegionsOf(old(Now()), space), id))
    {
      if space.Mmio? {
        UnregisterMmio(id);
      } else {
        UnregisterPio(id);
      }
    }

    method UnregisterPio(id: nat)
      requires Valid() && Get(pio, id).Some?
      modifies this`pio
      ensures Valid() && pio == Without(old(pio), id)
    {
      var k := IndexOf(pio, id);
      SoundRemovePio(Now(), k);
      pio := pio[..k] + pio[k + 1..];
    }

    method UnregisterMmio(id: nat)
      requires Valid() && Get(mmio, id).Some?
      modifies this`mmio
      ensures Valid() && mmio == Without(old(mmio), id)
    {
      var k := IndexOf(mmio, id);
      SoundRemoveMmio(Now(), k);
      mmio := mmio[..k] + mmio[k + 1..];
    }

    /** The list scan of `io_map_read_locked` and `io_map_write_locked`: the access goes to the
        enabled region that covers its first byte, unless it passes that region's end. */
    method Dispatch(space: Space, addr: nat, size: nat) returns (hit: Option<Access>)
      requires Valid()
      ensures var rs := if space.Pio? then pio else mmio;
        && (hit.Some? <==> exists i :: 0 <= i < |rs| && Serves(rs[i], addr, size))
        && (hit.Some? ==>
              && hit.value.offset + size <= hit.value.region.span.size
              && hit.value.region.span.base + hit.value.offset == addr && hit.value.region.enabled
              && forall i :: 0 <= i < |rs| && Covers(rs[i].span, addr) ==> rs[i] == hit.value.region)
    {
      var rs := if space.Pio? then pio else mmio;
      var ss := IoSpans(rs);
      for i := 0 to |rs|
        invariant forall k :: 0 <= k < i ==> !(rs[k].enabled && Covers(rs[k].span, addr))
      {
        if rs[i].enabled && addr >= rs[i].span.base && addr < rs[i].span.base + rs[i].span.size {
          forall k | 0 <= k < |rs| && Covers(rs[k].span, addr)
            ensures k == i
          {
            assert ss[k] == rs[k].span && ss[i] == rs[i].span;
            OwnerIsUnique(ss, addr, i, k);
          }
          var offset := addr - rs[i].span.base;
          if size > rs[i].span.size - offset {
            return None;
          }
          assert Serves(rs[i], addr, size);
          return Some(Access(rs[i], offset));
        }
      }
      hit := None;
    }
  }

  datatype Access = Access(region: IoRegion, offset: nat)

  predicate Serves(r: IoRegion, addr: nat, size: nat) {
    r.enabled && Covers(r.span, addr) && addr + size <= r.span.base + r.span.size
  }

  predicate RamFits(ram: seq<Region>, total: nat, mmio: seq<IoRegion>, r: Region, pageSize: nat)
    requires pageSize > 0
  {
    && r.size > 0 && total + r.size <= U64_MAX && r.gpa + r.size <= U64_MAX
    && r.gpa % pageSize == 0 && r.size % pageSize == 0
    && Clear(RamSpans(ram), Span(r.gpa, r.size)) && Clear(IoSpans(mmio), Span(r.gpa, r.size))
  }

  predicate IoFits(v: View, space: Space, span: Span) {
    && span.size > 0 && span.base + span.size <= U64_MAX
    && Clear(IoSpans(RegionsOf(v, space)), span) && (space.Mmio? ==> Clear(RamSpans(v.ram), span))
  }

  function WithRegion(v: View, space: Space, span: Span, dev: nat): View {
    var r := IoRegion(v.nextId, span, dev, true);
    WithRegions(v, space, RegionsOf(v, space) + [r]).(nextId := v.nextId + 1)
  }

  function Without(rs: seq<IoRegion>, id: nat): seq<IoRegion> {
    var k := IndexOf(rs, id);
    if k < |rs| then rs[..k] + rs[k + 1..] else rs
  }

  function RegionsOf(v: View, space: Space): seq<IoRegion> {
    if space.Pio? then v.pio else v.mmio
  }

  function WithRegions(v: View, space: Space, rs: seq<IoRegion>): View {
    if space.Pio? then v.(pio := rs) else v.(mmio := rs)
  }

  /** The region can move: nothing else is in the way. */
  predicate MoveFits(v: View, space: Space, id: nat, base: nat)
    requires Get(RegionsOf(v, space), id).Some?
  {
    var rs := RegionsOf(v, space);
    var t := Span(base, Get(rs, id).value.span.size);
    base + t.size <= U64_MAX && Clear(IoSpans(Without(rs, id)), t) && (space.Mmio? ==> Clear(RamSpans(v.ram), t))
  }

  function Moved(rs: seq<IoRegion>, id: nat, base: nat): seq<IoRegion>
    requires Get(rs, id).Some?
  {
    var k := IndexOf(rs, id);
    rs[k := rs[k].(span := Span(base, rs[k].span.size))]
  }

  function Switched(rs: seq<IoRegion>, id: nat, on: bool): seq<IoRegion>
    requires Get(rs, id).Some?
  {
    var k := IndexOf(rs, id);
    rs[k := rs[k].(enabled := on)]
  }

  /** A region is clear of the others where it is. */
  lemma StaysClear(v: View, k: nat)
    requires Sound(v) && k < |v.mmio|
    ensures v.mmio[k].span.base + v.mmio[k].span.size <= U64_MAX
    ensures Clear(RamSpans(v.ram), Span(v.mmio[k].span.base, v.mmio[k].span.size))
    ensures Clear(IoSpans(v.mmio)[..k] + IoSpans(v.mmio)[k + 1..], Span(v.mmio[k].span.base, v.mmio[k].span.size))
  {
    var ss := IoSpans(v.mmio);
    var rest := ss[..k] + ss[k + 1..];
    assert ss[k] == Span(v.mmio[k].span.base, v.mmio[k].span.size);
    forall i | 0 <= i < |rest|
      ensures !Overlap(rest[i], ss[k])
    {
      assert rest[i] == ss[if i < k then i else i + 1];
    }
  }

  /** On an empty machine any page-aligned, non-empty bank that ends below 2^64 is accepted, and so is any
      non-empty region. */
  lemma FirstFits(r: Region, pageSize: nat, v: View, space: Space, span: Span)
    requires pageSize > 0 && v == View([], 0, [], [], 0)
    ensures RamFits([], 0, [], r, pageSize) <==>
      r.size > 0 && r.gpa + r.size <= 0xffff_ffff_ffff_ffff && r.gpa % pageSize == 0 && r.size % pageSize == 0
    ensures IoFits(v, space, span) <==> span.size > 0 && span.base + span.size <= 0xffff_ffff_ffff_ffff
  {}

  /** A registered region serves an access exactly when it lies inside, and a region that was moved or switched off
      serves what its new place and flag say. */
  lemma ServesWhere(v: View, space: Space, span: Span, dev: nat, base: nat, on: bool, addr: nat, size: nat)
    requires Sound(v) && IoFits(v, space, span)
    ensures var rs := RegionsOf(WithRegion(v, space, span, dev), space);
      && Get(rs, v.nextId).Some?
      && (Serves(Get(rs, v.nextId).value, addr, size) <==>
            span.base <= addr < span.base + span.size && addr + size <= span.base + span.size)
      && Get(Moved(rs, v.nextId, base), v.nextId) == Some(IoRegion(v.nextId, Span(base, span.size), dev, true))
      && Get(Switched(rs, v.nextId, on), v.nextId) == Some(IoRegion(v.nextId, span, dev, on))
      && Get(Without(rs, v.nextId), v.nextId) == None
  {
    var rs := RegionsOf(v, space);
    var r := IoRegion(v.nextId, span, dev, true);
    assert Ids(rs, v.nextId);
    LastListed(rs, v.nextId, r, base, on);
  }

  /** A new region at the end of its list, and what becomes of it. */
  lemma LastListed(rs: seq<IoRegion>, nextId: nat, r: IoRegion, base: nat, on: bool)
    requires Ids(rs, nextId) && r.id == nextId
    ensures Get(rs + [r], nextId) == Some(r)
    ensures Get(Moved(rs + [r], nextId, base), nextId) == Some(r.(span := Span(base, r.span.size)))
    ensures Get(Switched(rs + [r], nextId, on), nextId) == Some(r.(enabled := on))
    ensures Get(Without(rs + [r], nextId), nextId) == None
  {
    var all := rs + [r];
    GetAppend(rs, r, nextId);
    var k := IndexOf(all, nextId);
    GetUpdate(all, k, r.(span := Span(base, r.span.size)), nextId);
    GetUpdate(all, k, r.(enabled := on), nextId);
    assert Ids(all, nextId + 1);
    GetRemove(all, k, nextId + 1, nextId);
  }
}
