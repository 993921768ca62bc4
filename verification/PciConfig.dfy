/** PCI configuration space of `src/hw/pci/pci.c`: base address registers that mirror the regions
    they map (section 6.2.5.1 of PCI Local Bus 3.0) and the command register. */
module PciConfig {
  import opened GuestMemory
  import opened Spans
  import opened AddressSpace
  import opened BarAllocator
  import opened PowersOfTwo

  /** `probe` is set while the register answers with its size mask. */
  datatype Bar = Bar(region: Option<nat>, probe: bool)

  datatype Function = Function(devfn: nat, config: seq<byte>, bars: seq<Bar>)

  const BARS: nat := 6
  const CONFIG_SIZE: nat := 256
  const INTERRUPT_LINE: nat := 0x3c
  const INTERRUPT_PIN: nat := 0x3d

  predicate Shaped(f: Function) {
    |f.config| == CONFIG_SIZE && |f.bars| == BARS
  }

  /** Command register bit 1: memory decoding is on. */
  predicate Decodes(config: seq<byte>)
    requires |config| == CONFIG_SIZE
  {
    config[4] / 2 % 2 == 1
  }

  /** Command register bit 10: INTx is disabled. */
  predicate Masks(config: seq<byte>)
    requires |config| == CONFIG_SIZE
  {
    config[5] / 4 % 2 == 1
  }

  /** Device numbers are in range and used once. */
  ghost predicate Numbered(fns: seq<Function>) {
    && (forall k :: 0 <= k < |fns| ==> fns[k].devfn < 256)
    && forall k, l :: 0 <= k < l < |fns| ==> fns[k].devfn != fns[l].devfn
  }

  function BarBytes(config: seq<byte>, i: nat): seq<byte>
    requires |config| == CONFIG_SIZE && i < BARS
  {
    config[0x10 + 4 * i..0x14 + 4 * i]
  }

  function PutBar(config: seq<byte>, i: nat, base: nat): (c: seq<byte>)
    requires |config| == CONFIG_SIZE && i < BARS && base < FOUR_GIB
    ensures |c| == CONFIG_SIZE
  {
    config[..0x10 + 4 * i] + Le32(base) + config[0x14 + 4 * i..]
  }

  /** The register shows the region's base, and the region is placed as a BAR must be. */
  predicate Mirrors(r: Option<IoRegion>, config: seq<byte>, i: nat)
    requires |config| == CONFIG_SIZE && i < BARS
  {
    && r.Some? && r.value.span.size >= 16 && PowerOfTwo(r.value.span.size)
    && r.value.span.base % r.value.span.size == 0 && r.value.span.base + r.value.span.size <= FOUR_GIB
    && BarBytes(config, i) == Le32(r.value.span.base)
  }

  predicate BarOk(r: Option<IoRegion>, config: seq<byte>, i: nat)
    requires |config| == CONFIG_SIZE && i < BARS
  {
    Mirrors(r, config, i) && r.value.enabled == Decodes(config)
  }

  ghost predicate FunctionOk(mmio: seq<IoRegion>, f: Function) {
    && Shaped(f)
    && forall i :: 0 <= i < BARS && f.bars[i].region.Some? ==> BarOk(Get(mmio, f.bars[i].region.value), f.config, i)
  }

  predicate Holds(f: Function, i: nat, id: nat) {
    i < |f.bars| && f.bars[i].region == Some(id)
  }

  /** No region serves two registers. */
  ghost predicate Exclusive(fns: seq<Function>) {
    forall k, i, l, j, id ::
      (0 <= k < |fns| && 0 <= l < |fns| && Holds(fns[k], i, id) && Holds(fns[l], j, id)) ==> k == l && i == j
  }

  ghost predicate BusOk(mmio: seq<IoRegion>, fns: seq<Function>) {
    && (forall k :: 0 <= k < |fns| ==> FunctionOk(mmio, fns[k]))
    && Exclusive(fns)
  }

  lemma PutBarReads(config: seq<byte>, i: nat, base: nat, j: nat)
    requires |config| == CONFIG_SIZE && i < BARS && j < BARS && base < FOUR_GIB
    ensures BarBytes(PutBar(config, i, base), j) == if i == j then Le32(base) else BarBytes(config, j)
    ensures Decodes(PutBar(config, i, base)) == Decodes(config)
  {}

  /** A function whose regions are untouched stays in order. */
  lemma FunctionFrame(mmio: seq<IoRegion>, mmio': seq<IoRegion>, f: Function)
    requires FunctionOk(mmio, f)
    requires forall i, id :: Holds(f, i, id) ==> Get(mmio', id) == Get(mmio, id)
    ensures FunctionOk(mmio', f)
  {
    forall i | 0 <= i < BARS && f.bars[i].region.Some?
      ensures BarOk(Get(mmio', f.bars[i].region.value), f.config, i)
    {
      assert Holds(f, i, f.bars[i].region.value);
    }
  }

  // ----- a register write

  /** The low `n` bytes of a value. */
  function LowBytes(val: nat, n: nat): (bs: seq<byte>)
    ensures |bs| == n
  {
    if n == 0 then [] else [val % 0x100] + LowBytes(val / 0x100, n - 1)
  }

  /** The address that a write of `size` bytes at byte `at` of the register asks for: those bytes
      replaced, then rounded down to the region's size. */
  function Requested(base: nat, at: nat, size: nat, val: nat, region: nat): nat
    requires base < FOUR_GIB && at + size <= 4 && region > 0
  {
    var bs := Le32(base);
    var v := FromLe(bs[..at] + LowBytes(val, size) + bs[at + size..]);
    v - v % region
  }

  lemma {:induction false} DividesFourGib(size: nat)
    requires PowerOfTwo(size) && size <= FOUR_GIB
    ensures FOUR_GIB % size == 0
  {
    assert Pow2(8) == 0x100;
    assert Pow2(16) == 0x1_0000;
    assert Pow2(24) == 0x100_0000;
    assert Pow2(32) == FOUR_GIB;
    var m := Quotient(size, 32);
    AddMultiple(0, size, m);
  }

  /** Whatever is written, the region stays aligned and below 4 GiB. */
  lemma RequestedIsAligned(base: nat, at: nat, size: nat, val: nat, region: nat)
    requires base < FOUR_GIB && at + size <= 4 && PowerOfTwo(region) && region <= FOUR_GIB
    ensures var r := Requested(base, at, size, val, region); r % region == 0 && r + region <= FOUR_GIB
  {
    var bs := Le32(base);
    var v := FromLe(bs[..at] + LowBytes(val, size) + bs[at + size..]);
    FromLe32(bs[..at] + LowBytes(val, size) + bs[at + size..]);
    RoundDown(v, region);
  }

  lemma RoundDown(v: nat, region: nat)
    requires v < FOUR_GIB && PowerOfTwo(region) && region <= FOUR_GIB
    ensures (v - v % region) % region == 0 && v - v % region + region <= FOUR_GIB
  {
    var r := v - v % region;
    var q := Divide(v, region);
    Multiple(r, q, region);
    DividesFourGib(region);
    AlignedGap(r, FOUR_GIB, region);
  }

  lemma Divide(v: nat, region: nat) returns (q: nat)
    requires region > 0
    ensures v - v % region == q * region
  {
    q := v / region;
  }

  lemma Multiple(r: nat, q: nat, region: nat)
    requires region > 0 && r == q * region
    ensures r % region == 0
  {
    MultipleMod(q, region);
  }

  // ----- changes to one function

  /** Nobody holds `id`. */
  ghost predicate Unheld(fns: seq<Function>, id: nat) {
    forall k, i :: 0 <= k < |fns| ==> !Holds(fns[k], i, id)
  }

  lemma FreshIsUnheld(mmio: seq<IoRegion>, fns: seq<Function>, nextId: nat)
    requires BusOk(mmio, fns) && Ids(mmio, nextId)
    ensures Unheld(fns, nextId)
  {}

  /** Function `k` becomes `f`, whose registers hold what they held before, or one new region in a
      register that was empty. */
  lemma BusUpdate(mmio: seq<IoRegion>, mmio': seq<IoRegion>, fns: seq<Function>, k: nat, f: Function, slot: nat,
                  id: nat)
    requires BusOk(mmio, fns) && k < |fns| && FunctionOk(mmio', f) && slot < BARS
    requires forall l, j, x :: 0 <= l < |fns| && l != k && Holds(fns[l], j, x) ==> Get(mmio', x) == Get(mmio, x)
    requires f.bars[slot].region == fns[k].bars[slot].region || (f.bars[slot].region == Some(id) && Unheld(fns, id))
    requires forall i :: 0 <= i < BARS && i != slot ==> f.bars[i].region == fns[k].bars[i].region
    ensures BusOk(mmio', fns[k := f])
  {
    var fns' := fns[k := f];
    forall l | 0 <= l < |fns'|
      ensures FunctionOk(mmio', fns'[l])
    {
      if l != k {
        FunctionFrame(mmio, mmio', fns[l]);
      }
    }
    forall a, i, b, j, x | 0 <= a < |fns'| && 0 <= b < |fns'| && Holds(fns'[a], i, x) && Holds(fns'[b], j, x)
      ensures a == b && i == j
    {
      HeldBefore(fns, k, f, slot, id, a, i, x);
      HeldBefore(fns, k, f, slot, id, b, j, x);
    }
  }

  lemma HeldBefore(fns: seq<Function>, k: nat, f: Function, slot: nat, id: nat, a: nat, i: nat, x: nat)
    requires k < |fns| && a < |fns| && |f.bars| == |fns[k].bars| == BARS && slot < BARS
    requires f.bars[slot].region == fns[k].bars[slot].region || (f.bars[slot].region == Some(id) && Unheld(fns, id))
    requires forall i :: 0 <= i < BARS && i != slot ==> f.bars[i].region == fns[k].bars[i].region
    requires Holds(fns[k := f][a], i, x)
    ensures Holds(fns[a], i, x) || (a == k && i == slot && x == id && Unheld(fns, id))
  {}

  /** A new BAR: the appended region and the register agree. */
  lemma BusAdd(mmio: seq<IoRegion>, fns: seq<Function>, nextId: nat, k: nat, i: nat, span: Span, dev: nat)
    requires BusOk(mmio, fns) && Ids(mmio, nextId) && k < |fns| && i < BARS && fns[k].bars[i].region.None?
    requires span.size >= 16 && PowerOfTwo(span.size) && span.base % span.size == 0 && span.base + span.size <= FOUR_GIB
    ensures var f := fns[k]; var r := IoRegion(nextId, span, dev, Decodes(f.config));
      BusOk(mmio + [r], fns[k := Attached(f, i, nextId, span.base)])
  {
    var f := fns[k];
    var r := IoRegion(nextId, span, dev, Decodes(f.config));
    var mmio' := mmio + [r];
    var f' := Attached(f, i, nextId, span.base);
    FreshIsUnheld(mmio, fns, nextId);
    forall x
      ensures Get(mmio', x) == if x == nextId then Some(r) else Get(mmio, x)
    {
      GetAppend(mmio, r, x);
    }
    forall j | 0 <= j < BARS && f'.bars[j].region.Some?
      ensures BarOk(Get(mmio', f'.bars[j].region.value), f'.config, j)
    {
      PutBarReads(f.config, i, span.base, j);
      if j != i {
        assert Holds(f, j, f.bars[j].region.value);
      }
    }
    BusUpdate(mmio, mmio', fns, k, f', i, nextId);
  }

  function Attached(f: Function, i: nat, id: nat, base: nat): Function
    requires Shaped(f) && i < BARS && base < FOUR_GIB
  {
    f.(config := PutBar(f.config, i, base), bars := f.bars[i := f.bars[i].(region := Some(id))])
  }

  /** The region of a new BAR of function number `k`: it decodes as the command bit says. */
  function BarRegion(f: Function, k: nat, id: nat, span: Span): IoRegion
    requires Shaped(f)
  {
    IoRegion(id, span, k, Decodes(f.config))
  }

  function Probing(f: Function, i: nat, probe: bool): Function
    requires Shaped(f) && i < BARS
  {
    f.(bars := f.bars[i := f.bars[i].(probe := probe)])
  }

  predicate CanSit(r: Option<IoRegion>, base: nat) {
    r.Some? && r.value.span.size > 0 && base % r.value.span.size == 0 && base + r.value.span.size <= FOUR_GIB
  }

  /** A moved BAR: the region and the register change together. */
  lemma BusMove(mmio: seq<IoRegion>, fns: seq<Function>, k: nat, i: nat, base: nat)
    requires BusOk(mmio, fns) && k < |fns| && i < BARS && fns[k].bars[i].region.Some?
    requires CanSit(Get(mmio, fns[k].bars[i].region.value), base)
    ensures var f := fns[k]; var id := f.bars[i].region.value;
      BusOk(Moved(mmio, id, base), fns[k := Probing(f, i, false).(config := PutBar(f.config, i, base))])
  {
    var f := fns[k];
    var id := f.bars[i].region.value;
    var at := IndexOf(mmio, id);
    var r := mmio[at].(span := Span(base, mmio[at].span.size));
    var mmio' := Moved(mmio, id, base);
    var f' := Probing(f, i, false).(config := PutBar(f.config, i, base));
    forall x
      ensures Get(mmio', x) == if x == id then Some(r) else Get(mmio, x)
    {
      GetUpdate(mmio, at, r, x);
    }
    assert Holds(f, i, id);
    forall j | 0 <= j < BARS && f'.bars[j].region.Some?
      ensures BarOk(Get(mmio', f'.bars[j].region.value), f'.config, j)
    {
      PutBarReads(f.config, i, base, j);
      assert Holds(f, j, f.bars[j].region.value);
      assert BarOk(Get(mmio, f.bars[j].region.value), f.config, j);
    }
    BusUpdate(mmio, mmio', fns, k, f', i, id);
  }

  /** Only the probe flag changes. */
  lemma BusProbe(mmio: seq<IoRegion>, fns: seq<Function>, k: nat, i: nat, probe: bool)
    requires BusOk(mmio, fns) && k < |fns| && i < BARS
    ensures BusOk(mmio, fns[k := Probing(fns[k], i, probe)])
  {
    var f := fns[k];
    var f' := Probing(f, i, probe);
    forall j | 0 <= j < BARS && f'.bars[j].region.Some?
      ensures BarOk(Get(mmio, f'.bars[j].region.value), f'.config, j)
    {
      assert BarOk(Get(mmio, f.bars[j].region.value), f.config, j);
    }
    BusUpdate(mmio, mmio, fns, k, f', i, 0);
  }

  // ----- the command register

  /** The byte a write leaves at `off`: command bits 1, 2 and 10 and the interrupt line are kept. */
  function Stored(off: nat, before: byte, written: byte): byte {
    if off == 4 then written / 2 % 4 * 2
    else if off == 5 then written / 4 % 2 * 4
    else if off == INTERRUPT_LINE then written
    else before
  }

  /** Decoding follows the bit that the guest writes, and no other command bits can be set. */
  lemma CommandBits(before: byte, written: byte)
    ensures Stored(4, before, written) / 2 % 2 == written / 2 % 2
    ensures Stored(4, before, written) / 4 % 2 == written / 4 % 2
    ensures Stored(4, before, written) in {0, 2, 4, 6} && Stored(5, before, written) in {0, 4}
    ensures Stored(5, before, written) / 4 % 2 == written / 4 % 2
  {}

  /** Byte `j` after `bytes` are written at `off`. */
  function ByteAfter(config: seq<byte>, off: nat, bytes: seq<byte>, j: nat): byte
    requires |config| == CONFIG_SIZE && j < CONFIG_SIZE
  {
    if off <= j < off + |bytes| then Stored(j, config[j], bytes[j - off]) else config[j]
  }

  /** The byte loop of `pci_bus_write_config_locked` outside the BARs. */
  method WriteBytes(config: seq<byte>, off: nat, bytes: seq<byte>) returns (c: seq<byte>)
    requires |config| == CONFIG_SIZE && off + |bytes| <= CONFIG_SIZE
    ensures |c| == CONFIG_SIZE
    ensures forall j :: 0 <= j < CONFIG_SIZE ==> c[j] == ByteAfter(config, off, bytes, j)
  {
    c := config;
    for i := 0 to |bytes|
      invariant |c| == CONFIG_SIZE
      invariant forall j :: 0 <= j < CONFIG_SIZE ==>
        c[j] == if j < off + i then ByteAfter(config, off, bytes, j) else config[j]
    {
      c := c[off + i := Stored(off + i, c[off + i], bytes[i])];
    }
  }

  /** Everything about function `k` but the decode flags of its regions from `from` on. */
  ghost predicate Settled(mmio: seq<IoRegion>, f: Function, from: nat) {
    && Shaped(f)
    && forall i :: 0 <= i < BARS && f.bars[i].region.Some? ==>
         && Mirrors(Get(mmio, f.bars[i].region.value), f.config, i)
         && (i < from ==> BarOk(Get(mmio, f.bars[i].region.value), f.config, i))
  }

  /** All but function `k` are in order, and no region serves two registers. */
  ghost predicate OthersOk(mmio: seq<IoRegion>, fns: seq<Function>, k: nat) {
    (forall l :: 0 <= l < |fns| && l != k ==> FunctionOk(mmio, fns[l])) && Exclusive(fns)
  }

  lemma CommandStarts(mmio: seq<IoRegion>, fns: seq<Function>, k: nat, config: seq<byte>)
    requires BusOk(mmio, fns) && k < |fns| && |config| == CONFIG_SIZE
    requires forall j :: 0x10 <= j < 0x28 ==> config[j] == fns[k].config[j]
    ensures OthersOk(mmio, fns[k := fns[k].(config := config)], k)
    ensures Settled(mmio, fns[k].(config := config), 0)
  {
    var f, fns' := fns[k].(config := config), fns[k := fns[k].(config := config)];
    assert FunctionOk(mmio, fns[k]);
    forall i | 0 <= i < BARS && f.bars[i].region.Some?
      ensures Mirrors(Get(mmio, f.bars[i].region.value), config, i)
    {
      assert BarOk(Get(mmio, f.bars[i].region.value), fns[k].config, i);
      assert BarBytes(config, i) == BarBytes(fns[k].config, i);
    }
    assert forall l, j, x :: 0 <= l < |fns| ==> Holds(fns'[l], j, x) == Holds(fns[l], j, x);
  }

  /** Switching one region settles its register and disturbs no other. */
  lemma SwitchSettles(mmio: seq<IoRegion>, fns: seq<Function>, k: nat, i: nat)
    requires k < |fns| && OthersOk(mmio, fns, k) && Settled(mmio, fns[k], i) && i < BARS
    requires fns[k].bars[i].region.Some?
    ensures var id := fns[k].bars[i].region.value; Get(mmio, id).Some?
    ensures var mmio' := Switched(mmio, fns[k].bars[i].region.value, Decodes(fns[k].config));
      OthersOk(mmio', fns, k) && Settled(mmio', fns[k], i + 1)
  {
    var f := fns[k];
    var id := f.bars[i].region.value;
    var at := IndexOf(mmio, id);
    var r := mmio[at].(enabled := Decodes(f.config));
    var mmio' := Switched(mmio, id, Decodes(f.config));
    assert Holds(f, i, id);
    forall x
      ensures Get(mmio', x) == if x == id then Some(r) else Get(mmio, x)
    {
      GetUpdate(mmio, at, r, x);
    }
    forall l | 0 <= l < |fns| && l != k
      ensures FunctionOk(mmio', fns[l])
    {
      FunctionFrame(mmio, mmio', fns[l]);
    }
    forall j | 0 <= j < BARS && f.bars[j].region.Some?
      ensures Mirrors(Get(mmio', f.bars[j].region.value), f.config, j)
      ensures j < i + 1 ==> BarOk(Get(mmio', f.bars[j].region.value), f.config, j)
    {
      assert Holds(f, j, f.bars[j].region.value);
    }
  }

  /** Region `id` once the first `n` registers of `f` had theirs switched. */
  ghost function Redecoded(mmio: seq<IoRegion>, f: Function, n: nat, id: nat): Option<IoRegion>
    requires Shaped(f)
  {
    var r := Get(mmio, id);
    if r.Some? && exists i :: 0 <= i < n && Holds(f, i, id) then Some(r.value.(enabled := Decodes(f.config))) else r
  }

  /** The regions in the first `n` registers of `f` decode as its command bit says, and nothing else
      about any region changed. */
  ghost predicate Follow(mmio: seq<IoRegion>, mmio': seq<IoRegion>, f: Function, n: nat)
    requires Shaped(f)
  {
    forall id :: Get(mmio', id) == Redecoded(mmio, f, n, id)
  }

  lemma FollowStep(mmio: seq<IoRegion>, mmio': seq<IoRegion>, f: Function, i: nat)
    requires Shaped(f) && i < BARS && Follow(mmio, mmio', f, i)
    requires f.bars[i].region.Some? ==> Get(mmio', f.bars[i].region.value).Some?
    ensures var x := f.bars[i].region;
      Follow(mmio, if x.Some? then Switched(mmio', x.value, Decodes(f.config)) else mmio', f, i + 1)
  {
    if f.bars[i].region.None? {
      forall id
        ensures Get(mmio', id) == Redecoded(mmio, f, i + 1, id)
      {
        assert !Holds(f, i, id);
        SameHolders(f, i, id);
      }
    } else {
      var x := f.bars[i].region.value;
      var at := IndexOf(mmio', x);
      var r := mmio'[at].(enabled := Decodes(f.config));
      assert Holds(f, i, x);
      forall id
        ensures Get(Switched(mmio', x, Decodes(f.config)), id) == Redecoded(mmio, f, i + 1, id)
      {
        GetUpdate(mmio', at, r, id);
        SameHolders(f, i, id);
      }
    }
  }

  lemma SameHolders(f: Function, i: nat, id: nat)
    ensures (exists j :: 0 <= j < i + 1 && Holds(f, j, id)) <==>
      Holds(f, i, id) || exists j :: 0 <= j < i && Holds(f, j, id)
  {}

  lemma SettledIsOk(mmio: seq<IoRegion>, fns: seq<Function>, k: nat)
    requires k < |fns| && OthersOk(mmio, fns, k) && Settled(mmio, fns[k], BARS)
    ensures BusOk(mmio, fns)
  {}

  // ----- the bus

  class PciBus {
    const vm: Vm
    const low: nat
    const limit: nat
    var fns: seq<Function>

    ghost predicate Valid()
      reads this, vm
    {
      vm.Valid() && limit <= FOUR_GIB && BusOk(vm.mmio, fns) && Numbered(fns)
    }

    constructor (vm: Vm, low: nat, limit: nat)
      requires vm.Valid() && low <= limit <= FOUR_GIB
      ensures Valid() && this.vm == vm && fns == []
    {
      this.vm, this.low, this.limit, fns := vm, low, limit, [];
    }

    /** The bus side of `pci_device_register_locked`: a function with an unused number joins the bus,
        without regions. */
    method AddFunction(devfn: nat, config: seq<byte>, pin: byte)
      requires Valid() && devfn < 256 && |config| == CONFIG_SIZE && forall k :: 0 <= k < |fns| ==> fns[k].devfn != devfn
      modifies this`fns
      ensures Valid() && fns == old(fns) + [Newcomer(devfn, config, pin)]
    {
      var f := Newcomer(devfn, config, pin);
      JoinBus(vm.mmio, fns, f);
      fns := fns + [f];
    }

    /** `pci_register_bar_locked`: an explicit base, or the lowest place in the window. The clauses give
        the outcome for every call, and what a success does. */
    method RegisterBar(k: nat, i: nat, size: nat, requested: Option<nat>, failed: bool) returns (o: Outcome)
      requires Valid() && k < |fns| && size < FOUR_GIB
      requires requested.Some? ==> requested.value <= U64_MAX
      modifies this`fns, vm`mmio, vm`pio, vm`nextId
      ensures Valid()
      ensures !o.Ok? ==> fns == old(fns) && vm.mmio == old(vm.mmio)
      ensures BarOutcome(old(fns)[k], i, size, requested, failed, old(vm.mmio), vm.ram, low, limit, o)
      ensures vm.pio == old(vm.pio) && vm.nextId == old(vm.nextId) + if o.Ok? then 1 else 0
      ensures o.Ok? ==> exists base: nat ::
        Chosen(old(vm.mmio), vm.ram, low, limit, size, requested, base) && base < FOUR_GIB
        && fns == old(fns)[k := Attached(old(fns)[k], i, old(vm.nextId), base)]
        && vm.mmio == old(vm.mmio) + [BarRegion(old(fns)[k], k, old(vm.nextId), Span(base, size))]
    {
      assert FunctionOk(vm.mmio, fns[k]);
      if i >= BARS || size < 16 || !PowerOfTwo(size) {
        return Err(EINVAL);
      }
      if fns[k].bars[i].region.Some? {
        return Err(EEXIST);
      }
      var base := 0;
      if requested.Some? {
        base := requested.value;
      } else {
        var place := Allocate(IoSpans(vm.mmio), RamSpans(vm.ram), low, limit, size);
        if place.None? {
          return Err(ENOSPC);
        }
        base := place.value;
        assert Lowest(IoSpans(vm.mmio), RamSpans(vm.ram), low, limit, size, base);
      }
      if base % size != 0 || base > FOUR_GIB - size {
        return Err(EINVAL);
      }
      OnlyChoice(vm.mmio, vm.ram, low, limit, size, requested, base);
      o := Attach(k, i, Span(base, size), failed);
    }

    /** Register the region and let the BAR show it. */
    method Attach(k: nat, i: nat, span: Span, failed: bool) returns (o: Outcome)
      requires Valid() && k < |fns| && i < BARS && fns[k].bars[i].region.None?
      requires span.size >= 16 && PowerOfTwo(span.size) && span.base % span.size == 0
      requires span.base + span.size <= FOUR_GIB
      modifies this`fns, vm`mmio, vm`pio, vm`nextId
      ensures Valid()
      ensures o.Err? ==> o.error in {EBUSY, ENOMEM} && fns == old(fns) && vm.mmio == old(vm.mmio)
      ensures o.Ok? <==> Clear(IoSpans(old(vm.mmio)), span) && Clear(RamSpans(vm.ram), span) && !failed
      ensures o.Ok? ==> fns == old(fns)[k := Attached(old(fns[k]), i, old(vm.nextId), span.base)]
      ensures o.Ok? ==> vm.mmio == old(vm.mmio) + [BarRegion(old(fns[k]), k, old(vm.nextId), span)]
      ensures vm.pio == old(vm.pio) && vm.nextId == old(vm.nextId) + if o.Ok? then 1 else 0
    {
      var id;
      ghost var mmio, nextId := vm.mmio, vm.nextId;
      o, id := vm.Register(Mmio, span, k, failed);
      if o.Ok? {
        var on := Decodes(fns[k].config);
        ghost var r := IoRegion(id, span, k, true);
        GetAppend(mmio, r, id);
        vm.SetEnabled(id, on);
        assert vm.mmio == mmio + [r.(enabled := on)];
        BusAdd(mmio, fns, nextId, k, i, span, k);
        fns := fns[k := Attached(fns[k], i, id, span.base)];
      }
    }

    /** The BAR case of `pci_bus_write_config_locked`. */
    method WriteBar(k: nat, i: nat, off: nat, val: nat, size: nat)
      requires Valid() && k < |fns| && i < BARS && off % 4 + size <= 4 && val < FOUR_GIB
      modifies this`fns, vm`mmio
      ensures Valid() && SameFunctions(old(fns), fns)
      ensures BarWritten(old(vm.Now()), old(fns), k, i, off, val, size, vm.mmio, fns)
    {
      var f := fns[k];
      assert FunctionOk(vm.mmio, f);
      if f.bars[i].region.None? {
        return;
      }
      var id := f.bars[i].region.value;
      assert BarOk(Get(vm.mmio, id), f.config, i);
      var f' := Probing(f, i, true);
      if size == 4 && val == FOUR_GIB - 1 {
        BusProbe(vm.mmio, fns, k, i, true);
      } else {
        f' := MoveBar(k, i, off, val, size);
      }
      SameNumbers(fns, k, f');
      fns := fns[k := f'];
    }

    /** Try to move the region of register `i`; the function that results. */
    method MoveBar(k: nat, i: nat, off: nat, val: nat, size: nat) returns (f': Function)
      requires Valid() && k < |fns| && i < BARS && off % 4 + size <= 4 && fns[k].bars[i].region.Some?
      modifies vm`mmio
      ensures vm.Valid() && BusOk(vm.mmio, fns[k := f']) && f'.devfn == fns[k].devfn
      ensures BarMoved(old(vm.Now()), fns, k, i, off, val, size, vm.mmio, f')
    {
      var f := fns[k];
      assert FunctionOk(vm.mmio, f);
      var id := f.bars[i].region.value;
      assert BarOk(Get(vm.mmio, id), f.config, i);
      var span := Get(vm.mmio, id).value.span;
      RequestedIsAligned(span.base, off % 4, size, val, span.size);
      var base := Requested(span.base, off % 4, size, val, span.size);
      BusMove(vm.mmio, fns, k, i, base);
      BusProbe(vm.mmio, fns, k, i, false);
      f' := Probing(f, i, false);
      var o := vm.RelocateMmio(id, base);
      if o.Ok? {
        f' := f'.(config := PutBar(f.config, i, base));
      }
    }

    /** The other registers below 0x40; a command write switches every region of the function. */
    method WriteCommand(k: nat, off: nat, bytes: seq<byte>)
      requires Valid() && k < |fns| && off + |bytes| <= 0x40 && (off + |bytes| <= 0x10 || 0x28 <= off)
      modifies this`fns, vm`mmio
      ensures Valid() && SameFunctions(old(fns), fns)
      ensures CommandWritten(old(vm.mmio), old(fns), k, off, bytes, vm.mmio, fns)
    {
      assert FunctionOk(vm.mmio, fns[k]);
      var config := WriteBytes(fns[k].config, off, bytes);
      CommandStarts(vm.mmio, fns, k, config);
      SameNumbers(fns, k, fns[k].(config := config));
      if Commands(off, |bytes|) {
        fns := fns[k := fns[k].(config := config)];
        SwitchAll(k);
      } else {
        SameDecode(vm.mmio, fns, k, config);
        fns := fns[k := fns[k].(config := config)];
      }
    }

    /** `pci_bus_find_device` */
    method FindFunction(devfn: nat) returns (k: nat)
      ensures k <= |fns| && (k < |fns| ==> fns[k].devfn == devfn)
      ensures forall l :: 0 <= l < k ==> fns[l].devfn != devfn
    {
      k := 0;
      while k < |fns| && fns[k].devfn != devfn
        invariant k <= |fns| && forall l :: 0 <= l < k ==> fns[l].devfn != devfn
      {
        k := k + 1;
      }
    }

    /** `pci_bus_write_config_locked`: malformed accesses and absent functions are ignored, and from 0x40
        on the device's own handler decides. Otherwise the one function with that number sees the write,
        and whatever a guest writes, every register keeps showing its region. */
    method WriteConfig(devfn: nat, off: nat, val: nat, size: nat) returns (k: nat)
      requires Valid() && val < FOUR_GIB
      modifies this`fns, vm`mmio
      ensures Valid() && SameFunctions(old(fns), fns)
      ensures k == |fns| <==> !WellFormed(off, size) || off >= 0x40 || Absent(old(fns), devfn)
      ensures k < |fns| ==> (old(fns)[k].devfn == devfn && WellFormed(off, size) && off < 0x40
                             && Written(old(vm.Now()), old(fns), k, off, val, size, vm.mmio, fns))
      ensures k >= |fns| ==> fns == old(fns) && vm.mmio == old(vm.mmio)
    {
      if !(size in {1, 2, 4}) || off % size != 0 || off + size > CONFIG_SIZE {
        return |fns|;
      }
      k := FindFunction(devfn);
      if k == |fns| || off >= 0x40 {
        return |fns|;
      }
      WriteAt(k, off, val, size);
    }

    /** A well-formed write below 0x40 to function `k`. */
    method WriteAt(k: nat, off: nat, val: nat, size: nat)
      requires Valid() && k < |fns| && WellFormed(off, size) && off < 0x40 && val < FOUR_GIB
      modifies this`fns, vm`mmio
      ensures Valid() && SameFunctions(old(fns), fns)
      ensures Written(old(vm.Now()), old(fns), k, off, val, size, vm.mmio, fns)
    {
      if 0x10 <= off < 0x28 {
        InOneBar(off, size);
        WriteBar(k, (off - 0x10) / 4, off, val, size);
      } else {
        WriteCommand(k, off, LowBytes(val, size));
      }
    }

    /** `pci_bus_read_config_locked`: all ones for a malformed access or an absent function, the answer
        `own` of the device's own handler from 0x40 on if it has one, otherwise the bytes shown. */
    method ReadConfig(devfn: nat, off: nat, size: nat, own: Option<nat>) returns (val: nat)
      requires Valid()
      ensures !WellFormed(off, size) || (forall k :: 0 <= k < |fns| ==> fns[k].devfn != devfn) ==> val == FOUR_GIB - 1
      ensures forall k :: 0 <= k < |fns| && fns[k].devfn == devfn && WellFormed(off, size) ==>
        val == if off >= 0x40 && own.Some? then own.value else FromLe(BytesShown(vm.mmio, fns[k], off, size))
    {
      if !(size in {1, 2, 4}) || off % size != 0 || off + size > CONFIG_SIZE {
        return FOUR_GIB - 1;
      }
      var k := FindFunction(devfn);
      if k == |fns| {
        return FOUR_GIB - 1;
      }
      OnlyNumber(fns, k, devfn);
      if off >= 0x40 && own.Some? {
        return own.value;
      }
      var bytes: seq<byte> := [];
      for j := 0 to size
        invariant bytes == BytesShown(vm.mmio, fns[k], off, j)
      {
        bytes := bytes + [ByteShown(vm.mmio, fns[k], off + j)];
      }
      val := FromLe(bytes);
    }

    /** Removal of a function with its regions: the space is free again, the other functions keep
        theirs. */
    method Remove(k: nat)
      requires Valid() && k < |fns|
      modifies this`fns, vm`mmio
      ensures Valid() && fns == old(fns)[..k] + old(fns)[k + 1..]
      ensures Lost(old(vm.mmio), vm.mmio, old(fns)[k])
    {
      StartRemoval(vm.mmio, fns, k);
      for i := 0 to BARS
        invariant fns == old(fns) && vm.Valid() && OthersOk(vm.mmio, fns, k) && Shaped(fns[k])
        invariant Half(old(vm.mmio), vm.mmio, fns[k], i)
      {
        if fns[k].bars[i].region.Some? {
          RemovalStep(old(vm.mmio), vm.mmio, vm.nextId, fns, k, i);
          vm.UnregisterMmio(fns[k].bars[i].region.value);
        }
      }
      DropFunction(vm.mmio, fns, k);
      fns := fns[..k] + fns[k + 1..];
    }

    method SwitchAll(k: nat)
      requires vm.Valid() && limit <= FOUR_GIB && k < |fns| && Numbered(fns)
      requires OthersOk(vm.mmio, fns, k) && Settled(vm.mmio, fns[k], 0)
      modifies vm`mmio
      ensures Valid() && Follow(old(vm.mmio), vm.mmio, fns[k], BARS)
    {
      ghost var before := vm.mmio;
      FollowNone(before, fns[k]);
      for i := 0 to BARS
        invariant vm.Valid() && OthersOk(vm.mmio, fns, k) && Settled(vm.mmio, fns[k], i)
        invariant Follow(before, vm.mmio, fns[k], i)
      {
        if fns[k].bars[i].region.Some? {
          SwitchSettles(vm.mmio, fns, k, i);
        }
        FollowStep(before, vm.mmio, fns[k], i);
        if fns[k].bars[i].region.Some? {
          vm.SetEnabled(fns[k].bars[i].region.value, Decodes(fns[k].config));
        }
      }
      SettledIsOk(vm.mmio, fns, k);
    }
  }

  lemma FollowNone(mmio: seq<IoRegion>, f: Function)
    requires Shaped(f)
    ensures Follow(mmio, mmio, f, 0)
  {}

  /** The same functions are on the bus. */
  ghost predicate SameFunctions(fns: seq<Function>, fns': seq<Function>) {
    |fns'| == |fns| && forall l :: 0 <= l < |fns| ==> fns'[l].devfn == fns[l].devfn
  }

  /** No function has the number. */
  ghost predicate Absent(fns: seq<Function>, devfn: nat) {
    forall k :: 0 <= k < |fns| ==> fns[k].devfn != devfn
  }

  predicate WellFormed(off: nat, size: nat) {
    size in {1, 2, 4} && off % size == 0 && off + size <= CONFIG_SIZE
  }

  /** The write reaches a byte of the command register. */
  predicate Commands(off: nat, size: nat) {
    off < 6 && off + size > 4
  }

  /** A function as it joins the bus. */
  function Newcomer(devfn: nat, config: seq<byte>, pin: byte): Function
    requires |config| == CONFIG_SIZE
  {
    Function(devfn, config[INTERRUPT_PIN := pin][INTERRUPT_LINE := 0], seq(BARS, i => Bar(None, false)))
  }

  lemma JoinBus(mmio: seq<IoRegion>, fns: seq<Function>, f: Function)
    requires BusOk(mmio, fns) && Numbered(fns) && Shaped(f) && f.devfn < 256
    requires forall i :: 0 <= i < BARS ==> f.bars[i].region.None?
    requires forall k :: 0 <= k < |fns| ==> fns[k].devfn != f.devfn
    ensures BusOk(mmio, fns + [f]) && Numbered(fns + [f])
  {
    assert forall i, id :: !Holds(f, i, id);
  }

  lemma OnlyNumber(fns: seq<Function>, k: nat, devfn: nat)
    requires Numbered(fns) && k < |fns| && fns[k].devfn == devfn
    ensures forall l :: 0 <= l < |fns| && fns[l].devfn == devfn ==> l == k
  {}

  lemma SameNumbers(fns: seq<Function>, k: nat, f: Function)
    requires Numbered(fns) && k < |fns| && f.devfn == fns[k].devfn
    ensures Numbered(fns[k := f])
  {}

  predicate BarSize(i: nat, size: nat) {
    i < BARS && size >= 16 && PowerOfTwo(size)
  }

  /** Aligned and below 4 GiB. */
  predicate Sits(base: nat, size: nat)
    requires size > 0
  {
    base % size == 0 && base + size <= FOUR_GIB
  }

  /** The base a new BAR gets: the requested one, or the lowest place in the window; it must be aligned,
      below 4 GiB and clear. */
  ghost predicate Chosen(mmio: seq<IoRegion>, ram: seq<Region>, low: nat, limit: nat, size: nat,
                         requested: Option<nat>, base: nat)
  {
    && size > 0 && Sits(base, size)
    && Clear(IoSpans(mmio), Span(base, size)) && Clear(RamSpans(ram), Span(base, size))
    && if requested.Some? then base == requested.value else Lowest(IoSpans(mmio), RamSpans(ram), low, limit, size, base)
  }

  /** The outcome of registering BAR `i` of function `f`, for every call. */
  ghost predicate BarOutcome(f: Function, i: nat, size: nat, requested: Option<nat>, failed: bool, mmio: seq<IoRegion>,
                             ram: seq<Region>, low: nat, limit: nat, o: Outcome)
    requires Shaped(f)
  {
    && (o == Err(EINVAL) <==>
          !BarSize(i, size) || (f.bars[i].region.None? && requested.Some? && !Sits(requested.value, size)))
    && (o == Err(EEXIST) <==> BarSize(i, size) && f.bars[i].region.Some?)
    && (o == Err(ENOSPC) <==>
          (BarSize(i, size) && f.bars[i].region.None? && requested.None?
           && forall b: nat :: !Places(IoSpans(mmio), RamSpans(ram), low, limit, size, b)))
    && (o.Ok? <==>
          (BarSize(i, size) && f.bars[i].region.None? && !failed
           && exists base: nat :: Chosen(mmio, ram, low, limit, size, requested, base)))
  }

  lemma OnlyChoice(mmio: seq<IoRegion>, ram: seq<Region>, low: nat, limit: nat, size: nat, requested: Option<nat>,
                   base: nat)
    requires size > 0 && Sits(base, size)
    requires if requested.Some? then base == requested.value
             else Lowest(IoSpans(mmio), RamSpans(ram), low, limit, size, base)
    ensures forall b :: Chosen(mmio, ram, low, limit, size, requested, b) ==> b == base
    ensures Chosen(mmio, ram, low, limit, size, requested, base) <==>
      Clear(IoSpans(mmio), Span(base, size)) && Clear(RamSpans(ram), Span(base, size))
  {}

  /** What a write outside the BARs does: the command bits and the interrupt line are stored, and after
      a command write the function's regions decode as it says. */
  ghost predicate CommandWritten(mmio: seq<IoRegion>, fns: seq<Function>, k: nat, off: nat, bytes: seq<byte>,
                                 mmio': seq<IoRegion>, fns': seq<Function>)
    requires k < |fns| && Shaped(fns[k])
  {
    && |fns'| == |fns| && Shaped(fns'[k]) && (forall l :: 0 <= l < |fns| && l != k ==> fns'[l] == fns[l])
    && fns'[k].bars == fns[k].bars && fns'[k].devfn == fns[k].devfn
    && (forall j :: 0 <= j < CONFIG_SIZE ==> fns'[k].config[j] == ByteAfter(fns[k].config, off, bytes, j))
    && if Commands(off, |bytes|) then Follow(mmio, mmio', fns'[k], BARS) else mmio' == mmio
  }

  /** An aligned access reaches one register only. */
  lemma InOneBar(off: nat, size: nat)
    requires WellFormed(off, size) && 0x10 <= off < 0x28
    ensures 0 <= (off - 0x10) / 4 < BARS && off % 4 + size <= 4
  {}

  /** What a well-formed write below 0x40 does. */
  ghost predicate Written(v: View, fns: seq<Function>, k: nat, off: nat, val: nat, size: nat,
                          mmio': seq<IoRegion>, fns': seq<Function>)
    requires k < |fns| && BusOk(v.mmio, fns) && WellFormed(off, size) && off < 0x40
  {
    assert FunctionOk(v.mmio, fns[k]);
    if 0x10 <= off < 0x28 then InOneBar(off, size); BarWritten(v, fns, k, (off - 0x10) / 4, off, val, size, mmio', fns')
    else CommandWritten(v.mmio, fns, k, off, LowBytes(val, size), mmio', fns')
  }

  /** Only the function addressed changes; its pin never does, and its INTx disable bit only by a write
      that reaches the command register. */
  lemma MaskChanges(v: View, fns: seq<Function>, k: nat, off: nat, val: nat, size: nat, mmio': seq<IoRegion>,
                    fns': seq<Function>)
    requires k < |fns| && BusOk(v.mmio, fns) && WellFormed(off, size) && off < 0x40
    requires Written(v, fns, k, off, val, size, mmio', fns')
    ensures |fns'| == |fns| && forall l :: 0 <= l < |fns| && l != k ==> fns'[l] == fns[l]
    ensures Shaped(fns[k]) && Shaped(fns'[k])
    ensures (!Commands(off, size) ==> Masks(fns'[k].config) == Masks(fns[k].config))
    ensures fns'[k].config[INTERRUPT_PIN] == fns[k].config[INTERRUPT_PIN]
  {
    assert FunctionOk(v.mmio, fns[k]);
    if 0x10 <= off < 0x28 {
      InOneBar(off, size);
      BarKeepsRest(v, fns, k, (off - 0x10) / 4, off, val, size, mmio', fns');
      SameMask(fns[k].config, fns'[k].config);
    } else {
      CommandKeeps(v.mmio, fns, k, off, LowBytes(val, size), mmio', fns');
    }
  }

  lemma SameMask(config: seq<byte>, config': seq<byte>)
    requires |config| == |config'| == CONFIG_SIZE && config[5] == config'[5]
    ensures Masks(config') == Masks(config)
  {}

  lemma CommandKeeps(mmio: seq<IoRegion>, fns: seq<Function>, k: nat, off: nat, bytes: seq<byte>, mmio': seq<IoRegion>,
                     fns': seq<Function>)
    requires k < |fns| && Shaped(fns[k]) && CommandWritten(mmio, fns, k, off, bytes, mmio', fns')
    ensures |fns'| == |fns| && Shaped(fns'[k]) && forall l :: 0 <= l < |fns| && l != k ==> fns'[l] == fns[l]
    ensures fns'[k].config[INTERRUPT_PIN] == fns[k].config[INTERRUPT_PIN]
    ensures !Commands(off, |bytes|) ==> Masks(fns'[k].config) == Masks(fns[k].config)
  {
    assert fns'[k].config[5] == ByteAfter(fns[k].config, off, bytes, 5);
  }

  /** A BAR write leaves the bytes outside the BARs alone. */
  lemma BarKeepsRest(v: View, fns: seq<Function>, k: nat, i: nat, off: nat, val: nat, size: nat, mmio': seq<IoRegion>,
                     fns': seq<Function>)
    requires k < |fns| && BusOk(v.mmio, fns) && i < BARS && off % 4 + size <= 4
    requires BarWritten(v, fns, k, i, off, val, size, mmio', fns')
    ensures |fns'| == |fns| && forall l :: 0 <= l < |fns| && l != k ==> fns'[l] == fns[l]
    ensures Shaped(fns[k]) && Shaped(fns'[k])
    ensures forall j :: 0 <= j < CONFIG_SIZE && !(0x10 <= j < 0x28) ==> fns'[k].config[j] == fns[k].config[j]
  {
    assert FunctionOk(v.mmio, fns[k]);
  }

  /** The byte that a guest reads at `off`. */
  function ByteShown(mmio: seq<IoRegion>, f: Function, off: nat): byte {
    if off >= |f.config| then 0xff
    else
      var i: int := (off - 0x10) / 4;
      if 0 <= i < BARS && i < |f.bars| && f.bars[i].region.Some? && f.bars[i].probe then
        var r := Get(mmio, f.bars[i].region.value);
        if r.Some? && 0 < r.value.span.size <= FOUR_GIB then Le32(FOUR_GIB - r.value.span.size)[off % 4] else 0xff
      else f.config[off]
  }

  function BytesShown(mmio: seq<IoRegion>, f: Function, off: nat, n: nat): (bs: seq<byte>)
    ensures |bs| == n && forall j :: 0 <= j < n ==> bs[j] == ByteShown(mmio, f, off + j)
  {
    if n == 0 then [] else BytesShown(mmio, f, off, n - 1) + [ByteShown(mmio, f, off + (n - 1))]
  }

  /** A 32-bit read of a register: the base of its region, or while probing the size mask, from
      which the guest recovers the size. */
  lemma BarReadsBack(mmio: seq<IoRegion>, f: Function, i: nat)
    requires FunctionOk(mmio, f) && i < BARS && f.bars[i].region.Some?
    ensures Get(mmio, f.bars[i].region.value).Some?
    ensures var span := Get(mmio, f.bars[i].region.value).value.span;
      && 0 < span.size && span.base + span.size <= FOUR_GIB
      && FromLe(BytesShown(mmio, f, 0x10 + 4 * i, 4)) == Shown(f.bars[i].probe, span)
  {
    var r := Get(mmio, f.bars[i].region.value);
    assert BarOk(r, f.config, i);
    var shown := Shown(f.bars[i].probe, r.value.span);
    var bytes := BytesShown(mmio, f, 0x10 + 4 * i, 4);
    forall j | 0 <= j < 4
      ensures bytes[j] == Le32(shown)[j]
    {
      ByteOfBar(mmio, f, i, j);
    }
    assert bytes == Le32(shown);
    Le32RoundTrip(shown);
  }

  /** The 32-bit value of a register. */
  function Shown(probe: bool, span: Span): (v: nat)
    requires 0 < span.size && span.base + span.size <= FOUR_GIB
    ensures v < FOUR_GIB
  {
    if probe then FOUR_GIB - span.size else span.base
  }

  lemma ByteOfBar(mmio: seq<IoRegion>, f: Function, i: nat, j: nat)
    requires Shaped(f) && i < BARS && j < 4 && f.bars[i].region.Some?
    requires BarOk(Get(mmio, f.bars[i].region.value), f.config, i)
    ensures var span := Get(mmio, f.bars[i].region.value).value.span;
      ByteShown(mmio, f, 0x10 + 4 * i + j) == Le32(Shown(f.bars[i].probe, span))[j]
  {}

  /** What a BAR write does: all ones start a size probe; anything else ends it and moves region and
      register to the requested address, unless something is in the way there. */
  ghost predicate BarWritten(v: View, fns: seq<Function>, k: nat, i: nat, off: nat, val: nat, size: nat,
                             mmio': seq<IoRegion>, fns': seq<Function>)
    requires k < |fns| && BusOk(v.mmio, fns) && i < BARS && off % 4 + size <= 4
  {
    var f := fns[k];
    assert FunctionOk(v.mmio, f);
    if f.bars[i].region.None? then mmio' == v.mmio && fns' == fns
    else if size == 4 && val == FOUR_GIB - 1 then mmio' == v.mmio && fns' == fns[k := Probing(f, i, true)]
    else |fns'| == |fns| && fns' == fns[k := fns'[k]] && BarMoved(v, fns, k, i, off, val, size, mmio', fns'[k])
  }

  ghost predicate BarMoved(v: View, fns: seq<Function>, k: nat, i: nat, off: nat, val: nat, size: nat,
                           mmio': seq<IoRegion>, f': Function)
    requires k < |fns| && BusOk(v.mmio, fns) && i < BARS && off % 4 + size <= 4
    requires |fns[k].bars| == BARS && fns[k].bars[i].region.Some?
  {
    var f := fns[k];
    assert FunctionOk(v.mmio, f);
    var id := f.bars[i].region.value;
    assert BarOk(Get(v.mmio, id), f.config, i);
    var span := Get(v.mmio, id).value.span;
    var base := Requested(span.base, off % 4, size, val, span.size);
    if MoveFits(v, Mmio, id, base) then
      && base < FOUR_GIB && mmio' == Moved(v.mmio, id, base)
      && f' == Probing(f, i, false).(config := PutBar(f.config, i, base))
    else mmio' == v.mmio && f' == Probing(f, i, false)
  }

  /** `base` is a place and no lower one is. */
  ghost predicate Lowest(mmio: seq<Span>, ram: seq<Span>, low: nat, limit: nat, size: nat, base: nat) {
    && size > 0 && Places(mmio, ram, low, limit, size, base)
    && forall b: nat :: Places(mmio, ram, low, limit, size, b) ==> base <= b
  }

  /** A write that keeps the decode bit keeps the bus in order. */
  lemma SameDecode(mmio: seq<IoRegion>, fns: seq<Function>, k: nat, config: seq<byte>)
    requires BusOk(mmio, fns) && k < |fns| && |config| == CONFIG_SIZE && config[4] == fns[k].config[4]
    requires OthersOk(mmio, fns[k := fns[k].(config := config)], k) && Settled(mmio, fns[k].(config := config), 0)
    ensures BusOk(mmio, fns[k := fns[k].(config := config)])
  {}

  // ----- regions that come and go

  /** A region registered by another device concerns no BAR. */
  lemma OtherRegion(mmio: seq<IoRegion>, fns: seq<Function>, nextId: nat, r: IoRegion)
    requires BusOk(mmio, fns) && Ids(mmio, nextId) && r.id == nextId
    ensures BusOk(mmio + [r], fns)
  {
    FreshIsUnheld(mmio, fns, nextId);
    forall k | 0 <= k < |fns|
      ensures FunctionOk(mmio + [r], fns[k])
    {
      forall i, id | Holds(fns[k], i, id)
        ensures Get(mmio + [r], id) == Get(mmio, id)
      {
        GetAppend(mmio, r, id);
      }
      FunctionFrame(mmio, mmio + [r], fns[k]);
    }
  }

  /** Nor does one that no BAR holds and that goes. */
  lemma OtherRegionGoes(mmio: seq<IoRegion>, fns: seq<Function>, nextId: nat, x: nat)
    requires BusOk(mmio, fns) && Ids(mmio, nextId) && Unheld(fns, x)
    ensures BusOk(Without(mmio, x), fns)
  {
    forall k | 0 <= k < |fns|
      ensures FunctionOk(Without(mmio, x), fns[k])
    {
      forall i, id | Holds(fns[k], i, id)
        ensures Get(Without(mmio, x), id) == Get(mmio, id)
      {
        if Get(mmio, x).Some? {
          GetRemove(mmio, IndexOf(mmio, x), nextId, id);
        }
      }
      FunctionFrame(mmio, Without(mmio, x), fns[k]);
    }
  }

  /** Register `i` or one after it holds the region. */
  ghost predicate HeldFrom(f: Function, i: nat, id: nat) {
    exists j :: i <= j < |f.bars| && Holds(f, j, id)
  }

  /** The regions of the function are gone, and nothing else about any region changed. */
  ghost predicate Lost(mmio: seq<IoRegion>, mmio': seq<IoRegion>, f: Function) {
    forall id :: Get(mmio', id) == if HeldFrom(f, 0, id) then None else Get(mmio, id)
  }

  /** The regions of the first `from` registers are gone, those of the others are there, and so is every
      region that the function does not hold. */
  ghost predicate Half(mmio: seq<IoRegion>, mmio': seq<IoRegion>, f: Function, from: nat) {
    && (forall i, id :: i >= from && Holds(f, i, id) ==> Get(mmio', id).Some?)
    && forall id :: Get(mmio', id) == if HeldFrom(f, 0, id) && !HeldFrom(f, from, id) then None else Get(mmio, id)
  }

  lemma StartRemoval(mmio: seq<IoRegion>, fns: seq<Function>, k: nat)
    requires BusOk(mmio, fns) && k < |fns|
    ensures OthersOk(mmio, fns, k) && Shaped(fns[k]) && Half(mmio, mmio, fns[k], 0)
  {}

  lemma RemovalStep(mmio: seq<IoRegion>, now: seq<IoRegion>, nextId: nat, fns: seq<Function>, k: nat, i: nat)
    requires k < |fns| && OthersOk(now, fns, k) && Shaped(fns[k]) && Half(mmio, now, fns[k], i) && i < BARS
    requires Ids(now, nextId) && fns[k].bars[i].region.Some?
    ensures var id := fns[k].bars[i].region.value; Get(now, id).Some?
    ensures var mmio' := Without(now, fns[k].bars[i].region.value);
      OthersOk(mmio', fns, k) && Half(mmio, mmio', fns[k], i + 1)
  {
    var id := fns[k].bars[i].region.value;
    assert Holds(fns[k], i, id);
    var mmio' := Without(now, id);
    forall x
      ensures Get(mmio', x) == if x == id then None else Get(now, x)
    {
      GetRemove(now, IndexOf(now, id), nextId, x);
    }
    forall l | 0 <= l < |fns| && l != k
      ensures FunctionOk(mmio', fns[l])
    {
      FunctionFrame(now, mmio', fns[l]);
    }
    forall x
      ensures HeldFrom(fns[k], i, x) <==> x == id || HeldFrom(fns[k], i + 1, x)
    {
      HeldNext(fns[k], i, x);
    }
  }

  lemma HeldNext(f: Function, i: nat, x: nat)
    requires i < |f.bars|
    ensures HeldFrom(f, i, x) <==> Holds(f, i, x) || HeldFrom(f, i + 1, x)
  {}

  lemma DropFunction(mmio: seq<IoRegion>, fns: seq<Function>, k: nat)
    requires k < |fns| && OthersOk(mmio, fns, k)
    ensures BusOk(mmio, fns[..k] + fns[k + 1..])
  {}
}
