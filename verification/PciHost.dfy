/** The PCI host bridge: the bus of `src/hw/pci/pci.c` together with the interrupt aggregation and the
    configuration ports of `src/hw/pci/pio_bridge.c`. */
module PciHost {
  import opened GuestMemory
  import opened Spans
  import opened AddressSpace
  import opened PowersOfTwo
  import PciConfig
  import Intx

  /** The same functions in the same order; the pin is the one in configuration space, and INTx is
      masked exactly by the disable bit in the command register. */
  ghost predicate Agree(fs: seq<PciConfig.Function>, gs: seq<Intx.Fn>) {
    |fs| == |gs| && forall k :: 0 <= k < |fs| ==> AgreeAt(fs[k], gs[k])
  }

  predicate AgreeAt(f: PciConfig.Function, g: Intx.Fn) {
    && PciConfig.Shaped(f) && f.devfn == g.devfn && g.pin == f.config[PciConfig.INTERRUPT_PIN]
    && g.masked == PciConfig.Masks(f.config)
  }

  /** Function `f` asserts line `p`: its endpoint level is up, the guest has not disabled INTx with bit 10 of the
      command register, and its pin, byte 0x3d, is routed there. */
  predicate Asserts(f: PciConfig.Function, level: bool, p: nat)
    requires PciConfig.Shaped(f)
  {
    var pin: nat := f.config[0x3d];
    1 <= pin <= 4 && level && f.config[5] / 4 % 2 == 0 && (f.devfn / 8 + pin - 1) % 4 == p
  }

  /** Where an access to the data port goes: device number and register, if the address latch selects
      bus 0. */
  function Target(address: nat, offset: nat): Option<(nat, nat)>
    requires 4 <= offset
  {
    if address / 0x8000_0000 % 2 == 0 || address / 0x1_0000 % 0x100 != 0 then None
    else Some((address / 0x100 % 0x100, address / 4 % 64 * 4 + (offset - 4)))
  }

  /** The value of the address latch: enable bit, bus, device and function, register. */
  function Latch(on: nat, bus: nat, devfn: nat, reg: nat): nat {
    0x8000_0000 * on + 0x1_0000 * bus + 0x100 * devfn + 4 * reg
  }

  /** A guest reaches byte `k` of a register with the enable bit, bus 0 and data port 4 + k; another bus, or the
      enable bit clear, is nothing. */
  lemma TargetRoundTrip(on: nat, bus: nat, devfn: nat, reg: nat, k: nat)
    requires on < 2 && bus < 256 && devfn < 256 && reg < 64 && k < 4
    ensures var at: nat := 4 * reg + k;
      Target(Latch(on, bus, devfn, reg), 4 + k) == if on == 1 && bus == 0 then Some((devfn, at)) else None
  {
    EnablePart(on, bus, devfn, reg);
    BusPart(on, bus, devfn, reg);
    DevicePart(on, bus, devfn, reg);
    RegisterPart(on, bus, devfn, reg);
  }

  lemma EnablePart(on: nat, bus: nat, devfn: nat, reg: nat)
    requires on < 2 && bus < 256 && devfn < 256 && reg < 64
    ensures Latch(on, bus, devfn, reg) / 0x8000_0000 % 2 == on
  {
    var rest := 0x1_0000 * bus + 0x100 * devfn + 4 * reg;
    assert rest < 0x8000_0000 && Latch(on, bus, devfn, reg) == 0x8000_0000 * on + rest;
  }

  lemma BusPart(on: nat, bus: nat, devfn: nat, reg: nat)
    requires on < 2 && bus < 256 && devfn < 256 && reg < 64
    ensures Latch(on, bus, devfn, reg) / 0x1_0000 % 0x100 == bus
  {
    var high, rest := 0x8000 * on + bus, 0x100 * devfn + 4 * reg;
    assert rest < 0x1_0000 && Latch(on, bus, devfn, reg) == 0x1_0000 * high + rest;
    assert high == 0x100 * (0x80 * on) + bus;
  }

  lemma DevicePart(on: nat, bus: nat, devfn: nat, reg: nat)
    requires on < 2 && bus < 256 && devfn < 256 && reg < 64
    ensures Latch(on, bus, devfn, reg) / 0x100 % 0x100 == devfn
  {
    var high := 0x80_0000 * on + 0x100 * bus + devfn;
    assert Latch(on, bus, devfn, reg) == 0x100 * high + 4 * reg;
    assert high == 0x100 * (0x8000 * on + bus) + devfn;
  }

  lemma RegisterPart(on: nat, bus: nat, devfn: nat, reg: nat)
    requires on < 2 && bus < 256 && devfn < 256 && reg < 64
    ensures Latch(on, bus, devfn, reg) / 4 % 64 == reg
  {
    var high := 0x800_0000 * on + 0x1000 * bus + 0x10 * devfn;
    assert Latch(on, bus, devfn, reg) == 4 * (4 * high + reg);
    assert 4 * high == 64 * (0x80_0000 * on + 0x100 * bus + devfn);
  }

  lemma UpdatedAgrees(fs: seq<PciConfig.Function>, fs': seq<PciConfig.Function>, gs: seq<Intx.Fn>, k: nat, g: Intx.Fn)
    requires Agree(fs, gs) && k < |fs| == |fs'| && (forall l :: 0 <= l < |fs| && l != k ==> fs'[l] == fs[l])
    requires AgreeAt(fs'[k], g)
    ensures Agree(fs', gs[k := g])
  {}

  class HostBridge {
    const bus: PciConfig.PciBus
    const intx: Intx.Bridge
    var address: nat

    ghost predicate Valid()
      reads this, bus, bus.vm, intx
    {
      bus.Valid() && intx.Valid() && Agree(bus.fns, intx.fns) && address < FOUR_GIB
    }

    /** What a guest and its interrupt controller may rely on: every line is up exactly while some
        function asserts it. */
    lemma LinesAreRight(p: nat)
      requires Valid() && p < 4
      ensures intx.lines[p] <==> exists k :: 0 <= k < |bus.fns| && Asserts(bus.fns[k], intx.fns[k].level, p)
    {
      forall k | 0 <= k < |bus.fns|
        ensures Asserts(bus.fns[k], intx.fns[k].level, p) <==> Intx.Drives(intx.fns[k], p)
      {
        assert AgreeAt(bus.fns[k], intx.fns[k]);
      }
      if intx.lines[p] {
        var k :| 0 <= k < |intx.fns| && Intx.Drives(intx.fns[k], p);
        assert Asserts(bus.fns[k], intx.fns[k].level, p);
      }
    }

    constructor (vm: Vm, low: nat, limit: nat)
      requires vm.Valid() && low <= limit <= FOUR_GIB
      ensures Valid() && fresh(bus) && fresh(intx) && bus.vm == vm && bus.fns == [] && address == 0
    {
      bus := new PciConfig.PciBus(vm, low, limit);
      intx := new Intx.Bridge();
      address := 0;
    }

    /** `pci_device_register_locked` */
    method Register(devfn: Option<nat>, config: seq<byte>, pin: byte, refused: Option<Intx.Error>)
      returns (error: Option<Intx.Error>)
      requires Valid() && |config| == PciConfig.CONFIG_SIZE && (devfn.Some? ==> devfn.value < 256)
      modifies bus`fns, intx`fns
      ensures Valid()
      ensures error.Some? ==> bus.fns == old(bus.fns) && intx.fns == old(intx.fns)
      ensures error.None? ==>
        && |intx.fns| == |old(intx.fns)| + 1
        && bus.fns == old(bus.fns) + [PciConfig.Newcomer(intx.fns[|bus.fns| - 1].devfn, config, pin)]
        && intx.fns[..|old(intx.fns)|] == old(intx.fns) && !intx.fns[|bus.fns| - 1].level
    {
      ghost var fs, gs := bus.fns, intx.fns;
      error := intx.Register(devfn, pin, PciConfig.Masks(config), refused);
      if error.None? {
        var g := intx.fns[|intx.fns| - 1];
        JoinedAgrees(fs, gs, intx.fns, g, config, pin);
        bus.AddFunction(g.devfn, config, pin);
      }
    }

    /** `pci_register_bar_locked`; the outcome is that of the bus. */
    method RegisterBar(k: nat, i: nat, size: nat, requested: Option<nat>, failed: bool) returns (o: Outcome)
      requires Valid() && k < |bus.fns| && size < FOUR_GIB && (requested.Some? ==> requested.value <= U64_MAX)
      modifies bus`fns, bus.vm`mmio, bus.vm`pio, bus.vm`nextId
      ensures Valid() && |bus.fns| == |old(bus.fns)| && (o.Err? ==> bus.fns == old(bus.fns))
      ensures PciConfig.Shaped(old(bus.fns)[k]) && (o.Err? ==> bus.vm.mmio == old(bus.vm.mmio))
      ensures o.Ok? ==> exists base: nat ::
        bus.vm.mmio == old(bus.vm.mmio)
                       + [PciConfig.BarRegion(old(bus.fns)[k], k, old(bus.vm.nextId), Span(base, size))]
      ensures PciConfig.BarOutcome(old(bus.fns)[k], i, size, requested, failed, old(bus.vm.mmio), bus.vm.ram, bus.low,
                                   bus.limit, o)
    {
      ghost var fs, id := bus.fns, bus.vm.nextId;
      assert PciConfig.FunctionOk(bus.vm.mmio, fs[k]);
      o := bus.RegisterBar(k, i, size, requested, failed);
      if o.Ok? {
        AttachedAgrees(fs, bus.fns, intx.fns, k, i, id);
      }
    }

    /** `pci_bus_write_config_locked` with the interrupt level reported again after command writes:
        whatever a guest writes, the lines keep following its INTx disable bits. */
    method WriteConfig(devfn: nat, off: nat, val: nat, size: nat) returns (k: nat)
      requires Valid() && val < FOUR_GIB
      modifies bus`fns, bus.vm`mmio, intx
      ensures Valid() && |bus.fns| == |old(bus.fns)| == |intx.fns|
      ensures k == |bus.fns| <==>
        !PciConfig.WellFormed(off, size) || off >= 0x40 || PciConfig.Absent(old(bus.fns), devfn)
      ensures k >= |bus.fns| ==> bus.fns == old(bus.fns) && bus.vm.mmio == old(bus.vm.mmio) && intx.fns == old(intx.fns)
      ensures k < |bus.fns| ==>
        (old(bus.fns)[k].devfn == devfn && PciConfig.WellFormed(off, size) && off < 0x40
         && PciConfig.Written(old(bus.vm.Now()), old(bus.fns), k, off, val, size, bus.vm.mmio, bus.fns)
         && PciConfig.Shaped(bus.fns[k])
         && intx.fns == old(intx.fns)[k := old(intx.fns)[k].(masked := PciConfig.Masks(bus.fns[k].config))])
    {
      ghost var v, fs, gs := bus.vm.Now(), bus.fns, intx.fns;
      k := bus.WriteConfig(devfn, off, val, size);
      if k < |bus.fns| {
        PciConfig.MaskChanges(v, fs, k, off, val, size, bus.vm.mmio, bus.fns);
        var masked := PciConfig.Masks(bus.fns[k].config);
        assert AgreeAt(fs[k], gs[k]);
        UpdatedAgrees(fs, bus.fns, gs, k, gs[k].(masked := masked));
        if off < 6 && off + size > 4 {
          intx.SetMask(k, masked);
        } else {
          assert gs == gs[k := gs[k].(masked := masked)];
        }
      }
    }

    /** `pci_device_set_irq_locked` */
    method SetIrq(k: nat, level: bool)
      requires Valid() && k < |bus.fns|
      modifies intx
      ensures Valid() && intx.fns == old(intx.fns)[k := old(intx.fns)[k].(level := level)]
    {
      assert AgreeAt(bus.fns[k], intx.fns[k]);
      UpdatedAgrees(bus.fns, bus.fns, intx.fns, k, intx.fns[k].(level := level));
      intx.SetIrq(k, level);
    }

    /** A removed device: its regions go, and its contribution to the lines. */
    method Remove(k: nat)
      requires Valid() && k < |bus.fns|
      modifies bus`fns, bus.vm`mmio, intx
      ensures Valid() && bus.fns == old(bus.fns)[..k] + old(bus.fns)[k + 1..]
      ensures intx.fns == old(intx.fns)[..k] + old(intx.fns)[k + 1..]
      ensures PciConfig.Lost(old(bus.vm.mmio), bus.vm.mmio, old(bus.fns)[k])
    {
      RemovedAgrees(bus.fns, intx.fns, k);
      intx.Remove(k);
      bus.Remove(k);
    }

    /** `pio_bridge_read` on the eight ports: the latch, the register that it selects, or all ones. */
    method PortRead(offset: nat, size: nat, own: Option<nat>) returns (val: nat)
      requires Valid() && offset < 8
      ensures offset == 0 ==> val == if size == 4 then address else U64_MAX
      ensures 0 < offset < 4 || (offset >= 4 && Target(address, offset).None?) ==> val == U64_MAX
      ensures offset >= 4 && Target(address, offset).Some? ==>
        var t := Target(address, offset).value;
        && (!PciConfig.WellFormed(t.1, size) || PciConfig.Absent(bus.fns, t.0) ==> val == FOUR_GIB - 1)
        && (PciConfig.WellFormed(t.1, size) ==>
              forall k :: 0 <= k < |bus.fns| && bus.fns[k].devfn == t.0 ==>
                val == if t.1 >= 0x40 && own.Some? then own.value
                       else FromLe(PciConfig.BytesShown(bus.vm.mmio, bus.fns[k], t.1, size)))
    {
      val := U64_MAX;
      if offset == 0 {
        if size == 4 {
          val := address;
        }
      } else if offset >= 4 {
        var t := Target(address, offset);
        if t.Some? {
          val := bus.ReadConfig(t.value.0, t.value.1, size, own);
        }
      }
    }

    /** `pio_bridge_write` on the eight ports. A 32-bit write of port 0 is latched and a write of the data
        ports is the configuration write that the latch selects; nothing else happens. */
    method PortWrite(offset: nat, val: nat, size: nat) returns (k: nat)
      requires Valid() && offset < 8 && val < FOUR_GIB
      modifies this`address, bus`fns, bus.vm`mmio, intx
      ensures Valid() && address == (if offset == 0 && size == 4 then val else old(address))
      ensures |bus.fns| == |old(bus.fns)|
      ensures offset < 4 || Target(old(address), offset).None? ==>
        k == |bus.fns|
      ensures k >= |bus.fns| ==> bus.fns == old(bus.fns) && bus.vm.mmio == old(bus.vm.mmio) && intx.fns == old(intx.fns)
      ensures offset >= 4 && Target(old(address), offset).Some? ==>
        var t := Target(old(address), offset).value;
        (k == |bus.fns| <==> !PciConfig.WellFormed(t.1, size) || t.1 >= 0x40 || PciConfig.Absent(old(bus.fns), t.0))
      ensures k < |bus.fns| ==>
        (offset >= 4 && Target(old(address), offset).Some? && var t := Target(old(address), offset).value;
         old(bus.fns)[k].devfn == t.0 && PciConfig.WellFormed(t.1, size) && t.1 < 0x40
         && PciConfig.Written(old(bus.vm.Now()), old(bus.fns), k, t.1, val, size, bus.vm.mmio, bus.fns)
         && PciConfig.Shaped(bus.fns[k])
         && intx.fns == old(intx.fns)[k := old(intx.fns)[k].(masked := PciConfig.Masks(bus.fns[k].config))])
    {
      k := |bus.fns|;
      if offset == 0 {
        if size == 4 {
          address := val;
        }
      } else if offset >= 4 {
        var t := Target(address, offset);
        if t.Some? {
          k := WriteConfig(t.value.0, t.value.1, val, size);
        }
      }
    }
  }

  /** A new BAR changes neither pin nor mask. */
  lemma AttachedAgrees(fs: seq<PciConfig.Function>, fs': seq<PciConfig.Function>, gs: seq<Intx.Fn>, k: nat, i: nat,
                       id: nat)
    requires Agree(fs, gs) && k < |fs| && i < PciConfig.BARS && PciConfig.Shaped(fs[k])
    requires exists base: nat :: base < FOUR_GIB && fs' == fs[k := PciConfig.Attached(fs[k], i, id, base)]
    ensures Agree(fs', gs)
  {
    assert AgreeAt(fs[k], gs[k]);
    assert AgreeAt(fs'[k], gs[k]);
    UpdatedAgrees(fs, fs', gs, k, gs[k]);
    assert gs[k := gs[k]] == gs;
  }

  /** A newcomer agrees, and its number is new on the bus too. */
  lemma JoinedAgrees(fs: seq<PciConfig.Function>, gs: seq<Intx.Fn>, gs': seq<Intx.Fn>, g: Intx.Fn, config: seq<byte>,
                     pin: byte)
    requires Agree(fs, gs) && gs' == gs + [g] && Intx.Registered(gs') && |config| == PciConfig.CONFIG_SIZE
    requires g.pin == pin && g.masked == PciConfig.Masks(config)
    ensures Agree(fs + [PciConfig.Newcomer(g.devfn, config, pin)], gs')
    ensures g.devfn < 256 && forall k :: 0 <= k < |fs| ==> fs[k].devfn != g.devfn
  {
    assert gs'[|gs|] == g;
    forall k | 0 <= k < |fs|
      ensures fs[k].devfn != g.devfn
    {
      assert AgreeAt(fs[k], gs[k]) && gs'[k] == gs[k];
    }
  }

  lemma RemovedAgrees(fs: seq<PciConfig.Function>, gs: seq<Intx.Fn>, k: nat)
    requires Agree(fs, gs) && k < |fs|
    ensures Agree(fs[..k] + fs[k + 1..], gs[..k] + gs[k + 1..])
  {}
}
