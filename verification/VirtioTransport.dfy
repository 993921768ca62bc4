/** The two register front ends, `src/hw/virtio/virtio_mmio.c` and `src/hw/virtio/virtio_pci.c`: queue
    registers, enabling, status writes and the interrupt line. Each queue is held by the settings
    that `Virtqueue` proves its configuration methods to follow. */
module VirtioTransport {
  import opened GuestMemory
  import opened PowersOfTwo
  import opened Virtqueues
  import opened VirtioStatus

  const WORD: nat := 0x1_0000_0000

  /** The registers of one queue as the driver last wrote them. */
  datatype Latch = Latch(num: nat, descLo: nat, descHi: nat, availLo: nat, availHi: nat, usedLo: nat, usedHi: nat)

  const Blank := Latch(0, 0, 0, 0, 0, 0, 0)

  function RingsOf(l: Latch): Rings {
    Rings(l.descHi * WORD + l.descLo, l.availHi * WORD + l.availLo, l.usedHi * WORD + l.usedLo)
  }

  datatype Field = Num | DescLo | DescHi | AvailLo | AvailHi | UsedLo | UsedHi

  function Latched(l: Latch, f: Field, val: nat): Latch {
    match f
    case Num => l.(num := val)
    case DescLo => l.(descLo := val)
    case DescHi => l.(descHi := val)
    case AvailLo => l.(availLo := val)
    case AvailHi => l.(availHi := val)
    case UsedLo => l.(usedLo := val)
    case UsedHi => l.(usedHi := val)
  }

  /** Writing the halves of three 64-bit addresses latches exactly those rings. */
  lemma AddressRoundTrip(l: Latch, desc: nat, avail: nat, used: nat)
    ensures var m := Latched(Latched(Latched(Latched(Latched(Latched(l,
      DescLo, desc % 0x1_0000_0000), DescHi, desc / 0x1_0000_0000),
      AvailLo, avail % 0x1_0000_0000), AvailHi, avail / 0x1_0000_0000),
      UsedLo, used % 0x1_0000_0000), UsedHi, used / 0x1_0000_0000);
      RingsOf(m) == Rings(desc, avail, used) && m.num == l.num
  {}

  /** The flag shows whether the queue is enabled, and an enabled queue runs with what is latched. */
  predicate Agrees(flag: bool, l: Latch, q: Config) {
    q.max < 0x1_0000 && flag == q.enabled && (flag ==> q.size == l.num && q.rings == RingsOf(l))
  }

  /** The latched size is accepted and the latched rings map. */
  predicate CanActivate(rs: seq<Region>, l: Latch, q: Config) {
    CanResize(q, l.num) && CanMap(rs, q.(size := l.num), RingsOf(l))
  }

  ghost predicate AllAgree(flags: seq<bool>, ls: seq<Latch>, qs: seq<Config>) {
    && |qs| <= |ls| == |flags|
    && forall i :: 0 <= i < |qs| ==> Agrees(flags[i], ls[i], qs[i])
  }

  /** The loop of `virtio_device_set_status_locked` over the queues. */
  method ResetQueues(qs: seq<Config>) returns (rs: seq<Config>)
    ensures |rs| == |qs| && (forall i :: 0 <= i < |qs| ==> rs[i] == Fresh(qs[i])) && rs == AllFresh(qs)
  {
    rs := qs;
    for i := 0 to |qs|
      invariant |rs| == |qs|
      invariant forall j :: 0 <= j < |qs| ==> rs[j] == if j < i then Fresh(qs[j]) else qs[j]
    {
      rs := rs[i := Fresh(qs[i])];
    }
  }

  /** A queue after the attempt to enable it: a queue that is enabled stays as it is, and a refusal of the
      rings leaves the size that was accepted before. */
  function Activated(rs: seq<Region>, l: Latch, q: Config): Config {
    if q.enabled then q
    else if CanActivate(rs, l, q) then Config(q.max, l.num, true, RingsOf(l))
    else Resized(q, l.num)
  }

  /** Enabling: the latched size must be accepted, then the latched rings must map. */
  method Activate(rs: seq<Region>, l: Latch, q: Config) returns (ok: bool, q': Config)
    requires !q.enabled && q.max < 0x1_0000
    ensures ok <==> CanActivate(rs, l, q)
    ensures q' == Activated(rs, l, q)
  {
    if l.num > 0xffff || !CanResize(q, l.num) {
      return false, q;
    }
    q' := Resized(q, l.num);
    ok := CanMap(rs, q', RingsOf(l));
    q' := Mapping(rs, q', RingsOf(l));
  }

  /** What a queue notification leads to: an interrupt, or the device asking for a reset. */
  datatype Outcome = Outcome(irq: bool, fail: bool)

  /** The registers that must show the queues, and the queues. */
  datatype Regs = Regs(ready: seq<bool>, latches: seq<Latch>, queues: seq<Config>)

  /** A write of the MMIO status register: the device takes the low byte, and resets its queues when
      that is zero; the transport clears its own registers when the whole value is zero. */
  function StatusWritten(r: Regs, val: bv32): Regs {
    Regs(if val == 0 then seq(|r.ready|, i => false) else r.ready,
         if val == 0 then seq(|r.latches|, i => Blank) else r.latches,
         if val & 0xff == 0 then AllFresh(r.queues) else r.queues)
  }

  function AllFresh(qs: seq<Config>): (fs: seq<Config>)
    ensures |fs| == |qs| && forall i :: 0 <= i < |qs| ==> fs[i] == Fresh(qs[i])
  {
    if qs == [] then [] else [Fresh(qs[0])] + AllFresh(qs[1..])
  }

  ghost predicate Shown(r: Regs) {
    AllAgree(r.ready, r.latches, r.queues)
  }

  /** The flags still show the queues after a status write exactly when the two tests agree or no queue
      was enabled. */
  lemma StatusShows(r: Regs, val: bv32)
    requires Shown(r)
    ensures Shown(StatusWritten(r, val)) <==>
      val == 0 || val & 0xff != 0 || forall i :: 0 <= i < |r.queues| ==> !r.queues[i].enabled
  {
    var t := StatusWritten(r, val);
    if val != 0 && val & 0xff == 0 && exists i :: 0 <= i < |r.queues| && r.queues[i].enabled {
      var i :| 0 <= i < |r.queues| && r.queues[i].enabled;
      assert Agrees(r.ready[i], r.latches[i], r.queues[i]);
      assert !Agrees(t.ready[i], t.latches[i], t.queues[i]);
    }
  }

  /** The value 0x100 leaves the flag of every enabled queue up while the queue is off. */
  lemma WideStatusDisagrees(r: Regs, i: nat)
    requires Shown(r) && i < |r.queues| && r.queues[i].enabled
    ensures var t := StatusWritten(r, 0x100); t.ready[i] && !t.queues[i].enabled && !Shown(t)
  {
    StatusShows(r, 0x100);
    assert Agrees(r.ready[i], r.latches[i], r.queues[i]);
  }

  /** The interrupt bits after a notification. */
  function Raised(interrupts: bv32, o: Outcome): bv32 {
    var failed := if o.fail then interrupts | 2 else interrupts;
    if o.irq then failed | 1 else failed
  }

  class Mmio {
    const rs: seq<Region>
    const offered: Features
    var dev: Dev
    var queues: seq<Config>
    var featureSel: bv32
    var queueSel: nat
    var interrupts: bv32
    var latches: seq<Latch>
    var ready: seq<bool>
    var line: bool
    /** The queue interrupt is not acknowledged. */
    ghost var pending: bool

    ghost predicate Valid()
      reads this
    {
      InOrder(dev, offered) && AllAgree(ready, latches, queues) && Wired()
    }

    /** The line is up exactly while an interrupt is unacknowledged. */
    ghost predicate Wired()
      reads this
    {
      (line <==> interrupts != 0) && (pending <==> interrupts & 1 != 0)
    }

    constructor (rs: seq<Region>, offered: Features, queues: seq<Config>, max: nat)
      requires |queues| <= max && forall i :: 0 <= i < |queues| ==> !queues[i].enabled && queues[i].max < 0x1_0000
      ensures Valid() && this.queues == queues && this.rs == rs && this.offered == offered
      ensures dev == Reset && !pending
    {
      this.rs, this.offered, this.queues := rs, offered, queues;
      dev, featureSel, queueSel, interrupts, line, pending := Reset, 0, 0, 0, false, false;
      latches, ready := seq(max, i => Blank), seq(max, i => false);
    }

    method SelectQueue(val: nat)
      requires Valid()
      modifies this`queueSel
      ensures Valid() && queueSel == val
    {
      queueSel := val;
    }

    method SelectFeatures(val: bv32)
      requires Valid()
      modifies this`featureSel
      ensures Valid() && featureSel == val
    {
      featureSel := val;
    }

    /** A write to a queue register: ignored while the queue is ready. */
    method WriteQueueField(f: Field, val: nat)
      requires Valid()
      modifies this`latches
      ensures Valid()
      ensures latches == if queueSel < |queues| && !ready[queueSel]
                         then old(latches)[queueSel := Latched(old(latches)[queueSel], f, val)] else old(latches)
    {
      if queueSel < |queues| && !ready[queueSel] {
        latches := latches[queueSel := Latched(latches[queueSel], f, val)];
      }
    }

    /** `VIRTIO_MMIO_QUEUE_READY` */
    method WriteReady(val: nat)
      requires Valid()
      modifies this`ready, this`queues
      ensures Valid() && |queues| == |old(queues)|
      ensures forall i :: 0 <= i < |queues| && i != queueSel ==> queues[i] == old(queues)[i]
      ensures queueSel < |queues| && val == 0 ==> queues[queueSel] == old(queues)[queueSel].(enabled := false)
      ensures queueSel < |queues| && val == 1 ==>
        queues[queueSel] == Activated(rs, latches[queueSel], old(queues)[queueSel])
      ensures val > 1 ==> queues == old(queues)
    {
      if queueSel < |queues| && val == 0 {
        queues := queues[queueSel := queues[queueSel].(enabled := false)];
        ready := ready[queueSel := false];
      }
      if queueSel < |queues| && !ready[queueSel] && val == 1 {
        var ok, q := Activate(rs, latches[queueSel], queues[queueSel]);
        queues := queues[queueSel := q];
        if ok {
          ready := ready[queueSel := true];
        }
      }
    }

    ghost function Registers(): Regs
      reads this
    {
      Regs(ready, latches, queues)
    }

    /** `VIRTIO_MMIO_STATUS` */
    method WriteStatus(val: bv32)
      requires Valid()
      modifies this
      ensures InOrder(dev, offered) && Wired() && dev == SetStatus(old(dev), offered, (val & 0xff) as bv8)
      ensures Registers() == StatusWritten(old(Registers()), val)
      ensures Valid() <==> val == 0 || val & 0xff != 0 || forall i :: 0 <= i < |old(queues)| ==> !old(queues)[i].enabled
      ensures val == 0 ==> interrupts == 0 && !pending && featureSel == 0 && queueSel == 0
      ensures val != 0 ==> pending == old(pending) && interrupts == old(interrupts)
      ensures val != 0 ==> featureSel == old(featureSel) && queueSel == old(queueSel)
    {
      var low := (val & 0xff) as bv8;
      InOrderStep(dev, offered, VirtioStatus.WriteStatus(low));
      LowByte(val);
      StatusShows(Registers(), val);
      dev := SetStatus(dev, offered, low);
      if low == 0 {
        queues := ResetQueues(queues);
      }
      if val == 0 {
        ClearRegisters();
      }
    }

    method ClearRegisters()
      modifies this`featureSel, this`queueSel, this`interrupts, this`line, this`pending, this`latches, this`ready
      ensures featureSel == 0 && queueSel == 0 && interrupts == 0 && !line && !pending
      ensures latches == seq(|old(latches)|, i => Blank) && ready == seq(|old(ready)|, i => false)
    {
      featureSel, queueSel, interrupts, line, pending := 0, 0, 0, false, false;
      latches, ready := seq(|latches|, i => Blank), seq(|ready|, i => false);
    }

    method WriteFeatures(val: bv32)
      requires Valid()
      modifies this`dev
      ensures Valid() && dev == SetFeatures(old(dev), featureSel, val)
    {
      InOrderStep(dev, offered, VirtioStatus.WriteFeatures(featureSel, val));
      dev := SetFeatures(dev, featureSel, val);
    }

    /** `VIRTIO_MMIO_INTERRUPT_ACK` */
    method Acknowledge(val: bv32)
      requires Valid()
      modifies this`interrupts, this`line, this`pending
      ensures Valid() && interrupts == old(interrupts) & !val && (pending <==> old(pending) && val & 1 == 0)
    {
      interrupts := interrupts & !val;
      pending := interrupts & 1 != 0;
      if interrupts == 0 {
        line := false;
      }
    }

    /** `VIRTIO_MMIO_QUEUE_NOTIFY`; `o` is what the device's handler did. */
    method Notify(val: nat, o: Outcome)
      requires Valid()
      modifies this`dev, this`interrupts, this`line, this`pending
      ensures Valid()
      ensures if val < |queues| && queues[val].enabled && Ready(old(dev))
              then dev == (if o.fail then Fail(old(dev)) else old(dev)) && interrupts == Raised(old(interrupts), o)
              else dev == old(dev) && interrupts == old(interrupts)
      ensures pending <==> old(pending) || (val < |queues| && queues[val].enabled && Ready(old(dev)) && o.irq)
    {
      if val < |queues| && ready[val] && Ready(dev) {
        if o.fail {
          FailDevice();
        }
        if o.irq {
          Raise(1);
        }
      }
    }

    /** `virtio_device_fail_locked` with the configuration interrupt. */
    method FailDevice()
      requires Valid()
      modifies this`dev, this`interrupts, this`line, this`pending
      ensures Valid() && dev == Fail(old(dev)) && pending == old(pending)
      ensures interrupts == if Ready(old(dev)) || VirtioStatus.Has(old(dev).status, DRIVER_OK) then old(interrupts) | 2
                            else old(interrupts)
    {
      InOrderStep(dev, offered, DeviceFails);
      FailKeepsDriver(dev);
      dev := Fail(dev);
      if VirtioStatus.Has(dev.status, DRIVER_OK) {
        Raise(2);
      }
    }

    method Raise(bit: bv32)
      requires Wired() && bit != 0
      modifies this`interrupts, this`line, this`pending
      ensures Wired() && interrupts == old(interrupts) | bit && (pending <==> old(pending) || bit & 1 != 0)
    {
      interrupts := interrupts | bit;
      pending := interrupts & 1 != 0;
      line := true;
    }
  }

  function RaisedIsr(isr: bv8, o: Outcome): bv8 {
    var failed := if o.fail then isr | 2 else isr;
    if o.irq then failed | 1 else failed
  }

  /** A failing device keeps DRIVER_OK, and a ready one has it. */
  lemma FailKeepsDriver(d: Dev)
    ensures VirtioStatus.Has(Fail(d).status, DRIVER_OK) <==> VirtioStatus.Has(d.status, DRIVER_OK)
    ensures Ready(d) ==> VirtioStatus.Has(d.status, DRIVER_OK)
  {}

  lemma LowByte(val: bv32)
    ensures (val & 0xff) as bv8 == 0 <==> val & 0xff == 0
  {}

  // ----- PCI

  /** Address fields of the queue block, by byte offset. */
  function AddressField(off: nat): Field {
    if off < 12 then DescLo else if off < 16 then DescHi
    else if off < 20 then AvailLo else if off < 24 then AvailHi
    else if off < 28 then UsedLo else UsedHi
  }

  /** An address write to the queue block, 32 or 64 bits wide. */
  function AddressWrite(l: Latch, off: nat, size: nat, val: nat): Latch {
    if size == 4 then Latched(l, AddressField(off), val)
    else Latched(Latched(l, AddressField(off), val % WORD), AddressField(off + 4), val / WORD)
  }

  /** Three 64-bit writes, or six 32-bit ones, latch exactly those rings. */
  lemma AddressWritesLatch(l: Latch, desc: nat, avail: nat, used: nat)
    ensures var m := AddressWrite(AddressWrite(AddressWrite(l, 8, 8, desc), 16, 8, avail), 24, 8, used);
      RingsOf(m) == Rings(desc, avail, used)
    ensures RingsOf(Halves(Halves(Halves(l, 8, desc), 16, avail), 24, used)) == Rings(desc, avail, used)
  {}

  /** An address written as two 32-bit halves. */
  function Halves(l: Latch, off: nat, address: nat): Latch {
    AddressWrite(AddressWrite(l, off, 4, address % 0x1_0000_0000), off + 4, 4, address / 0x1_0000_0000)
  }

  /** Access widths that the queue block accepts: 16-bit control fields, 32- or 64-bit addresses. */
  predicate Permitted(off: nat, size: nat) {
    && off + size <= 32
    && if off < 8 then size == 2 && off % 2 == 0 else (size == 4 && off % 4 == 0) || (size == 8 && off % 8 == 0)
  }

  /** Size, vector, enable and notify register at 0, 2, 4 and 6, then three 64-bit addresses or their halves. */
  lemma PermittedTable(off: nat, size: nat)
    ensures Permitted(off, size) <==>
      || (size == 2 && off in {0, 2, 4, 6}) || (size == 4 && off in {8, 12, 16, 20, 24, 28})
      || (size == 8 && off in {8, 16, 24})
  {}

  /** What a permitted write does to the registers and the settings of a queue that is not enabled: the
      size register takes only sizes that the queue accepts, writing 1 to the enable register enables
      the queue exactly when that is possible, the vector and notify registers take nothing. */
  predicate QueueWritten(rs: seq<Region>, l: Latch, q: Config, off: nat, size: nat, val: nat, l': Latch, q': Config) {
    if off == 0 then l' == (if PowerOfTwo(val) && val <= q.max then l.(num := val) else l) && q' == q
    else if off == 4 && val == 1 then
      l' == l && q' == Activated(rs, l, q)
    else if off >= 8 then l' == AddressWrite(l, off, size, val) && q' == q
    else l' == l && q' == q
  }

  class Pci {
    const rs: seq<Region>
    const offered: Features
    var dev: Dev
    var queues: seq<Config>
    var featureSel: bv32
    var queueSel: nat
    var isr: bv8
    var latches: seq<Latch>
    var enabled: seq<bool>
    /** The level that the function asserts. */
    var level: bool

    ghost predicate Valid()
      reads this
    {
      InOrder(dev, offered) && AllAgree(enabled, latches, queues) && Wired()
    }

    ghost predicate Wired()
      reads this
    {
      level <==> isr != 0
    }

    constructor (rs: seq<Region>, offered: Features, queues: seq<Config>, max: nat)
      requires |queues| <= max && forall i :: 0 <= i < |queues| ==> !queues[i].enabled && queues[i].max < 0x1_0000
      ensures Valid() && this.queues == queues && this.rs == rs && this.offered == offered
      ensures dev == Reset && isr == 0
    {
      this.rs, this.offered, this.queues := rs, offered, queues;
      dev, featureSel, queueSel, isr, level := Reset, 0, 0, 0, false;
      latches := seq(max, i requires 0 <= i => if i < |queues| then Blank.(num := queues[i].max) else Blank);
      enabled := seq(max, i => false);
    }

    method SelectQueue(val: nat)
      requires Valid()
      modifies this`queueSel
      ensures Valid() && queueSel == val
    {
      queueSel := val;
    }

    method SelectFeatures(val: bv32)
      requires Valid()
      modifies this`featureSel
      ensures Valid() && featureSel == val
    {
      featureSel := val;
    }

    /** A write to the queue block: ignored once the queue is enabled. */
    method WriteQueue(off: nat, size: nat, val: nat)
      requires Valid()
      modifies this`latches, this`enabled, this`queues
      ensures Valid() && |queues| == |old(queues)|
      ensures forall i :: 0 <= i < |queues| && i != queueSel ==> queues[i] == old(queues)[i]
      ensures if queueSel < |queues| && !old(queues)[queueSel].enabled && Permitted(off, size)
              then QueueWritten(rs, old(latches)[queueSel], old(queues)[queueSel], off, size, val,
                                latches[queueSel], queues[queueSel])
                   && latches == old(latches)[queueSel := latches[queueSel]]
              else queues == old(queues) && latches == old(latches)
    {
      if queueSel >= |queues| || !Permitted(off, size) || enabled[queueSel] || off == 6 || off == 2 {
        return;
      }
      if off == 0 {
        if val > 0 && PowerOfTwo(val) && val <= queues[queueSel].max {
          latches := latches[queueSel := latches[queueSel].(num := val)];
        }
      } else if off == 4 {
        if val == 1 {
          var ok, q := Activate(rs, latches[queueSel], queues[queueSel]);
          queues := queues[queueSel := q];
          if ok {
            enabled := enabled[queueSel := true];
          }
        }
      } else {
        latches := latches[queueSel := AddressWrite(latches[queueSel], off, size, val)];
      }
    }

    /** The one-byte status register. */
    method WriteStatus(val: bv8)
      requires Valid()
      modifies this
      ensures Valid() && dev == SetStatus(old(dev), offered, val) && |queues| == |old(queues)|
      ensures val == 0 ==> isr == 0 && featureSel == 0 && queueSel == 0 && |latches| == |old(latches)|
      ensures val == 0 ==> forall i :: 0 <= i < |queues| ==>
        queues[i] == Fresh(old(queues)[i]) && latches[i] == Blank.(num := queues[i].max)
      ensures val != 0 ==> queues == old(queues) && latches == old(latches) && isr == old(isr)
    {
      InOrderStep(dev, offered, VirtioStatus.WriteStatus(val));
      dev := SetStatus(dev, offered, val);
      if val == 0 {
        queues := ResetQueues(queues);
        featureSel, queueSel, isr, level := 0, 0, 0, false;
        latches := DefaultLatches(queues, |latches|);
        enabled := seq(|enabled|, i => false);
      }
    }

    method WriteFeatures(val: bv32)
      requires Valid()
      modifies this`dev
      ensures Valid() && dev == SetFeatures(old(dev), featureSel, val)
    {
      InOrderStep(dev, offered, VirtioStatus.WriteFeatures(featureSel, val));
      dev := SetFeatures(dev, featureSel, val);
    }

    /** The interrupt status register: reading it returns and clears it and drops the level. */
    method ReadIsr() returns (val: bv8)
      requires Valid()
      modifies this`isr, this`level
      ensures Valid() && val == old(isr) && isr == 0 && !level
    {
      val := isr;
      isr, level := 0, false;
    }

    /** The notification register; `o` is what the device's handler did. */
    method Notify(q: nat, o: Outcome)
      requires Valid()
      modifies this`dev, this`isr, this`level
      ensures Valid()
      ensures if q < |queues| && queues[q].enabled && Ready(old(dev))
              then dev == (if o.fail then Fail(old(dev)) else old(dev)) && isr == RaisedIsr(old(isr), o)
              else dev == old(dev) && isr == old(isr)
    {
      if q < |queues| && enabled[q] && Ready(dev) {
        if o.fail {
          FailDevice();
        }
        if o.irq {
          Raise(1);
        }
      }
    }

    method FailDevice()
      requires Valid()
      modifies this`dev, this`isr, this`level
      ensures Valid() && dev == Fail(old(dev))
      ensures isr == if Ready(old(dev)) || VirtioStatus.Has(old(dev).status, DRIVER_OK) then old(isr) | 2 else old(isr)
    {
      InOrderStep(dev, offered, DeviceFails);
      FailKeepsDriver(dev);
      dev := Fail(dev);
      if VirtioStatus.Has(dev.status, DRIVER_OK) {
        Raise(2);
      }
    }

    method Raise(bit: bv8)
      requires Wired() && bit != 0
      modifies this`isr, this`level
      ensures Wired() && isr == old(isr) | bit
    {
      isr := isr | bit;
      level := true;
    }
  }

  /** After a reset each size register offers the maximum. */
  method DefaultLatches(qs: seq<Config>, max: nat) returns (ls: seq<Latch>)
    requires |qs| <= max
    ensures |ls| == max && forall i :: 0 <= i < |qs| ==> ls[i] == Blank.(num := qs[i].max)
  {
    ls := seq(max, i => Blank);
    for i := 0 to |qs|
      invariant |ls| == max && forall j :: 0 <= j < i ==> ls[j] == Blank.(num := qs[j].max)
    {
      ls := ls[i := Blank.(num := qs[i].max)];
    }
  }

  // ----- a driver brings up a queue

  /** The queue that the driver asked for. */
  function Asked(max: nat, num: nat, desc: nat, avail: nat, used: nat): Config {
    Config(max, num, true, Rings(desc, avail, used))
  }

  /** The size is a power of two up to the maximum, and the rings are aligned and wholly in RAM. */
  predicate Good(rs: seq<Region>, max: nat, num: nat, desc: nat, avail: nat, used: nat) {
    && PowerOfTwo(num) && num <= max && desc % 16 == 0 && avail % 2 == 0 && used % 4 == 0
    && RingsFit(rs, num, Rings(desc, avail, used))
  }

  /** The queue is as asked if it may be, and off otherwise. */
  predicate BroughtUp(rs: seq<Region>, max: nat, num: nat, desc: nat, avail: nat, used: nat, q: Config, shown: bool) {
    if Good(rs, max, num, desc, avail, used) then q == Asked(max, num, desc, avail, used) && shown
    else !q.enabled && !shown
  }

  /** The latches that a driver leaves. */
  predicate Filled(l: Latch, num: nat, desc: nat, avail: nat, used: nat) {
    l.num == num && RingsOf(l) == Rings(desc, avail, used)
  }

  /** What enabling does with them. */
  lemma FilledActivates(rs: seq<Region>, l: Latch, q: Config, num: nat, desc: nat, avail: nat, used: nat)
    requires Filled(l, num, desc, avail, used) && !q.enabled
    ensures BroughtUp(rs, q.max, num, desc, avail, used, Activated(rs, l, q), Activated(rs, l, q).enabled)
  {}

  method WriteHalves(p: Mmio, lo: Field, hi: Field, address: nat)
    requires p.Valid() && p.queueSel < |p.queues| && !p.ready[p.queueSel]
    modifies p`latches
    ensures p.Valid() && |p.latches| == |old(p.latches)|
    ensures p.latches[p.queueSel] ==
      Latched(Latched(old(p.latches)[p.queueSel], lo, address % 0x1_0000_0000), hi, address / 0x1_0000_0000)
  {
    p.WriteQueueField(lo, address % 0x1_0000_0000);
    p.WriteQueueField(hi, address / 0x1_0000_0000);
  }

  method FillMmio(p: Mmio, num: nat, desc: nat, avail: nat, used: nat)
    requires p.Valid() && p.queueSel < |p.queues| && !p.ready[p.queueSel]
    modifies p`latches
    ensures p.Valid() && Filled(p.latches[p.queueSel], num, desc, avail, used)
  {
    p.WriteQueueField(Num, num);
    WriteHalves(p, DescLo, DescHi, desc);
    WriteHalves(p, AvailLo, AvailHi, avail);
    WriteHalves(p, UsedLo, UsedHi, used);
  }

  /** Over the MMIO registers: the queue runs exactly as asked, or stays off. */
  method BringUpMmio(p: Mmio, i: nat, num: nat, desc: nat, avail: nat, used: nat)
    requires p.Valid() && i < |p.queues| && !p.queues[i].enabled
    modifies p`queueSel, p`latches, p`ready, p`queues
    ensures p.Valid() && i < |p.queues| == |old(p.queues)|
    ensures BroughtUp(p.rs, old(p.queues)[i].max, num, desc, avail, used, p.queues[i], p.ready[i])
    ensures forall j :: 0 <= j < |p.queues| && j != i ==> p.queues[j] == old(p.queues)[j]
  {
    p.SelectQueue(i);
    assert Agrees(p.ready[i], p.latches[i], p.queues[i]);
    FillMmio(p, num, desc, avail, used);
    FilledActivates(p.rs, p.latches[i], p.queues[i], num, desc, avail, used);
    p.WriteReady(1);
    assert Agrees(p.ready[i], p.latches[i], p.queues[i]);
  }

  /** Over the PCI queue block, with 64-bit address writes: a size that the queue does not take leaves the one
      before. */
  method BringUpPci(p: Pci, i: nat, num: nat, desc: nat, avail: nat, used: nat)
    requires p.Valid() && i < |p.queues| && !p.queues[i].enabled
    modifies p`queueSel, p`latches, p`enabled, p`queues
    ensures p.Valid() && i < |p.queues| == |old(p.queues)|
    ensures var size := if PowerOfTwo(num) && num <= old(p.queues)[i].max then num else old(p.latches)[i].num;
      BroughtUp(p.rs, old(p.queues)[i].max, size, desc, avail, used, p.queues[i], p.enabled[i])
    ensures forall j :: 0 <= j < |p.queues| && j != i ==> p.queues[j] == old(p.queues)[j]
  {
    p.SelectQueue(i);
    FillPci(p, num, desc, avail, used);
    FilledActivates(p.rs, p.latches[i], p.queues[i], p.latches[i].num, desc, avail, used);
    p.WriteQueue(4, 2, 1);
    assert Agrees(p.enabled[i], p.latches[i], p.queues[i]);
  }

  method FillPci(p: Pci, num: nat, desc: nat, avail: nat, used: nat)
    requires p.Valid() && p.queueSel < |p.queues| && !p.queues[p.queueSel].enabled
    modifies p`latches, p`enabled, p`queues
    ensures p.Valid() && p.queues == old(p.queues)
    ensures var size := if PowerOfTwo(num) && num <= p.queues[p.queueSel].max then num
                        else old(p.latches)[p.queueSel].num;
      Filled(p.latches[p.queueSel], size, desc, avail, used)
  {
    p.WriteQueue(0, 2, num);
    assert p.queues == old(p.queues);
    p.WriteQueue(8, 8, desc);
    assert p.queues == old(p.queues);
    p.WriteQueue(16, 8, avail);
    assert p.queues == old(p.queues);
    p.WriteQueue(24, 8, used);
    assert p.queues == old(p.queues);
  }

  /** A status write of zero leaves every queue register zero and every queue off, with its maximum size. */
  lemma ResetClears(r: Regs, i: nat)
    requires i < |r.queues| && |r.queues| <= |r.latches| == |r.ready|
    ensures var t := StatusWritten(r, 0);
      && t.latches[i] == Latch(0, 0, 0, 0, 0, 0, 0) && !t.ready[i]
      && t.queues[i] == Config(r.queues[i].max, r.queues[i].max, false, Unmapped)
  {}
}
