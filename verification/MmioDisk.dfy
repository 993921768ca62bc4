/** A block device behind its MMIO registers: `src/hw/virtio/virtio_mmio.c` driving
    `src/hw/virtio/virtio_blk.c` and the queue of `src/hw/virtio/virtqueue.c`. */
module MmioDisk {
  import opened GuestMemory
  import PowersOfTwo
  import opened Virtqueues
  import opened VirtioStatus
  import opened QueueTurns
  import opened VirtioTransport
  import opened VirtioBlk

  /** What the transport hears from a handler: the used ring advanced, or the device asks for a reset. */
  function Heard<S, E>(turns: Turns<S, E>): VirtioTransport.Outcome {
    VirtioTransport.Outcome(Serves(turns), !GoesOn(turns) && turns.last.end != Drained)
  }

  /** Some chain was served. */
  predicate Serves<S, E>(turns: Turns<S, E>) {
    turns.Turned? && (turns.last.Serving? || turns.past.Turned?)
  }

  /** A handler serves something exactly when it pushes something, and its device changes only by failing. */
  lemma {:induction false} HeardIsDone<S, E>(rs: seq<Region>, c: Config, right: Turn<S, E> -> bool, s: Stand<S>,
                                             turns: Turns<S, E>)
    requires TurnsOk(rs, c, right, s, turns)
    ensures var e := After(turns, s);
      && (Serves(turns) <==> e.pushes > s.pushes) && s.pushes <= e.pushes
      && e.dev == if Heard(turns).fail then Fail(s.dev) else s.dev
  {
    if turns.NoTurn? {
    } else {
      LastTurn(rs, c, right, s, turns);
      HeardIsDone(rs, c, right, s, turns.past);
    }
  }

  lemma FailShows(d: Dev)
    requires Ready(d)
    ensures Fail(d) != d
  {}

  class MmioBlk {
    const port: Mmio
    const disk: BlkDevice
    /** The used elements that the driver knew of when it last acknowledged the queue interrupt. */
    ghost var seen: nat

    ghost predicate Valid()
      reads this, port, disk, disk.vq, disk.vq.ram
    {
      port.Valid() && disk.Valid() && Joined()
    }

    /** Registers and device are about the same queue and status, and an element that the driver does not
        know of has its interrupt bit set. */
    ghost predicate Joined()
      reads this, port, disk, disk.vq
    {
      && port.dev == disk.dev && port.rs == disk.vq.ram.regions
      && |port.queues| == 1 && port.queues[0] == disk.vq.Settings()
      && seen <= disk.vq.pushes && (seen < disk.vq.pushes ==> port.pending)
    }

    /** No completion is lost: while the driver does not know of a used element, the interrupt line is up. */
    lemma NothingMissed()
      requires Valid() && seen < disk.vq.pushes
      ensures port.line
    {}

    constructor (ram: RamSpace, size: nat, bytes: seq<byte>, backend: Backend, readonly: bool, canFlush: bool,
                 offered: Features, max: nat)
      requires ram.Valid() && PowersOfTwo.PowerOfTwo(size) && size < 0x1_0000 && |bytes| <= U64_MAX && max > 0
      ensures Valid() && fresh(port) && fresh(disk) && fresh(disk.vq) && disk.vq.ram == ram
      ensures disk.disk == bytes && disk.vq.pushes == 0
    {
      var vq := new Virtqueue(ram, size);
      var d := new BlkDevice(vq, bytes, backend, readonly, canFlush);
      port := new Mmio(ram.regions, offered, [vq.Settings()], max);
      disk, seen := d, 0;
    }

    /** `VIRTIO_MMIO_QUEUE_NOTIFY`: an enabled queue of a ready device is served as the handler serves it,
        and the interrupt bits and the line follow what it did. */
    method Kick(val: nat, guest: seq<Mem>) returns (ghost turns: Turns<Disk, Effect>)
      requires Valid()
      modifies port`dev, port`interrupts, port`line, port`pending, disk`disk, disk`dev, disk`calls, disk.vq.ram
      modifies disk.vq`bufs, disk.vq`broken, disk.vq`lastAvail, disk.vq`pops, disk.vq`lastUsed, disk.vq`pushes
      ensures Valid()
      ensures History(guest, old(disk.Now()), old(disk.vq.ram.mem), turns)
      ensures if val == 0 && old(port.ready[0]) && old(Ready(port.dev)) then Finished(guest, turns) else turns.NoTurn?
      ensures port.interrupts == Raised(old(port.interrupts), Heard(turns))
    {
      turns := NoTurn;
      if val < |port.queues| && port.ready[val] && Ready(port.dev) {
        turns := Deliver(guest);
      }
    }

    /** A notification that reaches the device. */
    method Deliver(guest: seq<Mem>) returns (ghost turns: Turns<Disk, Effect>)
      requires Valid() && port.ready[0] && Ready(port.dev)
      modifies port`dev, port`interrupts, port`line, port`pending, disk`disk, disk`dev, disk`calls, disk.vq.ram
      modifies disk.vq`bufs, disk.vq`broken, disk.vq`lastAvail, disk.vq`pops, disk.vq`lastUsed, disk.vq`pushes
      ensures Valid() && History(guest, old(disk.Now()), old(disk.vq.ram.mem), turns) && Finished(guest, turns)
      ensures port.interrupts == Raised(old(port.interrupts), Heard(turns))
    {
      var o;
      ghost var pushes := disk.vq.pushes;
      o, turns := Handle(guest);
      Tell(o, pushes);
    }

    /** The transport's part: it takes over the device status and raises the interrupts. */
    method Tell(o: VirtioTransport.Outcome, ghost pushes: nat)
      requires port.Valid() && disk.Valid() && port.rs == disk.vq.ram.regions
      requires |port.queues| == 1 && port.queues[0] == disk.vq.Settings() && port.ready[0] && Ready(port.dev)
      requires disk.dev == if o.fail then Fail(port.dev) else port.dev
      requires seen <= pushes <= disk.vq.pushes && (seen < pushes ==> port.pending)
      requires o.irq <==> pushes < disk.vq.pushes
      modifies port`dev, port`interrupts, port`line, port`pending
      ensures Valid() && port.interrupts == Raised(old(port.interrupts), o)
    {
      assert Agrees(port.ready[0], port.latches[0], port.queues[0]);
      port.Notify(0, o);
    }

    /** The handler's part of a notification. */
    method Handle(guest: seq<Mem>) returns (o: VirtioTransport.Outcome, ghost turns: Turns<Disk, Effect>)
      requires disk.Valid() && Ready(disk.dev)
      modifies disk`disk, disk`dev, disk`calls, disk.vq.ram
      modifies disk.vq`bufs, disk.vq`broken, disk.vq`lastAvail, disk.vq`pops, disk.vq`lastUsed, disk.vq`pushes
      ensures disk.Valid() && History(guest, old(disk.Now()), old(disk.vq.ram.mem), turns) && Finished(guest, turns)
      ensures o == Heard(turns) && old(disk.vq.pushes) <= disk.vq.pushes
      ensures o.irq <==> old(disk.vq.pushes) < disk.vq.pushes
      ensures disk.dev == if o.fail then Fail(old(disk.dev)) else old(disk.dev)
    {
      var before := disk.dev;
      ghost var s := disk.Now();
      var irq;
      irq, turns := disk.Notify(guest);
      HeardIsDone(disk.Env().rs, disk.vq.Settings(), Rule(disk.Env(), disk.vq.Settings()), s, turns);
      FailShows(before);
      o := VirtioTransport.Outcome(irq, disk.dev != before);
    }

    /** The turns led from stand `s` and memory `m` to where the device is now. */
    ghost predicate History(guest: seq<Mem>, s: Stand<Disk>, m: Mem, turns: Turns<Disk, Effect>)
      reads disk, disk.vq, disk.vq.ram
    {
      && TurnsOk(disk.Env().rs, disk.vq.Settings(), Rule(disk.Env(), disk.vq.Settings()), s, turns)
      && Interleaved(guest, m, turns) && disk.Now() == After(turns, s) && disk.vq.ram.mem == MemAfter(turns, m)
    }

    /** `VIRTIO_MMIO_INTERRUPT_ACK`; a driver that acknowledges the queue interrupt looks at the used ring. */
    method Acknowledge(val: bv32)
      requires Valid()
      modifies port`interrupts, port`line, port`pending, this`seen
      ensures Valid() && port.interrupts == old(port.interrupts) & !val
      ensures port.pending <==> old(port.pending) && val & 1 == 0
      ensures seen == if port.pending then old(seen) else disk.vq.pushes
    {
      port.Acknowledge(val);
      if !port.pending {
        seen := disk.vq.pushes;
      }
    }

    /** `VIRTIO_MMIO_QUEUE_READY`: flag, settings and the queue itself change together. */
    method WriteReady(val: nat)
      requires Valid()
      modifies port`ready, port`queues, disk.vq`queueSize, disk.vq`rings, disk.vq`enabled
      ensures Valid()
      ensures disk.vq.Settings() == if port.queueSel != 0 || val > 1 then old(disk.vq.Settings())
                                    else if val == 0 then old(disk.vq.Settings()).(enabled := false)
                                    else Activated(port.rs, port.latches[0], old(disk.vq.Settings()))
    {
      var enable := port.queueSel == 0 && !port.ready[0] && val == 1;
      port.WriteReady(val);
      if port.queueSel == 0 && val == 0 {
        disk.vq.Disable();
      }
      if enable {
        ApplyLatch(port.latches[0]);
      }
    }

    /** The two calls that enable the queue. */
    method ApplyLatch(l: Latch)
      requires disk.Valid() && !disk.vq.enabled
      modifies disk.vq`queueSize, disk.vq`rings, disk.vq`enabled
      ensures disk.Valid() && disk.vq.Settings() == Activated(disk.vq.ram.regions, l, old(disk.vq.Settings()))
    {
      if l.num <= 0xffff {
        var ok := disk.vq.SetSize(l.num);
        if ok {
          var q := RingsOf(l);
          ok := disk.vq.SetAddrs(q.desc, q.avail, q.used);
        }
      }
    }

    /** `VIRTIO_MMIO_STATUS`: device, registers and queue; all stay consistent exactly when the whole value is
        zero, or its low byte is not, or the queue was off. */
    method WriteStatus(val: bv32)
      requires Valid()
      modifies this`seen, port, disk`dev, disk.vq`enabled, disk.vq`broken, disk.vq`queueSize, disk.vq`lastAvail
      modifies disk.vq`lastUsed, disk.vq`rings, disk.vq`pops, disk.vq`pushes
      ensures Joined() && disk.Valid() && disk.dev == SetStatus(old(disk.dev), port.offered, (val & 0xff) as bv8)
      ensures Valid() <==> val == 0 || val & 0xff != 0 || !old(disk.vq.enabled)
      ensures val & 0xff == 0 ==> !disk.vq.enabled && disk.vq.pops == 0 && disk.vq.pushes == 0
      ensures val & 0xff != 0 ==>
        disk.Now() == old(disk.Now()).(dev := disk.dev) && port.interrupts == old(port.interrupts)
    {
      port.WriteStatus(val);
      disk.dev := port.dev;
      if val & 0xff == 0 {
        disk.vq.Reset();
        seen := 0;
      }
    }

    method WriteFeatures(val: bv32)
      requires Valid()
      modifies port`dev, disk`dev
      ensures Valid() && disk.dev == SetFeatures(old(disk.dev), port.featureSel, val)
    {
      port.WriteFeatures(val);
      disk.dev := port.dev;
    }
  }
}
