/** The 16550A UART of `src/hw/char/uart_16550a.c`: ring buffers, registers and the interrupt line.
    All methods run under the device lock. */
module Uart {
  import opened ByteRing
  import opened UartReceive

  /** The bits of the line status register that this UART ever sets, without the break bit. */
  datatype LineStatus = LineStatus(ready: bool, overrun: bool, thre: bool, temt: bool)

  function Bits(l: LineStatus, brk: bool): octet {
    (if l.ready then 0x01 else 0) | (if l.overrun then 0x02 else 0) | (if brk then 0x10 else 0)
    | (if l.thre then 0x20 else 0) | (if l.temt then 0x40 else 0)
  }

  /** The interrupt enable register. */
  datatype Enables = Enables(data: bool, empty: bool, line: bool, modem: bool)

  function EnablesOf(val: octet): Enables {
    Enables(val & 0x01 != 0, val & 0x02 != 0, val & 0x04 != 0, val & 0x08 != 0)
  }

  function EnableBits(e: Enables): octet {
    (if e.data then 0x01 else 0) | (if e.empty then 0x02 else 0)
    | (if e.line then 0x04 else 0) | (if e.modem then 0x08 else 0)
  }

  /** A guest reads back the four bits that it wrote. */
  lemma EnablesRoundTrip(val: octet)
    ensures EnableBits(EnablesOf(val)) == val & 0x0f
  {}

  /** Interrupt sources, highest priority first. */
  datatype Source = LineError | DataReady | CharTimeout | HoldingEmpty | ModemChange | NoSource

  predicate Reports(x: Source, e: Enables, fifo: bool, error: bool, delta: bool, cnt: nat, trigger: nat,
                    timeout: bool, thre: bool)
  {
    match x
    case LineError => e.line && error
    case DataReady => e.data && if fifo then cnt >= trigger else cnt > 0
    case CharTimeout => e.data && timeout
    case HoldingEmpty => e.empty && thre
    case ModemChange => e.modem && delta
    case NoSource => true
  }

  function Rank(x: Source): nat {
    match x
    case LineError => 0
    case DataReady => 1
    case CharTimeout => 2
    case HoldingEmpty => 3
    case ModemChange => 4
    case NoSource => 5
  }

  /** The priority decision of `uart_16550a_iir_get`. */
  function Identify(e: Enables, fifo: bool, error: bool, delta: bool, cnt: nat, trigger: nat, timeout: bool,
                    thre: bool): (x: Source)
    ensures Reports(x, e, fifo, error, delta, cnt, trigger, timeout, thre)
    ensures forall y :: Reports(y, e, fifo, error, delta, cnt, trigger, timeout, thre) ==> Rank(x) <= Rank(y)
  {
    if e.line && error then LineError
    else if e.data && (if fifo then cnt >= trigger else cnt > 0) then DataReady
    else if e.data && timeout then CharTimeout
    else if e.empty && thre then HoldingEmpty
    else if e.modem && delta then ModemChange
    else NoSource
  }

  /** So there is only one source to show. */
  lemma OneRank(x: Source, y: Source)
    requires Rank(x) == Rank(y)
    ensures x == y
  {}

  /** The interrupt identification register. */
  function Iir(x: Source, fifo: bool): octet {
    var id: octet := match x
      case LineError => 0x06
      case DataReady => 0x04
      case CharTimeout => 0x0c
      case HoldingEmpty => 0x02
      case ModemChange => 0x00
      case NoSource => 0x01;
    if fifo then id | 0xc0 else id
  }

  /** Bit 0 of the register is clear exactly when something is pending, and the identifier is 2
      exactly for the transmitter. */
  lemma IirBits(x: Source, fifo: bool)
    ensures Iir(x, fifo) & 0x01 == 0 <==> x != NoSource
    ensures Iir(x, fifo) & 0x0e == 0x02 <==> x == HoldingEmpty
  {}

  /** The modem lines: without loopback CTS, DSR and DCD are asserted; in loopback they follow the outputs. */
  function ModemLines(mcr: octet): octet {
    if mcr & LOOP == 0 then 0xb0
    else
      (if mcr & 0x01 != 0 then 0x20 else 0) | (if mcr & 0x02 != 0 then 0x10 else 0)
      | (if mcr & 0x04 != 0 then 0x40 else 0) | (if mcr & 0x08 != 0 then 0x80 else 0)
  }

  /** `uart_16550a_msr_update`: the modem lines, with the deltas that accumulate until read. */
  function ModemStatus(msr: octet, mcr: octet): octet {
    var lines := ModemLines(mcr);
    var change := msr ^ lines;
    var ring: octet := if msr & 0x40 != 0 && lines & 0x40 == 0 then 0x04 else 0;
    lines | (msr & 0x0f) | ring | (if change & 0x10 != 0 then 0x01 else 0) | (if change & 0x20 != 0 then 0x02 else 0)
    | (if change & 0x80 != 0 then 0x08 else 0)
  }

  /** A character timeout is due: data below the trigger level in FIFO mode. */
  predicate TimeoutDue(fifo: bool, cnt: nat, trigger: nat) {
    fifo && 0 < cnt < trigger
  }

  /** What a value written to the FIFO control register clears. */
  predicate ClearsRx(val: octet) {
    val & 0x01 == 0 || val & 0x02 != 0
  }

  predicate ClearsTx(val: octet) {
    val & 0x01 == 0 || val & 0x04 != 0
  }

  /** The write is a byte to transmit. */
  predicate Sends(reg: nat, lcr: octet, mcr: octet) {
    reg == 0 && lcr & DLAB == 0 && mcr & LOOP == 0
  }

  /** The trigger level of the datasheet for a FIFO control value: bits 7 and 6, in FIFO mode. */
  predicate IsTrigger(val: octet, level: nat) {
    if val & 0x01 == 0 || val < 0x40 then level == 1
    else if val < 0x80 then level == 4
    else if val < 0xc0 then level == 8
    else level == 14
  }

  /** The registers that are not part of the receive path, the pending flip-flop of the transmit interrupt and the
      break bit. */
  datatype Regs = Regs(dll: octet, dlm: octet, ier: Enables, fifo: bool, trigger: nat, lcr: octet, mcr: octet,
                       msr: octet, scr: octet, thre: bool, brk: bool)

  /** In FIFO mode there is a trigger level, at most 14. */
  predicate Paced(r: Regs) {
    r.trigger <= 14 && (r.fifo ==> r.trigger > 0)
  }

  predicate SamePace(r: Regs, s: Regs) {
    r.fifo == s.fifo && r.trigger == s.trigger && r.lcr == s.lcr
  }

  function TriggerOf(val: octet): nat {
    if val & 0x01 == 0 || val & 0xc0 == 0x00 then 1
    else if val & 0xc0 == 0x40 then 4 else if val & 0xc0 == 0x80 then 8 else 14
  }

  /** What a register write makes of them. */
  function WriteRegs(r: Regs, reg: nat, val: octet): Regs {
    if reg == 0 then
      if r.lcr & 0x80 != 0 then r.(dll := val) else if r.mcr & 0x10 != 0 then r else r.(thre := true)
    else if reg == 1 then
      if r.lcr & 0x80 != 0 then r.(dlm := val)
      else r.(ier := EnablesOf(val), thre := r.thre || (!r.ier.empty && val & 0x02 != 0))
    else if reg == 2 then
      r.(fifo := val & 0x01 != 0, trigger := TriggerOf(val), thre := r.thre || ClearsTx(val))
    else if reg == 3 then r.(lcr := val, brk := if r.mcr & 0x10 != 0 then val & 0x40 != 0 else r.brk)
    else if reg == 4 then r.(mcr := val & 0x1f, msr := ModemStatus(r.msr, val & 0x1f))
    else if reg == 7 then r.(scr := val)
    else r
  }

  /** What a register read makes of them, when `x` is the interrupt source shown. */
  function ReadRegs(r: Regs, reg: nat, x: Source): Regs {
    if reg == 2 && x == HoldingEmpty then r.(thre := false)
    else if reg == 5 then r.(brk := false)
    else if reg == 6 then r.(msr := r.msr & 0xf0)
    else r
  }

  /** The value that a register read returns. */
  function Value(v: Rx, r: Regs, reg: nat, x: Source): octet {
    if reg == 0 then if r.lcr & 0x80 != 0 then r.dll else Front(v)
    else if reg == 1 then if r.lcr & 0x80 != 0 then r.dlm else EnableBits(r.ier)
    else if reg == 2 then Iir(x, r.fifo)
    else if reg == 3 then r.lcr
    else if reg == 4 then r.mcr
    else if reg == 5 then Bits(LineStatus(v.fifo != [], v.overrun, true, true), r.brk)
    else if reg == 6 then r.msr
    else if reg == 7 then r.scr
    else 0xff
  }

  /** The value is the one that the receive path's description promises. */
  lemma ValueFits(v: Rx, r: Regs, reg: nat, x: Source)
    ensures ReadValue(v, reg, r.lcr, Value(v, r, reg, x))
  {}

  /** Where a write goes, field by field: bit 7 of register 3 turns registers 0 and 1 into the divisor. */
  ghost predicate StoresPlain(r: Regs, reg: nat, val: octet, s: Regs) {
    && s.dll == (if reg == 0 && r.lcr & 0x80 != 0 then val else r.dll)
    && s.dlm == (if reg == 1 && r.lcr & 0x80 != 0 then val else r.dlm)
    && s.lcr == (if reg == 3 then val else r.lcr)
    && s.mcr == (if reg == 4 then val & 0x1f else r.mcr)
    && s.scr == (if reg == 7 then val else r.scr)
  }

  lemma PlainStored(r: Regs, reg: nat, val: octet)
    ensures StoresPlain(r, reg, val, WriteRegs(r, reg, val))
  {
    if reg == 0 {
    } else if reg == 1 {
    } else if reg == 2 {
    } else if reg == 3 {
    } else if reg == 4 {
    }
  }

  /** Register 1 takes the four enable bits. */
  ghost predicate StoresEnables(r: Regs, reg: nat, val: octet, s: Regs) {
    s.ier == if reg == 1 && r.lcr & 0x80 == 0
             then Enables(val & 1 != 0, val & 2 != 0, val & 4 != 0, val & 8 != 0) else r.ier
  }

  lemma EnablesStored(r: Regs, reg: nat, val: octet)
    ensures StoresEnables(r, reg, val, WriteRegs(r, reg, val))
  {
    if reg == 0 {
    } else if reg == 1 {
    } else if reg == 2 {
    } else if reg == 3 {
    } else if reg == 4 {
    }
  }

  /** Register 2 selects the FIFO mode and its trigger level. */
  ghost predicate StoresMode(r: Regs, reg: nat, val: octet, s: Regs) {
    if reg == 2 then s.fifo == (val & 1 != 0) && IsTrigger(val, s.trigger)
    else s.fifo == r.fifo && s.trigger == r.trigger
  }

  lemma TriggerSelected(val: octet)
    ensures IsTrigger(val, TriggerOf(val))
  {}

  lemma ModeStored(r: Regs, reg: nat, val: octet)
    ensures StoresMode(r, reg, val, WriteRegs(r, reg, val))
  {
    if reg == 2 {
      TriggerSelected(val);
    } else {
      ModeKept(r, reg, val);
    }
  }

  lemma ModeKept(r: Regs, reg: nat, val: octet)
    requires reg != 2
    ensures WriteRegs(r, reg, val).fifo == r.fifo && WriteRegs(r, reg, val).trigger == r.trigger
  {
    if reg == 0 {
    } else if reg == 1 {
    } else if reg == 3 {
    } else if reg == 4 {
    }
  }

  /** The transmit interrupt becomes pending when a byte is sent, when its enable bit is switched on and when the
      transmit FIFO is cleared, and no write ends it. */
  ghost predicate Pends(r: Regs, reg: nat, val: octet, s: Regs) {
    s.thre <==>
      || r.thre
      || (reg == 0 && r.lcr & 0x80 == 0 && r.mcr & 0x10 == 0)
      || (reg == 1 && r.lcr & 0x80 == 0 && val & 2 != 0 && !r.ier.empty)
      || (reg == 2 && (val & 1 == 0 || val & 4 != 0))
  }

  lemma TransmitPends(r: Regs, reg: nat, val: octet)
    ensures Pends(r, reg, val, WriteRegs(r, reg, val))
  {
    if reg == 0 {
    } else if reg == 1 {
    } else if reg == 2 {
    } else if reg == 3 {
    } else if reg == 4 {
    }
  }

  lemma WritesReach(r: Regs, reg: nat, val: octet)
    ensures StoresPlain(r, reg, val, WriteRegs(r, reg, val)) && StoresEnables(r, reg, val, WriteRegs(r, reg, val))
    ensures StoresMode(r, reg, val, WriteRegs(r, reg, val)) && Pends(r, reg, val, WriteRegs(r, reg, val))
  {
    PlainStored(r, reg, val);
    EnablesStored(r, reg, val);
    ModeStored(r, reg, val);
    TransmitPends(r, reg, val);
  }

  /** What the guest can observe between accesses: the receive path, the registers and a pending timeout. */
  datatype Port = Port(v: Rx, r: Regs, timeout: bool)

  /** The source that the identification register shows; the line is up unless it is `NoSource`. */
  function Shown(p: Port): Source {
    Identify(p.r.ier, p.r.fifo, p.v.overrun || p.r.brk, p.r.msr & 0x0f != 0, |p.v.fifo|, p.r.trigger, p.timeout,
             p.r.thre)
  }

  /** The value that a guest read of a register returns. */
  function Shows(p: Port, reg: nat): octet {
    Value(p.v, p.r, reg, Shown(p))
  }

  /** The registers after `uart_realize`. */
  function PowerOn(console: bool): Port {
    Port(Reset.(bound := console), Regs(0, 0, EnablesOf(0), false, 0, 0, 0, 0xb0, 0, true, false), false)
  }

  /** A pending timeout ends with the byte read, and a refill decides it anew. */
  function TimeoutAfter(p: Port, reg: nat): bool
    requires |p.v.fifo| <= FIFO_SIZE
  {
    var w := ReadEffect(p.v, reg, p.r.lcr);
    if Moves(w) then TimeoutDue(p.r.fifo, |Move(w).fifo|, p.r.trigger) else p.timeout && w.fifo == p.v.fifo
  }

  /** The port after a guest read, after a guest write and after a batch from the host. */
  function AfterRead(p: Port, reg: nat): Port
    requires |p.v.fifo| <= FIFO_SIZE
  {
    Port(Read(p.v, reg, p.r.lcr), ReadRegs(p.r, reg, Shown(p)), TimeoutAfter(p, reg))
  }

  function AfterWrite(p: Port, reg: nat, val: octet): Port {
    Port(Write(p.v, reg, val, p.r.lcr, p.r.mcr), WriteRegs(p.r, reg, val), p.timeout)
  }

  function AfterBatch(p: Port, bytes: seq<octet>): Port
    requires |p.v.fifo| <= FIFO_SIZE && |p.v.backlog| <= BACKLOG_SIZE
  {
    Port(Receive(p.v, bytes), p.r,
         if bytes != [] && Moves(Pause(Queue(p.v, bytes, 0)))
         then TimeoutDue(p.r.fifo, |Receive(p.v, bytes).fifo|, p.r.trigger) else p.timeout)
  }

  /** A pending timeout means that there is a byte to read. */
  predicate HasByte(p: Port) {
    p.timeout ==> p.v.fifo != []
  }

  /** Reads and arriving bytes keep it so, and of all writes only a receive FIFO clear does not. */
  lemma ReadKeepsByte(p: Port, reg: nat)
    requires Sane(p.v) && HasByte(p)
    ensures HasByte(AfterRead(p, reg))
  {
    MoveKeepsBytes(ReadEffect(p.v, reg, p.r.lcr));
  }

  lemma WriteKeepsByte(p: Port, reg: nat, val: octet)
    requires HasByte(p)
    ensures HasByte(AfterWrite(p, reg, val)) <==> !(reg == 2 && ClearsRx(val) && p.timeout)
  {}

  lemma BatchKeepsByte(p: Port, bytes: seq<octet>)
    requires Sane(p.v) && HasByte(p)
    ensures HasByte(AfterBatch(p, bytes))
  {
    MoveKeepsBytes(Pause(Queue(p.v, bytes, 0)));
  }

  /** Bytes that arrive while bit 0 is enabled are announced: by the trigger level, or by the timeout below it. */
  lemma ArrivalPends(p: Port, bytes: seq<octet>)
    requires Sane(p.v) && bytes != [] && Paced(p.r) && p.r.ier.data
    ensures var q := AfterBatch(p, bytes);
      q.v.fifo != [] && Shown(q) ==
        if p.r.ier.line && (q.v.overrun || p.r.brk) then LineError
        else if p.r.fifo && |q.v.fifo| < p.r.trigger then CharTimeout else DataReady
  {
    QueueWhole(p.v, bytes, 0);
    var a := Pause(Queue(p.v, bytes, 0));
    MoveKeepsBytes(a);
    assert |Move(a).fifo + Move(a).backlog| == |a.fifo + a.backlog|;
  }

  /** Levels driven on a line, the last one outermost. */
  datatype Levels = Never | Driven(past: Levels, on: bool)

  class Uart16550 {
    const rx: Ring
    const backlog: Ring
    const txBuf: array<octet>
    var txHead: nat
    var txTail: nat
    var txCnt: nat
    const console: bool
    /** The other registers; of the FIFO control register only bit 0 and the trigger level have an effect. */
    var regs: Regs
    var lsr: LineStatus
    var timeout: bool
    var paused: bool
    var bound: bool
    /** The level of the interrupt line, and all levels driven on it so far. */
    var level: bool
    var driven: Levels
    /** The enable flag of the console's receive binding. */
    var hostEnabled: bool
    /** The bytes handed to the console, and the errors reported to the VM. */
    var sent: seq<octet>
    var errors: nat

    ghost predicate Sound()
      reads this`lsr, this`bound, this`hostEnabled, this`paused, rx, backlog, rx.buf, backlog.buf
    {
      && rx != backlog && rx.buf != backlog.buf
      && rx.Valid() && rx.buf.Length == FIFO_SIZE
      && backlog.Valid() && backlog.buf.Length == BACKLOG_SIZE
      && (lsr.ready <==> rx.cnt > 0)
      && (bound ==> hostEnabled == !paused)
    }

    /** Between accesses the backlog is below the high watermark unless the host is paused, and
        the line shows the interrupt state. */
    ghost predicate Valid()
      reads this, rx, backlog, rx.buf, backlog.buf
    {
      Held() && level == Interrupting()
    }

    ghost predicate Held()
      reads this`lsr, this`bound, this`hostEnabled, this`paused, this`regs, this`txHead, this`txTail, this`txCnt
      reads rx, backlog, rx.buf, backlog.buf
    {
      Sound() && Sane(View()) && Drained() && Settled()
    }

    /** Nothing waits in the transmit buffer, whose indices agree if there is a console. */
    ghost predicate Drained()
      reads this`txHead, this`txTail, this`txCnt
    {
      && rx.buf != txBuf && backlog.buf != txBuf && txBuf.Length == FIFO_SIZE
      && txHead < FIFO_SIZE && txTail < FIFO_SIZE && txCnt == 0 && (console ==> txHead == txTail)
    }

    /** Between accesses the transmitter is empty and says so, and in FIFO mode there is a trigger level. */
    ghost predicate Settled()
      reads this`lsr, this`regs
    {
      lsr.thre && lsr.temt && Paced(regs)
    }

    /** The transmitter's bits of the line status register. */
    ghost function Empty(): (bool, bool)
      reads this`lsr
    {
      (lsr.thre, lsr.temt)
    }

    /** A pending timeout means that there is a byte to read. */
    ghost predicate TimeoutHasByte()
      reads this`paused, this`lsr, this`bound, this`regs, this`timeout, rx`contents, backlog`contents
    {
      HasByte(At())
    }

    ghost predicate Interrupting()
      reads this, rx
    {
      Now() != NoSource
    }

    /** The source that the identification register shows. */
    function Now(): Source
      reads this, rx
    {
      Identify(regs.ier, regs.fifo, lsr.overrun || regs.brk, regs.msr & 0x0f != 0, rx.cnt, regs.trigger, timeout,
               regs.thre)
    }

    ghost function At(): Port
      reads this`paused, this`lsr, this`bound, this`regs, this`timeout, rx`contents, backlog`contents
    {
      Port(View(), regs, timeout)
    }

    ghost function View(): Rx
      reads this`paused, this`lsr, this`bound, rx`contents, backlog`contents
    {
      Rx(rx.contents, backlog.contents, paused, lsr.overrun, bound)
    }

    /** `uart_realize`, once the registers are set. */
    constructor (console: bool)
      ensures Valid() && fresh(rx) && fresh(backlog) && fresh(rx.buf) && fresh(backlog.buf) && fresh(txBuf)
      ensures At() == PowerOn(console) && this.console == console && sent == []
      ensures txHead == txTail && !level && driven == Never
    {
      rx := new Ring(FIFO_SIZE);
      backlog := new Ring(BACKLOG_SIZE);
      txBuf := new octet[FIFO_SIZE];
      txHead, txTail, txCnt := 0, 0, 0;
      this.console := console;
      regs := Regs(0, 0, Enables(false, false, false, false), false, 0, 0, 0, 0xb0, 0, true, false);
      lsr := LineStatus(false, false, true, true);
      timeout, paused, bound := false, false, console;
      level, driven, hostEnabled, sent, errors := false, Never, true, [], 0;
    }

    /** `uart_16550a_rx_fifo_push` */
    method PushRx(c: octet)
      requires Sound()
      modifies this`lsr, rx, rx.buf
      ensures Sound() && View() == PushFifo(old(View()), c) && Empty() == old(Empty())
    {
      if rx.cnt >= FIFO_SIZE {
        lsr := lsr.(overrun := true);
        return;
      }
      rx.Put(c);
      lsr := lsr.(ready := true);
    }

    /** The copy loop of `uart_16550a_rx_fifo_refill`. */
    method MoveBacklog() returns (pushed: bool)
      requires Sound()
      modifies this`lsr, rx, rx.buf, backlog
      ensures Sound() && (pushed <==> Moves(old(View())))
      ensures View() == Move(old(View())) && Empty() == old(Empty())
    {
      pushed := false;
      ghost var v := View();
      while backlog.cnt > 0 && rx.cnt < FIFO_SIZE
        invariant Sound() && Empty() == old(Empty())
        invariant if pushed then Moves(v) else View() == v
        invariant Move(View()) == Move(v)
        decreases backlog.cnt
      {
        ghost var u := View();
        var c := backlog.Get();
        PushRx(c);
        assert View() == MoveOne(u);
        pushed := true;
      }
    }

    /** Resume the host below the low watermark. */
    method ResumeHost()
      requires Sound()
      modifies this`paused, this`hostEnabled, this`errors
      ensures Sound()
      ensures View() == Resume(old(View()))
      ensures errors == old(errors) + (if old(paused) && backlog.cnt < LOW_WATERMARK && !bound then 1 else 0)
    {
      if paused && backlog.cnt < LOW_WATERMARK {
        if bound {
          hostEnabled, paused := true, false;
        } else {
          errors := errors + 1;
        }
      }
    }

    /** `uart_16550a_rx_fifo_refill` */
    method RefillRx()
      requires Sound()
      modifies this`lsr, this`paused, this`hostEnabled, this`errors, this`timeout, rx, rx.buf, backlog
      ensures Sound() && View() == Refill(old(View())) && Empty() == old(Empty())
      ensures timeout == if Moves(old(View())) then TimeoutDue(regs.fifo, |View().fifo|, regs.trigger) else old(timeout)
    {
      var pushed := MoveBacklog();
      ResumeHost();
      if pushed {
        timeout := TimeoutDue(regs.fifo, rx.cnt, regs.trigger);
      }
    }

    /** `uart_16550a_rx_fifo_pop` */
    method PopRx() returns (c: octet)
      requires Sound()
      modifies this`lsr, this`timeout, rx
      ensures Sound() && View() == PopFifo(old(View())) && Empty() == old(Empty())
      ensures c == Front(old(View())) && timeout == (old(timeout) && View().fifo == old(View()).fifo)
    {
      if rx.cnt == 0 {
        return 0;
      }
      c := rx.Get();
      timeout := false;
      if rx.cnt == 0 {
        lsr := lsr.(ready := false);
      }
    }

    /** `uart_16550a_rx_fifo_clear`; a pending timeout stays. */
    method ClearRx()
      requires Sound()
      modifies this`lsr, rx
      ensures Sound() && View() == ClearFifo(old(View())) && Empty() == old(Empty())
    {
      rx.Clear();
      lsr := lsr.(ready := false, overrun := false);
    }

    /** `uart_16550a_tx_fifo_clear` */
    method ClearTx()
      requires Sound() && Drained()
      modifies this`lsr, this`regs, this`txHead, this`txTail, this`txCnt
      ensures Sound() && Drained() && View() == old(View()) && txHead == txTail
      ensures Empty() == (true, true) && regs == old(regs).(thre := true)
    {
      txHead, txTail, txCnt := 0, 0, 0;
      MarkEmpty();
    }

    /** The transmit case of `uart_16550a_reg_write`: with a console the byte reaches it at once and the
        indices agree again; without one the byte is dropped and only the head moves. */
    method Transmit(c: octet)
      requires Sound() && Drained()
      modifies this`lsr, this`regs, this`sent, this`errors, this`txHead, this`txTail, this`txCnt, txBuf
      ensures Sound() && Drained() && View() == old(View())
      ensures sent == if console then old(sent) + [c] else old(sent)
      ensures old(txHead == txTail) ==> (txHead == txTail <==> console)
      ensures !console ==> txTail == old(txTail) && txHead == (old(txHead) + 1) % FIFO_SIZE
      ensures Empty() == (true, true) && regs == old(regs).(thre := true)
    {
      Enqueue(c);
      var failed := Flush();
      MarkEmpty();
    }

    method Enqueue(c: octet)
      requires Sound() && Drained()
      modifies this`lsr, this`regs, this`txHead, this`txCnt, txBuf
      ensures Sound() && View() == old(View())
      ensures txBuf.Length == FIFO_SIZE && txHead < FIFO_SIZE && txTail < FIFO_SIZE && txCnt == 1
      ensures txHead == (old(txHead) + 1) % FIFO_SIZE
      ensures console ==> Queued(txTail, txCnt) == [c] && After(txTail, txCnt) == txHead
      ensures Empty() == (false, false) && regs == old(regs).(thre := false)
    {
      txBuf[txHead] := c;
      txHead := (txHead + 1) % FIFO_SIZE;
      txCnt := txCnt + 1;
      lsr := lsr.(thre := false, temt := false);
      regs := regs.(thre := false);
    }

    /** The first part of `uart_16550a_tx_flush`: what is queued goes to the console, if there is one; a
        failed write is reported. */
    method Flush() returns (failed: bool)
      requires txBuf.Length == FIFO_SIZE && txTail < FIFO_SIZE
      modifies this`sent, this`errors, this`txTail, this`txCnt
      ensures txCnt == 0
      ensures console ==> txTail == old(After(txTail, txCnt)) && sent == old(sent + Queued(txTail, txCnt))
      ensures !console ==> sent == old(sent) && txTail == old(txTail)
      ensures errors == old(errors) + (if failed then 1 else 0) && (failed ==> console && old(txCnt) > 0)
    {
      failed := false;
      if txCnt > 0 {
        if console {
          var out := Drain();
          sent := sent + out;
          failed := *;
          if failed {
            errors := errors + 1;
          }
        }
        txCnt := 0;
      }
    }

    /** THRE and TEMT are set and the empty interrupt becomes pending. */
    method MarkEmpty()
      requires Sound()
      modifies this`lsr, this`regs
      ensures Sound() && View() == old(View())
      ensures lsr == old(lsr).(thre := true, temt := true) && regs == old(regs).(thre := true)
    {
      lsr := lsr.(thre := true, temt := true);
      regs := regs.(thre := true);
    }

    method Drain() returns (out: seq<octet>)
      requires txBuf.Length == FIFO_SIZE && txTail < FIFO_SIZE
      modifies this`txTail
      ensures txTail == old(After(txTail, txCnt)) && out == old(Queued(txTail, txCnt))
    {
      out := [];
      var i := 0;
      while i < txCnt
        invariant i <= txCnt && txTail < FIFO_SIZE && After(txTail, txCnt - i) == old(After(txTail, txCnt))
        invariant out + Queued(txTail, txCnt - i) == old(Queued(txTail, txCnt))
      {
        out := out + [txBuf[txTail]];
        txTail := (txTail + 1) % FIFO_SIZE;
        i := i + 1;
      }
    }

    /** The `n` bytes in the transmit buffer from `tail` on, and the index after them. */
    ghost function Queued(tail: nat, n: nat): seq<octet>
      requires txBuf.Length == FIFO_SIZE && tail < FIFO_SIZE
      reads txBuf
      decreases n
    {
      if n == 0 then [] else [txBuf[tail]] + Queued((tail + 1) % FIFO_SIZE, n - 1)
    }

    static ghost function After(tail: nat, n: nat): nat
      decreases n
    {
      if n == 0 then tail else After((tail + 1) % FIFO_SIZE, n - 1)
    }

    /** `irq_set_level` */
    method Drive(on: bool)
      modifies this`level, this`driven
      ensures level == on && driven == Driven(old(driven), on)
    {
      level, driven := on, Driven(driven, on);
    }

    /** `uart_16550a_irq_update` */
    method UpdateIrq()
      modifies this`level, this`driven
      ensures level == Interrupting() && driven == Driven(old(driven), level) && (old(Held()) ==> Valid())
    {
      Drive(Now() != NoSource);
    }

    /** `uart_16550a_reg_read` */
    method RegRead(reg: nat) returns (val: octet)
      requires Sound() && Settled()
      modifies this`lsr, this`timeout, this`regs, rx
      ensures Sound() && Empty() == (true, true) && View() == ReadEffect(old(View()), reg, regs.lcr)
      ensures timeout == (old(timeout) && View().fifo == old(View()).fifo) && SamePace(regs, old(regs))
      ensures val == Shows(old(At()), reg)
      ensures regs == ReadRegs(old(regs), reg, Shown(old(At())))
    {
      if reg == 0 && regs.lcr & DLAB == 0 {
        val := PopRx();
      } else if reg == 5 {
        val := ReadLineStatus();
      } else {
        val := ReadOther(reg);
      }
    }

    /** The registers whose reads leave the receive path alone. */
    method ReadOther(reg: nat) returns (val: octet)
      requires Sound() && reg != 5 && !(reg == 0 && regs.lcr & DLAB == 0)
      modifies this`regs
      ensures val == Shows(old(At()), reg)
      ensures regs == ReadRegs(old(regs), reg, Shown(old(At()))) && SamePace(regs, old(regs))
    {
      if reg == 0 {
        val := regs.dll;
      } else if reg == 1 {
        val := if regs.lcr & DLAB != 0 then regs.dlm else EnableBits(regs.ier);
      } else if reg == 2 {
        val := ReadIir();
      } else if reg == 3 {
        val := regs.lcr;
      } else if reg == 4 {
        val := regs.mcr;
      } else if reg == 6 {
        val := regs.msr;
        regs := regs.(msr := regs.msr & 0xf0);
      } else if reg == 7 {
        val := regs.scr;
      } else {
        val := 0xff;
      }
    }

    /** A read of the identification register that shows the transmit interrupt ends it. */
    method ReadIir() returns (val: octet)
      requires Sound()
      modifies this`regs
      ensures val == Iir(Shown(old(At())), regs.fifo)
      ensures regs == if Shown(old(At())) == HoldingEmpty then old(regs).(thre := false) else old(regs)
    {
      val := Iir(Now(), regs.fifo);
      IirBits(Now(), regs.fifo);
      if val & 0x0e == 0x02 {
        regs := regs.(thre := false);
      }
    }

    /** A read of the line status register clears its error bits. */
    method ReadLineStatus() returns (val: octet)
      requires Sound() && Settled()
      modifies this`lsr, this`regs
      ensures Sound() && Empty() == (true, true) && View() == old(View()).(overrun := false)
      ensures val == Value(old(View()), old(regs), 5, NoSource) && regs == old(regs).(brk := false)
    {
      assert lsr == LineStatus(View().fifo != [], View().overrun, true, true);
      val := Bits(lsr, regs.brk);
      lsr := lsr.(overrun := false);
      regs := regs.(brk := false);
    }

    /** `uart_io_read`: the value the guest gets and the refill that follows. A read of the receive
        register first drives the line down, so that data still pending makes a new edge; `mid` is the
        level between read and refill. */
    method IoRead(reg: nat) returns (val: octet, ghost mid: bool)
      requires Valid()
      modifies this`lsr, this`timeout, this`regs, this`level, this`driven
      modifies this`paused, this`hostEnabled, this`errors, rx, rx.buf, backlog
      ensures Valid() && At() == AfterRead(old(At()), reg)
      ensures val == Shows(old(At()), reg)
      ensures old(TimeoutHasByte()) ==> TimeoutHasByte()
      ensures driven == Driven(Driven(if reg == 0 then Driven(old(driven), false) else old(driven), mid), level)
    {
      ghost var p := At();
      val := ReadAndRefill(reg);
      assert Held();
      if HasByte(p) {
        ReadKeepsByte(p, reg);
      }
      mid := level;
      UpdateIrq();
    }

    method ReadAndRefill(reg: nat) returns (val: octet)
      requires Sound() && Settled() && Sane(View())
      modifies this`lsr, this`timeout, this`regs, this`level, this`driven
      modifies this`paused, this`hostEnabled, this`errors, rx, rx.buf, backlog
      ensures Sound() && Settled() && Sane(View()) && View() == Read(old(View()), reg, regs.lcr)
      ensures timeout == TimeoutAfter(old(At()), reg)
      ensures val == Shows(old(At()), reg)
      ensures regs == ReadRegs(old(regs), reg, Shown(old(At())))
      ensures driven == Driven(if reg == 0 then Driven(old(driven), false) else old(driven), level)
    {
      ReadSane(View(), reg, regs.lcr);
      val := Access(reg);
      RefillRx();
    }

    /** The register read with the line level before and after it. */
    method Access(reg: nat) returns (val: octet)
      requires Sound() && Settled()
      modifies this`lsr, this`timeout, this`regs, this`level, this`driven, rx
      ensures Sound() && Settled() && View() == ReadEffect(old(View()), reg, regs.lcr)
      ensures timeout == (old(timeout) && View().fifo == old(View()).fifo) && SamePace(regs, old(regs))
      ensures val == Shows(old(At()), reg)
      ensures regs == ReadRegs(old(regs), reg, Shown(old(At())))
      ensures driven == Driven(if reg == 0 then Driven(old(driven), false) else old(driven), level)
    {
      if reg == 0 {
        Drive(false);
      }
      val := RegRead(reg);
      UpdateIrq();
    }

    /** `uart_16550a_reg_write` */
    method RegWrite(reg: nat, val: octet)
      requires Sound() && Drained() && Settled()
      modifies this`regs, this`lsr
      modifies this`sent, this`errors, this`txHead, this`txTail, this`txCnt, txBuf, rx, rx.buf
      ensures Sound() && Drained() && Settled()
      ensures View() == Write(old(View()), reg, val, old(regs.lcr), old(regs.mcr))
      ensures regs == WriteRegs(old(regs), reg, val)
      ensures sent == if old(Sends(reg, regs.lcr, regs.mcr)) && console then old(sent) + [val] else old(sent)
      ensures old(txHead == txTail) ==> (txHead == txTail <==> console || !old(Sends(reg, regs.lcr, regs.mcr)))
      ensures reg == 2 && ClearsTx(val) ==> txHead == txTail
    {
      if reg == 0 && regs.lcr & DLAB == 0 {
        WriteData(val);
      } else {
        WriteControl(reg, val);
      }
    }

    /** Every register but the data register. */
    method WriteControl(reg: nat, val: octet)
      requires Sound() && Drained() && Settled() && !(reg == 0 && regs.lcr & DLAB == 0)
      modifies this`regs, this`lsr, this`txHead, this`txTail, this`txCnt, rx
      ensures Sound() && Drained() && Settled()
      ensures View() == if reg == 2 && ClearsRx(val) then ClearFifo(old(View())) else old(View())
      ensures regs == WriteRegs(old(regs), reg, val)
      ensures if reg == 2 && ClearsTx(val) then txHead == txTail else txHead == old(txHead) && txTail == old(txTail)
    {
      if reg == 2 {
        WriteFcr(val);
      } else if reg == 3 {
        WriteLcr(val);
      } else {
        WriteOther(reg, val);
      }
    }

    /** The data register: a byte to transmit, or to receive at once in loopback. */
    method WriteData(val: octet)
      requires Sound() && Drained() && Settled()
      modifies this`lsr, this`regs, this`sent, this`errors, this`txHead, this`txTail, this`txCnt, txBuf, rx, rx.buf
      ensures Sound() && Drained() && Settled()
      ensures View() == if regs.mcr & LOOP != 0 then PushFifo(old(View()), val) else old(View())
      ensures regs == if regs.mcr & LOOP != 0 then old(regs) else old(regs).(thre := true)
      ensures sent == if regs.mcr & LOOP == 0 && console then old(sent) + [val] else old(sent)
      ensures old(txHead == txTail) ==> (txHead == txTail <==> console || regs.mcr & LOOP != 0)
    {
      if regs.mcr & LOOP != 0 {
        PushRx(val);
      } else {
        Transmit(val);
      }
    }

    /** The registers whose writes leave the receive and transmit paths alone. */
    method WriteOther(reg: nat, val: octet)
      requires txCnt == 0 && reg != 2 && reg != 3 && !(reg == 0 && regs.lcr & DLAB == 0)
      modifies this`regs
      ensures regs == WriteRegs(old(regs), reg, val)
    {
      if reg == 0 {
        regs := regs.(dll := val);
      } else if reg == 1 {
        WriteIer(val);
      } else if reg == 4 {
        regs := regs.(mcr := val & 0x1f);
        regs := regs.(msr := ModemStatus(regs.msr, regs.mcr));
      } else if reg == 7 {
        regs := regs.(scr := val);
      }
    }

    method WriteIer(val: octet)
      requires txCnt == 0
      modifies this`regs
      ensures regs == WriteRegs(old(regs), 1, val)
    {
      if regs.lcr & DLAB != 0 {
        regs := regs.(dlm := val);
        return;
      }
      var before := regs.ier;
      regs := regs.(ier := EnablesOf(val));
      if !before.empty && regs.ier.empty && txCnt == 0 {
        regs := regs.(thre := true);
      }
    }

    method WriteLcr(val: octet)
      requires Sound()
      modifies this`regs
      ensures Sound() && View() == old(View()) && regs == WriteRegs(old(regs), 3, val)
    {
      regs := regs.(lcr := val);
      if regs.mcr & LOOP != 0 {
        regs := regs.(brk := regs.lcr & 0x40 != 0);
      }
    }

    method WriteFcr(val: octet)
      requires Sound() && Drained() && Settled()
      modifies this`regs, this`lsr, this`txHead, this`txTail, this`txCnt, rx
      ensures Sound() && Drained() && Settled()
      ensures View() == if ClearsRx(val) then ClearFifo(old(View())) else old(View())
      ensures regs == WriteRegs(old(regs), 2, val)
      ensures if ClearsTx(val) then txHead == txTail else txHead == old(txHead) && txTail == old(txTail)
      ensures IsTrigger(val, regs.trigger) && (regs.fifo <==> val & 0x01 != 0)
    {
      ModeStored(regs, 2, val);
      var off := val & 0x01 == 0;
      ClearFifos(off || val & 0x02 != 0, off || val & 0x04 != 0);
      var level := if off || val & 0xc0 == 0x00 then 1
                   else if val & 0xc0 == 0x40 then 4 else if val & 0xc0 == 0x80 then 8 else 14;
      regs := regs.(fifo := !off, trigger := level);
    }

    method ClearFifos(receive: bool, transmit: bool)
      requires Sound() && Drained() && Settled()
      modifies this`lsr, this`regs, this`txHead, this`txTail, this`txCnt, rx
      ensures Sound() && Drained() && Settled() && Empty() == old(Empty())
      ensures View() == if receive then ClearFifo(old(View())) else old(View())
      ensures regs == old(regs).(thre := old(regs).thre || transmit)
      ensures if transmit then txHead == txTail else txHead == old(txHead) && txTail == old(txTail)
    {
      if receive {
        ClearRx();
      }
      if transmit {
        ClearTx();
      }
    }

    /** `uart_io_write`: the receive path is as the register write leaves it, and with a console
        every transmitted byte is handed over once, in order. */
    method IoWrite(reg: nat, val: octet)
      requires Valid()
      modifies this`regs, this`lsr
      modifies this`sent, this`errors, this`txHead, this`txTail, this`txCnt, this`level, this`driven, txBuf, rx, rx.buf
      ensures Valid() && At() == AfterWrite(old(At()), reg, val)
      ensures StoresPlain(old(regs), reg, val, regs) && StoresEnables(old(regs), reg, val, regs)
      ensures StoresMode(old(regs), reg, val, regs) && Pends(old(regs), reg, val, regs)
      ensures sent == if old(Sends(reg, regs.lcr, regs.mcr)) && console then old(sent) + [val] else old(sent)
      ensures old(txHead == txTail) ==> (txHead == txTail <==> console || !old(Sends(reg, regs.lcr, regs.mcr)))
      ensures reg == 2 && ClearsTx(val) ==> txHead == txTail
      ensures old(TimeoutHasByte()) ==> (TimeoutHasByte() <==> !(reg == 2 && ClearsRx(val) && old(timeout)))
      ensures driven == Driven(old(driven), level)
    {
      WriteKeepsBytes(View(), reg, val, regs.lcr, regs.mcr);
      if HasByte(At()) {
        WriteKeepsByte(At(), reg, val);
      }
      RegWrite(reg, val);
      assert Held();
      UpdateIrq();
      WritesReach(old(regs), reg, val);
    }

    /** The copy loop of `uart_rx_cb`, up to the first byte that does not fit. */
    method QueueBatch(bytes: seq<octet>)
      requires Sound()
      modifies this`lsr, backlog, backlog.buf
      ensures Sound() && View() == Queue(old(View()), bytes, 0) && Empty() == old(Empty())
    {
      ghost var v := View();
      var i := 0;
      while i < |bytes|
        invariant i <= |bytes| && Sound() && Empty() == old(Empty())
        invariant Queue(View(), bytes, i) == Queue(v, bytes, 0)
      {
        if backlog.cnt >= BACKLOG_SIZE {
          lsr := lsr.(overrun := true);
          return;
        }
        backlog.Put(bytes[i]);
        i := i + 1;
      }
    }

    /** Pause the host at the high watermark. */
    method PauseHost()
      requires Sound()
      modifies this`paused, this`hostEnabled, this`errors
      ensures Sound() && View() == Pause(old(View()))
      ensures errors == old(errors) + (if !old(paused) && backlog.cnt >= HIGH_WATERMARK && !bound then 1 else 0)
    {
      if !paused && backlog.cnt >= HIGH_WATERMARK {
        if bound {
          hostEnabled, paused := false, true;
        } else {
          errors := errors + 1;
        }
      }
    }

    /** `uart_rx_cb`, called only while the console is bound: a byte that arrives while bit 0 is enabled raises
        the line. */
    method RxCallback(bytes: seq<octet>)
      requires Valid() && bound
      modifies this`lsr, this`timeout, this`level, this`driven, this`paused, this`hostEnabled, this`errors, rx, rx.buf
      modifies backlog, backlog.buf
      ensures Valid() && At() == AfterBatch(old(At()), bytes)
      ensures old(TimeoutHasByte()) ==> TimeoutHasByte()
      ensures driven == if bytes == [] then old(driven) else Driven(old(driven), level)
      ensures bytes != [] && regs.ier.data ==> level
    {
      if bytes == [] {
        return;
      }
      ghost var p := At();
      if HasByte(p) {
        BatchKeepsByte(p, bytes);
      }
      Absorb(bytes);
      UpdateIrq();
    }

    /** The batch without the line: a byte that arrives while bit 0 is enabled is announced. */
    method Absorb(bytes: seq<octet>)
      requires Held() && bound && bytes != []
      modifies this`lsr, this`timeout, this`paused, this`hostEnabled, this`errors, rx, rx.buf, backlog, backlog.buf
      ensures Held() && At() == AfterBatch(old(At()), bytes)
      ensures regs.ier.data ==> Interrupting()
    {
      ghost var p := At();
      ReceiveSane(p.v, bytes);
      if regs.ier.data {
        ArrivalPends(p, bytes);
      }
      TakeIn(bytes);
    }

    method TakeIn(bytes: seq<octet>)
      requires Sound() && bytes != []
      modifies this`lsr, this`timeout, this`paused, this`hostEnabled, this`errors, rx, rx.buf, backlog, backlog.buf
      ensures Sound() && At() == AfterBatch(old(At()), bytes) && Empty() == old(Empty())
    {
      QueueBatch(bytes);
      PauseHost();
      RefillRx();
    }

    /** `uart_stop`: the binding is closed and gone. */
    method Stop()
      requires Valid()
      modifies this`bound
      ensures Valid() && View() == old(View()).(bound := false)
    {
      bound := false;
    }
  }

  /** Up to 16 bytes that reach an empty receive path are in the FIFO at once. */
  lemma FirstBytes(v: Rx, bytes: seq<octet>)
    requires v.fifo == [] && v.backlog == [] && !v.paused && 0 < |bytes| <= 16
    ensures Moves(Pause(Queue(v, bytes, 0))) && Receive(v, bytes) == v.(fifo := bytes)
  {
    QueueWhole(v, bytes, 0);
    var a := Pause(Queue(v, bytes, 0));
    MoveKeepsBytes(a);
    var r := Move(a);
    assert [] + bytes[0..] == bytes && a.fifo + a.backlog == bytes;
    assert |r.fifo + r.backlog| == |bytes|;
    assert r.fifo + [] == r.fifo;
  }

  /** Both departures can be reached from reset. With the FIFO on and trigger level 4, one byte arrives
      and its timeout becomes pending; the guest clears the receive FIFO and the timeout is still
      pending. */
  method TimeoutOutlivesByte(c: octet) returns (u: Uart16550)
    ensures fresh(u) && u.Valid() && u.timeout && u.rx.contents == []
  {
    u := new Uart16550(true);
    u.IoWrite(2, 0x41);
    FirstBytes(u.View(), [c]);
    u.RxCallback([c]);
    u.IoWrite(2, 0x43);
  }

  /** Without a console one transmitted byte makes the indices differ, until a transmit FIFO clear. */
  method IndicesDrift(c: octet) returns (u: Uart16550)
    ensures fresh(u) && u.Valid() && u.txHead != u.txTail
  {
    u := new Uart16550(false);
    u.IoWrite(0, c);
  }
}
