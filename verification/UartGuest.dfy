/** What a guest sees of the UART: short register programs from power-on, with the values of the datasheet. */
module UartGuest {
  import opened ByteRing
  import opened UartReceive
  import opened Uart

  /** The enable register gives back the four bits written to it, whatever the UART did before. */
  method EnablesReadBack(u: Uart16550, v: octet) returns (val: octet)
    requires u.Valid() && u.regs.lcr & 0x80 == 0
    modifies u, u.rx, u.rx.buf, u.backlog, u.txBuf
    ensures u.Valid() && val == v & 0x0f
  {
    ghost var mid: bool;
    u.IoWrite(1, v);
    EnablesRoundTrip(v);
    val, mid := u.IoRead(1);
  }

  /** Enabling the transmit interrupt makes it pending; the identification register shows it once. */
  lemma TransmitInterrupt(console: bool)
    ensures var p := AfterWrite(PowerOn(console), 1, 0x02);
      && Shown(p) != NoSource && Shows(p, 2) == 0x02
      && Shown(AfterRead(p, 2)) == NoSource && Shows(AfterRead(p, 2), 2) == 0x01
  {}

  /** Without FIFO mode one byte shows as data ready and is read once. */
  lemma ReceiveInterrupt(c: octet)
    ensures var p := AfterBatch(AfterWrite(PowerOn(true), 1, 0x01), [c]);
      && Shown(p) != NoSource && Shows(p, 2) == 0x04 && Shows(p, 5) == 0x61 && Shows(p, 0) == c
      && Shown(AfterRead(p, 0)) == NoSource && Shows(AfterRead(p, 0), 5) == 0x60
  {
    FirstBytes(PowerOn(true).v, [c]);
  }

  /** The trigger level that a FIFO control value selects in its two high bits. */
  function Level(fcr: octet): nat {
    if fcr < 0x40 then 1 else if fcr < 0x80 then 4 else if fcr < 0xc0 then 8 else 14
  }

  /** In FIFO mode a batch shows as data ready from the trigger level on, and as a timeout below it. */
  lemma TriggerShows(fcr: octet, bytes: seq<octet>)
    requires fcr & 0x01 != 0 && 0 < |bytes| <= 16
    ensures var p := AfterBatch(AfterWrite(AfterWrite(PowerOn(true), 2, fcr), 1, 0x01), bytes);
      && p.v.fifo == bytes && (p.timeout <==> |bytes| < Level(fcr))
      && Shows(p, 2) == if |bytes| < Level(fcr) then 0xcc else 0xc4
  {
    var p := AfterWrite(AfterWrite(PowerOn(true), 2, fcr), 1, 0x01);
    ModeStored(PowerOn(true).r, 2, fcr);
    FirstBytes(p.v, bytes);
    ArrivalPends(p, bytes);
  }

  /** With the divisor latch bit set registers 0 and 1 are the divisor, and nothing is enabled. */
  lemma DivisorLatch(low: octet, high: octet)
    ensures var p := AfterWrite(AfterWrite(AfterWrite(PowerOn(true), 3, 0x83), 0, low), 1, high);
      && Shows(p, 0) == low && Shows(p, 1) == high && Shows(AfterWrite(p, 3, 0x03), 1) == 0
  {}

  /** In loopback a byte written is received. */
  lemma Loopback(c: octet)
    ensures Shows(AfterWrite(AfterWrite(PowerOn(true), 4, 0x10), 0, c), 0) == c
    ensures AfterWrite(PowerOn(true), 0, c).v == PowerOn(true).v
  {}

  /** Register 2 clears the receive FIFO exactly with bit 1, or when the mode is switched off. */
  lemma ClearShows(c: octet, fcr: octet)
    ensures var p := AfterBatch(PowerOn(true), [c]);
      Shows(AfterWrite(p, 2, fcr), 5) == if fcr & 0x03 == 0x01 then 0x61 else 0x60
  {
    FirstBytes(PowerOn(true).v, [c]);
  }

  /** A byte that meets a full FIFO in loopback is an overrun: bit 1 of the line status, identifier 6, until read. */
  lemma OverrunShows(p: Port, c: octet)
    requires Sane(p.v) && |p.v.fifo| == 16 && p.r.lcr & 0x80 == 0 && p.r.mcr & 0x10 != 0 && p.r.ier.line
    ensures var q := AfterWrite(p, 0, c);
      && q.v.fifo == p.v.fifo && Shows(q, 5) & 0x02 != 0 && Shows(q, 2) & 0x3f == 0x06
      && Shows(AfterRead(q, 5), 5) & 0x02 == 0
  {}

  /** A break is looped back, and reading the line status ends it. */
  lemma BreakShows()
    ensures var p := AfterWrite(AfterWrite(AfterWrite(PowerOn(true), 4, 0x10), 1, 0x04), 3, 0x40);
      && Shows(p, 2) == 0x06 && Shows(p, 5) == 0x70
      && Shown(AfterRead(p, 5)) == NoSource && Shows(AfterRead(p, 5), 5) == 0x60
    ensures Shows(AfterWrite(PowerOn(true), 3, 0x40), 5) == 0x60
  {}

  /** In loopback the modem outputs come back as inputs, and a change of the inputs is an interrupt until read. */
  lemma ModemShows()
    ensures Shows(PowerOn(true), 6) == 0xb0
    ensures var p := AfterWrite(AfterWrite(PowerOn(true), 1, 0x08), 4, 0x1f);
      && Shows(p, 6) == 0xf0 && Shown(p) == NoSource
      && var q := AfterWrite(p, 4, 0x10);
      && Shows(q, 6) == 0x0f && Shows(q, 2) == 0x00
      && Shows(AfterRead(q, 6), 6) == 0x00 && Shown(AfterRead(q, 6)) == NoSource
      && Shows(AfterWrite(AfterRead(q, 6), 4, 0x11), 6) == 0x22
  {}

  lemma ModemWires()
    ensures Shows(AfterWrite(PowerOn(true), 4, 0x11), 6) == 0x29
    ensures Shows(AfterWrite(PowerOn(true), 4, 0x12), 6) == 0x1a
    ensures Shows(AfterWrite(PowerOn(true), 4, 0x14), 6) == 0x4b
    ensures Shows(AfterWrite(PowerOn(true), 4, 0x18), 6) == 0x83
    ensures Shows(AfterWrite(PowerOn(true), 4, 0x0f), 6) == 0xb0
  {}

  /** Registers 3, 4 and 7 give back what was written, register 4 its five bits; numbers above 7 give all ones. */
  lemma PlainShows(p: Port, val: octet, reg: nat)
    ensures Shows(AfterWrite(p, 3, val), 3) == val && Shows(AfterWrite(p, 4, val), 4) == val & 0x1f
    ensures Shows(AfterWrite(p, 7, val), 7) == val
    ensures reg > 7 ==> Shows(p, reg) == 0xff && AfterWrite(p, reg, val) == p
  {}
}
