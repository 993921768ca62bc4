/** What the UART's receive path does to the bytes it holds, as functions of their abstract
    value; `Uart` proves its ring-buffer code equal to them. */
module UartReceive {
  import opened ByteRing

  const FIFO_SIZE: nat := 16
  const BACKLOG_SIZE: nat := 256
  const HIGH_WATERMARK: nat := 192
  const LOW_WATERMARK: nat := 64
  /** The receive limit that the UART passes when it binds the console. */
  const BATCH_LIMIT: nat := BACKLOG_SIZE - HIGH_WATERMARK

  /** `bound` says that the UART owns the console's receive binding, so that pause and resume
      succeed; `overrun` is the overrun bit of the line status register. */
  datatype Rx = Rx(fifo: seq<octet>, backlog: seq<octet>, paused: bool, overrun: bool, bound: bool)

  const Reset := Rx([], [], false, false, false)

  ghost predicate Sane(v: Rx) {
    |v.fifo| <= FIFO_SIZE && |v.backlog| <= BACKLOG_SIZE && (!v.paused ==> |v.backlog| < HIGH_WATERMARK)
  }

  function PushFifo(v: Rx, c: octet): Rx {
    if |v.fifo| >= FIFO_SIZE then v.(overrun := true) else v.(fifo := v.fifo + [c])
  }

  function PopFifo(v: Rx): Rx {
    if v.fifo == [] then v else v.(fifo := v.fifo[1..])
  }

  /** What a read of the receive register returns. */
  function Front(v: Rx): octet {
    if v.fifo == [] then 0 else v.fifo[0]
  }

  function ClearFifo(v: Rx): Rx {
    v.(fifo := [], overrun := false)
  }

  /** A refill has something to move. */
  predicate Moves(v: Rx) {
    v.backlog != [] && |v.fifo| < FIFO_SIZE
  }

  /** Move backlog to the FIFO, byte by byte, as far as it fits. */
  function Move(v: Rx): (r: Rx)
    requires |v.fifo| <= FIFO_SIZE
    ensures |r.fifo| <= FIFO_SIZE && r.paused == v.paused && r.overrun == v.overrun && r.bound == v.bound
    decreases |v.backlog|
  {
    if Moves(v) then Move(MoveOne(v)) else v
  }

  function MoveOne(v: Rx): Rx
    requires Moves(v)
  {
    v.(fifo := v.fifo + [v.backlog[0]], backlog := v.backlog[1..])
  }

  /** Resume the host below the low watermark. */
  function Resume(v: Rx): Rx {
    v.(paused := v.paused && !(|v.backlog| < LOW_WATERMARK && v.bound))
  }

  function Refill(v: Rx): Rx
    requires |v.fifo| <= FIFO_SIZE
  {
    Resume(Move(v))
  }

  /** Queue the bytes of a batch from index `i` on, up to the first that does not fit. */
  function Queue(v: Rx, bytes: seq<octet>, i: nat): (r: Rx)
    requires i <= |bytes| && |v.backlog| <= BACKLOG_SIZE
    ensures |r.backlog| <= BACKLOG_SIZE && r.fifo == v.fifo && r.paused == v.paused && r.bound == v.bound
    decreases |bytes| - i
  {
    if i == |bytes| then v
    else if |v.backlog| >= BACKLOG_SIZE then v.(overrun := true)
    else Queue(v.(backlog := v.backlog + [bytes[i]]), bytes, i + 1)
  }

  /** A batch that fits is queued whole, and only such a batch. */
  lemma {:induction false} QueueWhole(v: Rx, bytes: seq<octet>, i: nat)
    requires i <= |bytes| && |v.backlog| <= BACKLOG_SIZE
    ensures |v.backlog| + (|bytes| - i) <= BACKLOG_SIZE ==> Queue(v, bytes, i) == v.(backlog := v.backlog + bytes[i..])
    ensures |v.backlog| + (|bytes| - i) > BACKLOG_SIZE ==>
      Queue(v, bytes, i).overrun && |Queue(v, bytes, i).backlog| == BACKLOG_SIZE
    decreases |bytes| - i
  {
    if i == |bytes| {
      assert v.backlog + bytes[i..] == v.backlog;
    } else if |v.backlog| < BACKLOG_SIZE {
      QueueWhole(v.(backlog := v.backlog + [bytes[i]]), bytes, i + 1);
      assert v.backlog + [bytes[i]] + bytes[i + 1..] == v.backlog + bytes[i..];
    }
  }

  /** Pause the host at the high watermark. */
  function Pause(v: Rx): Rx {
    v.(paused := v.paused || (|v.backlog| >= HIGH_WATERMARK && v.bound))
  }

  function Receive(v: Rx, bytes: seq<octet>): Rx
    requires |v.fifo| <= FIFO_SIZE && |v.backlog| <= BACKLOG_SIZE
  {
    if bytes == [] then v else Refill(Pause(Queue(v, bytes, 0)))
  }

  const DLAB: octet := 0x80
  const LOOP: octet := 0x10

  /** What a register read does to the receive path before the refill that follows it. */
  function ReadEffect(v: Rx, reg: nat, lcr: octet): Rx {
    if reg == 0 && lcr & DLAB == 0 then PopFifo(v)
    else if reg == 5 then v.(overrun := false)
    else v
  }

  /** The effect of a guest register read on the receive path. */
  function Read(v: Rx, reg: nat, lcr: octet): Rx
    requires |v.fifo| <= FIFO_SIZE
  {
    Refill(ReadEffect(v, reg, lcr))
  }

  lemma ReadSane(v: Rx, reg: nat, lcr: octet)
    requires Sane(v)
    ensures Sane(Read(v, reg, lcr))
  {
    MoveKeepsBytes(ReadEffect(v, reg, lcr));
  }

  lemma ReceiveSane(v: Rx, bytes: seq<octet>)
    requires Sane(v) && v.bound
    ensures Sane(Receive(v, bytes))
  {
    MoveKeepsBytes(Pause(Queue(v, bytes, 0)));
  }

  /** The values that the receive and line status registers show. */
  predicate ReadValue(v: Rx, reg: nat, lcr: octet, val: octet) {
    && (reg == 0 && lcr & DLAB == 0 ==> val == Front(v))
    && (reg == 5 ==> (val & 0x01 != 0 <==> v.fifo != []) && (val & 0x02 != 0 <==> v.overrun))
  }

  /** The effect of a guest register write on the receive path. */
  function Write(v: Rx, reg: nat, val: octet, lcr: octet, mcr: octet): Rx {
    if reg == 0 && lcr & DLAB == 0 && mcr & LOOP != 0 then PushFifo(v, val)
    else if reg == 2 && (val & 0x01 == 0 || val & 0x02 != 0) then ClearFifo(v)
    else v
  }

  /** The byte a register read takes from the FIFO, if any. */
  function TakenBy(v: Rx, reg: nat, lcr: octet): seq<octet> {
    if reg == 0 && lcr & DLAB == 0 && v.fifo != [] then [v.fifo[0]] else []
  }

  /** The bytes held stay the same, in order, and the FIFO ends full or the backlog empty. */
  lemma {:induction false} MoveKeepsBytes(v: Rx)
    requires |v.fifo| <= FIFO_SIZE
    ensures var r := Move(v);
      && r.fifo + r.backlog == v.fifo + v.backlog && |r.backlog| <= |v.backlog| && !Moves(r)
      && (|v.backlog| >= HIGH_WATERMARK ==> |r.backlog| >= HIGH_WATERMARK - FIFO_SIZE)
    decreases |v.backlog|
  {
    if !Moves(v) {
    } else {
      MoveKeepsBytes(MoveOne(v));
      FirstOver(v.fifo, v.backlog);
      assert |Move(v).fifo + Move(v).backlog| == |v.fifo + v.backlog|;
    }
  }

  lemma FirstOver(a: seq<octet>, b: seq<octet>)
    requires b != []
    ensures a + [b[0]] + b[1..] == a + b
  {}

  // ----- no byte is lost

  /** While the host may deliver, a batch within the limit fits: nothing is dropped, the order is
      kept, and no overrun is reported. */
  lemma BatchFits(v: Rx, bytes: seq<octet>)
    requires Sane(v) && !v.paused && v.bound && |bytes| <= BATCH_LIMIT
    ensures var r := Receive(v, bytes);
      Sane(r) && r.fifo + r.backlog == v.fifo + v.backlog + bytes && r.overrun == v.overrun
  {
    if bytes != [] {
      var a := Pause(Queue(v, bytes, 0));
      QueueWhole(v, bytes, 0);
      assert bytes[0..] == bytes;
      RefillKeepsBytes(a);
      assert v.fifo + (v.backlog + bytes) == v.fifo + v.backlog + bytes;
    }
  }

  lemma RefillKeepsBytes(v: Rx)
    requires |v.fifo| <= FIFO_SIZE && |v.backlog| <= BACKLOG_SIZE
    ensures var r := Refill(v);
      && r.fifo + r.backlog == v.fifo + v.backlog && r.overrun == v.overrun && r.bound == v.bound
      && |r.fifo| <= FIFO_SIZE && |r.backlog| <= |v.backlog|
      && ((v.paused || |v.backlog| < HIGH_WATERMARK) ==> Sane(r))
  {
    MoveKeepsBytes(v);
  }

  /** A register read gives the guest the oldest byte and keeps the rest in order. */
  lemma ReadTakesOldest(v: Rx, reg: nat, lcr: octet)
    requires Sane(v)
    ensures var r := Read(v, reg, lcr);
      Sane(r) && TakenBy(v, reg, lcr) + (r.fifo + r.backlog) == v.fifo + v.backlog && r.bound == v.bound
  {
    if reg == 0 && lcr & DLAB == 0 {
      RefillKeepsBytes(PopFifo(v));
      FirstOut(v.fifo, v.backlog);
    } else {
      RefillKeepsBytes(if reg == 5 then v.(overrun := false) else v);
    }
  }

  lemma FirstOut(a: seq<octet>, b: seq<octet>)
    ensures a != [] ==> [a[0]] + (a[1..] + b) == a + b
  {}

  /** A register write changes the bytes held only by a FIFO clear or in loopback. */
  lemma WriteKeepsBytes(v: Rx, reg: nat, val: octet, lcr: octet, mcr: octet)
    requires Sane(v)
    ensures Sane(Write(v, reg, val, lcr, mcr)) && Write(v, reg, val, lcr, mcr).backlog == v.backlog
    ensures Write(v, reg, val, lcr, mcr).fifo != v.fifo ==>
      (reg == 0 && mcr & LOOP != 0) || (reg == 2 && (val & 0x01 == 0 || val & 0x02 != 0))
  {}

  /** After any refill the FIFO holds the oldest 16 bytes, or all of them. */
  lemma FifoIsFull(v: Rx)
    requires |v.fifo| <= 16 && |v.backlog| <= 256
    ensures |Refill(v).fifo| == if |v.fifo| + |v.backlog| < 16 then |v.fifo| + |v.backlog| else 16
    ensures Refill(v).fifo <= v.fifo + v.backlog
  {
    MoveKeepsBytes(v);
    var r := Move(v);
    assert |r.fifo + r.backlog| == |v.fifo + v.backlog|;
    assert r.fifo == (r.fifo + r.backlog)[..|r.fifo|];
  }

  /** A batch pauses the host exactly when 192 bytes or more wait behind the FIFO, and a read resumes it exactly
      when fewer than 64 are left. */
  lemma Watermarks(v: Rx, bytes: seq<octet>, reg: nat, lcr: octet)
    requires Sane(v) && v.bound && |bytes| <= 64
    ensures !v.paused ==> (Receive(v, bytes).paused <==> |v.backlog| + |bytes| >= 192)
    ensures Read(v, reg, lcr).paused <==> v.paused && |Read(v, reg, lcr).backlog| >= 64
  {
    QueueWhole(v, bytes, 0);
    MoveKeepsBytes(Pause(Queue(v, bytes, 0)));
  }

  function ReadMany(v: Rx, n: nat): Rx
    requires Sane(v)
    decreases n
  {
    if n == 0 then v else
      ReadTakesOldest(v, 0, 0);
      ReadMany(Read(v, 0, 0), n - 1)
  }

  /** Reads of the receive register needed to drain the UART, and one more before the first byte
      reaches an empty FIFO. */
  function ToDrain(v: Rx): nat {
    |v.fifo| + |v.backlog| + if v.fifo == [] && v.backlog != [] then 1 else 0
  }

  /** A guest that keeps reading always gets the host resumed. */
  lemma {:induction false} ReadsResume(v: Rx, n: nat)
    requires Sane(v) && v.bound && n > ToDrain(v)
    ensures !ReadMany(v, n).paused
    decreases n
  {
    ReadTakesOldest(v, 0, 0);
    MoveKeepsBytes(ReadEffect(v, 0, 0));
    var r := Read(v, 0, 0);
    if r.paused {
      assert |r.fifo + r.backlog| + |TakenBy(v, 0, 0)| == |v.fifo + v.backlog|;
      ReadsResume(r, n - 1);
    } else {
      StaysResumed(r, n - 1);
    }
  }

  lemma {:induction false} StaysResumed(v: Rx, n: nat)
    requires Sane(v) && !v.paused
    ensures !ReadMany(v, n).paused
    decreases n
  {
    if n == 0 {
    } else {
      ReadTakesOldest(v, 0, 0);
      StaysResumed(Read(v, 0, 0), n - 1);
    }
  }
}
