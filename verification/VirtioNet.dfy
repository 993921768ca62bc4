/** The network device of `src/hw/virtio/virtio_net.c`: its transmit, control and receive paths over
    the virtqueues (section 5.1.6 of VIRTIO 1.0). */
module VirtioNet {
  import opened GuestMemory
  import opened Streams
  import opened Virtqueues
  import opened VirtioStatus
  import opened QueueTurns
  import opened PowersOfTwo

  /** The fixed header that precedes every frame. */
  const HEADER: seq<byte> := [0, 0, 0, 0, 0, 0, 0, 0, 0, 0, 1, 0]
  const HEADER_SIZE: nat := 12
  const MAX_FRAME: nat := 65550
  const CTRL_OK: byte := 0
  const CTRL_ERR: byte := 1
  const CTRL_MAC: byte := 1
  const MAC_ADDR_SET: byte := 1
  const MAC_SIZE: nat := 6

  predicate Sendable(chain: Chain) {
    chain.writable == 0 && HEADER_SIZE < chain.readable <= HEADER_SIZE + MAX_FRAME
  }

  /** The readable stream of an accepted chain from `offset` on. */
  ghost predicate ReadsFrom(mem: Mem, chain: Chain, offset: nat, data: seq<byte>) {
    && offset + |data| == |Stream(chain.bufs, false)|
    && (forall a :: a in Slice(chain.bufs, false, offset, |data|) ==> a in mem)
    && data == ReadAll(mem, Slice(chain.bufs, false, offset, |data|))
  }

  /** The frame of a transmit chain: the readable stream after the header. */
  method FrameOf(rs: seq<Region>, mem: Mem, chain: Chain) returns (send: bool, frame: seq<byte>)
    requires Layout(rs) && Backed(rs, mem) && ChainOk(rs, chain)
    ensures send <==> Sendable(chain)
    ensures send ==> ReadsFrom(mem, chain, HEADER_SIZE, frame) && 0 < |frame| <= MAX_FRAME
  {
    send, frame := false, [];
    if chain.writable == 0 && chain.readable > HEADER_SIZE && chain.readable - HEADER_SIZE <= MAX_FRAME {
      var length := chain.readable - HEADER_SIZE;
      send, frame := ReadChain(rs, mem, chain, HEADER_SIZE, length);
      assert |frame| == length;
    }
  }

  /** The readable stream is exactly a "set MAC address" command. */
  ghost predicate SetsMac(mem: Mem, chain: Chain) {
    var at := Stream(chain.bufs, false);
    && |at| == 2 + MAC_SIZE && (forall i :: 0 <= i < |at| ==> at[i] in mem)
    && mem[at[0]] == CTRL_MAC && mem[at[1]] == MAC_ADDR_SET
  }

  /** A control command: the address becomes the command's exactly when the feature was negotiated
      and the command is complete. */
  method Command(rs: seq<Region>, mem: Mem, chain: Chain, macFeature: bool, mac: seq<byte>)
    returns (status: byte, mac': seq<byte>)
    requires Layout(rs) && Backed(rs, mem) && ChainOk(rs, chain) && |mac| == MAC_SIZE
    ensures Obeyed(mem, chain, macFeature, mac, status, mac') && |mac'| == MAC_SIZE
  {
    status, mac' := CTRL_ERR, mac;
    if macFeature {
      SliceBacked(rs, mem, chain.bufs, false);
      var ok, hdr := ReadChain(rs, mem, chain, 0, 2);
      if ok && hdr[0] == CTRL_MAC && hdr[1] == MAC_ADDR_SET && chain.readable == 2 + MAC_SIZE {
        var ok2, address := ReadChain(rs, mem, chain, 2, MAC_SIZE);
        if ok2 {
          status, mac' := CTRL_OK, address;
        }
      }
    }
  }

  predicate Receivable(chain: Chain, frame: seq<byte>) {
    chain.readable == 0 && HEADER_SIZE + |frame| <= U32_MAX && HEADER_SIZE + |frame| <= chain.writable
  }

  /** A received frame: header and frame fill the start of the writable stream, or nothing is
      written and the chain goes back with length zero. */
  method Deliver(rs: seq<Region>, mem: Mem, chain: Chain, frame: seq<byte>) returns (written: nat, m: Mem)
    requires Layout(rs) && Backed(rs, mem) && ChainOk(rs, chain)
    ensures Backed(rs, m) && written <= U32_MAX
    ensures if Receivable(chain, frame) then written == HEADER_SIZE + |frame| && m == Filled(mem, chain, HEADER + frame)
            else written == 0 && m == mem
  {
    written, m := 0, mem;
    if chain.readable == 0 && |frame| <= U32_MAX - HEADER_SIZE && chain.writable >= HEADER_SIZE + |frame| {
      m := CopyLoop(rs, mem, chain, 0, HEADER);
      m := CopyLoop(rs, m, chain, HEADER_SIZE, frame);
      FilledInTwo(mem, chain, frame);
      written := HEADER_SIZE + |frame|;
    }
  }

  ghost function Filled(mem: Mem, chain: Chain, data: seq<byte>): Mem
    requires |data| <= |Stream(chain.bufs, true)|
  {
    WriteRange(mem, Stream(chain.bufs, true)[0..|data|], data, 0, |data|)
  }

  lemma FilledInTwo(mem: Mem, chain: Chain, frame: seq<byte>)
    requires HEADER_SIZE + |frame| <= |Stream(chain.bufs, true)|
    ensures WriteRange(WriteRange(mem, Slice(chain.bufs, true, 0, |HEADER|), HEADER, 0, |HEADER|),
                       Slice(chain.bufs, true, HEADER_SIZE, |frame|), frame, 0, |frame|)
         == Filled(mem, chain, HEADER + frame)
  {
    WriteAppend(mem, Stream(chain.bufs, true), HEADER, frame);
  }

  /** Two adjoining writes are one write. */
  lemma WriteAppend(mem: Mem, all: seq<nat>, xs: seq<byte>, ys: seq<byte>)
    requires |xs| + |ys| <= |all|
    ensures WriteRange(WriteRange(mem, all[0..0 + |xs|], xs, 0, |xs|), all[|xs|..|xs| + |ys|], ys, 0, |ys|)
         == WriteRange(mem, all[0..|xs + ys|], xs + ys, 0, |xs + ys|)
  {
    Aligned(all, xs, ys);
    WriteJoined(mem, all[0..|xs + ys|], xs + ys, all[0..0 + |xs|], xs, all[|xs|..|xs| + |ys|], ys);
  }

  lemma WriteJoined(mem: Mem, at: seq<nat>, bs: seq<byte>, head: seq<nat>, xs: seq<byte>, tail: seq<nat>, ys: seq<byte>)
    requires |at| == |bs| == |xs| + |ys| && |head| == |xs| && |tail| == |ys|
    requires forall i :: 0 <= i < |xs| ==> head[i] == at[0 + i] && xs[i] == bs[0 + i]
    requires forall i :: 0 <= i < |ys| ==> tail[i] == at[|xs| + i] && ys[i] == bs[|xs| + i]
    ensures WriteRange(WriteRange(mem, head, xs, 0, |xs|), tail, ys, 0, |ys|) == WriteRange(mem, at, bs, 0, |bs|)
  {
    WriteSplit(mem, at, bs, 0, |xs|, |bs|);
    WriteShift(mem, at, bs, 0, head, xs, |xs|);
    WriteShift(WriteRange(mem, at, bs, 0, |xs|), at, bs, |xs|, tail, ys, |ys|);
  }

  lemma Aligned(all: seq<nat>, xs: seq<byte>, ys: seq<byte>)
    requires |xs| + |ys| <= |all|
    ensures forall i :: 0 <= i < |xs| ==> all[0..0 + |xs|][i] == all[0..|xs + ys|][0 + i] && xs[i] == (xs + ys)[0 + i]
    ensures forall i :: 0 <= i < |ys| ==>
      all[|xs|..|xs| + |ys|][i] == all[0..|xs + ys|][|xs| + i] && ys[i] == (xs + ys)[|xs| + i]
  {}

  lemma {:induction false} WriteShift(mem: Mem, at: seq<nat>, bs: seq<byte>, p: nat, at': seq<nat>, bs': seq<byte>,
                                      n: nat)
    requires p + n <= |at| && p + n <= |bs| && n <= |at'| && n <= |bs'|
    requires forall i :: 0 <= i < n ==> at'[i] == at[p + i] && bs'[i] == bs[p + i]
    ensures WriteRange(mem, at, bs, p, p + n) == WriteRange(mem, at', bs', 0, n)
  {
    if n == 0 {
    } else {
      WriteShift(mem, at, bs, p, at', bs', n - 1);
    }
  }

  // ----- the queue handlers

  /** The device's own state: the frames offered to the host so far and the MAC address. */
  datatype Link = Link(sent: seq<seq<byte>>, mac: seq<byte>)

  /** What the device does with the chains of a queue. */
  datatype Duty = Transmit | Control(macFeature: bool) | Receive(frame: seq<byte>)

  /** What was done with a chain: its frame was offered or it had none, its command was answered with a
      status, or it took a frame or was too small. */
  datatype Deed = Offer | Reply(status: byte) | Fill

  /** The frame of a chain that has one is offered to the host after the earlier ones. */
  ghost predicate Offered(mem: Mem, chain: Chain, sent: seq<seq<byte>>, sent': seq<seq<byte>>) {
    if Sendable(chain) then
      |sent'| == |sent| + 1 && sent'[..|sent|] == sent && ReadsFrom(mem, chain, HEADER_SIZE, sent'[|sent|])
    else sent' == sent
  }

  /** The answer to a control command. */
  ghost predicate Obeyed(mem: Mem, chain: Chain, macFeature: bool, mac: seq<byte>, status: byte, mac': seq<byte>) {
    if macFeature && SetsMac(mem, chain)
    then status == CTRL_OK && mac' == ReadAll(mem, Slice(chain.bufs, false, 2, MAC_SIZE))
    else status == CTRL_ERR && mac' == mac
  }

  /** The bytes a received frame puts into a chain, header included: all or none. */
  function Fits(chain: Chain, frame: seq<byte>): nat {
    if Receivable(chain, frame) then HEADER_SIZE + |frame| else 0
  }

  /** The right way to serve `chain` as push number `pushes`. */
  ghost predicate Served(duty: Duty, c: Config, pushes: nat, mem: Mem, chain: Chain, l: Link, e: Deed, l': Link,
                         after: Mem)
    requires c.rings.Rings? && c.size > 0 && chain.head < 0x1_0000 && chain.writable == |Stream(chain.bufs, true)|
  {
    match duty
    case Transmit =>
      && e == Offer && Offered(mem, chain, l.sent, l'.sent) && l'.mac == l.mac
      && after == Pushed(mem, c.rings, c.size, pushes, chain.head, 0)
    case Control(macFeature) =>
      && l'.sent == l.sent && chain.writable > 0 && e.Reply? && Obeyed(mem, chain, macFeature, l.mac, e.status, l'.mac)
      && after == Returned(chain, mem, e.status, 0, c.rings, c.size, pushes)
    case Receive(frame) =>
      && e == Fill && l' == l
      && after == Pushed(if Receivable(chain, frame) then Filled(mem, chain, HEADER + frame) else mem,
                         c.rings, c.size, pushes, chain.head, Fits(chain, frame))
  }

  /** A chain is served as its queue demands; only a command without room for a status stops the
      handler. */
  ghost predicate Right(duty: Duty, c: Config, t: Turn<Link, Deed>) {
    if t.Stopping? then t.end.NoStatus? ==> duty.Control? && t.end.chain.writable == 0
    else
      && c.rings.Rings? && c.size > 0 && t.chain.head < 0x1_0000 && t.chain.writable == |Stream(t.chain.bufs, true)|
      && Served(duty, c, t.from.pushes, t.before, t.chain, t.from.own, t.e, t.own, t.after)
  }

  ghost function Rule(duty: Duty, c: Config): Turn<Link, Deed> -> bool {
    t => Right(duty, c, t)
  }

  /** The handlers' histories are determined by the ring and the guest's writes. */
  lemma RuleIsFunctional(duty: Duty, c: Config)
    ensures Functional(Rule(duty, c))
  {
    forall t, u | Rule(duty, c)(t) && Rule(duty, c)(u) && SamePop(t, u)
      ensures t == u
    {
      if t.Serving? && u.Serving? && duty.Transmit? {
        OfferedOne(t.before, t.chain, t.from.own.sent, t.own.sent);
        OfferedOne(u.before, u.chain, u.from.own.sent, u.own.sent);
      }
    }
  }

  /** Over all turns, the frames that the transmitter offers are those of the chains it served, in
      order; the other queues offer none. */
  lemma {:induction false} FramesInOrder(rs: seq<Region>, c: Config, duty: Duty, s: Stand<Link>,
                                         turns: Turns<Link, Deed>)
    requires TurnsOk(rs, c, Rule(duty, c), s, turns)
    ensures After(turns, s).own.sent == s.own.sent + if duty.Transmit? then FramesOf(turns) else []
  {
    if turns.NoTurn? {
    } else {
      LastTurn(rs, c, Rule(duty, c), s, turns);
      FramesInOrder(rs, c, duty, s, turns.past);
      LastFrames(duty, c, turns.last);
    }
  }

  lemma LastFrames(duty: Duty, c: Config, t: Turn<Link, Deed>)
    requires Right(duty, c, t)
    ensures StandAfter(t).own.sent
         == t.from.own.sent + if t.Serving? && duty.Transmit? then FrameIn(t.before, t.chain) else []
  {
    if t.Serving? && duty.Transmit? {
      OfferedOne(t.before, t.chain, t.from.own.sent, t.own.sent);
    }
  }

  lemma OfferedOne(mem: Mem, chain: Chain, sent: seq<seq<byte>>, sent': seq<seq<byte>>)
    requires Offered(mem, chain, sent, sent')
    ensures sent' == sent + FrameIn(mem, chain)
  {
    if Sendable(chain) {
      var n := |sent|;
      FrameIsRead(mem, chain, sent'[n]);
      assert sent' == sent'[..n] + [sent'[n]];
    }
  }

  /** The frames of the chains served, by reading guest memory at the time of each. */
  ghost function FramesOf(turns: Turns<Link, Deed>): seq<seq<byte>> {
    if turns.NoTurn? then []
    else FramesOf(turns.past) + if turns.last.Serving? then FrameIn(turns.last.before, turns.last.chain) else []
  }

  ghost function FrameIn(mem: Mem, chain: Chain): seq<seq<byte>> {
    var at := Stream(chain.bufs, false);
    if Sendable(chain) && HEADER_SIZE <= |at| && forall a :: a in at[HEADER_SIZE..] ==> a in mem
    then [ReadAll(mem, at[HEADER_SIZE..])] else []
  }

  lemma FrameIsRead(mem: Mem, chain: Chain, frame: seq<byte>)
    requires Sendable(chain) && ReadsFrom(mem, chain, HEADER_SIZE, frame)
    ensures FrameIn(mem, chain) == [frame]
  {
    assert Stream(chain.bufs, false)[HEADER_SIZE..] == Slice(chain.bufs, false, HEADER_SIZE, |frame|);
  }

  /** A control queue never changes the address without the feature. */
  lemma {:induction false} AddressIsKept(rs: seq<Region>, c: Config, duty: Duty, s: Stand<Link>,
                                         turns: Turns<Link, Deed>)
    requires TurnsOk(rs, c, Rule(duty, c), s, turns) && duty != Control(true)
    ensures After(turns, s).own.mac == s.own.mac
  {
    if turns.NoTurn? {
    } else {
      LastTurn(rs, c, Rule(duty, c), s, turns);
      AddressIsKept(rs, c, duty, s, turns.past);
      assert Right(duty, c, turns.last);
    }
  }

  /** One turn of a handler, on values: what to store, and the turn. */
  method TakeTurn(rs: seq<Region>, c: Config, duty: Duty, ghost s: Stand<Link>, ghost turns: Turns<Link, Deed>,
                  ghost from: Stand<Link>, mem: Mem, l: Link, broken: bool, lastAvail: nat, lastUsed: nat)
    returns (r: PopResult, served: bool, e: Deed, l': Link, m: Mem, idx: nat, ghost t: Turn<Link, Deed>)
    requires Layout(rs) && Backed(rs, mem) && |l.mac| == MAC_SIZE && PowerOfTwo(c.size) && c.size < 0x1_0000
    requires c.enabled ==> RingsFit(rs, c.size, c.rings)
    requires lastAvail == from.pops % 0x1_0000 && lastUsed == from.pushes % 0x1_0000
    requires from.own == l && from.broken == broken
    requires TurnsOk(rs, c, Rule(duty, c), s, turns) && GoesOn(turns) && After(turns, s) == from
    ensures TurnsOk(rs, c, Rule(duty, c), s, Turned(turns, t)) && (r.Popped? ==> |r.chain.bufs| <= c.size)
    ensures served <==> r.Popped? && (duty.Control? ==> r.chain.writable > 0)
    ensures t == if served then Serving(from, mem, r.chain, e, l', m)
                 else Stopping(from, mem, if r.Nothing? then Drained else if r.Failed? then Jam else NoStatus(r.chain))
    ensures Backed(rs, m) && |l'.mac| == MAC_SIZE && idx == (from.pushes + 1) % 0x1_0000
  {
    WrapSucc(from.pushes);
    r := Take(rs, mem, c, broken, lastAvail, from.pops);
    served := r.Popped? && (duty.Control? ==> r.chain.writable > 0);
    if served {
      e, l', m, idx, t := ServeTurn(rs, c, duty, s, turns, from, mem, l, r.chain, lastUsed);
    } else {
      e, l', m, idx := Offer, l, mem, (lastUsed + 1) % 0x1_0000;
      t := Stopping(from, mem, if r.Nothing? then Drained else if r.Failed? then Jam else NoStatus(r.chain));
      Stops(rs, c, Rule(duty, c), s, turns, t);
    }
  }

  /** A turn that serves `chain`. */
  method ServeTurn(rs: seq<Region>, c: Config, duty: Duty, ghost s: Stand<Link>, ghost turns: Turns<Link, Deed>,
                   ghost from: Stand<Link>, mem: Mem, l: Link, chain: Chain, lastUsed: nat)
    returns (e: Deed, l': Link, m: Mem, idx: nat, ghost t: Turn<Link, Deed>)
    requires Layout(rs) && Backed(rs, mem) && |l.mac| == MAC_SIZE && PowerOfTwo(c.size) && c.size < 0x1_0000
    requires Took(rs, mem, c, from.pops, chain) && (duty.Control? ==> chain.writable > 0)
    requires lastUsed == from.pushes % 0x1_0000 && from.own == l && !from.broken
    requires TurnsOk(rs, c, Rule(duty, c), s, turns) && GoesOn(turns) && After(turns, s) == from
    ensures TurnsOk(rs, c, Rule(duty, c), s, Turned(turns, t)) && t == Serving(from, mem, chain, e, l', m)
    ensures Backed(rs, m) && |l'.mac| == MAC_SIZE && idx == (from.pushes + 1) % 0x1_0000
  {
    e, l', m, idx := Serve(rs, c, duty, mem, l, chain, lastUsed, from.pushes);
    t := ServedTurn(rs, c, duty, from, mem, l, chain, e, l', m);
    OneMore(rs, c, Rule(duty, c), s, turns, t);
  }

  lemma ServedTurn(rs: seq<Region>, c: Config, duty: Duty, from: Stand<Link>, mem: Mem, l: Link, chain: Chain, e: Deed,
                   l': Link, m: Mem)
    returns (t: Turn<Link, Deed>)
    requires !from.broken && from.own == l && Took(rs, mem, c, from.pops, chain)
    requires Served(duty, c, from.pushes, mem, chain, l, e, l', m)
    ensures t == Serving(from, mem, chain, e, l', m) && TurnOk(rs, c, Rule(duty, c), t)
  {
    t := Serving(from, mem, chain, e, l', m);
    assert Right(duty, c, t);
  }

  /** Serve one chain and return it to the driver. */
  method Serve(rs: seq<Region>, c: Config, duty: Duty, mem: Mem, l: Link, chain: Chain, lastUsed: nat,
               ghost pushes: nat)
    returns (e: Deed, l': Link, m: Mem, idx: nat)
    requires Layout(rs) && Backed(rs, mem) && |l.mac| == MAC_SIZE && PowerOfTwo(c.size) && c.size < 0x1_0000
    requires c.rings.Rings? && ChainOk(rs, chain) && chain.head < 0x1_0000 && (duty.Control? ==> chain.writable > 0)
    requires lastUsed == pushes % 0x1_0000
    ensures Served(duty, c, pushes, mem, chain, l, e, l', m)
    ensures Backed(rs, m) && |l'.mac| == MAC_SIZE && idx == (pushes + 1) % 0x1_0000
  {
    match duty
    case Transmit =>
      var sent;
      sent, m, idx := Send(rs, c, mem, l.sent, chain, lastUsed, pushes);
      e, l' := Offer, l.(sent := sent);
    case Control(macFeature) =>
      var status, mac;
      status, mac, m, idx := Answer(rs, c, macFeature, mem, l.mac, chain, lastUsed, pushes);
      e, l' := Reply(status), l.(mac := mac);
    case Receive(frame) =>
      var written, filled := Deliver(rs, mem, chain, frame);
      m, idx := Publish(rs, filled, c.size, c.rings, lastUsed, pushes, chain.head, written);
      e, l' := Fill, l;
  }

  /** Offer the frame of one chain to the host, if it has one, and return the chain. */
  method Send(rs: seq<Region>, c: Config, mem: Mem, sent: seq<seq<byte>>, chain: Chain, lastUsed: nat,
              ghost pushes: nat)
    returns (sent': seq<seq<byte>>, m: Mem, idx: nat)
    requires Layout(rs) && Backed(rs, mem) && PowerOfTwo(c.size) && c.size < 0x1_0000 && lastUsed == pushes % 0x1_0000
    requires c.rings.Rings? && ChainOk(rs, chain) && chain.head < 0x1_0000
    ensures Offered(mem, chain, sent, sent') && m == Pushed(mem, c.rings, c.size, pushes, chain.head, 0)
    ensures Backed(rs, m) && idx == (pushes + 1) % 0x1_0000
  {
    var send, frame := FrameOf(rs, mem, chain);
    sent' := if send then sent + [frame] else sent;
    m, idx := Publish(rs, mem, c.size, c.rings, lastUsed, pushes, chain.head, 0);
  }

  /** Run one control command and return its chain with the status in the last byte. */
  method Answer(rs: seq<Region>, c: Config, macFeature: bool, mem: Mem, mac: seq<byte>, chain: Chain, lastUsed: nat,
                ghost pushes: nat)
    returns (status: byte, mac': seq<byte>, m: Mem, idx: nat)
    requires Layout(rs) && Backed(rs, mem) && PowerOfTwo(c.size) && c.size < 0x1_0000 && lastUsed == pushes % 0x1_0000
    requires c.rings.Rings? && ChainOk(rs, chain) && chain.head < 0x1_0000 && chain.writable > 0 && |mac| == MAC_SIZE
    ensures Obeyed(mem, chain, macFeature, mac, status, mac')
    ensures m == Returned(chain, mem, status, 0, c.rings, c.size, pushes)
    ensures Backed(rs, m) && |mac'| == MAC_SIZE && idx == (pushes + 1) % 0x1_0000
  {
    status, mac' := Command(rs, mem, chain, macFeature, mac);
    m, idx := PutBack(rs, mem, c.size, c.rings, lastUsed, pushes, chain, status, 0);
  }

  /** The driver accepted the control queue, and the command that sets the address on it. */
  predicate HasControl(d: Dev) {
    d.features.lo & 0x2_0000 != 0
  }

  predicate HasSetMac(d: Dev) {
    d.features.lo & 0x80_0000 != 0
  }

  /** They are the feature bits 17 and 23 of the standard. */
  lemma FeatureNumbers(d: Dev)
    ensures HasControl(d) <==> (d.features.lo >> 17) & 1 == 1
    ensures HasSetMac(d) <==> (d.features.lo >> 23) & 1 == 1
  {}

  // ----- the same in bytes

  /** A chain without writable part whose readable part is 12 bytes of header and 1 to 65550 bytes of frame is
      offered without the header; any other chain offers nothing. */
  lemma TransmitTable(mem: Mem, chain: Chain, sent: seq<seq<byte>>, sent': seq<seq<byte>>)
    requires Offered(mem, chain, sent, sent') && chain.readable == |Stream(chain.bufs, false)|
    requires forall a :: a in Stream(chain.bufs, false) ==> a in mem
    ensures sent' == sent +
      if chain.writable == 0 && 12 < chain.readable <= 65562
      then [ReadAll(mem, Stream(chain.bufs, false)[12..])] else []
  {
    OfferedOne(mem, chain, sent, sent');
  }

  /** The only command obeyed has eight bytes: 1, 1 and the address; it is answered with 0, anything else with 1. */
  lemma ControlTable(mem: Mem, chain: Chain, on: bool, mac: seq<byte>, status: byte, mac': seq<byte>)
    requires Obeyed(mem, chain, on, mac, status, mac')
    requires forall a :: a in Stream(chain.bufs, false) ==> a in mem
    ensures var at := Stream(chain.bufs, false);
      if on && |at| == 8 && mem[at[0]] == 1 && mem[at[1]] == 1
      then status == 0 && mac' == ReadAll(mem, at[2..]) else status == 1 && mac' == mac
  {
    var at := Stream(chain.bufs, false);
    if |at| == 8 {
      assert at[2..] == Slice(chain.bufs, false, 2, 6);
    }
  }

  /** A frame goes into a chain without readable part that has room for it and 12 bytes of header, in which only the
      buffer count is not zero; another chain goes back unused. */
  lemma ReceiveTable(c: Config, frame: seq<byte>, t: Turn<Link, Deed>)
    requires Right(Receive(frame), c, t) && t.Serving?
    ensures t.own == t.from.own && t.after ==
      if t.chain.readable == 0 && 12 + |frame| <= 0xffff_ffff && 12 + |frame| <= t.chain.writable
      then Pushed(Filled(t.before, t.chain, [0, 0, 0, 0, 0, 0, 0, 0, 0, 0, 1, 0] + frame), c.rings, c.size,
                  t.from.pushes, t.chain.head, 12 + |frame|)
      else Pushed(t.before, c.rings, c.size, t.from.pushes, t.chain.head, 0)
  {}

  class NetDevice {
    var dev: Dev
    /** The frames offered to the host backend, oldest first, and the address. */
    var link: Link

    constructor (mac: seq<byte>)
      requires |mac| == MAC_SIZE
      ensures dev == Reset && link == Link([], mac)
    {
      dev, link := Reset, Link([], mac);
    }

    ghost predicate Valid(vq: Virtqueue)
      reads this, vq, vq.ram
    {
      vq.Valid() && |link.mac| == MAC_SIZE
    }

    ghost function Now(vq: Virtqueue): Stand<Link>
      reads this, vq
    {
      Stand(vq.pops, vq.pushes, vq.broken, dev, link)
    }

    /** `virtio_net_notify_queue` for queue number `index`: the transmit queue is 1, the control queue 2 is
        served only if it was negotiated, and a kick of the receive queue does nothing. Before turn k the
        guest writes `guest[k]`; the loop takes its turns until one stops it or the guest is silent. */
    method Notify(index: nat, vq: Virtqueue, guest: seq<Mem>) returns (irq: bool, ghost turns: Turns<Link, Deed>)
      requires Valid(vq)
      modifies this`dev, this`link, vq.ram
      modifies vq`bufs, vq`broken, vq`lastAvail, vq`pops, vq`lastUsed, vq`pushes
      ensures Valid(vq)
      ensures var duty := if index == 2 then Control(HasSetMac(old(dev))) else Transmit;
        TurnsOk(vq.ram.regions, vq.Settings(), Rule(duty, vq.Settings()), old(Now(vq)), turns)
      ensures Interleaved(guest, old(vq.ram.mem), turns)
      ensures Now(vq) == After(turns, old(Now(vq))) && vq.ram.mem == MemAfter(turns, old(vq.ram.mem))
      ensures if old(Serves(index)) then Finished(guest, turns) else turns.NoTurn?
      ensures irq <==> vq.pushes > old(vq.pushes)
    {
      irq, turns := false, NoTurn;
      if !Ready(dev) || index == 0 || index > 2 || (index == 2 && !HasControl(dev)) {
        return;
      }
      var duty := DutyOf(index);
      ghost var c, s, m := vq.Settings(), Now(vq), vq.ram.mem;
      for k := 0 to |guest|
        invariant Valid(vq) && c == vq.Settings()
        invariant old(vq.pushes) <= vq.pushes && (irq <==> vq.pushes > old(vq.pushes))
        invariant TurnsOk(vq.ram.regions, c, Rule(duty, c), s, turns) && Now(vq) == After(turns, s) && GoesOn(turns)
        invariant Interleaved(guest, m, turns) && Length(turns) == k && vq.ram.mem == MemAfter(turns, m)
      {
        vq.ram.GuestRuns(guest[k]);
        var more;
        more, turns := Round(vq, duty, c, s, turns);
        if !more {
          return;
        }
        irq := true;
      }
    }

    predicate Serves(index: nat)
      reads this
    {
      Ready(dev) && (index == 1 || (index == 2 && HasControl(dev)))
    }

    function DutyOf(index: nat): Duty
      reads this
    {
      if index == 2 then Control(HasSetMac(dev)) else Transmit
    }

    /** `virtio_net_rx_cb`: a ready device puts the frame into one available chain, and raises an
        interrupt exactly when there was one to use. */
    method FrameArrives(vq: Virtqueue, frame: seq<byte>) returns (irq: bool, ghost turns: Turns<Link, Deed>)
      requires Valid(vq)
      modifies this`dev, this`link, vq.ram
      modifies vq`bufs, vq`broken, vq`lastAvail, vq`pops, vq`lastUsed, vq`pushes
      ensures Valid(vq)
      ensures TurnsOk(vq.ram.regions, vq.Settings(), Rule(Receive(frame), vq.Settings()), old(Now(vq)), turns)
      ensures Now(vq) == After(turns, old(Now(vq))) && vq.ram.mem == MemAfter(turns, old(vq.ram.mem))
      ensures !old(Ready(dev)) ==> turns.NoTurn? && !irq
      ensures old(Ready(dev)) ==>
        turns.Turned? && turns.past.NoTurn? && turns.last.before == old(vq.ram.mem) && (irq <==> turns.last.Serving?)
    {
      irq, turns := false, NoTurn;
      if Ready(dev) {
        irq, turns := Round(vq, Receive(frame), vq.Settings(), Now(vq), NoTurn);
      }
    }

    /** One turn of a handler. */
    method Round(vq: Virtqueue, duty: Duty, ghost c: Config, ghost s: Stand<Link>, ghost turns: Turns<Link, Deed>)
      returns (more: bool, ghost turns': Turns<Link, Deed>)
      requires Valid(vq) && c == vq.Settings() && TurnsOk(vq.ram.regions, c, Rule(duty, c), s, turns)
      requires Now(vq) == After(turns, s) && GoesOn(turns)
      modifies this`dev, this`link, vq.ram
      modifies vq`bufs, vq`broken, vq`lastAvail, vq`pops, vq`lastUsed, vq`pushes
      ensures Valid(vq) && TurnsOk(vq.ram.regions, c, Rule(duty, c), s, turns') && Now(vq) == After(turns', s)
      ensures turns'.Turned? && turns'.past == turns && turns'.last.before == old(vq.ram.mem)
      ensures more <==> turns'.last.Serving?
      ensures vq.ram.mem == if more then turns'.last.after else old(vq.ram.mem)
      ensures vq.pushes == old(vq.pushes) + (if more then 1 else 0)
    {
      var r, e, l, m, idx;
      ghost var t;
      r, more, e, l, m, idx, t :=
        TakeTurn(vq.ram.regions, vq.Settings(), duty, s, turns, Now(vq), vq.ram.mem, link, vq.broken, vq.lastAvail,
                 vq.lastUsed);
      turns' := Turned(turns, t);
      Apply(vq, r.Failed?, r.Popped?, more, if r.Popped? then r.chain.bufs else [], m, idx, l);
    }

    /** Store what a turn did. */
    method Apply(vq: Virtqueue, failed: bool, popped: bool, served: bool, bufs: seq<Buf>, m: Mem, idx: nat, l: Link)
      requires Valid(vq) && |bufs| <= vq.queueSize && Backed(vq.ram.regions, m) && |l.mac| == MAC_SIZE
      requires !(failed && popped) && (served ==> popped) && idx == (vq.pushes + 1) % 0x1_0000
      modifies this`dev, this`link, vq.ram
      modifies vq`bufs, vq`broken, vq`lastAvail, vq`pops, vq`lastUsed, vq`pushes
      ensures Valid(vq) && vq.ram.mem == if served then m else old(vq.ram.mem)
      ensures Now(vq) == Stand(old(vq.pops) + (if popped then 1 else 0), old(vq.pushes) + (if served then 1 else 0),
                               old(vq.broken) || failed,
                               if failed || (popped && !served) then Fail(old(dev)) else old(dev),
                               if served then l else old(link))
    {
      vq.Record(failed, popped, bufs);
      if served {
        vq.Commit(m, idx);
        link := l;
      } else if failed || popped {
        dev := Fail(dev);
      }
    }
  }
}
