/** The console's receive path end to end: host bytes posted through `src/io/receiver.c`, carried by
    the I/O context, taken in by the UART, read by the guest. Steps of the I/O context that do
    not concern the console's binding interleave freely. */
module Console {
  import opened IoQueue
  import opened IoCtx
  import opened IoCtxSafety
  import opened IoBinding
  import opened ByteRing
  import opened UartReceive

  /** `b` is the UART's binding and `payload` the bytes of its accepted deliveries by datum; `gone`
      are the bytes that left the receive FIFO, read by the guest or cleared; `looped` records a
      loopback write and `dropped` a host byte that did not fit. */
  datatype Con = Con(io: State, rx: Rx, b: nat, payload: map<nat, seq<octet>>, gone: seq<octet>, looped: bool,
                     dropped: bool)

  /** The bytes of a list of deliveries, in order. */
  function Bytes(ws: seq<Work>, payload: map<nat, seq<octet>>): seq<octet> {
    if ws == [] then []
    else (if ws[0].id in payload then payload[ws[0].id] else []) + Bytes(ws[1..], payload)
  }

  datatype Step =
    | Io(a: Action) | Submit(bytes: seq<octet>, oom: bool) | Deliver
    | GuestRead(reg: nat, lcr: octet) | GuestWrite(reg: nat, val: octet, lcr: octet, mcr: octet) | Unbind

  /** Both rings are within their arrays. */
  predicate Sized(v: Rx) {
    |v.fifo| <= FIFO_SIZE && |v.backlog| <= BACKLOG_SIZE
  }

  predicate CanStep(c: Con, e: Step) {
    match e
    case Io(a) => Enabled(c.io, a) && Foreign(c.io, a, c.b)
    case Submit(bytes, oom) => Enabled(c.io, Post(c.b, Data, oom))
    case Deliver => HandsData(c.io, c.b) && Sized(c.rx)
    case GuestRead(_, _) => c.io.device.ByThread? && c.io.cancelled == [] && Sized(c.rx)
    case GuestWrite(_, _, _, _) => c.io.device.ByThread? && c.io.cancelled == []
    case Unbind => Enabled(c.io, Close(c.b)) && IsOpen(c.io, c.b)
  }

  /** The UART's pause state reaches the binding as its enable flag. */
  function Follow(s: State, b: nat, before: Rx, after: Rx): State {
    if before.paused != after.paused && Enabled(s, SetEnabled(b, !after.paused))
    then Next(s, SetEnabled(b, !after.paused)) else s
  }

  /** `io_receiver_submit`: empty and oversized batches are refused. */
  function SubmitStep(c: Con, bytes: seq<octet>, oom: bool): Con
    requires Enabled(c.io, Post(c.b, Data, oom))
  {
    if bytes == [] || |bytes| > BATCH_LIMIT then c
    else c.(io := Next(c.io, Post(c.b, Data, oom)), payload := c.payload[c.io.nextId := bytes])
  }

  function DeliverStep(c: Con): Con
    requires HandsData(c.io, c.b) && Sized(c.rx)
  {
    var bytes := if c.io.runner.w.id in c.payload then c.payload[c.io.runner.w.id] else [];
    var r := Receive(c.rx, bytes);
    var s := Next(c.io, StartCallback);
    c.(io := Follow(s, c.b, c.rx, r), rx := r,
       dropped := c.dropped || r.fifo + r.backlog != c.rx.fifo + c.rx.backlog + bytes)
  }

  function ReadStep(c: Con, reg: nat, lcr: octet): Con
    requires Sized(c.rx)
  {
    var r := Read(c.rx, reg, lcr);
    c.(io := Follow(c.io, c.b, c.rx, r), rx := r, gone := c.gone + TakenBy(c.rx, reg, lcr))
  }

  function WriteStep(c: Con, reg: nat, val: octet, lcr: octet, mcr: octet): Con {
    var r := Write(c.rx, reg, val, lcr, mcr);
    var pushed := reg == 0 && lcr & DLAB == 0 && mcr & LOOP != 0;
    c.(rx := r, looped := c.looped || pushed, gone := if !pushed && r.fifo == [] then c.gone + c.rx.fifo else c.gone)
  }

  function Go(c: Con, e: Step): Con
    requires CanStep(c, e)
  {
    match e
    case Io(a) => c.(io := Next(c.io, a))
    case Submit(bytes, oom) => SubmitStep(c, bytes, oom)
    case Deliver => DeliverStep(c)
    case GuestRead(reg, lcr) => ReadStep(c, reg, lcr)
    case GuestWrite(reg, val, lcr, mcr) => WriteStep(c, reg, val, lcr, mcr)
    case Unbind => c.(io := Next(c.io, Close(c.b)), rx := c.rx.(bound := false))
  }

  ghost predicate Linked(c: Con) {
    && c.b < c.io.nextBinding
    && (c.rx.bound <==> IsOpen(c.io, c.b))
    && (IsOpen(c.io, c.b) ==> c.io.bindings[c.b].enabled == !c.rx.paused)
  }

  ghost predicate Batched(c: Con) {
    forall w :: w in c.io.log.accepted && w.binding == c.b && w.kind.Data? ==>
      w.id in c.payload && 0 < |c.payload[w.id]| <= BATCH_LIMIT
  }

  ghost predicate Conserved(c: Con) {
    && !c.dropped
    && (!c.looped ==> Bytes(Of(c.io.log.executed, c.b, Data), c.payload) == c.gone + (c.rx.fifo + c.rx.backlog))
  }

  ghost predicate Good(c: Con) {
    Inv(c.io) && Sane(c.rx) && Linked(c) && Batched(c) && Conserved(c)
  }

  lemma DeliverEnabled(c: Con)
    requires HandsData(c.io, c.b) && Good(c)
    ensures Enabled(Next(c.io, StartCallback), SetEnabled(c.b, false))
    ensures Enabled(Next(c.io, StartCallback), SetEnabled(c.b, true))
  {}

  // ----- each step keeps the invariant

  lemma {:induction false} BytesAppend(xs: seq<Work>, ys: seq<Work>, payload: map<nat, seq<octet>>)
    ensures Bytes(xs + ys, payload) == Bytes(xs, payload) + Bytes(ys, payload)
  {
    if xs == [] {
      assert xs + ys == ys;
    } else {
      assert (xs + ys)[1..] == xs[1..] + ys;
      BytesAppend(xs[1..], ys, payload);
    }
  }

  /** A new delivery's payload does not change the bytes of earlier ones. */
  lemma {:induction false} BytesFrame(ws: seq<Work>, payload: map<nat, seq<octet>>, id: nat, bytes: seq<octet>)
    requires forall w :: w in ws ==> w.id != id
    ensures Bytes(ws, payload[id := bytes]) == Bytes(ws, payload)
  {
    if ws == [] {
    } else {
      BytesFrame(ws[1..], payload, id, bytes);
    }
  }

  lemma GoodIo(c: Con, a: Action)
    requires Good(c) && CanStep(c, Io(a))
    ensures Good(Go(c, Io(a)))
  {
    InvStep(c.io, a);
    var t := Next(c.io, a);
    if ByTheRunner(a) {
      ForeignRunner(c.io, a, c.b);
    } else {
      ForeignOther(c.io, a, c.b);
      forall w | w in t.log.accepted
        ensures w.binding == c.b && w.kind.Data? ==> w in c.io.log.accepted
      {
        ForeignPosts(c.io, a, c.b, w);
      }
    }
  }

  /** Callbacks only started for accepted posts, whose identities are all taken. */
  lemma ExecutedIds(c: Con, w: Work)
    requires Inv(c.io) && w in Of(c.io.log.executed, c.b, Data)
    ensures w.id < c.io.nextId
  {
    assert StreamInv(c.io, c.b, Data);
    assert w in Of(c.io.log.accepted, c.b, Data);
    OfMembers(c.io.log.accepted, c.b, Data, w);
  }

  lemma GoodSubmit(c: Con, bytes: seq<octet>, oom: bool)
    requires Good(c) && CanStep(c, Submit(bytes, oom))
    ensures Good(Go(c, Submit(bytes, oom)))
  {
    if bytes != [] && |bytes| <= BATCH_LIMIT {
      InvStep(c.io, Post(c.b, Data, oom));
      forall w | w in Of(c.io.log.executed, c.b, Data)
        ensures w.id != c.io.nextId
      {
        ExecutedIds(c, w);
      }
      BytesFrame(Of(c.io.log.executed, c.b, Data), c.payload, c.io.nextId, bytes);
    }
  }

  /** Changing the enable flag changes nothing else that the invariant speaks of. */
  lemma FollowKeeps(s: State, b: nat, before: Rx, after: Rx)
    requires Inv(s) && IsOpen(s, b) && s.bindings[b].enabled == !before.paused
    requires before.paused != after.paused ==> Enabled(s, SetEnabled(b, !after.paused))
    ensures var t := Follow(s, b, before, after);
      && Inv(t) && IsOpen(t, b) && t.bindings[b].enabled == !after.paused
      && t.log == s.log && t.nextId == s.nextId && t.nextBinding == s.nextBinding
  {
    if before.paused != after.paused {
      InvStep(s, SetEnabled(b, !after.paused));
    }
  }

  /** The work in the runner's hands is an accepted delivery within the limit, and the host was
      not paused when it was taken. */
  lemma DeliveryFits(c: Con)
    requires Good(c) && HandsData(c.io, c.b)
    ensures c.io.runner.w.id in c.payload && 0 < |c.payload[c.io.runner.w.id]| <= BATCH_LIMIT
    ensures IsOpen(c.io, c.b) && !c.rx.paused && c.rx.bound
  {
    var w := c.io.runner.w;
    assert StreamInv(c.io, c.b, Data);
    assert w in Of(c.io.log.accepted, c.b, Data);
    OfMembers(c.io.log.accepted, c.b, Data, w);
  }

  lemma GoodDeliver(c: Con)
    requires Good(c) && CanStep(c, Deliver)
    ensures Good(Go(c, Deliver))
  {
    var w := c.io.runner.w;
    DeliveryFits(c);
    var bytes := c.payload[w.id];
    BatchFits(c.rx, bytes);
    InvStep(c.io, StartCallback);
    DeliverEnabled(c);
    FollowKeeps(Next(c.io, StartCallback), c.b, c.rx, Receive(c.rx, bytes));
    OfSnoc(c.io.log.executed, w);
    DeliveredBytes(Of(c.io.log.executed, c.b, Data), w, c.payload, c.gone, c.rx, Receive(c.rx, bytes));
  }

  lemma DeliveredBytes(ws: seq<Work>, w: Work, payload: map<nat, seq<octet>>, gone: seq<octet>, v: Rx, r: Rx)
    requires w.id in payload && r.fifo + r.backlog == v.fifo + v.backlog + payload[w.id]
    ensures Bytes(ws, payload) == gone + (v.fifo + v.backlog) ==>
      Bytes(ws + [w], payload) == gone + (r.fifo + r.backlog)
  {
    BytesAppend(ws, [w], payload);
    assert Bytes([w], payload) == payload[w.id];
    assert gone + (v.fifo + v.backlog) + payload[w.id] == gone + (v.fifo + v.backlog + payload[w.id]);
  }

  lemma GoodRead(c: Con, reg: nat, lcr: octet)
    requires Good(c) && CanStep(c, GuestRead(reg, lcr))
    ensures Good(Go(c, GuestRead(reg, lcr)))
  {
    var r := Read(c.rx, reg, lcr);
    var t := TakenBy(c.rx, reg, lcr);
    ReadTakesOldest(c.rx, reg, lcr);
    assert c.gone + t + (r.fifo + r.backlog) == c.gone + (t + (r.fifo + r.backlog));
    if IsOpen(c.io, c.b) {
      FollowKeeps(c.io, c.b, c.rx, r);
    }
  }

  lemma GoodWrite(c: Con, reg: nat, val: octet, lcr: octet, mcr: octet)
    requires Good(c) && CanStep(c, GuestWrite(reg, val, lcr, mcr))
    ensures Good(Go(c, GuestWrite(reg, val, lcr, mcr)))
  {
    WriteKeepsBytes(c.rx, reg, val, lcr, mcr);
    var r := Write(c.rx, reg, val, lcr, mcr);
    assert c.gone + c.rx.fifo + ([] + c.rx.backlog) == c.gone + (c.rx.fifo + c.rx.backlog);
    assert c.gone + [] == c.gone;
  }

  lemma GoodUnbind(c: Con)
    requires Good(c) && CanStep(c, Unbind)
    ensures Good(Go(c, Unbind))
  {
    InvStep(c.io, Close(c.b));
  }

  lemma {:induction false} GoodStep(c: Con, e: Step)
    requires Good(c) && CanStep(c, e)
    ensures Good(Go(c, e))
  {
    match e
    case Io(a) => GoodIo(c, a);
    case Submit(bytes, oom) => GoodSubmit(c, bytes, oom);
    case Deliver => GoodDeliver(c);
    case GuestRead(reg, lcr) => GoodRead(c, reg, lcr);
    case GuestWrite(reg, val, lcr, mcr) => GoodWrite(c, reg, val, lcr, mcr);
    case Unbind => GoodUnbind(c);
  }

  // ----- runs

  /** The UART has just bound the console: a fresh binding in some reachable context. */
  ghost predicate Start(c: Con, s: State) {
    && Reachable(s) && Enabled(s, Create) && !s.stopped
    && c == Con(Next(s, Create), Reset.(bound := true), s.nextBinding, map[], [], false, false)
  }

  ghost predicate IsConsoleRun(s: State, run: seq<Con>) {
    run != [] && Start(run[0], s) && forall i :: 0 < i < |run| ==> ConsoleStepAt(run, i)
  }

  ghost predicate ConsoleStepAt(run: seq<Con>, i: nat)
    requires 0 < i < |run|
  {
    Leads(run[i - 1], run[i])
  }

  ghost predicate Leads(d: Con, c: Con) {
    exists e :: OneStep(d, e, c)
  }

  predicate OneStep(d: Con, e: Step, c: Con) {
    CanStep(d, e) && c == Go(d, e)
  }

  lemma GoodStart(c: Con, s: State)
    requires Start(c, s)
    ensures Good(c)
  {
    ReachableInv(s);
    InvStep(s, Create);
    FreshIsSilent(s);
  }

  lemma GoodRun(s: State, run: seq<Con>, i: nat)
    requires IsConsoleRun(s, run) && i < |run|
    ensures Good(run[i])
  {
    GoodStart(run[0], s);
    GoodFrom(run, i);
  }

  lemma {:induction false} GoodFrom(run: seq<Con>, i: nat)
    requires i < |run| && Good(run[0]) && forall j :: 0 < j < |run| ==> ConsoleStepAt(run, j)
    ensures Good(run[i])
  {
    if i == 0 {
    } else {
      GoodFrom(run, i - 1);
      assert ConsoleStepAt(run, i);
      GoodLead(run[i - 1], run[i]);
    }
  }

  lemma GoodLead(d: Con, c: Con)
    requires Good(d) && Leads(d, c)
    ensures Good(c)
  {
    var e :| OneStep(d, e, c);
    GoodStep(d, e);
  }

  /** Whatever interleaves, no host byte is dropped: the backlog never overflows. Without loopback
      the bytes of the accepted deliveries, in order, are those that left the FIFO, those in the
      FIFO, those in the backlog, and on an open binding those still queued or in hand. */
  lemma EveryByteArrives(s: State, run: seq<Con>, i: nat)
    requires IsConsoleRun(s, run) && i < |run|
    ensures var c := run[i]; !c.dropped && Sane(c.rx)
    ensures var c := run[i]; !c.looped && IsOpen(c.io, c.b) ==>
      Bytes(Of(c.io.log.accepted, c.b, Data), c.payload)
      == c.gone + (c.rx.fifo + c.rx.backlog)
         + Bytes(IoCtxSafety.Pending(c.io.runner, c.b, Data) + Of(c.io.work, c.b, Data), c.payload)
  {
    GoodRun(s, run, i);
    var c := run[i];
    if IsOpen(c.io, c.b) {
      WhatRemains(c.io, c.b, c.payload);
    }
  }

  lemma WhatRemains(s: State, b: nat, payload: map<nat, seq<octet>>)
    requires Inv(s) && IsOpen(s, b)
    ensures Bytes(Of(s.log.accepted, b, Data), payload)
         == Bytes(Of(s.log.executed, b, Data), payload)
            + Bytes(IoCtxSafety.Pending(s.runner, b, Data) + Of(s.work, b, Data), payload)
  {
    assert StreamInv(s, b, Data);
    var done := Of(s.log.executed, b, Data);
    var rest := IoCtxSafety.Pending(s.runner, b, Data) + Of(s.work, b, Data);
    assert Of(s.log.accepted, b, Data) == done + rest;
    BytesAppend(done, rest, payload);
  }

  /** While the console is bound, its deliveries run exactly when the UART is not paused. */
  lemma PauseIsSeen(s: State, run: seq<Con>, i: nat)
    requires IsConsoleRun(s, run) && i < |run| && IsOpen(run[i].io, run[i].b)
    ensures var c := run[i];
      (c.b in On(c.io) <==> !c.rx.paused) && (!c.rx.paused ==> |c.rx.backlog| + 64 <= 256)
  {
    GoodRun(s, run, i);
  }

  /** The host may hand over 1 to 64 bytes at a time: such a batch is posted as data work that carries it, any other
      is refused. */
  lemma SubmitOutcome(c: Con, bytes: seq<octet>, oom: bool)
    requires CanStep(c, Submit(bytes, oom))
    ensures Go(c, Submit(bytes, oom)) ==
      if 1 <= |bytes| <= 64
      then c.(io := Next(c.io, Post(c.b, Data, oom)), payload := c.payload[c.io.nextId := bytes]) else c
  {}

  /** In every run, whatever the UART holds, a delivery hands it the bytes of its work, and a guest read under the
      device lock takes the oldest byte and no other. */
  lemma DeliveryOutcome(s: State, run: seq<Con>, i: nat, reg: nat, lcr: octet)
    requires IsConsoleRun(s, run) && i < |run|
    ensures var c := run[i]; CanStep(c, Deliver) <==> HandsData(c.io, c.b)
    ensures var c := run[i]; CanStep(c, Deliver) ==>
      c.io.runner.w.id in c.payload && Go(c, Deliver).rx == Receive(c.rx, c.payload[c.io.runner.w.id])
    ensures var c := run[i]; c.io.device.ByThread? && c.io.cancelled == [] ==>
      CanStep(c, GuestRead(reg, lcr)) && Go(c, GuestRead(reg, lcr)).gone ==
        c.gone + if reg == 0 && lcr & 0x80 == 0 && c.rx.fifo != [] then [c.rx.fifo[0]] else []
  {
    GoodRun(s, run, i);
    var c := run[i];
    if CanStep(c, Deliver) {
      DeliveryFits(c);
    }
  }
}
