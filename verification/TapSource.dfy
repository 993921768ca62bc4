/** The TAP receive protocol: the poll worker of `src/host/linux/service.c`, the arming of
    `src/backend/net/linux_tap.c` and the consumption callback of `src/io/receiver.c`, interleaved with
    the I/O context. Frames are posts of data work on the backend's binding. */
module TapSource {
  import opened IoQueue
  import opened IoCtx
  import opened IoCtxSafety
  import opened IoBinding

  /** Revisions are 64-bit counters. */
  const WRAP: nat := 0x1_0000_0000_0000_0000

  /** The worker holds a snapshot of the revision and of whether the descriptor was polled, or has
      been told by poll that the descriptor is ready. */
  datatype Worker = Resting | Polling(version: nat, polled: bool) | Fired(version: nat) | Exited

  /** What the ready callback finds: a frame, nothing, or an error. `refused` is a post that fails. */
  datatype Event = Frame(refused: bool) | Nothing | Trouble(refused: bool)

  /** `armed` is the source's read interest and `updates` counts its changes; `consuming` says that
      a delivery callback runs whose consumption step is still to come. */
  datatype Tap = Tap(io: State, b: nat, armed: bool, updates: nat, stopped: bool, worker: Worker, consuming: bool)

  datatype Step =
    | Io(a: Action) | Start | Consume | Unbind | Destroy
    | Snapshot | PollReturns(ready: bool) | Check(event: Event)

  predicate CanStep(t: Tap, e: Step) {
    match e
    case Io(a) => Enabled(t.io, a) && !(a.Close? && a.b == t.b) && !(a.Post? && a.b == t.b && a.kind.Data?)
                  && !(a.StartCallback? && HandsData(t.io, t.b)) && !(a.EndCallback? && t.consuming)
                  && !(a.SetEnabled? && a.b == t.b)
    case Start => HandsData(t.io, t.b)
    case Consume => t.consuming
    case Unbind => Enabled(t.io, Close(t.b)) && IsOpen(t.io, t.b)
    case Destroy => !IsOpen(t.io, t.b)
    case Snapshot => t.worker.Resting?
    case PollReturns(ready) => t.worker.Polling? && (ready ==> t.worker.polled)
    case Check(event) => t.worker.Fired? && (Fires(t) && !event.Nothing? ==> Owned(t.io, t.b))
  }

  /** The test under the service lock that lets the ready callback run. */
  predicate Fires(t: Tap)
    requires t.worker.Fired?
  {
    !t.stopped && t.worker.version % WRAP == t.updates % WRAP
  }

  function Update(t: Tap, on: bool): Tap {
    t.(armed := on, updates := t.updates + 1)
  }

  /** `net_linux_rx_cb`: disarm before the frame is handed over. */
  function CheckStep(t: Tap, event: Event): Tap
    requires CanStep(t, Check(event))
  {
    var u := t.(worker := Resting);
    if !Fires(t) || event.Nothing? then u
    else if event.Frame? then Update(u, false).(io := Next(t.io, Post(t.b, Data, event.refused)))
    else Update(u, false).(io := Next(t.io, Post(t.b, Control, event.refused)))
  }

  function Go(t: Tap, e: Step): Tap
    requires CanStep(t, e)
  {
    match e
    case Io(a) => t.(io := Next(t.io, a))
    case Start => t.(io := Next(t.io, StartCallback), consuming := true)
    case Consume => if IsOpen(t.io, t.b) then Update(t, true).(consuming := false) else t.(consuming := false)
    case Unbind => t.(io := Next(t.io, Close(t.b)))
    case Destroy => t.(stopped := true)
    case Snapshot => t.(worker := if t.stopped then Exited else Polling(t.updates, t.armed))
    case PollReturns(ready) => t.(worker := if ready then Fired(t.worker.version) else Resting)
    case Check(event) => CheckStep(t, event)
  }

  /** Frames accepted, and frames whose delivery has started. */
  function Accepted(t: Tap): nat {
    |Of(t.io.log.accepted, t.b, Data)|
  }

  function Started(t: Tap): nat {
    |Of(t.io.log.executed, t.b, Data)|
  }

  /** Frames accepted and not yet consumed. */
  function InFlight(t: Tap): int {
    Accepted(t) - Started(t) + if t.consuming then 1 else 0
  }

  ghost predicate Flow(t: Tap) {
    && t.b < t.io.nextBinding
    && (t.consuming ==> In(t.io, InCallback) && t.io.runner.w.binding == t.b && t.io.runner.w.kind.Data? && !t.armed)
    && (IsOpen(t.io, t.b) ==> Started(t) <= Accepted(t) && InFlight(t) <= if t.armed then 0 else 1)
  }

  /** A snapshot is at most one update old, and only by arming; a current one shows the interest. */
  predicate Snap(t: Tap) {
    && (t.worker.Polling? || t.worker.Fired? ==>
          t.updates == t.worker.version || (t.updates == t.worker.version + 1 && t.armed))
    && (t.worker.Polling? && t.updates == t.worker.version ==> t.worker.polled == t.armed)
    && (t.worker.Fired? && t.updates == t.worker.version ==> t.armed)
  }

  ghost predicate Good(t: Tap) {
    Inv(t.io) && Flow(t) && Snap(t)
  }

  /** The flow only depends on what the context did with this binding. */
  lemma FlowFrame(t: Tap, io: State)
    requires Flow(t) && io.nextBinding >= t.io.nextBinding && IsOpen(io, t.b) == IsOpen(t.io, t.b)
    requires Of(io.log.accepted, t.b, Data) == Of(t.io.log.accepted, t.b, Data)
    requires Of(io.log.executed, t.b, Data) == Of(t.io.log.executed, t.b, Data)
    requires t.consuming ==> io.runner == t.io.runner
    ensures Flow(t.(io := io))
  {}

  lemma GoodIo(t: Tap, a: Action)
    requires Good(t) && CanStep(t, Io(a))
    ensures Good(Go(t, Io(a)))
  {
    InvStep(t.io, a);
    if ByTheRunner(a) {
      ForeignRunner(t.io, a, t.b);
    } else {
      ForeignOther(t.io, a, t.b);
    }
    FlowFrame(t, Next(t.io, a));
  }

  lemma GoodStart(t: Tap)
    requires Good(t) && CanStep(t, Start)
    ensures Good(Go(t, Start))
  {
    InvStep(t.io, StartCallback);
    OfSnoc(t.io.log.executed, t.io.runner.w);
    assert StreamInv(t.io, t.b, Data);
  }

  lemma GoodUnbind(t: Tap)
    requires Good(t) && CanStep(t, Unbind)
    ensures Good(Go(t, Unbind))
  {
    InvStep(t.io, Close(t.b));
  }

  /** With a snapshot at most one update old, equal 64-bit revisions are equal counts. */
  lemma FiresFresh(t: Tap)
    requires t.worker.Fired? && Snap(t) && Fires(t)
    ensures t.updates == t.worker.version && t.armed && !t.stopped
  {}

  lemma GoodCheck(t: Tap, event: Event)
    requires Good(t) && CanStep(t, Check(event))
    ensures Good(Go(t, Check(event)))
  {
    if Fires(t) && !event.Nothing? {
      FiresFresh(t);
      if event.Frame? {
        InvStep(t.io, Post(t.b, Data, event.refused));
        OfSnoc(t.io.log.accepted, Work(t.io.nextId, t.b, Data));
      } else {
        InvStep(t.io, Post(t.b, Control, event.refused));
        OfAppend(t.io.log.accepted, [Work(t.io.nextId, t.b, Control)], t.b, Data);
      }
    }
  }

  lemma {:induction false} GoodStep(t: Tap, e: Step)
    requires Good(t) && CanStep(t, e)
    ensures Good(Go(t, e))
  {
    match e
    case Io(a) => GoodIo(t, a);
    case Start => GoodStart(t);
    case Consume =>
    case Unbind => GoodUnbind(t);
    case Destroy =>
    case Snapshot =>
    case PollReturns(ready) =>
    case Check(event) => GoodCheck(t, event);
  }

  // ----- runs

  /** The backend is bound: a fresh binding, a service whose source is armed. */
  ghost predicate Begins(t: Tap, s: State) {
    && Reachable(s) && Enabled(s, Create) && !s.stopped
    && t == Tap(Next(s, Create), s.nextBinding, true, 0, false, Resting, false)
  }

  ghost predicate IsTapRun(s: State, run: seq<Tap>) {
    run != [] && Begins(run[0], s) && forall i :: 0 < i < |run| ==> TapStepAt(run, i)
  }

  ghost predicate TapStepAt(run: seq<Tap>, i: nat)
    requires 0 < i < |run|
  {
    Leads(run[i - 1], run[i])
  }

  ghost predicate Leads(t: Tap, u: Tap) {
    exists e :: OneStep(t, e, u)
  }

  predicate OneStep(t: Tap, e: Step, u: Tap) {
    CanStep(t, e) && u == Go(t, e)
  }

  lemma GoodBegin(t: Tap, s: State)
    requires Begins(t, s)
    ensures Good(t)
  {
    ReachableInv(s);
    InvStep(s, Create);
    FreshIsSilent(s);
  }

  lemma GoodLead(t: Tap, u: Tap)
    requires Good(t) && Leads(t, u)
    ensures Good(u)
  {
    var e :| OneStep(t, e, u);
    GoodStep(t, e);
  }

  lemma {:induction false} GoodRun(s: State, run: seq<Tap>, i: nat)
    requires IsTapRun(s, run) && i < |run|
    ensures Good(run[i])
  {
    if i == 0 {
      GoodBegin(run[0], s);
    } else {
      GoodRun(s, run, i - 1);
      assert TapStepAt(run, i);
      GoodLead(run[i - 1], run[i]);
    }
  }

  /** On an open binding at most one frame is accepted and not yet consumed, and none while the
      source is armed. */
  lemma OneFrameInFlight(s: State, run: seq<Tap>, i: nat)
    requires IsTapRun(s, run) && i < |run| && IsOpen(run[i].io, run[i].b)
    ensures 0 <= InFlight(run[i]) <= 1 && (run[i].armed ==> InFlight(run[i]) == 0)
  {
    GoodRun(s, run, i);
  }

  /** The ready callback only runs on a current snapshot: the source has not been disarmed or
      updated since, it is armed, and the service is not stopped. */
  lemma ReadyIsCurrent(s: State, run: seq<Tap>, i: nat)
    requires IsTapRun(s, run) && i < |run| && run[i].worker.Fired? && Fires(run[i])
    ensures run[i].updates == run[i].worker.version && run[i].armed && !run[i].stopped
  {
    GoodRun(s, run, i);
    FiresFresh(run[i]);
  }

  // ----- a frame makes its round

  /** A frame that is ready at an armed source is posted: the worker polls it, the source is disarmed and the binding
      gets data work. */
  lemma FrameIsPosted(t: Tap)
    requires t.worker.Resting? && t.armed && !t.stopped && Owned(t.io, t.b)
    ensures CanStep(t, Snapshot) && CanStep(Go(t, Snapshot), PollReturns(true))
    ensures var u := Go(Go(t, Snapshot), PollReturns(true));
      && CanStep(u, Check(Frame(false)))
      && Go(u, Check(Frame(false))) ==
        Tap(Next(t.io, Post(t.b, Data, false)), t.b, false, t.updates + 1, false, Resting, t.consuming)
      && CanStep(u, Check(Trouble(false)))
      && Go(u, Check(Trouble(false))) ==
        Tap(Next(t.io, Post(t.b, Control, false)), t.b, false, t.updates + 1, false, Resting, t.consuming)
      && Go(u, Check(Nothing)) == t
  {}

  /** A source that is not armed is not polled for. */
  lemma DisarmedIsSilent(t: Tap)
    requires t.worker.Resting? && !t.armed && !t.stopped
    ensures var u := Go(t, Snapshot);
      !CanStep(u, PollReturns(true)) && CanStep(u, PollReturns(false)) && Go(u, PollReturns(false)) == t
  {}

  /** The delivery of the frame arms the source again, unless the binding was closed meanwhile. */
  lemma DeliveryRearms(t: Tap)
    requires CanStep(t, Start)
    ensures var u := Go(t, Start);
      && u == t.(io := Next(t.io, StartCallback), consuming := true)
      && CanStep(u, Consume)
      && Go(u, Consume) == if IsOpen(u.io, t.b)
                           then Tap(u.io, t.b, true, t.updates + 1, t.stopped, t.worker, false)
                           else Tap(u.io, t.b, t.armed, t.updates, t.stopped, t.worker, false)
  {}

  /** An update between poll and check makes the readiness stale: nothing is posted and the interest stays. */
  lemma StaleIsIgnored(t: Tap, event: Event)
    requires t.worker.Fired? && t.updates == t.worker.version + 1
    ensures CanStep(t, Check(event)) && Go(t, Check(event)) == t.(worker := Resting)
  {}

  /** Whatever else the context does, it does without the backend. */
  lemma OthersAreFree(t: Tap, a: Action)
    requires Enabled(t.io, a) && Foreign(t.io, a, t.b) && !(a.EndCallback? && t.consuming)
    ensures CanStep(t, Io(a)) && Go(t, Io(a)) == t.(io := Next(t.io, a))
  {}

  /** The callback runs exactly when the updates since the snapshot number a multiple of 2^64. */
  lemma FiresExactly(t: Tap)
    requires t.worker.Fired? && t.worker.version <= t.updates
    ensures Fires(t) <==> !t.stopped && (t.updates - t.worker.version) % 0x1_0000_0000_0000_0000 == 0
  {}

  /** A backend that is destroyed, which needs its binding closed, is silent: nothing fires any more and the worker
      exits. */
  lemma DestroyedIsSilent(t: Tap)
    requires !IsOpen(t.io, t.b)
    ensures CanStep(t, Destroy)
    ensures var u := Go(t, Destroy);
      && u == t.(stopped := true) && (u.worker.Fired? ==> !Fires(u))
      && (u.worker.Resting? ==> CanStep(u, Snapshot) && Go(u, Snapshot) == u.(worker := Exited))
  {}
}
