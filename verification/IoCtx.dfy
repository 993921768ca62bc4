/** The I/O delivery engine as a transition system: one action per critical section or atomic
    access of `src/io/ctx.c`. Any number of producers and device-lock holders interleave with
    the single runner; closers may be other threads or callbacks of the runner itself. */
module IoCtx {
  import opened IoQueue

  /** `owned` records whether the owner still holds the reference it got from create. */
  datatype Binding = Binding(refs: int, open: bool, enabled: bool, owned: bool)

  /** What the runner has done with the work in its hands: only unlinked it; read its binding's
      open flag as true; entered the callback; left or skipped it; released its datum. */
  datatype Phase = Taken | Approved | InCallback | Finishing | Dropping

  /** Where the runner stands in `io_ctx_run`. */
  datatype Runner =
    | Idle                      // about to take the queue lock and look for work
    | Waiting(signalled: bool)  // inside the condition wait
    | Ready                     // saw eligible work, wants the device lock
    | HasDevice                 // holds the device lock, has not searched the queue again
    | Busy(w: Work, phase: Phase)  // `w` unlinked and its reference held
    | Unlocking                 // nothing in hand, device lock still held
    | Done(error: int)

  datatype Holder = Free | ByRunner | ByThread

  /** `count` is the context's number of bindings. `cancelled` is the list of a close call whose
      entries are being released; `headReleased` says that the first entry's datum is released
      and its reference is not yet dropped. `rejected` holds the data of refused posts until
      their posters release them; `nextBinding` and `nextId` are the next fresh identities. */
  datatype State = State(
    bindings: map<nat, Binding>, count: int, work: seq<Work>, stopped: bool, error: int,
    device: Holder, runner: Runner, cancelled: seq<Work>, headReleased: bool,
    rejected: seq<nat>, nextBinding: nat, nextId: nat, log: Log)

  /** What happened so far: posts accepted, callbacks started, data released, errors reported;
      `bug` records a failed BUG_ON or a reference dropped on a freed binding. */
  datatype Log = Log(accepted: seq<Work>, executed: seq<Work>, released: seq<nat>, reports: seq<int>, bug: bool)

  const Init := State(map[], 0, [], false, 0, Free, Idle, [], false, [], 0, 0, Log([], [], [], [], false))

  datatype Action =
    | DeviceLock | DeviceUnlock
    | Create | Post(b: nat, kind: Kind, oom: bool) | ReleaseRejected(i: nat)
    | SetEnabled(b: nat, on: bool) | Close(b: nat) | CancelRelease | CancelPut
    | OwnerPut(b: nat) | Retire(b: nat) | Stop | Fail(e: int)
    | Look | Wake | TakeDevice | Take | CheckOpen | StartCallback | EndCallback
    | ReleaseDatum | DropRef | Unlock

  /** The bindings whose data work may run. */
  function On(s: State): set<nat> {
    set b | b in s.bindings && s.bindings[b].enabled
  }

  predicate Owned(s: State, b: nat) {
    b in s.bindings && s.bindings[b].owned
  }

  predicate IsOpen(s: State, b: nat) {
    b in s.bindings && s.bindings[b].open
  }

  predicate In(s: State, p: Phase) {
    s.runner.Busy? && s.runner.phase == p
  }

  /** The caller holds the device lock and is not inside a close call. */
  predicate Locked(s: State) {
    (s.device.ByThread? || In(s, InCallback)) && s.cancelled == []
  }

  /** When an action can happen: control flow, lock availability, and the rules the headers put
      on callers. Producers post only while the owner holds its reference; an owner closes
      before it puts. */
  predicate Enabled(s: State, a: Action) {
    match a
    case DeviceLock => s.device.Free?
    case DeviceUnlock => s.device.ByThread? && s.cancelled == []
    case Create => Locked(s)
    case Post(b, _, _) => Owned(s, b)
    case ReleaseRejected(i) => i < |s.rejected|
    case SetEnabled(b, _) => Locked(s) && Owned(s, b)
    case Close(b) => Locked(s) && Owned(s, b)
    case CancelRelease => s.cancelled != [] && !s.headReleased
    case CancelPut => s.cancelled != [] && s.headReleased
    case OwnerPut(b) => Owned(s, b) && !s.bindings[b].open
    case Retire(b) => b in s.bindings && s.bindings[b].refs == 0
    case Stop => true
    case Fail(_) => true
    case Look => s.runner.Idle?
    case Wake => s.runner.Waiting?
    case TakeDevice => s.runner.Ready? && s.device.Free?
    case Take => s.runner.HasDevice?
    case CheckOpen => In(s, Taken)
    case StartCallback => In(s, Approved)
    case EndCallback => In(s, InCallback) && s.cancelled == []
    case ReleaseDatum => In(s, Finishing)
    case DropRef => In(s, Dropping)
    case Unlock => s.runner.Unlocking?
  }

  function Signal(r: Runner): Runner {
    if r.Waiting? then Waiting(true) else r
  }

  function AddRef(s: State, b: nat, n: int): State {
    if b !in s.bindings then s.(log := s.log.(bug := true))
    else s.(bindings := s.bindings[b := s.bindings[b].(refs := s.bindings[b].refs + n)])
  }

  function PostStep(s: State, b: nat, kind: Kind, oom: bool): State {
    if oom || s.stopped || !IsOpen(s, b) then
      s.(nextId := s.nextId + 1, rejected := s.rejected + [s.nextId])
    else
      var w := Work(s.nextId, b, kind);
      AddRef(s, b, 1).(nextId := s.nextId + 1, work := s.work + [w],
                       log := s.log.(accepted := s.log.accepted + [w]), runner := Signal(s.runner))
  }

  function CreateStep(s: State): State {
    if s.stopped then s
    else s.(bindings := s.bindings[s.nextBinding := Binding(1, true, true, true)],
            count := s.count + 1, nextBinding := s.nextBinding + 1)
  }

  function CloseStep(s: State, b: nat): State
    requires b in s.bindings
  {
    s.(bindings := s.bindings[b := s.bindings[b].(open := false)],
       work := Keep(s.work, b), cancelled := Drop(s.work, b), headReleased := false)
  }

  function RetireStep(s: State, b: nat): State
    requires b in s.bindings
  {
    s.(bindings := s.bindings - {b}, count := s.count - 1, log := s.log.(bug := s.log.bug || s.bindings[b].open))
  }

  function OwnerPutStep(s: State, b: nat): State
    requires b in s.bindings
  {
    s.(bindings := s.bindings[b := s.bindings[b].(refs := s.bindings[b].refs - 1, owned := false)])
  }

  function FailStep(s: State, e: int): State {
    s.(error := if e < 0 && s.error == 0 then e else s.error, stopped := true,
       runner := Signal(s.runner), log := s.log.(reports := s.log.reports + [e]))
  }

  function LookStep(s: State): State {
    s.(runner := if s.stopped then Done(s.error)
                 else if First(s.work, On(s)) < |s.work| then Ready else Waiting(false))
  }

  function TakeStep(s: State): State {
    var i := First(s.work, On(s));
    if !s.stopped && i < |s.work| then s.(runner := Busy(s.work[i], Taken), work := Without(s.work, i))
    else s.(runner := Unlocking)
  }

  function CheckOpenStep(s: State): State
    requires In(s, Taken)
  {
    var w := s.runner.w;
    if w.binding !in s.bindings then s.(log := s.log.(bug := true), runner := Unlocking)
    else s.(runner := Busy(w, if s.bindings[w.binding].open then Approved else Finishing))
  }

  function StartStep(s: State): State
    requires s.runner.Busy?
  {
    s.(runner := Busy(s.runner.w, InCallback), log := s.log.(executed := s.log.executed + [s.runner.w]))
  }

  function Released(s: State, d: nat): State {
    s.(log := s.log.(released := s.log.released + [d]))
  }

  /** The actions of the runner thread outside its callbacks. */
  predicate ByTheRunner(a: Action) {
    a.Look? || a.Wake? || a.TakeDevice? || a.Take? || a.CheckOpen? || a.StartCallback?
    || a.EndCallback? || a.ReleaseDatum? || a.DropRef? || a.Unlock?
  }

  function RunnerNext(s: State, a: Action): State
    requires Enabled(s, a) && ByTheRunner(a)
  {
    match a
    case Look => LookStep(s)
    case Wake => s.(runner := Idle)
    case TakeDevice => s.(device := ByRunner, runner := HasDevice)
    case Take => TakeStep(s)
    case CheckOpen => CheckOpenStep(s)
    case StartCallback => StartStep(s)
    case EndCallback => s.(runner := Busy(s.runner.w, Finishing))
    case ReleaseDatum => Released(s, s.runner.w.id).(runner := Busy(s.runner.w, Dropping))
    case DropRef => AddRef(s, s.runner.w.binding, -1).(runner := Unlocking)
    case Unlock => s.(device := Free, runner := Idle)
  }

  function OtherNext(s: State, a: Action): State
    requires Enabled(s, a) && !ByTheRunner(a)
  {
    match a
    case DeviceLock => s.(device := ByThread)
    case DeviceUnlock => s.(device := Free)
    case Create => CreateStep(s)
    case Post(b, k, oom) => PostStep(s, b, k, oom)
    case ReleaseRejected(i) =>
      Released(s, s.rejected[i]).(rejected := s.rejected[..i] + s.rejected[i + 1..])
    case SetEnabled(b, on) =>
      s.(bindings := s.bindings[b := s.bindings[b].(enabled := on)], runner := Signal(s.runner))
    case Close(b) => CloseStep(s, b)
    case CancelRelease => Released(s, s.cancelled[0].id).(headReleased := true)
    case CancelPut =>
      AddRef(s, s.cancelled[0].binding, -1).(cancelled := s.cancelled[1..], headReleased := false)
    case OwnerPut(b) => OwnerPutStep(s, b)
    case Retire(b) => RetireStep(s, b)
    case Stop => s.(stopped := true, runner := Signal(s.runner))
    case Fail(e) => FailStep(s, e)
  }

  function Next(s: State, a: Action): State
    requires Enabled(s, a)
  {
    if ByTheRunner(a) then RunnerNext(s, a) else OtherNext(s, a)
  }

  /** A run: a sequence of states from the created context, each reached by an enabled action. */
  ghost predicate IsRun(run: seq<State>) {
    && |run| > 0
    && run[0] == Init
    && forall i :: 0 < i < |run| ==> StepAt(run, i)
  }

  ghost predicate StepAt(run: seq<State>, i: nat)
    requires 0 < i < |run|
  {
    Steps(run[i - 1], run[i])
  }

  ghost predicate Steps(s: State, t: State) {
    exists a :: Enabled(s, a) && t == Next(s, a)
  }

  ghost predicate Reachable(s: State) {
    exists run :: IsRun(run) && run[|run| - 1] == s
  }
}
