/** vCPU threads of `src/core/vm.c`: start under the publication lock, shutdown requests from any
    thread, and the one cleanup path that joins. One action per atomic access or critical section;
    the creation loop keeps the lock over several actions because the stop flag can be set meanwhile. */
module VmThreads {
  import opened Errors

  /** A vCPU thread: waiting at the gate, past it, inside the guest, at one of the three stages of
      the shutdown request for its own error, or finished. */
  datatype Thread = Absent | AtGate | Past | Running | Reporting | Kicking | StoppingIo | Ended

  /** Where `vm_run` stands. */
  datatype MainThread =
    | Begin | NeedLock | Loop(i: nat) | Make(i: nat) | Unlock(ret: int) | Dispatch | Out(ret: int)
    | ErrorStop | ErrorKick | ErrorIo | CleanStop | CleanKick | CleanIo
    | Join(i: nat) | Joining(i: nat) | Stopped

  /** `kicked[i]` records a kick of thread `i` made after stop was set; `joins[i]` counts its joins;
      `touched` records a kick of a handle whose thread was already joined. */
  datatype Slot = Slot(published: bool, thread: Thread, kicked: bool, joins: nat)

  datatype State = State(main: MainThread, stop: bool, ioStop: bool, error: int, reports: seq<int>, slots: seq<Slot>,
                         touched: bool)

  datatype Action =
    | Enter(boot: int) | TakeLock | Test | Create(error: int) | Release | Return(e: int) | Finish
    | SetStop | KickAll | StopIo | TakeHandle | JoinThread
    | Gate(t: nat) | CheckStop(t: nat) | Exit(t: nat, ret: int)
    | ThreadStop(t: nat) | ThreadKick(t: nat) | ThreadIo(t: nat)
    | OtherStop | OtherKick | OtherIo | OtherReport(e: int) | KickError(e: int)

  function Init(n: nat): State {
    State(Begin, false, false, 0, [], seq(n, i => Slot(false, Absent, false, 0)), false)
  }

  /** The main thread holds the publication lock. */
  predicate Locked(m: MainThread) {
    m.Loop? || m.Make? || m.Unlock?
  }

  predicate Enabled(s: State, a: Action) {
    match a
    case Enter(_) => s.main.Begin?
    case TakeLock => s.main.NeedLock?
    case Test => s.main.Loop?
    case Create(_) => s.main.Make?
    case Release => s.main.Unlock?
    case Return(e) => s.main.Dispatch? && (s.ioStop || e < 0)
    case Finish => s.main.Out?
    case SetStop => s.main.ErrorStop? || s.main.CleanStop?
    case KickAll => s.main.ErrorKick? || s.main.CleanKick?
    case StopIo => s.main.ErrorIo? || s.main.CleanIo?
    case TakeHandle => s.main.Join?
    case JoinThread => s.main.Joining? && s.main.i < |s.slots| && s.slots[s.main.i].thread.Ended?
    case Gate(t) => t < |s.slots| && s.slots[t].thread.AtGate? && !Locked(s.main)
    case CheckStop(t) => t < |s.slots| && s.slots[t].thread.Past?
    case Exit(t, _) => t < |s.slots| && s.slots[t].thread.Running?
    case ThreadStop(t) => t < |s.slots| && s.slots[t].thread == Reporting
    case ThreadKick(t) => t < |s.slots| && s.slots[t].thread == Kicking && !Locked(s.main)
    case ThreadIo(t) => t < |s.slots| && s.slots[t].thread == StoppingIo
    case OtherStop => true
    case OtherKick => s.stop && !Locked(s.main)
    case OtherIo => s.stop
    case OtherReport(_) => true
    case KickError(_) => s.stop
  }

  function Report(s: State, e: int): State {
    s.(error := if e < 0 && s.error == 0 then e else s.error, reports := s.reports + [e])
  }

  function KickSlots(xs: seq<Slot>): (ys: seq<Slot>)
    ensures |ys| == |xs|
  {
    seq(|xs|, i requires 0 <= i < |xs| => if xs[i].published then xs[i].(kicked := true) else xs[i])
  }

  /** The kick loop of `vm_request_shutdown` under the lock. */
  function Kick(s: State): State {
    s.(slots := KickSlots(s.slots),
       touched := s.touched || exists i :: 0 <= i < |s.slots| && s.slots[i].published && s.slots[i].joins > 0)
  }

  function SetThread(s: State, t: nat, th: Thread): State
    requires t < |s.slots|
  {
    s.(slots := s.slots[t := s.slots[t].(thread := th)])
  }

  predicate ByMain(a: Action) {
    a.Enter? || a.TakeLock? || a.Test? || a.Create? || a.Release? || a.Return? || a.Finish?
    || a.SetStop? || a.KickAll? || a.StopIo? || a.TakeHandle? || a.JoinThread?
  }

  function MainNext(s: State, a: Action): State
    requires Enabled(s, a) && ByMain(a)
  {
    match a
    case Enter(boot) => s.(main := if s.stop then Out(0) else if boot < 0 then Out(boot) else NeedLock)
    case TakeLock => s.(main := Loop(0))
    case Test => s.(main := if s.main.i < |s.slots| && !s.stop then Make(s.main.i) else Unlock(0))
    case Create(error) =>
      if s.main.i < |s.slots| && error >= 0 then
        s.(main := Loop(s.main.i + 1),
           slots := s.slots[s.main.i := s.slots[s.main.i].(published := true, thread := AtGate)])
      else s.(main := Unlock(error))
    case Release => s.(main := if s.main.ret < 0 then Out(s.main.ret) else Dispatch)
    case Return(e) => s.(main := Out(e))
    case Finish => if s.main.ret < 0 then Report(s, s.main.ret).(main := ErrorStop) else s.(main := CleanStop)
    case SetStop => s.(stop := true, main := if s.main.ErrorStop? then ErrorKick else CleanKick)
    case KickAll => Kick(s).(main := if s.main.ErrorKick? then ErrorIo else CleanIo)
    case StopIo => s.(ioStop := true, main := if s.main.ErrorIo? then CleanStop else Join(0))
    case TakeHandle =>
      if s.main.i >= |s.slots| then s.(main := Stopped)
      else if s.slots[s.main.i].published then
        s.(main := Joining(s.main.i), slots := s.slots[s.main.i := s.slots[s.main.i].(published := false)])
      else s.(main := Join(s.main.i + 1))
    case JoinThread =>
      s.(main := Join(s.main.i + 1),
         slots := s.slots[s.main.i := s.slots[s.main.i].(joins := s.slots[s.main.i].joins + 1)])
  }

  function OtherNext(s: State, a: Action): State
    requires Enabled(s, a) && !ByMain(a)
  {
    match a
    case Gate(t) => SetThread(s, t, Past)
    case CheckStop(t) => SetThread(s, t, if s.stop then Ended else Running)
    case Exit(t, ret) => if ret < 0 then SetThread(Report(s, ret), t, Reporting) else SetThread(s, t, Ended)
    case ThreadStop(t) => SetThread(s.(stop := true), t, Kicking)
    case ThreadKick(t) => SetThread(Kick(s), t, StoppingIo)
    case ThreadIo(t) => SetThread(s.(ioStop := true), t, Ended)
    case OtherStop => s.(stop := true)
    case OtherKick => Kick(s)
    case OtherIo => s.(ioStop := true)
    case OtherReport(e) => Report(s, e)
    case KickError(e) => Report(s, e)
  }

  function Next(s: State, a: Action): State
    requires Enabled(s, a)
  {
    if ByMain(a) then MainNext(s, a) else OtherNext(s, a)
  }

  // ----- the invariant, slot by slot

  /** Still in the startup part of `vm_run`. */
  predicate Starting(m: MainThread) {
    m.Begin? || m.NeedLock? || Locked(m)
  }

  /** Cleanup has set stop and kicked. */
  predicate Joined(m: MainThread) {
    m.CleanIo? || m.Join? || m.Joining? || m.Stopped?
  }

  predicate SlotOk(m: MainThread, x: Slot, i: nat) {
    // a created thread's handle is in exactly one place: published, taken for the join, joined
    && x.joins <= 1
    && (x.thread.Absent? ==> !x.published && x.joins == 0 && m != Joining(i))
    && (!x.thread.Absent? ==> (if x.published then 1 else 0) + (if m == Joining(i) then 1 else 0) + x.joins == 1)
    && (x.joins == 1 ==> x.thread.Ended? && Joined(m) && !m.CleanIo?)
    // creation goes in order, and nobody passes the gate before it ends
    && (m.Begin? || m.NeedLock? ==> x.thread.Absent?)
    && ((m.Loop? || m.Make?) && i >= m.i ==> x.thread.Absent?)
    && (Starting(m) ==> x.thread.Absent? || x.thread.AtGate?)
    // joins go in order, after the kick
    && (Joined(m) && !x.thread.Absent? ==> x.kicked)
    && ((m.Join? && i < m.i) || (m.Joining? && i < m.i) || m.Stopped? ==> !x.published)
  }

  ghost predicate Inv(s: State) {
    && (forall i :: 0 <= i < |s.slots| ==> SlotOk(s.main, s.slots[i], i))
    && (s.main.Joining? ==> s.main.i < |s.slots|)
    && (s.main.CleanKick? || Joined(s.main) ==> s.stop)
    && !s.touched
    && s.error == FirstNegative(s.reports)
  }

  lemma ReportFirst(s: State, e: int)
    requires s.error == FirstNegative(s.reports)
    ensures Report(s, e).error == FirstNegative(Report(s, e).reports)
  {
    FirstNegativeAppend(s.reports, e);
  }

  lemma MainSlot(s: State, a: Action, i: nat)
    requires Inv(s) && Enabled(s, a) && ByMain(a) && i < |s.slots|
    ensures var t := MainNext(s, a); |t.slots| == |s.slots| && SlotOk(t.main, t.slots[i], i)
  {
    assert SlotOk(s.main, s.slots[i], i);
  }

  lemma OtherSlot(s: State, a: Action, i: nat)
    requires Inv(s) && Enabled(s, a) && !ByMain(a) && i < |s.slots|
    ensures var t := OtherNext(s, a); |t.slots| == |s.slots| && SlotOk(t.main, t.slots[i], i)
  {
    assert SlotOk(s.main, s.slots[i], i);
  }

  lemma MainRest(s: State, a: Action)
    requires Inv(s) && Enabled(s, a) && ByMain(a)
    ensures var t := MainNext(s, a);
      && (t.main.Joining? ==> t.main.i < |t.slots|) && (t.main.CleanKick? || Joined(t.main) ==> t.stop)
      && !t.touched && t.error == FirstNegative(t.reports)
      && (s.stop ==> t.stop) && (s.error != 0 ==> t.error == s.error)
  {
    if a.Finish? {
      ReportFirst(s, s.main.ret);
    } else if a.KickAll? {
      NoJoinedIsPublished(s);
    }
  }

  lemma OtherRest(s: State, a: Action)
    requires Inv(s) && Enabled(s, a) && !ByMain(a)
    ensures var t := OtherNext(s, a);
      && t.main == s.main && !t.touched && t.error == FirstNegative(t.reports)
      && (s.stop ==> t.stop) && (s.error != 0 ==> t.error == s.error)
  {
    if a.Exit? {
      ReportFirst(s, a.ret);
    } else if a.OtherReport? || a.KickError? {
      ReportFirst(s, a.e);
    } else if a.ThreadKick? || a.OtherKick? {
      NoJoinedIsPublished(s);
    }
  }

  lemma NoJoinedIsPublished(s: State)
    requires Inv(s)
    ensures forall i :: 0 <= i < |s.slots| && s.slots[i].published ==> s.slots[i].joins == 0
  {
    forall i | 0 <= i < |s.slots| && s.slots[i].published
      ensures s.slots[i].joins == 0
    {
      assert SlotOk(s.main, s.slots[i], i);
    }
  }

  lemma {:induction false} InvStep(s: State, a: Action)
    requires Inv(s) && Enabled(s, a)
    ensures Inv(Next(s, a))
    ensures (s.stop ==> Next(s, a).stop) && (s.error != 0 ==> Next(s, a).error == s.error)
    ensures |Next(s, a).slots| == |s.slots|
  {
    if ByMain(a) {
      var t := MainNext(s, a);
      forall i | 0 <= i < |s.slots|
        ensures |t.slots| == |s.slots| && SlotOk(t.main, t.slots[i], i)
      {
        MainSlot(s, a, i);
      }
      MainRest(s, a);
    } else {
      var t := OtherNext(s, a);
      forall i | 0 <= i < |s.slots|
        ensures |t.slots| == |s.slots| && SlotOk(t.main, t.slots[i], i)
      {
        OtherSlot(s, a, i);
      }
      OtherRest(s, a);
    }
  }

  // ----- runs

  ghost predicate IsRun(n: nat, run: seq<State>) {
    run != [] && run[0] == Init(n) && forall i :: 0 < i < |run| ==> StepAt(run, i)
  }

  ghost predicate StepAt(run: seq<State>, i: nat)
    requires 0 < i < |run|
  {
    Steps(run[i - 1], run[i])
  }

  ghost predicate Steps(s: State, t: State) {
    exists a :: Enabled(s, a) && t == Next(s, a)
  }

  lemma StepsInv(s: State, t: State)
    requires Inv(s) && Steps(s, t)
    ensures Inv(t) && (s.stop ==> t.stop) && |t.slots| == |s.slots|
    ensures s.error != 0 ==> t.error == s.error
  {
    var a :| Enabled(s, a) && t == Next(s, a);
    InvStep(s, a);
  }

  lemma {:induction false} RunInv(n: nat, run: seq<State>, i: nat)
    requires IsRun(n, run) && i < |run|
    ensures Inv(run[i]) && |run[i].slots| == n
  {
    if i == 0 {
    } else {
      RunInv(n, run, i - 1);
      assert StepAt(run, i);
      StepsInv(run[i - 1], run[i]);
    }
  }

  /** In every reachable state: a published handle belongs to a created thread that is not joined,
      no kick ever touched a joined thread, no thread is joined twice, and a thread that was joined
      had ended and had been kicked after stop was set. */
  lemma HandlesAreSafe(n: nat, run: seq<State>, k: nat, i: nat)
    requires IsRun(n, run) && k < |run| && i < n
    ensures |run[k].slots| == n && !run[k].touched
    ensures var x := run[k].slots[i];
      && (x.published ==> !x.thread.Absent? && x.joins == 0)
      && x.joins <= 1 && (x.joins == 1 ==> x.thread.Ended? && x.kicked && run[k].stop)
  {
    RunInv(n, run, k);
    assert SlotOk(run[k].main, run[k].slots[i], i);
  }

  /** When `vm_run` has stopped, every thread that was created is joined exactly once. */
  lemma AllJoined(n: nat, run: seq<State>, k: nat, i: nat)
    requires IsRun(n, run) && k < |run| && run[k].main.Stopped? && i < n
    ensures |run[k].slots| == n
    ensures run[k].slots[i].joins == if run[k].slots[i].thread.Absent? then 0 else 1
  {
    RunInv(n, run, k);
    assert SlotOk(run[k].main, run[k].slots[i], i);
  }

  /** No vCPU passes the gate while handles are still being published. */
  lemma NoneRunsEarly(n: nat, run: seq<State>, k: nat, i: nat)
    requires IsRun(n, run) && k < |run| && i < n
    ensures |run[k].slots| == n
    ensures Starting(run[k].main) ==> run[k].slots[i].thread.Absent? || run[k].slots[i].thread.AtGate?
  {
    RunInv(n, run, k);
    assert SlotOk(run[k].main, run[k].slots[i], i);
  }

  /** Stop is never withdrawn, and an error once recorded is kept. */
  lemma {:induction false} StopAndErrorStay(n: nat, run: seq<State>, j: nat, k: nat)
    requires IsRun(n, run) && j <= k < |run|
    ensures run[j].stop ==> run[k].stop
    ensures run[j].error != 0 ==> run[k].error == run[j].error
  {
    if j == k {
    } else {
      StopAndErrorStay(n, run, j, k - 1);
      StepKeeps(n, run, k);
    }
  }

  lemma StepKeeps(n: nat, run: seq<State>, k: nat)
    requires IsRun(n, run) && 0 < k < |run|
    ensures run[k - 1].stop ==> run[k].stop
    ensures run[k - 1].error != 0 ==> run[k].error == run[k - 1].error
  {
    RunInv(n, run, k - 1);
    assert StepAt(run, k);
    StepsInv(run[k - 1], run[k]);
  }

  /** The run error is the first negative error that anyone reported. */
  lemma FirstErrorKept(n: nat, run: seq<State>, k: nat)
    requires IsRun(n, run) && k < |run|
    ensures run[k].error == FirstNegative(run[k].reports)
  {
    RunInv(n, run, k);
  }

  /** The join cannot hang on the lock: a thread that cleanup waits for has ended, or is inside the
      guest having been kicked with stop set, or has a step of its own that is enabled. */
  lemma JoinMakesProgress(n: nat, run: seq<State>, k: nat)
    requires IsRun(n, run) && k < |run| && run[k].main.Joining?
    ensures run[k].main.i < |run[k].slots|
    ensures var s := run[k]; var i := s.main.i; var x := s.slots[i];
      && s.stop && x.kicked
      && (x.thread.Ended? || x.thread.Running? || Enabled(s, Gate(i)) || Enabled(s, CheckStop(i))
          || Enabled(s, ThreadStop(i)) || Enabled(s, ThreadKick(i)) || Enabled(s, ThreadIo(i)))
  {
    RunInv(n, run, k);
    var s := run[k];
    assert SlotOk(s.main, s.slots[s.main.i], s.main.i);
  }
}
