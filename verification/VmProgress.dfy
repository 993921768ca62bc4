/** What becomes of a virtual machine: the state that each phase of `src/core/vm.c` leads to, for any number of
    vCPUs, over runs of `VmThreads`. */
module VmProgress {
  import opened Errors
  import opened VmThreads

  /** What happened since the machine was assembled with `n` vCPUs, the last action outermost. */
  datatype Run = Assembled(n: nat) | Did(past: Run, a: Action, s: State)

  function Last(r: Run): State {
    if r.Assembled? then Init(r.n) else r.s
  }

  ghost predicate Legal(r: Run)
    decreases r, 2
  {
    r.Did? ==> Extends(r)
  }

  ghost predicate Extends(r: Run)
    requires r.Did?
    decreases r, 1
  {
    Legal(r.past) && LastStep(r)
  }

  ghost predicate LastStep(r: Run)
    requires r.Did?
    decreases r, 0
  {
    Enabled(Last(r.past), r.a) && r.s == Next(Last(r.past), r.a)
  }

  lemma Do(r: Run, a: Action) returns (t: Run)
    requires Legal(r) && Enabled(Last(r), a)
    ensures Legal(t) && t == Did(r, a, Next(Last(r), a))
  {
    t := Did(r, a, Next(Last(r), a));
    assert Extends(t);
  }

  lemma {:induction false} LegalInv(r: Run)
    requires Legal(r)
    ensures Inv(Last(r))
  {
    if r.Assembled? {
    } else {
      assert Extends(r) && LastStep(r);
      LegalInv(r.past);
      InvStep(Last(r.past), r.a);
    }
  }

  /** `t` goes on from `r`. */
  predicate Follows(r: Run, t: Run) {
    t == r || (t.Did? && Follows(r, t.past))
  }

  lemma {:induction false} FollowsTwice(r: Run, m: Run, t: Run)
    requires Follows(r, m) && Follows(m, t)
    ensures Follows(r, t)
  {
    if t == m {
    } else {
      FollowsTwice(r, m, t.past);
    }
  }

  // ----- what single actions do

  /** A vCPU that fails has its error reported before anything else; one that ends without error just ends. */
  lemma ExitOutcome(s: State, i: nat, ret: int)
    requires Enabled(s, Exit(i, ret))
    ensures var x := s.slots[i];
      Next(s, Exit(i, ret)) ==
        if ret >= 0 then s.(slots := s.slots[i := x.(thread := Ended)])
        else s.(slots := s.slots[i := x.(thread := Reporting)], reports := s.reports + [ret],
                error := if s.error == 0 then ret else s.error)
  {}

  /** Anyone may ask for shutdown: the flag first, then a kick for every published handle, then the I/O context. */
  lemma RequestOutcome(s: State)
    ensures Enabled(s, OtherStop) && Next(s, OtherStop) == s.(stop := true)
    ensures s.stop ==> Enabled(s, OtherIo) && Next(s, OtherIo) == s.(ioStop := true)
    ensures Enabled(s, OtherKick) <==> s.stop && !s.main.Loop? && !s.main.Make? && !s.main.Unlock?
    ensures Enabled(s, OtherKick) ==> |Next(s, OtherKick).slots| == |s.slots| && forall i :: 0 <= i < |s.slots| ==>
      Next(s, OtherKick).slots[i] == s.slots[i].(kicked := s.slots[i].kicked || s.slots[i].published)
    ensures Enabled(s, OtherKick) ==> (Next(s, OtherKick).touched <==>
      s.touched || exists i :: 0 <= i < |s.slots| && s.slots[i].published && s.slots[i].joins > 0)
  {}

  /** Errors count only when negative, and only the first one is kept. */
  lemma ReportOutcome(s: State, e: int)
    ensures Enabled(s, OtherReport(e))
    ensures Next(s, OtherReport(e)) ==
      s.(reports := s.reports + [e], error := if e < 0 && s.error == 0 then e else s.error)
  {}

  // ----- why the machine stops

  /** Everything that ends a machine without an error was asked for: stop is set before the I/O context is stopped,
      before any thread is kicked, and before `vm_run` leaves with a result that is not an error. */
  ghost predicate Asked(s: State) {
    s.stop || (!s.ioStop && (s.main.Out? ==> s.main.ret < 0)
      && !s.main.ErrorKick? && !s.main.ErrorIo? && !s.main.CleanStop? && !s.main.CleanKick? && !Joined(s.main)
      && forall i :: 0 <= i < |s.slots| ==> Quiet(s.slots[i]))
  }

  predicate Quiet(x: Slot) {
    !x.kicked && x.thread != Kicking && x.thread != StoppingIo
  }

  lemma AskedStep(s: State, a: Action)
    requires Asked(s) && Enabled(s, a)
    ensures Asked(Next(s, a))
  {}

  lemma {:induction false} StopsOnlyWhenAsked(r: Run)
    requires Legal(r)
    ensures Asked(Last(r))
  {
    if r.Assembled? {
    } else {
      assert Extends(r) && LastStep(r);
      StopsOnlyWhenAsked(r.past);
      AskedStep(Last(r.past), r.a);
    }
  }

  // ----- several slots

  /** The first `k` slots changed by `f`. */
  function Upto(xs: seq<Slot>, k: nat, f: Slot -> Slot): (ys: seq<Slot>)
    ensures |ys| == |xs| && forall i :: 0 <= i < |xs| ==> ys[i] == if i < k then f(xs[i]) else xs[i]
  {
    seq(|xs|, i requires 0 <= i < |xs| => if i < k then f(xs[i]) else xs[i])
  }

  lemma UptoNext(xs: seq<Slot>, k: nat, f: Slot -> Slot)
    requires k < |xs|
    ensures Upto(xs, k, f)[k := f(xs[k])] == Upto(xs, k + 1, f)
  {}

  lemma UptoNone(xs: seq<Slot>, f: Slot -> Slot)
    ensures Upto(xs, 0, f) == xs
  {}

  // ----- startup

  const Published := (x: Slot) => x.(published := true, thread := AtGate)

  lemma DoTest(r: Run, k: nat) returns (t: Run)
    requires Legal(r) && Last(r).main == Loop(k)
    ensures var s := Last(r); Legal(t) && t == Did(r, Test,
      s.(main := if k < |s.slots| && !s.stop then Make(k) else Unlock(0)))
  {
    t := Do(r, Test);
  }

  lemma DoCreate(r: Run, k: nat, e: int) returns (t: Run)
    requires Legal(r) && Last(r).main == Make(k) && k < |Last(r).slots|
    ensures var s := Last(r); Legal(t) && t == Did(r, Create(e),
      if e < 0 then s.(main := Unlock(e))
      else s.(main := Loop(k + 1), slots := s.slots[k := s.slots[k].(published := true, thread := AtGate)]))
  {
    t := Do(r, Create(e));
  }

  /** `vm_run` as far as the creation loop, when the machine boots. */
  lemma Boots(n: nat) returns (t: Run)
    ensures Legal(t) && Follows(Assembled(n), t) && Last(t) == Init(n).(main := Loop(0))
  {
    t := Do(Assembled(n), Enter(0));
    t := Do(t, TakeLock);
  }

  /** A machine that does not boot creates no thread. */
  lemma BootFails(n: nat, e: int) returns (t: Run)
    requires e < 0
    ensures Legal(t) && Follows(Assembled(n), t) && Last(t) == Init(n).(main := Out(e))
  {
    t := Do(Assembled(n), Enter(e));
  }

  /** The creation loop gets as far as thread `k`. */
  lemma {:induction false} Creates(n: nat, k: nat) returns (t: Run)
    requires k <= n
    ensures Legal(t) && Follows(Assembled(n), t)
    ensures Last(t) == Init(n).(main := Loop(k), slots := Upto(Init(n).slots, k, Published))
  {
    if k == 0 {
      t := Boots(n);
      UptoNone(Init(n).slots, Published);
    } else {
      t := Creates(n, k - 1);
      var m := DoTest(t, k - 1);
      t := DoCreate(m, k - 1, 0);
      UptoNext(Init(n).slots, k - 1, Published);
    }
  }

  lemma DoRelease(r: Run, e: int) returns (t: Run)
    requires Legal(r) && Last(r).main == Unlock(e)
    ensures Legal(t) && t == Did(r, Release, Last(r).(main := if e < 0 then Out(e) else Dispatch))
  {
    t := Do(r, Release);
  }

  /** Startup publishes every handle, with each thread waiting at the gate, before dispatch begins. */
  lemma StartupPublishes(n: nat) returns (t: Run)
    ensures Legal(t) && Follows(Assembled(n), t)
    ensures Last(t) == State(Dispatch, false, false, 0, [], Last(t).slots, false) && |Last(t).slots| == n
    ensures forall i :: 0 <= i < n ==> Last(t).slots[i] == Slot(true, AtGate, false, 0)
  {
    t := Creates(n, n);
    t := DoTest(t, n);
    t := DoRelease(t, 0);
  }

  /** A thread that cannot be created ends the loop: the ones before it stay published and `vm_run` leaves. */
  lemma CreationFails(n: nat, k: nat, e: int) returns (t: Run)
    requires k < n && e < 0
    ensures Legal(t) && Follows(Assembled(n), t)
    ensures Last(t) == State(Out(e), false, false, 0, [], Last(t).slots, false) && |Last(t).slots| == n
    ensures forall i :: 0 <= i < n ==>
      Last(t).slots[i] == if i < k then Slot(true, AtGate, false, 0) else Slot(false, Absent, false, 0)
  {
    t := Creates(n, k);
    t := DoTest(t, k);
    t := DoCreate(t, k, e);
    t := DoRelease(t, e);
  }

  // ----- one vCPU

  /** Once nobody publishes, a thread at the gate enters the guest, or ends at once when stop is set. */
  lemma Enters(r: Run, i: nat) returns (t: Run)
    requires Legal(r) && i < |Last(r).slots| && Last(r).slots[i].thread.AtGate? && !Locked(Last(r).main)
    ensures Legal(t) && Follows(r, t)
    ensures var s := Last(r);
      Last(t) == s.(slots := s.slots[i := s.slots[i].(thread := if s.stop then Ended else Running)])
  {
    t := Do(r, Gate(i));
    t := Do(t, CheckStop(i));
  }

  lemma DoExit(r: Run, i: nat, ret: int) returns (t: Run)
    requires Legal(r) && i < |Last(r).slots| && Last(r).slots[i].thread.Running?
    ensures Legal(t) && t == Did(r, Exit(i, ret), Next(Last(r), Exit(i, ret)))
  {
    t := Do(r, Exit(i, ret));
  }

  lemma DoThreadStop(r: Run, i: nat) returns (t: Run)
    requires Legal(r) && i < |Last(r).slots| && Last(r).slots[i].thread == Reporting
    ensures Legal(t) && t == Did(r, ThreadStop(i),
      Last(r).(stop := true, slots := Last(r).slots[i := Last(r).slots[i].(thread := Kicking)]))
  {
    t := Do(r, ThreadStop(i));
  }

  /** Every published handle was kicked, and thread `i` has come to `th`. */
  ghost predicate AllKicked(xs: seq<Slot>, ys: seq<Slot>, i: nat, th: Thread) {
    && |ys| == |xs|
    && forall j :: 0 <= j < |xs| ==>
      ys[j] == xs[j].(kicked := xs[j].kicked || xs[j].published, thread := if j == i then th else xs[j].thread)
  }

  lemma DoThreadKick(r: Run, i: nat) returns (t: Run)
    requires Legal(r) && i < |Last(r).slots| && Last(r).slots[i].thread == Kicking
    ensures Legal(t) && t.Did? && t.past == r
    ensures Last(t) == Last(r).(slots := Last(t).slots) && AllKicked(Last(r).slots, Last(t).slots, i, StoppingIo)
  {
    var s := Last(r);
    LegalInv(r);
    assert SlotOk(s.main, s.slots[i], i);
    NoJoinedIsPublished(s);
    t := Do(r, ThreadKick(i));
  }

  lemma DoThreadIo(r: Run, i: nat) returns (t: Run)
    requires Legal(r) && i < |Last(r).slots| && Last(r).slots[i].thread == StoppingIo
    ensures Legal(t) && t == Did(r, ThreadIo(i),
      Last(r).(ioStop := true, slots := Last(r).slots[i := Last(r).slots[i].(thread := Ended)]))
  {
    t := Do(r, ThreadIo(i));
  }

  /** A vCPU that fails with `e`: the error is recorded if it is the first, stop is set, every published handle is
      kicked, the I/O context is stopped, and the thread ends. */
  lemma FailureStopsAll(r: Run, i: nat, e: int) returns (t: Run)
    requires Legal(r) && i < |Last(r).slots| && Last(r).slots[i].thread.Running? && e < 0
    ensures Legal(t) && Follows(r, t)
    ensures var s := Last(r);
      Last(t) == s.(stop := true, ioStop := true, error := if s.error == 0 then e else s.error,
                    reports := s.reports + [e], slots := Last(t).slots)
    ensures AllKicked(Last(r).slots, Last(t).slots, i, Ended)
  {
    var q := Reports(r, i, e);
    t := StopsTheRest(q, i);
    FollowsTwice(r, q, t);
  }

  lemma Reports(r: Run, i: nat, e: int) returns (t: Run)
    requires Legal(r) && i < |Last(r).slots| && Last(r).slots[i].thread.Running? && e < 0
    ensures Legal(t) && Follows(r, t)
    ensures var s := Last(r);
      Last(t) == s.(stop := true, error := if s.error == 0 then e else s.error, reports := s.reports + [e],
                    slots := s.slots[i := s.slots[i].(thread := Kicking)])
  {
    ExitOutcome(Last(r), i, e);
    var p := DoExit(r, i, e);
    t := DoThreadStop(p, i);
    assert Follows(r, p);
  }

  lemma StopsTheRest(r: Run, i: nat) returns (t: Run)
    requires Legal(r) && i < |Last(r).slots| && Last(r).slots[i].thread == Kicking
    ensures Legal(t) && Follows(r, t) && Last(t) == Last(r).(ioStop := true, slots := Last(t).slots)
    ensures AllKicked(Last(r).slots, Last(t).slots, i, Ended)
  {
    var p := DoThreadKick(r, i);
    t := DoThreadIo(p, i);
    assert Follows(r, p);
  }

  // ----- shutdown

  const Gone := (x: Slot) => if x.published then x.(published := false, joins := x.joins + 1) else x

  lemma DoTakeHandle(r: Run, k: nat) returns (t: Run)
    requires Legal(r) && Last(r).main == Join(k) && k < |Last(r).slots|
    ensures var s := Last(r); Legal(t) && t == Did(r, TakeHandle,
      if s.slots[k].published
      then s.(main := Joining(k), slots := s.slots[k := s.slots[k].(published := false)])
      else s.(main := Join(k + 1)))
  {
    t := Do(r, TakeHandle);
  }

  lemma JoinOutcome(s: State, k: nat)
    requires s.main == Joining(k) && k < |s.slots| && s.slots[k].thread.Ended?
    ensures Enabled(s, JoinThread)
    ensures Next(s, JoinThread) ==
      s.(main := Join(k + 1), slots := s.slots[k := s.slots[k].(joins := s.slots[k].joins + 1)])
  {}

  lemma DoJoin(r: Run, k: nat) returns (t: Run)
    requires Legal(r) && Last(r).main == Joining(k) && k < |Last(r).slots| && Last(r).slots[k].thread.Ended?
    ensures var s := Last(r); Legal(t) && t == Did(r, JoinThread,
      s.(main := Join(k + 1), slots := s.slots[k := s.slots[k].(joins := s.slots[k].joins + 1)]))
  {
    JoinOutcome(Last(r), k);
    t := Do(r, JoinThread);
  }

  lemma JoinOne(r: Run, k: nat) returns (t: Run)
    requires Legal(r) && Last(r).main == Join(k) && k < |Last(r).slots|
    requires Last(r).slots[k].published ==> Last(r).slots[k].thread.Ended?
    ensures Legal(t) && Follows(r, t)
    ensures Last(t) == Last(r).(main := Join(k + 1), slots := Last(r).slots[k := Gone(Last(r).slots[k])])
  {
    t := DoTakeHandle(r, k);
    if Last(r).slots[k].published {
      var p := t;
      t := DoJoin(p, k);
      assert Follows(r, p);
    }
  }

  /** The join loop gets as far as slot `k`, if every thread with a handle has ended. */
  lemma {:induction false} Joins(r: Run, k: nat) returns (t: Run)
    requires Legal(r) && Last(r).main == Join(0) && k <= |Last(r).slots|
    requires forall i :: 0 <= i < |Last(r).slots| && Last(r).slots[i].published ==> Last(r).slots[i].thread.Ended?
    ensures Legal(t) && Follows(r, t)
    ensures Last(t) == Last(r).(main := Join(k), slots := Upto(Last(r).slots, k, Gone))
  {
    if k == 0 {
      t := r;
      UptoNone(Last(r).slots, Gone);
    } else {
      var m := Joins(r, k - 1);
      t := JoinOne(m, k - 1);
      UptoNext(Last(r).slots, k - 1, Gone);
      FollowsTwice(r, m, t);
    }
  }

  lemma DoFinish(r: Run, ret: int) returns (t: Run)
    requires Legal(r) && Last(r).main == Out(ret)
    ensures var s := Last(r); Legal(t) && t == Did(r, Finish,
      if ret < 0
      then s.(main := ErrorStop, error := if s.error == 0 then ret else s.error, reports := s.reports + [ret])
      else s.(main := CleanStop))
  {
    t := Do(r, Finish);
  }

  /** One pass of the shutdown request by `vm_run` itself, for its error or in the cleanup. */
  lemma Requests(r: Run) returns (t: Run)
    requires Legal(r) && (Last(r).main.ErrorStop? || Last(r).main.CleanStop?)
    ensures Legal(t) && Follows(r, t)
    ensures Last(t) == Last(r).(main := if Last(r).main.ErrorStop? then CleanStop else Join(0), stop := true,
                                ioStop := true, slots := Last(t).slots)
    ensures AllKicked(Last(r).slots, Last(t).slots, |Last(r).slots|, Ended)
  {
    var p := Do(r, SetStop);
    LegalInv(p);
    NoJoinedIsPublished(Last(p));
    var q := Do(p, KickAll);
    t := Do(q, StopIo);
    assert Follows(r, p) && Follows(r, q);
  }

  lemma DoStopped(r: Run) returns (t: Run)
    requires Legal(r) && Last(r).main == Join(|Last(r).slots|)
    ensures Legal(t) && t == Did(r, TakeHandle, Last(r).(main := Stopped))
  {
    t := Do(r, TakeHandle);
  }

  /** Once every thread has ended `vm_run` completes: whatever it returned with, stop is set, every thread that was
      created was kicked and is joined exactly once, and the error kept is the first. */
  lemma ShutdownCompletes(r: Run, ret: int) returns (t: Run)
    requires Legal(r) && Last(r).main == Out(ret)
    requires forall i :: 0 <= i < |Last(r).slots| ==> Last(r).slots[i].thread.Absent? || Last(r).slots[i].thread.Ended?
    ensures Legal(t) && Follows(r, t)
    ensures var s := Last(r);
      Last(t) == s.(main := Stopped, stop := true, ioStop := true, slots := Last(t).slots,
                    error := if ret < 0 && s.error == 0 then ret else s.error,
                    reports := if ret < 0 then s.reports + [ret] else s.reports)
    ensures AllGone(Last(r).slots, Last(t).slots)
  {
    HandlesAtOut(r);
    var m := DoFinish(r, ret);
    if ret < 0 {
      var p := Requests(m);
      FollowsTwice(r, m, p);
      m := p;
    }
    t := Cleanup(m);
    FollowsTwice(r, m, t);
  }

  /** Every thread that was created has been kicked and is joined once. */
  ghost predicate AllGone(xs: seq<Slot>, ys: seq<Slot>) {
    && |ys| == |xs|
    && forall i :: 0 <= i < |xs| ==>
      ys[i] == if xs[i].thread.Absent? then xs[i] else xs[i].(published := false, kicked := true, joins := 1)
  }

  /** Outside the cleanup a handle is published exactly when its thread exists. */
  lemma HandlesAtOut(r: Run)
    requires Legal(r) && Last(r).main.Out?
    ensures forall i :: 0 <= i < |Last(r).slots| ==>
      Last(r).slots[i].joins == 0 && (Last(r).slots[i].published <==> !Last(r).slots[i].thread.Absent?)
  {
    LegalInv(r);
    forall i | 0 <= i < |Last(r).slots|
      ensures Last(r).slots[i].joins == 0 && (Last(r).slots[i].published <==> !Last(r).slots[i].thread.Absent?)
    {
      assert SlotOk(Last(r).main, Last(r).slots[i], i);
    }
  }

  lemma Cleanup(r: Run) returns (t: Run)
    requires Legal(r) && Last(r).main.CleanStop?
    requires forall i :: 0 <= i < |Last(r).slots| ==>
      && Last(r).slots[i].joins == 0 && (Last(r).slots[i].thread.Ended? || Last(r).slots[i].thread.Absent?)
      && (Last(r).slots[i].published <==> !Last(r).slots[i].thread.Absent?)
    ensures Legal(t) && Follows(r, t)
    ensures Last(t) == Last(r).(main := Stopped, stop := true, ioStop := true, slots := Last(t).slots)
    ensures AllGone(Last(r).slots, Last(t).slots)
  {
    var m := Requests(r);
    var p := Joins(m, |Last(m).slots|);
    t := DoStopped(p);
    FollowsTwice(r, m, p);
  }

  // ----- a whole life

  const Inside := (x: Slot) => x.(thread := Running)

  lemma {:induction false} AllEnter(r: Run, k: nat) returns (t: Run)
    requires Legal(r) && Last(r).main.Dispatch? && !Last(r).stop && k <= |Last(r).slots|
    requires forall i :: 0 <= i < |Last(r).slots| ==> Last(r).slots[i].thread.AtGate?
    ensures Legal(t) && Follows(r, t) && Last(t) == Last(r).(slots := Upto(Last(r).slots, k, Inside))
  {
    if k == 0 {
      t := r;
      UptoNone(Last(r).slots, Inside);
    } else {
      var m := AllEnter(r, k - 1);
      t := Enters(m, k - 1);
      UptoNext(Last(r).slots, k - 1, Inside);
      FollowsTwice(r, m, t);
    }
  }

  const Left := (x: Slot) => if x.thread.Running? then x.(thread := Ended) else x

  /** The kicked vCPUs leave the guest. */
  lemma {:induction false} AllLeave(r: Run, k: nat) returns (t: Run)
    requires Legal(r) && k <= |Last(r).slots|
    ensures Legal(t) && Follows(r, t) && Last(t) == Last(r).(slots := Upto(Last(r).slots, k, Left))
  {
    if k == 0 {
      t := r;
      UptoNone(Last(r).slots, Left);
    } else {
      var m := AllLeave(r, k - 1);
      UptoNext(Last(r).slots, k - 1, Left);
      if Last(r).slots[k - 1].thread.Running? {
        ExitOutcome(Last(m), k - 1, 0);
        t := DoExit(m, k - 1, 0);
        FollowsTwice(r, m, t);
      } else {
        assert Upto(Last(r).slots, k - 1, Left)[k - 1 := Last(r).slots[k - 1]] == Upto(Last(r).slots, k - 1, Left);
        t := m;
      }
    }
  }

  lemma DoReturn(r: Run, e: int) returns (t: Run)
    requires Legal(r) && Last(r).main.Dispatch? && Last(r).ioStop
    ensures Legal(t) && t == Did(r, Return(e), Last(r).(main := Out(e)))
  {
    t := Do(r, Return(e));
  }

  /** One vCPU of a running machine fails: all others are kicked and leave, every thread is joined once, and the
      machine stops with that error. */
  lemma OneFailureEndsTheMachine(n: nat, i: nat, e: int) returns (t: Run)
    requires i < n && e < 0
    ensures Legal(t) && Follows(Assembled(n), t)
    ensures Last(t) == State(Stopped, true, true, e, [e], Last(t).slots, false) && |Last(t).slots| == n
    ensures forall j :: 0 <= j < n ==> Last(t).slots[j] == Slot(false, Ended, true, 1)
  {
    var a := StartupPublishes(n);
    var b := AllEnter(a, n);
    FollowsTwice(Assembled(n), a, b);
    var c := FailureStopsAll(b, i, e);
    FollowsTwice(Assembled(n), b, c);
    t := TheRestLeaves(c);
    FollowsTwice(Assembled(n), c, t);
  }

  lemma TheRestLeaves(r: Run) returns (t: Run)
    requires Legal(r) && Last(r).main.Dispatch? && Last(r).ioStop && Last(r).stop
    requires forall j :: 0 <= j < |Last(r).slots| ==> Last(r).slots[j].thread.Running? || Last(r).slots[j].thread.Ended?
    ensures Legal(t) && Follows(r, t)
    ensures Last(t) == Last(r).(main := Stopped, slots := Last(t).slots) && |Last(t).slots| == |Last(r).slots|
    ensures forall j :: 0 <= j < |Last(r).slots| ==> Last(t).slots[j] == Slot(false, Ended, true, 1)
  {
    var a := AllLeave(r, |Last(r).slots|);
    var b := DoReturn(a, 0);
    t := ShutdownCompletes(b, 0);
    FollowsTwice(r, a, b);
    FollowsTwice(r, b, t);
  }
}
