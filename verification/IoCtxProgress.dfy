/** What the I/O context does when it is asked: which posts it takes, that the runner serves what is
    queued, that a close gives everything back, and that a stopped runner returns the error. */
module IoCtxProgress {
  import opened Errors
  import opened IoQueue
  import opened IoCtx
  import opened IoCtxSafety

  // ----- the calls of producers and owners

  function Signalled(r: Runner): Runner {
    if r.Waiting? then Waiting(true) else r
  }

  /** A post is taken exactly when memory was there, the context runs and the binding is open: then the
      work is queued last, it holds a reference, and a waiting runner is signalled. Otherwise the datum
      is handed back and nothing else changes. */
  lemma PostOutcome(s: State, b: nat, k: Kind, oom: bool)
    requires Enabled(s, Post(b, k, oom))
    ensures b in s.bindings
    ensures var t := Next(s, Post(b, k, oom)); var w := Work(s.nextId, b, k); var x := s.bindings[b];
      if !oom && !s.stopped && x.open
      then t == s.(nextId := s.nextId + 1, work := s.work + [w], bindings := s.bindings[b := x.(refs := x.refs + 1)],
                   runner := Signalled(s.runner), log := s.log.(accepted := s.log.accepted + [w]))
      else t == s.(nextId := s.nextId + 1, rejected := s.rejected + [s.nextId])
  {}

  /** A refused datum is released once, by its poster. */
  lemma RefusedIsReleased(s: State, i: nat)
    requires i < |s.rejected|
    ensures Enabled(s, ReleaseRejected(i))
    ensures Next(s, ReleaseRejected(i)) ==
      s.(rejected := s.rejected[..i] + s.rejected[i + 1..],
         log := s.log.(released := s.log.released + [s.rejected[i]]))
  {}

  /** A new binding is open and enabled with one reference, its owner's; a stopped context makes none. */
  lemma CreateOutcome(s: State)
    requires Inv(s) && Enabled(s, Create)
    ensures s.nextBinding !in s.bindings
    ensures Next(s, Create) ==
      if s.stopped then s
      else s.(bindings := s.bindings[s.nextBinding := Binding(1, true, true, true)], count := |s.bindings| + 1,
              nextBinding := s.nextBinding + 1)
  {}

  /** Pausing and resuming change that flag alone; a waiting runner looks again. */
  lemma EnableOutcome(s: State, b: nat, on: bool)
    requires Enabled(s, SetEnabled(b, on))
    ensures b in s.bindings
    ensures var t := Next(s, SetEnabled(b, on));
      t == s.(bindings := s.bindings[b := s.bindings[b].(enabled := on)], runner := Signalled(s.runner))
  {}

  /** The context stops, with the first negative error if one was given, and a waiting runner wakes. */
  lemma StopOutcome(s: State, e: int)
    ensures Next(s, Stop) == s.(stopped := true, runner := Signalled(s.runner))
    ensures Next(s, Fail(e)) ==
      s.(stopped := true, runner := Signalled(s.runner), error := if s.error == 0 && e < 0 then e else s.error,
         log := s.log.(reports := s.log.reports + [e]))
  {}

  /** Whoever takes the free device lock may create bindings, and pause or close those whose owner holds
      its reference, until it gives the lock back. */
  lemma LockOutcome(s: State, b: nat, on: bool)
    requires s.device.Free? && s.cancelled == []
    ensures Enabled(s, DeviceLock)
    ensures var t := s.(device := ByThread);
      && Next(s, DeviceLock) == t && Enabled(t, DeviceUnlock) && Next(t, DeviceUnlock) == s && Enabled(t, Create)
      && (b in s.bindings && s.bindings[b].owned ==> Enabled(t, SetEnabled(b, on)) && Enabled(t, Close(b)))
  {}

  /** Posting needs nothing but the owner's reference, which it may put once it closed; stopping and failing
      are possible at any time. */
  lemma AlwaysOpen(s: State, b: nat, k: Kind, oom: bool, e: int)
    ensures Enabled(s, Stop) && Enabled(s, Fail(e))
    ensures b in s.bindings && s.bindings[b].owned ==> Enabled(s, Post(b, k, oom))
    ensures b in s.bindings && s.bindings[b].owned && !s.bindings[b].open ==> Enabled(s, OwnerPut(b))
    ensures b in s.bindings && s.bindings[b].refs == 0 ==> Enabled(s, Retire(b))
  {}

  /** A wrong step would be seen: freeing an open binding, or dropping a reference on one that is gone, is recorded
      for good. */
  lemma BugIsRecorded(s: State, a: Action)
    requires Enabled(s, a)
    ensures s.log.bug ==> Next(s, a).log.bug
    ensures a.Retire? ==> (Next(s, a).log.bug <==> s.log.bug || s.bindings[a.b].open)
    ensures a.CancelPut? ==> (Next(s, a).log.bug <==> s.log.bug || s.cancelled[0].binding !in s.bindings)
    ensures a.DropRef? || a.CheckOpen? ==>
      (Next(s, a).log.bug <==> s.log.bug || s.runner.w.binding !in s.bindings)
  {}

  // ----- runs with their actions

  /** What happened since the context was created, the last action outermost. */
  datatype Run = Created | Did(past: Run, a: Action, s: State)

  function Last(r: Run): State {
    if r.Created? then Init else r.s
  }

  ghost predicate Legal(r: Run)
    decreases r, 2
  {
    r.Did? ==> Extends(r)
  }

  ghost predicate Extends(r: Run)
    requires r.Did?
    decreases r, 1
  {
    Legal(r.past) && LastStep(r)
  }

  ghost predicate LastStep(r: Run)
    requires r.Did?
    decreases r, 0
  {
    Enabled(Last(r.past), r.a) && r.s == Next(Last(r.past), r.a)
  }

  lemma Do(r: Run, a: Action) returns (t: Run)
    requires Legal(r) && Enabled(Last(r), a)
    ensures Legal(t) && t == Did(r, a, Next(Last(r), a))
  {
    t := Did(r, a, Next(Last(r), a));
    assert Extends(t);
  }

  lemma {:induction false} LegalInv(r: Run)
    requires Legal(r)
    ensures Inv(Last(r))
  {
    if r.Created? {
    } else {
      assert Extends(r) && LastStep(r);
      LegalInv(r.past);
      InvStep(Last(r.past), r.a);
    }
  }

  /** Every reachable state is the last of such a run. */
  lemma {:induction false} HasRun(run: seq<State>, i: nat) returns (r: Run)
    requires IsRun(run) && i < |run|
    ensures Legal(r) && Last(r) == run[i]
  {
    if i == 0 {
      r := Created;
    } else {
      var p := HasRun(run, i - 1);
      assert StepAt(run, i);
      r := DoSome(p, run[i]);
    }
  }

  lemma DoSome(r: Run, s: State) returns (t: Run)
    requires Legal(r) && Steps(Last(r), s)
    ensures Legal(t) && Last(t) == s
  {
    var a :| Enabled(Last(r), a) && s == Next(Last(r), a);
    t := Do(r, a);
  }

  /** `t` goes on from `r`, and only the runner acted. */
  predicate Alone(r: Run, t: Run) {
    t == r || (t.Did? && ByTheRunner(t.a) && Alone(r, t.past))
  }

  lemma {:induction false} AloneTwice(r: Run, m: Run, t: Run)
    requires Alone(r, m) && Alone(m, t)
    ensures Alone(r, t)
    decreases t
  {
    if t == m {
    } else {
      AloneTwice(r, m, t.past);
    }
  }

  /** `t` goes on from `r`. */
  predicate Follows(r: Run, t: Run) {
    t == r || (t.Did? && Follows(r, t.past))
  }

  lemma {:induction false} FollowsTwice(r: Run, m: Run, t: Run)
    requires Follows(r, m) && (Follows(m, t) || Alone(m, t))
    ensures Follows(r, t)
    decreases t
  {
    if t == m {
    } else {
      FollowsTwice(r, m, t.past);
    }
  }

  // ----- the runner

  /** The runner is between two rounds, nobody holds the device lock, and the context runs. */
  predicate AtRest(s: State) {
    s.runner.Idle? && s.device.Free? && !s.stopped
  }

  /** The oldest work that may run. */
  predicate Oldest(s: State, i: nat) {
    i < |s.work| && Eligible(s.work[i], On(s)) && forall j :: 0 <= j < i ==> !Eligible(s.work[j], On(s))
  }

  lemma DoLook(r: Run, i: nat) returns (t: Run)
    requires Legal(r) && AtRest(Last(r)) && Oldest(Last(r), i)
    ensures Legal(t) && t == Did(r, Look, Last(r).(runner := Ready))
  {
    assert First(Last(r).work, On(Last(r))) == i;
    t := Do(r, Look);
  }

  lemma DoTakeDevice(r: Run) returns (t: Run)
    requires Legal(r) && Last(r).runner.Ready? && Last(r).device.Free?
    ensures Legal(t) && t == Did(r, TakeDevice, Last(r).(runner := HasDevice, device := ByRunner))
  {
    t := Do(r, TakeDevice);
  }

  lemma DoTake(r: Run, i: nat) returns (t: Run)
    requires Legal(r) && Last(r).runner.HasDevice? && !Last(r).stopped && Oldest(Last(r), i)
    ensures var s := Last(r);
      Legal(t) && t == Did(r, Take, s.(runner := Busy(s.work[i], Taken), work := s.work[..i] + s.work[i + 1..]))
  {
    assert First(Last(r).work, On(Last(r))) == i;
    t := Do(r, Take);
  }

  lemma DoCheckOpen(r: Run, w: Work) returns (t: Run)
    requires Legal(r) && Last(r).runner == Busy(w, Taken) && IsOpen(Last(r), w.binding)
    ensures Legal(t) && t == Did(r, CheckOpen, Last(r).(runner := Busy(w, Approved)))
  {
    t := Do(r, CheckOpen);
  }

  lemma DoStart(r: Run, w: Work) returns (t: Run)
    requires Legal(r) && Last(r).runner == Busy(w, Approved)
    ensures var s := Last(r); Legal(t) && t == Did(r, StartCallback,
      s.(runner := Busy(w, InCallback), log := s.log.(executed := s.log.executed + [w])))
  {
    t := Do(r, StartCallback);
  }

  lemma DoEnd(r: Run, w: Work) returns (t: Run)
    requires Legal(r) && Last(r).runner == Busy(w, InCallback) && Last(r).cancelled == []
    ensures Legal(t) && t == Did(r, EndCallback, Last(r).(runner := Busy(w, Finishing)))
  {
    t := Do(r, EndCallback);
  }

  lemma DoRelease(r: Run, w: Work) returns (t: Run)
    requires Legal(r) && Last(r).runner == Busy(w, Finishing)
    ensures var s := Last(r); Legal(t) && t == Did(r, ReleaseDatum,
      s.(runner := Busy(w, Dropping), log := s.log.(released := s.log.released + [w.id])))
  {
    t := Do(r, ReleaseDatum);
  }

  lemma DoDrop(r: Run, w: Work) returns (t: Run)
    requires Legal(r) && Last(r).runner == Busy(w, Dropping) && w.binding in Last(r).bindings
    ensures var s := Last(r); var x := s.bindings[w.binding]; Legal(t) && t == Did(r, DropRef,
      s.(runner := Unlocking, bindings := s.bindings[w.binding := x.(refs := x.refs - 1)]))
  {
    t := Do(r, DropRef);
  }

  lemma DoUnlock(r: Run) returns (t: Run)
    requires Legal(r) && Last(r).runner.Unlocking?
    ensures Legal(t) && t == Did(r, Unlock, Last(r).(runner := Idle, device := Free))
  {
    t := Do(r, Unlock);
  }

  /** `s` after work number `i` has run: its callback was made, its datum released, its reference
      dropped. */
  function Ran(s: State, i: nat): State
    requires i < |s.work| && s.work[i].binding in s.bindings
  {
    var w := s.work[i]; var x := s.bindings[w.binding];
    s.(work := s.work[..i] + s.work[i + 1..], bindings := s.bindings[w.binding := x.(refs := x.refs - 1)],
       log := s.log.(executed := s.log.executed + [w], released := s.log.released + [w.id]))
  }

  /** Whenever something may run, the runner's round runs the oldest such work, and nothing else changes. */
  lemma RoundServes(r: Run, i: nat) returns (t: Run)
    requires Legal(r) && AtRest(Last(r)) && Oldest(Last(r), i)
    ensures var s := Last(r); Legal(t) && s.work[i].binding in s.bindings && Last(t) == Ran(s, i)
    ensures Alone(r, t)
  {
    var m := RoundBegins(r, i);
    t := RoundEnds(m, Last(r).work[i]);
    AloneTwice(r, m, t);
  }

  lemma RoundBegins(r: Run, i: nat) returns (t: Run)
    requires Legal(r) && AtRest(Last(r)) && Oldest(Last(r), i)
    ensures var s := Last(r); var w := s.work[i];
      && Legal(t) && w.binding in s.bindings && s.cancelled == []
      && Last(t) == s.(device := ByRunner, runner := Busy(w, Approved), work := s.work[..i] + s.work[i + 1..])
    ensures Alone(r, t)
  {
    OldestIsOpen(r, i);
    var w := Last(r).work[i];
    var a := DoLook(r, i);
    var b := DoTakeDevice(a);
    var c := DoTake(b, i);
    t := DoCheckOpen(c, w);
    assert Alone(r, a) && Alone(r, b) && Alone(r, c);
  }

  lemma OldestIsOpen(r: Run, i: nat)
    requires Legal(r) && AtRest(Last(r)) && i < |Last(r).work|
    ensures IsOpen(Last(r), Last(r).work[i].binding) && Last(r).cancelled == []
  {
    LegalInv(r);
  }

  lemma RoundEnds(r: Run, w: Work) returns (t: Run)
    requires Legal(r) && Last(r).runner == Busy(w, Approved) && Last(r).cancelled == [] && w.binding in Last(r).bindings
    ensures var s := Last(r); var x := s.bindings[w.binding];
      && Legal(t) && Alone(r, t)
      && Last(t) == s.(device := Free, runner := Idle, bindings := s.bindings[w.binding := x.(refs := x.refs - 1)],
                       log := s.log.(executed := s.log.executed + [w], released := s.log.released + [w.id]))
  {
    var m := Calls(r, w);
    t := Leaves(m, w);
    AloneTwice(r, m, t);
  }

  lemma Calls(r: Run, w: Work) returns (t: Run)
    requires Legal(r) && Last(r).runner == Busy(w, Approved) && Last(r).cancelled == []
    ensures var s := Last(r);
      && Legal(t) && Alone(r, t)
      && Last(t) == s.(runner := Busy(w, Finishing), log := s.log.(executed := s.log.executed + [w]))
  {
    var a := DoStart(r, w);
    t := DoEnd(a, w);
    assert Alone(r, a);
  }

  lemma Leaves(r: Run, w: Work) returns (t: Run)
    requires Legal(r) && Last(r).runner == Busy(w, Finishing) && w.binding in Last(r).bindings
    ensures var s := Last(r); var x := s.bindings[w.binding];
      && Legal(t) && Alone(r, t)
      && Last(t) == s.(device := Free, runner := Idle, bindings := s.bindings[w.binding := x.(refs := x.refs - 1)],
                       log := s.log.(released := s.log.released + [w.id]))
  {
    var a := DoRelease(r, w);
    var b := DoDrop(a, w);
    t := DoUnlock(b);
    assert Alone(r, a) && Alone(r, b);
  }

  /** The identities of the works, in order. */
  function Ids(ws: seq<Work>): seq<nat> {
    if ws == [] then [] else [ws[0].id] + Ids(ws[1..])
  }

  /** While nothing is paused, a run can go on until everything queued has run, in the order of the queue,
      and every datum is released. */
  lemma {:induction false} EverythingRuns(r: Run) returns (t: Run)
    requires Legal(r) && AtRest(Last(r)) && forall w :: w in Last(r).work ==> Eligible(w, On(Last(r)))
    ensures var s, e := Last(r), Last(t);
      && Legal(t) && Alone(r, t) && AtRest(e) && e.work == [] && e.log.executed == s.log.executed + s.work
      && e.log.released == s.log.released + Ids(s.work) && e.log.accepted == s.log.accepted
    decreases |Last(r).work|
  {
    var s := Last(r);
    if s.work == [] {
      t := r;
    } else {
      var m := RoundServes(r, 0);
      FirstRan(s);
      t := EverythingRuns(m);
      AloneTwice(r, m, t);
    }
  }

  lemma FirstRan(s: State)
    requires s.work != [] && s.work[0].binding in s.bindings
    ensures var m := Ran(s, 0);
      && m.work == s.work[1..] && On(m) == On(s) && (AtRest(s) ==> AtRest(m))
      && m.log.executed + m.work == s.log.executed + s.work
      && m.log.released + Ids(m.work) == s.log.released + Ids(s.work) && m.log.accepted == s.log.accepted
  {
    SameOn(s, s.work[0].binding);
    assert s.log.executed + [s.work[0]] + s.work[1..] == s.log.executed + s.work;
    assert s.log.released + [s.work[0].id] + Ids(s.work[1..]) == s.log.released + Ids(s.work);
    assert s.work[..0] + s.work[1..] == s.work[1..];
  }

  lemma SameOn(s: State, b: nat)
    requires b in s.bindings
    ensures On(s.(bindings := s.bindings[b := s.bindings[b].(refs := s.bindings[b].refs - 1)])) == On(s)
  {}

  lemma DoPost(r: Run, b: nat, k: Kind) returns (t: Run)
    requires Legal(r) && Owned(Last(r), b) && Last(r).bindings[b].open && !Last(r).stopped
    ensures var s := Last(r); var w := Work(s.nextId, b, k); var x := s.bindings[b]; Legal(t) && t == Did(r,
      Post(b, k, false),
      s.(nextId := s.nextId + 1, work := s.work + [w], bindings := s.bindings[b := x.(refs := x.refs + 1)],
         runner := Signalled(s.runner), log := s.log.(accepted := s.log.accepted + [w])))
  {
    PostOutcome(Last(r), b, k, false);
    t := Do(r, Post(b, k, false));
  }

  lemma DoWake(r: Run) returns (t: Run)
    requires Legal(r) && Last(r).runner.Waiting?
    ensures Legal(t) && t == Did(r, Wake, Last(r).(runner := Idle))
  {
    t := Do(r, Wake);
  }

  /** A post to an open, enabled binding of a context whose runner waits is delivered: the runner is
      signalled, wakes, and its round runs that work and no other. */
  lemma PostedIsDelivered(r: Run, b: nat, k: Kind) returns (t: Run)
    requires Legal(r) && Last(r).runner == Waiting(false) && Last(r).device.Free? && Owned(Last(r), b)
    requires Last(r).bindings[b].open && Last(r).bindings[b].enabled
    ensures var s := Last(r); var w := Work(s.nextId, b, k);
      && Legal(t) && Follows(r, t)
      && Last(t) == s.(runner := Idle, nextId := s.nextId + 1,
                       log := s.log.(accepted := s.log.accepted + [w], executed := s.log.executed + [w],
                                     released := s.log.released + [s.nextId]))
  {
    var s := Last(r);
    LegalInv(r);
    var p := DoPost(r, b, k);
    var q := DoWake(p);
    OnlyNew(s, Last(q), b, k);
    t := RoundServes(q, |s.work|);
    assert Follows(r, p);
    FollowsTwice(r, q, t);
  }

  lemma OnlyNew(s: State, q: State, b: nat, k: Kind)
    requires Inv(s) && s.runner == Waiting(false) && b in s.bindings && s.bindings[b].enabled
    requires var w := Work(s.nextId, b, k); var x := s.bindings[b];
      q == s.(nextId := s.nextId + 1, work := s.work + [w], bindings := s.bindings[b := x.(refs := x.refs + 1)],
              runner := Idle, log := s.log.(accepted := s.log.accepted + [w]))
    ensures !s.stopped && Oldest(q, |s.work|)
    ensures var e := Ran(q, |s.work|); e.work == s.work && e.bindings == s.bindings
  {
    assert On(q) == On(s);
    assert forall j :: 0 <= j < |s.work| ==> q.work[j] == s.work[j] && s.work[j] in s.work;
    assert q.work[..|s.work|] + q.work[|s.work| + 1..] == s.work;
  }

  /** A context from its creation: someone makes a binding, the runner waits, one post arrives and is delivered. */
  lemma FromScratch(k: Kind) returns (t: Run)
    ensures Legal(t) && Follows(Created, t)
    ensures Last(t).log == Log([Work(0, 0, k)], [Work(0, 0, k)], [0], [], false)
    ensures Last(t).bindings == map[0 := Binding(1, true, true, true)] && Last(t).work == [] && AtRest(Last(t))
  {
    var a := Do(Created, DeviceLock);
    var b := Do(a, Create);
    var c := Do(b, DeviceUnlock);
    WaitsOtherwise(Last(c));
    var d := Do(c, Look);
    assert Follows(Created, a) && Follows(Created, b) && Follows(Created, c);
    t := PostedIsDelivered(d, 0, k);
    FollowsTwice(Created, d, t);
  }

  /** With nothing to run, the runner waits. */
  lemma WaitsOtherwise(s: State)
    requires AtRest(s) && forall w :: w in s.work ==> !Eligible(w, On(s))
    ensures Enabled(s, Look) && Next(s, Look) == s.(runner := Waiting(false))
  {}

  lemma DoReturn(r: Run) returns (t: Run)
    requires Legal(r) && Last(r).runner.Idle? && Last(r).stopped
    ensures Legal(t) && t == Did(r, Look, Last(r).(runner := Done(FirstNegative(Last(r).log.reports))))
  {
    LegalInv(r);
    t := Do(r, Look);
  }

  lemma DoTakeNothing(r: Run) returns (t: Run)
    requires Legal(r) && Last(r).runner.HasDevice? && Last(r).stopped
    ensures Legal(t) && t == Did(r, Take, Last(r).(runner := Unlocking))
  {
    t := Do(r, Take);
  }

  /** A stopped runner returns the first negative error that was reported: from between two rounds at once,
      from its wait when it wakes, and when it saw work already, after taking the device lock and finding
      the context stopped. No further work runs. */
  lemma StoppedReturns(r: Run) returns (t: Run)
    requires Legal(r) && Last(r).stopped && Last(r).device.Free?
    requires Last(r).runner.Idle? || Last(r).runner.Waiting? || Last(r).runner.Ready?
    ensures Legal(t) && Alone(r, t) && Last(t) == Last(r).(runner := Done(FirstNegative(Last(r).log.reports)))
  {
    if Last(r).runner.Idle? {
      t := DoReturn(r);
    } else if Last(r).runner.Waiting? {
      var m := DoWake(r);
      t := DoReturn(m);
      assert Alone(r, m);
    } else {
      var a := DoTakeDevice(r);
      var b := DoTakeNothing(a);
      var c := DoUnlock(b);
      t := DoReturn(c);
      assert Alone(r, a) && Alone(r, b) && Alone(r, c);
    }
  }

  // ----- closing

  /** The state once all cancelled works of `b` are given back. */
  function AllBack(s: State, b: nat): State
    requires b in s.bindings
  {
    var x := s.bindings[b];
    s.(bindings := s.bindings[b := x.(refs := x.refs - |s.cancelled|)], cancelled := [],
       log := s.log.(released := s.log.released + Ids(s.cancelled)))
  }

  /** The state once the first of them is. */
  function OneBack(s: State, b: nat): State
    requires b in s.bindings && s.cancelled != []
  {
    var x := s.bindings[b];
    s.(bindings := s.bindings[b := x.(refs := x.refs - 1)], cancelled := s.cancelled[1..],
       log := s.log.(released := s.log.released + [s.cancelled[0].id]))
  }

  lemma OneThenAll(s: State, b: nat)
    requires b in s.bindings && s.cancelled != []
    ensures AllBack(OneBack(s, b), b) == AllBack(s, b)
  {
    assert s.log.released + [s.cancelled[0].id] + Ids(s.cancelled[1..]) == s.log.released + Ids(s.cancelled);
  }

  lemma NoneBack(s: State, b: nat)
    requires b in s.bindings && s.cancelled == []
    ensures AllBack(s, b) == s
  {
    assert s.bindings == s.bindings[b := s.bindings[b]];
  }

  /** The state once the binding is closed and its works are off the queue. */
  function Shut(s: State, b: nat): State
    requires b in s.bindings
  {
    s.(bindings := s.bindings[b := s.bindings[b].(open := false)], work := Keep(s.work, b),
       cancelled := Drop(s.work, b), headReleased := false)
  }

  /** A close that is over: exactly the binding's works left the queue, their data were released in queue order and
      their references dropped; the other works stay in order. */
  function ShutAndBack(s: State, b: nat): State
    requires b in s.bindings
  {
    var gone, x := Drop(s.work, b), s.bindings[b];
    s.(bindings := s.bindings[b := x.(open := false, refs := x.refs - |gone|)], work := Keep(s.work, b),
       headReleased := false, log := s.log.(released := s.log.released + Ids(gone)))
  }

  lemma ShutThenAll(s: State, b: nat)
    requires b in s.bindings && s.cancelled == []
    ensures AllBack(Shut(s, b), b) == ShutAndBack(s, b)
  {}

  lemma DoClose(r: Run, b: nat) returns (t: Run)
    requires Legal(r) && Enabled(Last(r), Close(b))
    ensures b in Last(r).bindings && Legal(t) && t == Did(r, Close(b), Shut(Last(r), b))
  {
    t := Do(r, Close(b));
  }

  /** A close can always be carried through, with that result. */
  lemma CloseGivesBack(r: Run, b: nat) returns (t: Run)
    requires Legal(r) && Enabled(Last(r), Close(b))
    ensures b in Last(r).bindings && Legal(t) && Follows(r, t)
    ensures Last(t) == ShutAndBack(Last(r), b)
  {
    var s := Last(r);
    NotClosing(s, b);
    var c := DoClose(r, b);
    AllOf(s.work, b);
    t := GiveBack(c, b);
    ShutThenAll(s, b);
    FollowsTwice(r, c, t);
  }

  lemma AllOf(ws: seq<Work>, b: nat)
    ensures forall w :: w in Drop(ws, b) ==> w.binding == b
  {
    forall w | w in Drop(ws, b)
      ensures w.binding == b
    {
      CloseMembers(ws, b, w);
    }
  }

  lemma NotClosing(s: State, b: nat)
    requires Enabled(s, Close(b))
    ensures s.cancelled == [] && b in s.bindings
  {}

  lemma {:induction false} GiveBack(r: Run, b: nat) returns (t: Run)
    requires Legal(r) && b in Last(r).bindings && !Last(r).headReleased
    requires forall w :: w in Last(r).cancelled ==> w.binding == b
    ensures Legal(t) && Follows(r, t) && Last(t) == AllBack(Last(r), b)
    decreases |Last(r).cancelled|
  {
    var s := Last(r);
    if s.cancelled == [] {
      t := r;
      NoneBack(s, b);
    } else {
      var m := GiveOne(r, b);
      t := GiveBack(m, b);
      FollowsTwice(r, m, t);
      OneThenAll(s, b);
    }
  }

  lemma GiveOne(r: Run, b: nat) returns (t: Run)
    requires Legal(r) && b in Last(r).bindings && !Last(r).headReleased && Last(r).cancelled != []
    requires Last(r).cancelled[0].binding == b
    ensures Legal(t) && Follows(r, t) && Last(t) == OneBack(Last(r), b)
  {
    var m := DoCancelRelease(r);
    t := DoCancelPut(m, b);
    assert Follows(r, m);
  }

  lemma DoCancelRelease(r: Run) returns (t: Run)
    requires Legal(r) && Last(r).cancelled != [] && !Last(r).headReleased
    ensures var s := Last(r); Legal(t) && t == Did(r, CancelRelease,
      s.(headReleased := true, log := s.log.(released := s.log.released + [s.cancelled[0].id])))
  {
    t := Do(r, CancelRelease);
  }

  lemma DoCancelPut(r: Run, b: nat) returns (t: Run)
    requires Legal(r) && Last(r).cancelled != [] && Last(r).headReleased && b in Last(r).bindings
    requires Last(r).cancelled[0].binding == b
    ensures var s := Last(r); var x := s.bindings[b]; Legal(t) && t == Did(r, CancelPut,
      s.(headReleased := false, bindings := s.bindings[b := x.(refs := x.refs - 1)], cancelled := s.cancelled[1..]))
  {
    t := Do(r, CancelPut);
  }

  /** An owner's put drops its reference; once nobody holds a closed binding, it is freed, and only it. */
  lemma PutOutcome(s: State, b: nat)
    requires Enabled(s, OwnerPut(b))
    ensures var x := s.bindings[b];
      Next(s, OwnerPut(b)) == s.(bindings := s.bindings[b := x.(refs := x.refs - 1, owned := false)])
  {}

  lemma FreeOutcome(s: State, b: nat)
    requires Inv(s) && Enabled(s, Retire(b))
    ensures Next(s, Retire(b)) == s.(bindings := s.bindings - {b}, count := |s.bindings| - 1)
    ensures s.bindings[b].refs == 0 && !s.bindings[b].open && !s.bindings[b].owned
  {
    assert RefsOk(s, b);
  }
}
