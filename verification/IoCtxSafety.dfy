/** What every interleaving of the I/O context keeps: the reference and payload accounts, the
    callback rules, per-stream order, and the absence of lost wakeups. */
module IoCtxSafety {
  import opened Errors
  import opened IoQueue
  import opened IoCtx

  function HandRef(s: State, b: nat): nat {
    if s.runner.Busy? && s.runner.w.binding == b then 1 else 0
  }

  function HandDatum(s: State, d: nat): nat {
    if s.runner.Busy? && !s.runner.phase.Dropping? && s.runner.w.id == d then 1 else 0
  }

  /** Every reference on `b`: the owner's, the queued works', the runner's and the closer's. */
  function Held(s: State, b: nat): nat {
    (if Owned(s, b) then 1 else 0) + Refs(s.work, b) + Refs(s.cancelled, b) + HandRef(s, b)
  }

  function Times(xs: seq<nat>, d: nat): nat {
    if xs == [] then 0 else (if xs[0] == d then 1 else 0) + Times(xs[1..], d)
  }

  /** Every place datum `d` can be: queued, in the runner's, closer's or poster's hands, released. */
  function Places(s: State, d: nat): int {
    Carry(s.work, d) + Carry(s.cancelled, d)
    - (if s.headReleased && s.cancelled != [] && s.cancelled[0].id == d then 1 else 0)
    + HandDatum(s, d) + Times(s.rejected, d) + Times(s.log.released, d)
  }

  /** The work that is taken and whose callback has not started. */
  function Pending(r: Runner, b: nat, k: Kind): seq<Work> {
    if r.Busy? && (r.phase.Taken? || r.phase.Approved?) && r.w.binding == b && r.w.kind == k then [r.w] else []
  }

  predicate RefsOk(s: State, b: nat) {
    if b in s.bindings then s.bindings[b].refs == Held(s, b) else Held(s, b) == 0
  }

  ghost predicate RefsInv(s: State) {
    forall b :: RefsOk(s, b)
  }

  predicate DataOk(s: State, d: nat) {
    Places(s, d) == if d < s.nextId then 1 else 0
  }

  ghost predicate DataInv(s: State) {
    && (s.headReleased ==> s.cancelled != [])
    && forall d :: DataOk(s, d)
  }

  ghost predicate LockInv(s: State) {
    && (s.device.ByRunner? <==>
        s.runner.HasDevice? || s.runner.Unlocking? || s.runner.Busy?)
    && (s.cancelled != [] ==> s.device.ByThread? || In(s, InCallback))
  }

  ghost predicate OpenInv(s: State) {
    && (forall w :: w in s.work ==> IsOpen(s, w.binding))
    && (forall b :: IsOpen(s, b) ==> s.bindings[b].owned)
    && (In(s, Taken) || In(s, Approved) ==>
          IsOpen(s, s.runner.w.binding) && Eligible(s.runner.w, On(s)))
  }

  ghost predicate WakeInv(s: State) {
    s.runner == Waiting(false) ==> !s.stopped && forall w :: w in s.work ==> !Eligible(w, On(s))
  }

  ghost predicate CountInv(s: State) {
    && s.count == |s.bindings|
    && !s.log.bug
    && (forall b :: b in s.bindings ==> b < s.nextBinding)
    && (forall w :: w in s.log.accepted ==> w.binding < s.nextBinding && w.id < s.nextId)
    && s.error == FirstNegative(s.log.reports)
  }

  ghost predicate StreamInv(s: State, b: nat, k: Kind) {
    if IsOpen(s, b) then
      Of(s.log.accepted, b, k) == Of(s.log.executed, b, k) + Pending(s.runner, b, k) + Of(s.work, b, k)
    else
      Of(s.log.executed, b, k) <= Of(s.log.accepted, b, k)
  }

  ghost predicate Inv(s: State) {
    && RefsInv(s) && DataInv(s) && LockInv(s) && OpenInv(s) && WakeInv(s) && CountInv(s)
    && forall b, k :: StreamInv(s, b, k)
  }

  // ----- references

  lemma RefsPost(s: State, c: nat, k: Kind, oom: bool, b: nat)
    requires Owned(s, c) && RefsOk(s, b)
    ensures RefsOk(PostStep(s, c, k, oom), b)
  {
    CountsAppend(s.work, [Work(s.nextId, c, k)], b, 0);
  }

  lemma RefsClose(s: State, c: nat, b: nat)
    requires Locked(s) && Owned(s, c) && RefsOk(s, b)
    ensures RefsOk(CloseStep(s, c), b)
  {
    CloseSplits(s.work, c, b, 0);
  }

  lemma RefsTake(s: State, b: nat)
    requires s.runner.HasDevice? && RefsOk(s, b)
    ensures RefsOk(TakeStep(s), b)
  {
    if First(s.work, On(s)) < |s.work| {
      WithoutCounts(s.work, First(s.work, On(s)), b, 0);
    }
  }

  lemma RefsFrame(s: State, t: State, b: nat)
    requires RefsOk(s, b) && t.bindings == s.bindings && t.work == s.work && t.cancelled == s.cancelled
    requires HandRef(t, b) == HandRef(s, b)
    ensures RefsOk(t, b)
  {}

  lemma RefsRunner(s: State, a: Action, b: nat)
    requires Enabled(s, a) && ByTheRunner(a) && RefsOk(s, b)
    requires a.CheckOpen? ==> s.runner.w.binding in s.bindings
    ensures RefsOk(RunnerNext(s, a), b)
  {
    if a.Take? {
      RefsTake(s, b);
    } else if !a.DropRef? {
      RefsFrame(s, RunnerNext(s, a), b);
    }
  }

  lemma RefsOthers(s: State, a: Action, b: nat)
    requires Enabled(s, a) && !ByTheRunner(a) && RefsOk(s, b)
    requires b == s.nextBinding ==> b !in s.bindings
    ensures RefsOk(OtherNext(s, a), b)
  {
    if a.Post? {
      RefsPost(s, a.b, a.kind, a.oom, b);
    } else if a.Close? {
      RefsClose(s, a.b, b);
    }
  }

  // ----- data

  lemma {:induction false} TimesAppend(xs: seq<nat>, ys: seq<nat>, d: nat)
    ensures Times(xs + ys, d) == Times(xs, d) + Times(ys, d)
  {
    if xs == [] {
      assert xs + ys == ys;
    } else {
      assert (xs + ys)[1..] == xs[1..] + ys;
      TimesAppend(xs[1..], ys, d);
    }
  }

  lemma TimesWithout(xs: seq<nat>, i: nat, d: nat)
    requires i < |xs|
    ensures Times(xs, d) == Times(xs[..i] + xs[i + 1..], d) + if xs[i] == d then 1 else 0
  {
    assert xs == xs[..i] + ([xs[i]] + xs[i + 1..]);
    TimesAppend(xs[..i], [xs[i]] + xs[i + 1..], d);
    TimesAppend([xs[i]], xs[i + 1..], d);
    TimesAppend(xs[..i], xs[i + 1..], d);
  }

  lemma DataPost(s: State, c: nat, k: Kind, oom: bool, d: nat)
    requires DataOk(s, d) && Owned(s, c)
    ensures DataOk(PostStep(s, c, k, oom), d)
  {
    CountsAppend(s.work, [Work(s.nextId, c, k)], 0, d);
    TimesAppend(s.rejected, [s.nextId], d);
  }

  lemma DataClose(s: State, c: nat, d: nat)
    requires Locked(s) && Owned(s, c) && DataOk(s, d)
    ensures DataOk(CloseStep(s, c), d)
  {
    CloseSplits(s.work, c, 0, d);
  }

  lemma DataTake(s: State, d: nat)
    requires s.runner.HasDevice? && DataOk(s, d)
    ensures DataOk(TakeStep(s), d)
  {
    if First(s.work, On(s)) < |s.work| {
      WithoutCounts(s.work, First(s.work, On(s)), 0, d);
    }
  }

  lemma DataFrame(s: State, t: State, d: nat)
    requires DataOk(s, d) && t.work == s.work && t.cancelled == s.cancelled && t.nextId == s.nextId
    requires t.headReleased == s.headReleased && t.rejected == s.rejected
    requires HandDatum(t, d) + Times(t.log.released, d) == HandDatum(s, d) + Times(s.log.released, d)
    ensures DataOk(t, d)
  {}

  lemma DataRunner(s: State, a: Action, d: nat)
    requires Enabled(s, a) && ByTheRunner(a) && DataOk(s, d)
    requires a.CheckOpen? ==> s.runner.w.binding in s.bindings
    ensures DataOk(RunnerNext(s, a), d)
  {
    if a.Take? {
      DataTake(s, d);
    } else {
      if a.ReleaseDatum? {
        TimesAppend(s.log.released, [s.runner.w.id], d);
      }
      DataFrame(s, RunnerNext(s, a), d);
    }
  }

  lemma DataCloser(s: State, a: Action, d: nat)
    requires Enabled(s, a) && (a.Close? || a.CancelRelease? || a.CancelPut?) && DataOk(s, d)
    ensures DataOk(OtherNext(s, a), d)
  {
    if a.Close? {
      DataClose(s, a.b, d);
    } else if a.CancelRelease? {
      TimesAppend(s.log.released, [s.cancelled[0].id], d);
    } else if a.CancelPut? {
    }
  }

  lemma DataOthers(s: State, a: Action, d: nat)
    requires Enabled(s, a) && !ByTheRunner(a) && DataOk(s, d)
    ensures DataOk(OtherNext(s, a), d)
  {
    if a.Post? {
      DataPost(s, a.b, a.kind, a.oom, d);
    } else if a.ReleaseRejected? {
      TimesWithout(s.rejected, a.i, d);
      TimesAppend(s.log.released, [s.rejected[a.i]], d);
    } else if a.Close? {
      DataCloser(s, a, d);
    } else if a.CancelRelease? {
      DataCloser(s, a, d);
    } else if a.CancelPut? {
      DataCloser(s, a, d);
    } else {
      DataFrame(s, OtherNext(s, a), d);
    }
  }

  // ----- locks, open bindings, wakeups

  lemma LockRunner(s: State, a: Action)
    requires Enabled(s, a) && ByTheRunner(a) && LockInv(s)
    requires a.CheckOpen? ==> s.runner.w.binding in s.bindings
    ensures LockInv(RunnerNext(s, a))
  {}

  lemma LockOthers(s: State, a: Action)
    requires Enabled(s, a) && !ByTheRunner(a) && LockInv(s)
    ensures LockInv(OtherNext(s, a))
  {}

  lemma OpenClose(s: State, c: nat)
    requires Locked(s) && Owned(s, c) && OpenInv(s) && LockInv(s)
    ensures OpenInv(CloseStep(s, c))
  {
    forall w | w in Keep(s.work, c)
      ensures w in s.work && w.binding != c
    {
      CloseMembers(s.work, c, w);
    }
  }

  lemma OpenRetire(s: State, c: nat)
    requires c in s.bindings && s.bindings[c].refs == 0 && OpenInv(s) && RefsOk(s, c)
    ensures OpenInv(RetireStep(s, c))
  {}

  /** A change of reference counts, or of a binding that was not open, disturbs nothing. */
  lemma OpenFrame(s: State, t: State)
    requires OpenInv(s)
    requires forall w :: w in t.work ==> w in s.work
    requires forall b :: b in s.bindings ==>
      b in t.bindings && t.bindings[b].open == s.bindings[b].open
      && t.bindings[b].enabled == s.bindings[b].enabled
      && (s.bindings[b].open ==> t.bindings[b].owned == s.bindings[b].owned)
    requires forall b :: b in t.bindings && t.bindings[b].open ==> b in s.bindings || t.bindings[b].owned
    requires In(t, Taken) || In(t, Approved) ==>
      (In(s, Taken) || In(s, Approved)) && t.runner.w == s.runner.w
    ensures OpenInv(t)
  {}

  lemma OpenRunner(s: State, a: Action)
    requires Enabled(s, a) && ByTheRunner(a) && OpenInv(s)
    ensures OpenInv(RunnerNext(s, a))
  {}

  lemma OpenPost(s: State, c: nat, k: Kind, oom: bool)
    requires Owned(s, c) && OpenInv(s)
    ensures OpenInv(PostStep(s, c, k, oom))
  {}

  lemma OpenOthers(s: State, a: Action)
    requires Enabled(s, a) && !ByTheRunner(a) && OpenInv(s) && LockInv(s) && RefsInv(s)
    requires s.nextBinding !in s.bindings
    ensures OpenInv(OtherNext(s, a))
  {
    if a.Close? {
      OpenClose(s, a.b);
    } else if a.Retire? {
      assert RefsOk(s, a.b); OpenRetire(s, a.b);
    } else if a.Post? {
      OpenPost(s, a.b, a.kind, a.oom);
    } else if a.SetEnabled? {
    } else {
      OpenFrame(s, OtherNext(s, a));
    }
  }

  lemma WakeStep(s: State, a: Action)
    requires Enabled(s, a) && !ByTheRunner(a) && WakeInv(s) && OpenInv(s)
    requires s.nextBinding !in s.bindings
    ensures WakeInv(OtherNext(s, a))
  {
    var t := OtherNext(s, a);
    if t.runner == Waiting(false) {
      forall w | w in t.work
        ensures !Eligible(w, On(t))
      {
        if a.Close? { CloseMembers(s.work, a.b, w); }
      }
    }
  }

  // ----- order

  lemma StreamPost(s: State, c: nat, kind: Kind, oom: bool, b: nat, k: Kind)
    requires Owned(s, c) && StreamInv(s, b, k)
    ensures StreamInv(PostStep(s, c, kind, oom), b, k)
  {
    var w := Work(s.nextId, c, kind);
    var t := PostStep(s, c, kind, oom);
    if IsOpen(s, c) && t.work != s.work {
      OfAppend(s.log.accepted, [w], b, k);
      OfAppend(s.work, [w], b, k);
      assert Pending(t.runner, b, k) == Pending(s.runner, b, k);
    } else {
      StreamFrame(s, t, b, k);
    }
  }

  lemma StreamClose(s: State, c: nat, b: nat, k: Kind)
    requires c in s.bindings && StreamInv(s, b, k)
    ensures StreamInv(CloseStep(s, c), b, k)
  {
    if b != c {
      CloseKeepsOthers(s.work, c, b, k);
    }
  }

  lemma StreamTake(s: State, b: nat, k: Kind)
    requires s.runner.HasDevice? && StreamInv(s, b, k) && OpenInv(s)
    ensures StreamInv(TakeStep(s), b, k)
  {
    if First(s.work, On(s)) < |s.work| {
      TakeIsFifo(s.work, On(s), b, k);
    }
  }

  lemma StreamStart(s: State, b: nat, k: Kind)
    requires In(s, Approved) && StreamInv(s, b, k) && OpenInv(s)
    ensures StreamInv(StartStep(s), b, k)
  {
    OfAppend(s.log.executed, [s.runner.w], b, k);
  }

  lemma StreamCreate(s: State, b: nat, k: Kind)
    requires StreamInv(s, b, k) && OpenInv(s) && CountInv(s)
    ensures StreamInv(CreateStep(s), b, k)
  {
    if b == s.nextBinding {
      NoneOf(s.log.accepted, b, k);
      NoneOf(s.work, b, k);
    }
  }

  lemma StreamFrame(s: State, t: State, b: nat, k: Kind)
    requires StreamInv(s, b, k) && IsOpen(t, b) == IsOpen(s, b) && t.work == s.work
    requires t.log.accepted == s.log.accepted && t.log.executed == s.log.executed
    requires IsOpen(s, b) ==> Pending(t.runner, b, k) == Pending(s.runner, b, k)
    ensures StreamInv(t, b, k)
  {}

  lemma StreamRunner(s: State, a: Action, b: nat, k: Kind)
    requires Enabled(s, a) && ByTheRunner(a) && StreamInv(s, b, k) && OpenInv(s)
    ensures StreamInv(RunnerNext(s, a), b, k)
  {
    if a.Take? {
      StreamTake(s, b, k);
    } else if a.StartCallback? {
      StreamStart(s, b, k);
    } else {
      var t := RunnerNext(s, a);
      assert IsOpen(t, b) == IsOpen(s, b) && t.work == s.work && t.log.executed == s.log.executed;
      StreamFrame(s, t, b, k);
    }
  }

  lemma StreamOthers(s: State, a: Action, b: nat, k: Kind)
    requires Enabled(s, a) && !ByTheRunner(a) && StreamInv(s, b, k)
    requires OpenInv(s) && CountInv(s) && RefsInv(s)
    ensures StreamInv(OtherNext(s, a), b, k)
  {
    if a.Create? {
      StreamCreate(s, b, k);
    } else if a.Post? {
      StreamPost(s, a.b, a.kind, a.oom, b, k);
    } else if a.Close? {
      StreamClose(s, a.b, b, k);
    } else if a.Retire? {
      assert RefsOk(s, a.b); StreamFrame(s, RetireStep(s, a.b), b, k);
    } else {
      StreamFrame(s, OtherNext(s, a), b, k);
    }
  }

  // ----- counts

  lemma RemoveCount(m: map<nat, Binding>, b: nat)
    requires b in m
    ensures |m - {b}| == |m| - 1
  {}

  lemma UpdateCount(m: map<nat, Binding>, b: nat, v: Binding)
    ensures |m[b := v]| == |m| + if b in m then 0 else 1
  {}

  lemma CountRunner(s: State, a: Action)
    requires Enabled(s, a) && ByTheRunner(a) && CountInv(s) && OpenInv(s) && RefsInv(s)
    ensures CountInv(RunnerNext(s, a))
  {
    if a.DropRef? {
      assert RefsOk(s, s.runner.w.binding);
      UpdateCount(s.bindings, s.runner.w.binding, AddRef(s, s.runner.w.binding, -1).bindings[s.runner.w.binding]);
    }
  }

  /** An action that only rewrites the record of one binding. */
  lemma CountRewrite(s: State, t: State, b: nat)
    requires CountInv(s) && b in s.bindings && b in t.bindings && t.bindings == s.bindings[b := t.bindings[b]]
    requires t.count == s.count && t.nextBinding == s.nextBinding && t.error == s.error
    requires t.log.reports == s.log.reports
    requires !t.log.bug && s.nextId <= t.nextId
    requires forall w :: w in t.log.accepted ==> w in s.log.accepted || (w.binding < s.nextBinding && w.id < t.nextId)
    ensures CountInv(t)
  {}

  lemma CountRest(s: State, a: Action)
    requires Enabled(s, a) && !ByTheRunner(a) && CountInv(s) && OpenInv(s) && RefsInv(s)
    requires !a.CancelPut? && !a.Post? && !a.SetEnabled? && !a.Close? && !a.OwnerPut?
    ensures CountInv(OtherNext(s, a))
  {
    if a.Create? {
      UpdateCount(s.bindings, s.nextBinding, Binding(1, true, true, true));
    } else if a.Retire? {
      assert RefsOk(s, a.b); RemoveCount(s.bindings, a.b);
    } else if a.Fail? {
      FirstNegativeAppend(s.log.reports, a.e);
    }
  }

  lemma CountOthers(s: State, a: Action)
    requires Enabled(s, a) && !ByTheRunner(a) && CountInv(s) && OpenInv(s) && RefsInv(s)
    ensures CountInv(OtherNext(s, a))
  {
    if a.CancelPut? {
      assert RefsOk(s, s.cancelled[0].binding);
      CountRewrite(s, OtherNext(s, a), s.cancelled[0].binding);
    } else if a.Post? || a.SetEnabled? || a.Close? || a.OwnerPut? {
      CountRewrite(s, OtherNext(s, a), a.b);
    } else {
      CountRest(s, a);
    }
  }

  // ----- every run

  lemma InvRunner(s: State, a: Action)
    requires Enabled(s, a) && ByTheRunner(a) && Inv(s)
    ensures Inv(RunnerNext(s, a))
  {
    forall b ensures RefsOk(RunnerNext(s, a), b) { RefsRunner(s, a, b); }
    forall d ensures DataOk(RunnerNext(s, a), d) { DataRunner(s, a, d); }
    forall b, k ensures StreamInv(RunnerNext(s, a), b, k) { StreamRunner(s, a, b, k); }
    LockRunner(s, a);
    OpenRunner(s, a);
    CountRunner(s, a);
  }

  lemma InvOthers(s: State, a: Action)
    requires Enabled(s, a) && !ByTheRunner(a) && Inv(s)
    ensures Inv(OtherNext(s, a))
  {
    forall b ensures RefsOk(OtherNext(s, a), b) { RefsOthers(s, a, b); }
    forall d ensures DataOk(OtherNext(s, a), d) { DataOthers(s, a, d); }
    forall b, k ensures StreamInv(OtherNext(s, a), b, k) { StreamOthers(s, a, b, k); }
    LockOthers(s, a);
    OpenOthers(s, a);
    WakeStep(s, a);
    CountOthers(s, a);
  }

  /** Every action keeps the invariant. */
  lemma {:induction false} InvStep(s: State, a: Action)
    requires Enabled(s, a) && Inv(s)
    ensures Inv(Next(s, a))
  {
    if ByTheRunner(a) {
      InvRunner(s, a);
    } else {
      InvOthers(s, a);
    }
  }

  lemma StepsInv(s: State, t: State)
    requires Steps(s, t) && Inv(s)
    ensures Inv(t)
  {
    var a :| Enabled(s, a) && t == Next(s, a);
    InvStep(s, a);
  }

  lemma {:induction false} RunInv(run: seq<State>, i: nat)
    requires IsRun(run) && i < |run|
    ensures Inv(run[i])
  {
    if i == 0 {
    } else {
      RunInv(run, i - 1);
      assert StepAt(run, i);
      StepsInv(run[i - 1], run[i]);
    }
  }

  lemma ReachableInv(s: State)
    requires Reachable(s)
    ensures Inv(s)
  {
    var run :| IsRun(run) && run[|run| - 1] == s;
    RunInv(run, |run| - 1);
  }

  /** The accounts: a live binding's count is the number of references in existence, the context
      counts its bindings, every posted datum is in exactly one place (so none is lost and none
      is released twice), and no BUG_ON fired. */
  lemma AccountsBalance(s: State, b: nat, d: nat)
    requires Reachable(s)
    ensures b in s.bindings ==> s.bindings[b].refs == Held(s, b)
    ensures b !in s.bindings ==> Held(s, b) == 0
    ensures Places(s, d) == if d < s.nextId then 1 else 0
    ensures s.count == |s.bindings| && !s.log.bug
  {
    ReachableInv(s);
    assert RefsOk(s, b) && DataOk(s, d);
  }

  /** A callback only ever starts on an open binding, and a data callback only on an enabled
      one; so the open test in front of the callback never fails. Queued work is of open
      bindings. */
  lemma CallbacksObeyCloseAndPause(s: State)
    requires Reachable(s)
    ensures forall w :: w in s.work ==> IsOpen(s, w.binding)
    ensures In(s, Taken) || In(s, Approved) ==>
      && IsOpen(s, s.runner.w.binding)
      && (s.runner.w.kind.Data? ==> s.bindings[s.runner.w.binding].enabled)
  {
    ReachableInv(s);
  }

  /** Per binding and kind, the callbacks started are a prefix of the posts accepted, in order;
      on an open binding the rest is exactly what is taken or queued. */
  lemma ExecutedIsPrefix(s: State, b: nat, k: Kind)
    requires Reachable(s)
    ensures Of(s.log.executed, b, k) <= Of(s.log.accepted, b, k)
    ensures IsOpen(s, b) ==>
      Of(s.log.accepted, b, k) == Of(s.log.executed, b, k) + Pending(s.runner, b, k) + Of(s.work, b, k)
  {
    ReachableInv(s);
    assert StreamInv(s, b, k);
  }

  /** Once closed, a binding stays closed and none of its callbacks starts any more. */
  lemma {:induction false} ClosedStaysSilent(run: seq<State>, i: nat, j: nat, b: nat, k: Kind)
    requires IsRun(run) && i <= j < |run|
    requires b < run[i].nextBinding && !IsOpen(run[i], b)
    ensures b < run[j].nextBinding && !IsOpen(run[j], b)
    ensures Of(run[j].log.executed, b, k) == Of(run[i].log.executed, b, k)
  {
    if i == j {
    } else {
      ClosedStaysSilent(run, i, j - 1, b, k);
      RunInv(run, j - 1);
      assert StepAt(run, j);
      SilentStep(run[j - 1], run[j], b, k);
    }
  }

  lemma SilentRunner(s: State, a: Action, b: nat, k: Kind)
    requires Enabled(s, a) && ByTheRunner(a) && OpenInv(s) && !IsOpen(s, b)
    ensures RunnerNext(s, a).nextBinding == s.nextBinding && !IsOpen(RunnerNext(s, a), b)
    ensures Of(RunnerNext(s, a).log.executed, b, k) == Of(s.log.executed, b, k)
  {
    if a.StartCallback? {
      OfAppend(s.log.executed, [s.runner.w], b, k);
    }
  }

  lemma SilentOthers(s: State, a: Action, b: nat)
    requires Enabled(s, a) && !ByTheRunner(a) && b < s.nextBinding && !IsOpen(s, b)
    ensures b < OtherNext(s, a).nextBinding && !IsOpen(OtherNext(s, a), b)
    ensures OtherNext(s, a).log.executed == s.log.executed
  {}

  lemma SilentStep(s: State, t: State, b: nat, k: Kind)
    requires Steps(s, t) && OpenInv(s) && b < s.nextBinding && !IsOpen(s, b)
    ensures b < t.nextBinding && !IsOpen(t, b)
    ensures Of(t.log.executed, b, k) == Of(s.log.executed, b, k)
  {
    var a :| Enabled(s, a) && t == Next(s, a);
    if ByTheRunner(a) {
      SilentRunner(s, a, b, k);
    } else {
      SilentOthers(s, a, b);
    }
  }

  /** A runner that waits and has not been signalled has nothing to do: the context is not
      stopped and no queued work is eligible. */
  lemma NoLostWakeup(s: State)
    requires Reachable(s) && s.runner == Waiting(false)
    ensures !s.stopped
    ensures forall w :: w in s.work ==> !Eligible(w, On(s))
  {
    ReachableInv(s);
  }

  /** The context keeps the first negative error it was told about. */
  lemma FirstErrorWins(s: State)
    requires Reachable(s)
    ensures s.error == FirstNegative(s.log.reports)
  {
    ReachableInv(s);
  }

  /** Every owner has closed and put, no close call is under way, the runner holds no work, and
      the puts that reached zero have finished. */
  predicate Quiescent(s: State) {
    && s.cancelled == [] && !s.runner.Busy?
    && forall b :: b in s.bindings ==> !s.bindings[b].owned && s.bindings[b].refs != 0
  }

  /** Then destroy finds no binding and no work, and once refused data are released too, every
      datum ever posted has been released exactly once. */
  lemma DestroyIsClean(s: State, d: nat)
    requires Reachable(s) && Quiescent(s)
    ensures s.count == 0 && s.work == []
    ensures s.rejected == [] ==> Times(s.log.released, d) == if d < s.nextId then 1 else 0
  {
    ReachableInv(s);
    EmptyOrMember(s.work);
    forall b ensures b !in s.bindings { assert RefsOk(s, b); }
    assert s.bindings == map[];
    assert DataOk(s, d);
  }
}
