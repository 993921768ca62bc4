/** The poll worker of `src/host/linux/service.c` with any number of sources: a ready callback and the
    updates that race with it. */
module PollService {

  /** Revisions are 64-bit counters. */
  const WRAP: nat := 0x1_0000_0000_0000_0000

  /** `updates` counts the changes of a source since the service was created; the stored revision is
      that count modulo 2^64. */
  datatype Source = Source(events: nat, updates: nat)

  /** What the worker copied under the lock. */
  datatype Snapshot = Snapshot(sources: seq<Source>)

  /** The worker sleeps in poll with a snapshot, walks the ready descriptors, or is finished. */
  datatype Worker = Starting | Polling(snap: Snapshot) | Walking(snap: Snapshot, ready: seq<bool>, i: nat) | Finished

  /** A callback that ran: the source, the events it was polled for and the snapshot's count. */
  datatype Call = Call(source: nat, polled: nat, at: nat)

  /** `fatals` are the errors reported by the worker. */
  datatype State = State(sources: seq<Source>, stopped: bool, worker: Worker, calls: seq<Call>, fatals: seq<int>)

  datatype Action =
    | Update(source: nat, events: nat) | Stop | Copy | Wake(ready: seq<bool>) | Next
    | Interrupted | PollFails(error: int)

  predicate Enabled(s: State, a: Action) {
    match a
    case Update(k, _) => k < |s.sources|
    case Stop => true
    case Copy => s.worker.Starting?
    case Wake(ready) =>
      && s.worker.Polling? && |ready| == |s.worker.snap.sources| == |s.sources|
      && forall k :: 0 <= k < |ready| && ready[k] ==> s.worker.snap.sources[k].events != 0
    case Interrupted => s.worker.Polling?
    case PollFails(_) => s.worker.Polling?
    case Next => s.worker.Walking? && s.worker.i < |s.worker.ready| == |s.worker.snap.sources| == |s.sources|
  }

  /** The test under the lock before a callback. */
  predicate Current(s: State, snap: Snapshot, i: nat)
    requires i < |s.sources| && i < |snap.sources|
  {
    !s.stopped && snap.sources[i].updates % WRAP == s.sources[i].updates % WRAP
  }

  function Step(s: State, a: Action): State
    requires Enabled(s, a)
  {
    match a
    case Update(k, events) => s.(sources := s.sources[k := Source(events, s.sources[k].updates + 1)])
    case Stop => s.(stopped := true)
    case Copy => s.(worker := if s.stopped then Finished else Polling(Snapshot(s.sources)))
    case Wake(ready) => s.(worker := Walking(s.worker.snap, ready, 0))
    case Interrupted => s.(worker := Starting)
    case PollFails(error) => s.(worker := Finished, fatals := if s.stopped then s.fatals else s.fatals + [error])
    case Next =>
      var w := s.worker;
      var done := if w.i + 1 < |w.ready| then Walking(w.snap, w.ready, w.i + 1) else Starting;
      if w.ready[w.i] && Current(s, w.snap, w.i)
      then s.(worker := done, calls := s.calls + [Call(w.i, w.snap.sources[w.i].events, w.snap.sources[w.i].updates)])
      else s.(worker := done)
  }

  /** The snapshot is an earlier value of the sources: counts only grow, and an unchanged count means
      unchanged interest. */
  ghost predicate Older(snap: Snapshot, sources: seq<Source>) {
    && |snap.sources| == |sources|
    && forall k :: 0 <= k < |sources| ==> OlderAt(snap.sources[k], sources[k])
  }

  predicate OlderAt(x: Source, y: Source) {
    x.updates <= y.updates && (x.updates == y.updates ==> x.events == y.events)
  }

  ghost predicate Good(s: State) {
    && (s.worker.Polling? || s.worker.Walking? ==> Older(s.worker.snap, s.sources))
    && (s.worker.Walking? ==> |s.worker.ready| == |s.sources|)
    && |s.fatals| <= 1 && (s.fatals != [] ==> s.worker.Finished?)
    && (s.worker.Walking? ==>
          forall k :: 0 <= k < |s.sources| && s.worker.ready[k] ==> s.worker.snap.sources[k].events != 0)
  }

  lemma GoodStep(s: State, a: Action)
    requires Good(s) && Enabled(s, a)
    ensures Good(Step(s, a)) && |Step(s, a).sources| == |s.sources|
  {
    if a.Update? && (s.worker.Polling? || s.worker.Walking?) {
      var t := Step(s, a);
      forall k | 0 <= k < |t.sources|
        ensures OlderAt(s.worker.snap.sources[k], t.sources[k])
      {
        assert OlderAt(s.worker.snap.sources[k], s.sources[k]);
      }
    }
  }

  ghost predicate IsRun(run: seq<State>) {
    && run != [] && run[0].worker.Starting? && run[0].calls == [] && run[0].fatals == []
    && forall i :: 0 < i < |run| ==> StepAt(run, i)
  }

  ghost predicate StepAt(run: seq<State>, i: nat)
    requires 0 < i < |run|
  {
    Steps(run[i - 1], run[i])
  }

  ghost predicate Steps(s: State, t: State) {
    exists a :: Enabled(s, a) && t == Step(s, a)
  }

  lemma {:induction false} RunGood(run: seq<State>, i: nat)
    requires IsRun(run) && i < |run|
    ensures Good(run[i])
  {
    if i == 0 {
    } else {
      RunGood(run, i - 1);
      assert StepAt(run, i);
      var a :| Enabled(run[i - 1], a) && run[i] == Step(run[i - 1], a);
      GoodStep(run[i - 1], a);
    }
  }

  /** In every run, a step that makes a callback makes it on a service that is not stopped, for a
      source polled with some interest, and after a multiple of 2^64 updates of that source since
      the snapshot: so, short of 2^64 of them, none, and with the interest it was polled for. */
  lemma CallbackIsCurrent(run: seq<State>, i: nat)
    requires IsRun(run) && 0 < i < |run| && run[i].calls != run[i - 1].calls
    ensures |run[i].calls| == |run[i - 1].calls| + 1
    ensures var s, t := run[i - 1], run[i]; var c := t.calls[|s.calls|];
      && t.calls[..|s.calls|] == s.calls && !s.stopped && c.source < |s.sources| && c.polled != 0
      && c.at <= s.sources[c.source].updates
      && (s.sources[c.source].updates - c.at) % 0x1_0000_0000_0000_0000 == 0
      && (s.sources[c.source].updates < c.at + 0x1_0000_0000_0000_0000 ==>
            s.sources[c.source] == Source(c.polled, c.at))
  {
    RunGood(run, i - 1);
    assert StepAt(run, i);
    CallMeans(run[i - 1], run[i]);
  }

  lemma CallMeans(s: State, t: State)
    requires Good(s) && Steps(s, t) && t.calls != s.calls
    ensures s.worker.Walking? && s.worker.i < |s.sources| && !s.stopped
    ensures var x := s.worker.snap.sources[s.worker.i]; var c := Call(s.worker.i, x.events, x.updates);
      && t.calls == s.calls + [c] && c.polled != 0
      && c.at <= s.sources[c.source].updates && (s.sources[c.source].updates - c.at) % WRAP == 0
      && (s.sources[c.source].updates < c.at + WRAP ==> s.sources[c.source] == Source(c.polled, c.at))
  {
    var i := s.worker.i;
    assert OlderAt(s.worker.snap.sources[i], s.sources[i]);
  }

  /** The exact condition: a ready source is called exactly when the service runs and its updates
      since the snapshot number a multiple of 2^64. */
  lemma CalledExactlyWhen(s: State)
    requires Good(s) && Enabled(s, Next)
    ensures |s.worker.snap.sources| == |s.sources|
    ensures var i := s.worker.i;
      Step(s, Next).calls != s.calls <==>
        && s.worker.ready[i] && !s.stopped
        && (s.sources[i].updates - s.worker.snap.sources[i].updates) % 0x1_0000_0000_0000_0000 == 0
  {
    var i := s.worker.i;
    assert OlderAt(s.worker.snap.sources[i], s.sources[i]);
    assert |s.calls + [Call(i, 0, 0)]| != |s.calls|;
  }

  /** A failed poll is reported at most once, and nothing is called afterwards; an interrupted one is
      not reported. */
  lemma {:induction false} FatalIsLast(run: seq<State>, i: nat, j: nat)
    requires IsRun(run) && i <= j < |run| && run[i].fatals != []
    ensures |run[i].fatals| == 1 && run[j].fatals == run[i].fatals && run[j].calls == run[i].calls
  {
    RunGood(run, i);
    RunGood(run, j);
    if i == j {
    } else {
      FatalIsLast(run, i, j - 1);
      RunGood(run, j - 1);
      assert StepAt(run, j);
      var a :| Enabled(run[j - 1], a) && run[j] == Step(run[j - 1], a);
    }
  }

  /** Once stopped, no callback is made any more. */
  lemma {:induction false} SilentAfterStop(run: seq<State>, i: nat, j: nat)
    requires IsRun(run) && i <= j < |run| && run[i].stopped
    ensures run[j].stopped && run[j].calls == run[i].calls && run[j].fatals == run[i].fatals
  {
    if i == j {
    } else {
      SilentAfterStop(run, i, j - 1);
      assert StepAt(run, j);
      var a :| Enabled(run[j - 1], a) && run[j] == Step(run[j - 1], a);
    }
  }

  // ----- a round of the worker

  /** The calls due for the ready sources from index `i` on, in order. */
  function Due(sources: seq<Source>, ready: seq<bool>, i: nat): seq<Call>
    requires i <= |ready| == |sources|
    decreases |ready| - i
  {
    if i == |ready| then []
    else (if ready[i] then [Call(i, sources[i].events, sources[i].updates)] else []) + Due(sources, ready, i + 1)
  }

  /** `n` more descriptors, with nothing in between. */
  ghost predicate Walks(s: State, n: nat, t: State)
    decreases n
  {
    if n == 0 then t == s else Enabled(s, Next) && Walks(Step(s, Next), n - 1, t)
  }

  lemma {:induction false} WalkCalls(s: State, i: nat, ready: seq<bool>)
    requires s.worker == Walking(Snapshot(s.sources), ready, i) && i < |ready| == |s.sources| && !s.stopped
    ensures Walks(s, |ready| - i, s.(worker := Starting, calls := s.calls + Due(s.sources, ready, i)))
    decreases |ready| - i
  {
    var t := Step(s, Next);
    assert t.calls == s.calls + if ready[i] then [Call(i, s.sources[i].events, s.sources[i].updates)] else [];
    if i + 1 == |ready| {
      assert Due(s.sources, ready, i + 1) == [];
      assert Walks(t, 0, t);
    } else {
      WalkCalls(t, i + 1, ready);
      assert t.calls + Due(s.sources, ready, i + 1) == s.calls + Due(s.sources, ready, i);
    }
  }

  /** A whole round on a service that runs: the snapshot is the sources as they are, poll can report every source
      with some interest, and exactly the ready ones are called, in order; then the worker starts over. */
  lemma RoundCallsTheReady(s: State, ready: seq<bool>)
    requires s.worker.Starting? && !s.stopped && 0 < |ready| == |s.sources|
    requires forall k :: 0 <= k < |ready| && ready[k] ==> s.sources[k].events != 0
    ensures Enabled(s, Copy) && Step(s, Copy) == s.(worker := Polling(Snapshot(s.sources)))
    ensures Enabled(Step(s, Copy), Wake(ready))
    ensures Walks(Step(Step(s, Copy), Wake(ready)), |ready|,
                  s.(worker := Starting, calls := s.calls + Due(s.sources, ready, 0)))
  {
    WalkCalls(Step(Step(s, Copy), Wake(ready)), 0, ready);
  }

  /** A stopped worker finishes before it polls again; a failed poll is an error only while the service runs, and an
      interrupted one starts over. */
  lemma WorkerEnds(s: State, error: int)
    ensures s.worker.Starting? && s.stopped ==> Enabled(s, Copy) && Step(s, Copy) == s.(worker := Finished)
    ensures s.worker.Polling? ==> Enabled(s, Interrupted) && Step(s, Interrupted) == s.(worker := Starting)
    ensures s.worker.Polling? ==> Enabled(s, PollFails(error))
    ensures s.worker.Polling? ==>
      Step(s, PollFails(error)) == s.(worker := Finished, fatals := s.fatals + if s.stopped then [] else [error])
    ensures Enabled(s, Stop) && Step(s, Stop) == s.(stopped := true)
  {}
}
