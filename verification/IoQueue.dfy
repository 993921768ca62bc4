/** The work list of an I/O context: the scans that `io_ctx_run` and
    `io_binding_close_locked` make over it, and how those scans treat the order,
    the references and the payloads of the queued works. */
module IoQueue {

  datatype Kind = Data | Control

  /** One posted job. `id` numbers the post calls of a run, so it names the datum that the
      call handed over; `binding` names the binding the job was posted to. */
  datatype Work = Work(id: nat, binding: nat, kind: Kind)

  /** The works that closing `b` leaves in the list. */
  function Keep(ws: seq<Work>, b: nat): seq<Work> {
    if ws == [] then []
    else if ws[0].binding == b then Keep(ws[1..], b)
    else [ws[0]] + Keep(ws[1..], b)
  }

  /** The works that closing `b` cancels, in queue order. */
  function Drop(ws: seq<Work>, b: nat): seq<Work> {
    if ws == [] then []
    else if ws[0].binding == b then [ws[0]] + Drop(ws[1..], b)
    else Drop(ws[1..], b)
  }

  /** The works of one binding and kind, in order. */
  function Of(ws: seq<Work>, b: nat, k: Kind): seq<Work> {
    if ws == [] then []
    else if ws[0].binding == b && ws[0].kind == k then [ws[0]] + Of(ws[1..], b, k)
    else Of(ws[1..], b, k)
  }

  /** How many references on `b` the works hold. */
  function Refs(ws: seq<Work>, b: nat): nat {
    if ws == [] then 0 else (if ws[0].binding == b then 1 else 0) + Refs(ws[1..], b)
  }

  /** How many of the works carry datum `d`. */
  function Carry(ws: seq<Work>, d: nat): nat {
    if ws == [] then 0 else (if ws[0].id == d then 1 else 0) + Carry(ws[1..], d)
  }

  /** Control work always runs; data work runs when its binding is enabled. */
  predicate Eligible(w: Work, on: set<nat>) {
    w.kind.Control? || w.binding in on
  }

  /** Index of the first eligible work, or the length of the list. */
  function First(ws: seq<Work>, on: set<nat>): (i: nat)
    ensures i <= |ws|
    ensures i < |ws| ==> Eligible(ws[i], on)
    ensures forall j :: 0 <= j < i ==> !Eligible(ws[j], on)
  {
    if ws == [] then 0 else if Eligible(ws[0], on) then 0 else 1 + First(ws[1..], on)
  }

  /** The scan of `io_ctx_run` for a runnable job. */
  method FindRunnable(ws: seq<Work>, on: set<nat>) returns (i: nat)
    ensures i == First(ws, on)
  {
    i := 0;
    while i < |ws| && !Eligible(ws[i], on)
      invariant i <= |ws|
      invariant First(ws, on) == i + First(ws[i..], on)
    {
      i := i + 1;
    }
  }

  /** The scan of `io_binding_close_locked`: unlink the works of `b` and collect them. */
  method CancelQueued(ws: seq<Work>, b: nat) returns (kept: seq<Work>, cancelled: seq<Work>)
    ensures kept == Keep(ws, b) && cancelled == Drop(ws, b)
  {
    kept, cancelled := [], [];
    for i := 0 to |ws|
      invariant kept + Keep(ws[i..], b) == Keep(ws, b)
      invariant cancelled + Drop(ws[i..], b) == Drop(ws, b)
    {
      if ws[i].binding == b {
        cancelled := cancelled + [ws[i]];
      } else {
        kept := kept + [ws[i]];
      }
    }
  }

  lemma {:induction false} OfAppend(xs: seq<Work>, ys: seq<Work>, b: nat, k: Kind)
    ensures Of(xs + ys, b, k) == Of(xs, b, k) + Of(ys, b, k)
  {
    if xs == [] {
      assert xs + ys == ys;
    } else {
      assert (xs + ys)[1..] == xs[1..] + ys;
      OfAppend(xs[1..], ys, b, k);
    }
  }

  lemma {:induction false} CountsAppend(xs: seq<Work>, ys: seq<Work>, b: nat, d: nat)
    ensures Refs(xs + ys, b) == Refs(xs, b) + Refs(ys, b)
    ensures Carry(xs + ys, d) == Carry(xs, d) + Carry(ys, d)
  {
    if xs == [] {
      assert xs + ys == ys;
    } else {
      assert (xs + ys)[1..] == xs[1..] + ys;
      CountsAppend(xs[1..], ys, b, d);
    }
  }

  /** Closing splits the list: every datum stays with a kept or a cancelled work, no reference
      on `b` stays queued, and no other binding loses one. */
  lemma {:induction false} CloseSplits(ws: seq<Work>, b: nat, c: nat, d: nat)
    ensures Carry(Keep(ws, b), d) + Carry(Drop(ws, b), d) == Carry(ws, d)
    ensures Refs(Keep(ws, b), c) == if c == b then 0 else Refs(ws, c)
    ensures Refs(Drop(ws, b), c) == if c == b then Refs(ws, b) else 0
  {
    if ws == [] {
    } else {
      CloseSplits(ws[1..], b, c, d);
      assert ([ws[0]] + Keep(ws[1..], b))[1..] == Keep(ws[1..], b);
      assert ([ws[0]] + Drop(ws[1..], b))[1..] == Drop(ws[1..], b);
    }
  }

  /** Closing `b` leaves the streams of every other binding as they were. */
  lemma {:induction false} CloseKeepsOthers(ws: seq<Work>, b: nat, c: nat, k: Kind)
    requires c != b
    ensures Of(Keep(ws, b), c, k) == Of(ws, c, k)
  {
    if ws == [] {
    } else {
      CloseKeepsOthers(ws[1..], b, c, k);
      assert ([ws[0]] + Keep(ws[1..], b))[1..] == Keep(ws[1..], b);
    }
  }

  lemma {:induction false} CloseMembers(ws: seq<Work>, b: nat, w: Work)
    ensures w in Keep(ws, b) <==> w in ws && w.binding != b
    ensures w in Drop(ws, b) <==> w in ws && w.binding == b
  {
    if ws == [] {
    } else {
      CloseMembers(ws[1..], b, w);
    }
  }

  lemma EmptyOrMember(ws: seq<Work>)
    ensures ws == [] || exists w :: w in ws
  {
    if ws != [] {
      assert ws[0] in ws;
    }
  }

  function Without(ws: seq<Work>, i: nat): seq<Work>
    requires i < |ws|
  {
    ws[..i] + ws[i + 1..]
  }

  lemma {:induction false} NoneOf(ws: seq<Work>, b: nat, k: Kind)
    requires forall w :: w in ws ==> !(w.binding == b && w.kind == k)
    ensures Of(ws, b, k) == []
  {
    if ws == [] {
    } else {
      NoneOf(ws[1..], b, k);
    }
  }

  lemma {:induction false} WithoutCounts(ws: seq<Work>, i: nat, b: nat, d: nat)
    requires i < |ws|
    ensures Refs(ws, b) == Refs(Without(ws, i), b) + if b == ws[i].binding then 1 else 0
    ensures Carry(ws, d) == Carry(Without(ws, i), d) + if d == ws[i].id then 1 else 0
  {
    if i == 0 {
      assert Without(ws, i) == ws[1..];
    } else {
      assert Without(ws, i) == [ws[0]] + Without(ws[1..], i - 1);
      WithoutCounts(ws[1..], i - 1, b, d);
    }
  }

  /** Taking the first eligible work takes the oldest work of its binding and kind, although
      it may overtake paused works; every other (binding, kind) stream is untouched. */
  lemma TakeIsFifo(ws: seq<Work>, on: set<nat>, b: nat, k: Kind)
    requires First(ws, on) < |ws|
    ensures var i := First(ws, on);
            Of(ws, b, k) == (if b == ws[i].binding && k == ws[i].kind then [ws[i]] else [])
                            + Of(Without(ws, i), b, k)
  {
    var i := First(ws, on);
    var w := ws[i];
    var front, back := ws[..i], ws[i + 1..];
    assert ws == front + ([w] + back);
    OfAppend(front, [w] + back, b, k);
    OfAppend([w], back, b, k);
    OfAppend(front, back, b, k);
    if b == w.binding && k == w.kind {
      NoneOf(front, b, k);
    }
  }
}
