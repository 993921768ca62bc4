/** Resource pools of `src/util/res_pool.c`: cleanup obligations that run in reverse order. */
module ResPool {

  /** A cleanup function and its argument. */
  datatype Act = Act(fn: nat, data: nat)

  /** A pool entry: plain memory, or an obligation. */
  datatype Node = Memory | Duty(act: Act)

  datatype Error = ESHUTDOWN | EEXIST | ENOMEM | ENOENT

  datatype Result = Ok | Err(error: Error)

  function Acts(ns: seq<Node>): seq<Act> {
    if ns == [] then []
    else if ns[0].Duty? then [ns[0].act] + Acts(ns[1..])
    else Acts(ns[1..])
  }

  function Reversed(xs: seq<Act>): (r: seq<Act>)
    ensures |r| == |xs|
  {
    if xs == [] then [] else Reversed(xs[1..]) + [xs[0]]
  }

  /** The acts that are not in `gone`, in order. */
  function Minus(xs: seq<Act>, gone: set<Act>): seq<Act> {
    if xs == [] then []
    else if xs[0] in gone then Minus(xs[1..], gone)
    else [xs[0]] + Minus(xs[1..], gone)
  }

  /** What a cleanup function may ask of the pool that is running it: to add an obligation, to allocate, to
      release, to take an obligation over from another pool or give one to it, to cancel one. */
  datatype Op =
    | TryAdd(a: Act, failed: bool)
    | TryAlloc(failed: bool)
    | TryRelease
    | TryTake(a: Act)
    | TryGive(a: Act)
    | TryCancel(a: Act)

  /** What each cleanup function does to that pool, in order. */
  type Script = map<Act, seq<Op>>

  function OpsOf(s: Script, a: Act): seq<Op> {
    if a in s then s[a] else []
  }

  /** The obligations that the operations cancel. */
  function Cancels(ops: seq<Op>): set<Act> {
    if ops == [] then {}
    else Cancels(ops[..|ops| - 1]) + if ops[|ops| - 1].TryCancel? then {ops[|ops| - 1].a} else {}
  }

  /** Obligations run last first, and each drops what it cancels of those still to come. */
  function Unwind(acts: seq<Act>, s: Script): seq<Act>
    decreases |acts|
  {
    if acts == [] then []
    else
      var last := |acts| - 1;
      MinusShrinks(acts[..last], Cancels(OpsOf(s, acts[last])));
      [acts[last]] + Unwind(Minus(acts[..last], Cancels(OpsOf(s, acts[last]))), s)
  }

  predicate Distinct(xs: seq<Act>) {
    forall i, j :: 0 <= i < j < |xs| ==> xs[i] != xs[j]
  }

  lemma {:induction false} ActsAppend(xs: seq<Node>, ys: seq<Node>)
    ensures Acts(xs + ys) == Acts(xs) + Acts(ys)
  {
    if xs == [] {
      assert xs + ys == ys;
    } else {
      assert (xs + ys)[1..] == xs[1..] + ys;
      ActsAppend(xs[1..], ys);
    }
  }

  lemma {:induction false} ReversedAppend(xs: seq<Act>, ys: seq<Act>)
    ensures Reversed(xs + ys) == Reversed(ys) + Reversed(xs)
  {
    if xs == [] {
      assert xs + ys == ys;
    } else {
      assert (xs + ys)[1..] == xs[1..] + ys;
      ReversedAppend(xs[1..], ys);
    }
  }

  lemma {:induction false} MinusAppend(xs: seq<Act>, ys: seq<Act>, gone: set<Act>)
    ensures Minus(xs + ys, gone) == Minus(xs, gone) + Minus(ys, gone)
  {
    if xs == [] {
      assert xs + ys == ys;
    } else {
      assert (xs + ys)[1..] == xs[1..] + ys;
      MinusAppend(xs[1..], ys, gone);
    }
  }

  lemma {:induction false} MinusShrinks(xs: seq<Act>, gone: set<Act>)
    ensures |Minus(xs, gone)| <= |xs|
  {
    if xs == [] {
    } else {
      MinusShrinks(xs[1..], gone);
    }
  }

  lemma {:induction false} MinusTwice(xs: seq<Act>, a: set<Act>, b: set<Act>)
    ensures Minus(Minus(xs, a), b) == Minus(xs, a + b)
  {
    if xs == [] {
    } else {
      MinusTwice(xs[1..], a, b);
      assert ([xs[0]] + Minus(xs[1..], a))[1..] == Minus(xs[1..], a);
    }
  }

  lemma {:induction false} MinusNone(xs: seq<Act>, gone: set<Act>)
    requires forall x :: x in xs ==> x !in gone
    ensures Minus(xs, gone) == xs
  {
    if xs == [] {
    } else {
      MinusNone(xs[1..], gone);
    }
  }

  lemma {:induction false} MinusReversed(xs: seq<Act>, gone: set<Act>)
    ensures Reversed(Minus(xs, gone)) == Minus(Reversed(xs), gone)
  {
    if xs == [] {
    } else {
      MinusReversed(xs[1..], gone);
      MinusAppend(Reversed(xs[1..]), [xs[0]], gone);
      if xs[0] !in gone {
        ReversedAppend([xs[0]], Minus(xs[1..], gone));
      }
    }
  }

  lemma {:induction false} MinusDistinct(xs: seq<Act>, gone: set<Act>)
    requires Distinct(xs)
    ensures Distinct(Minus(xs, gone))
    ensures forall x :: x in Minus(xs, gone) <==> x in xs && x !in gone
  {
    if xs == [] {
    } else {
      var rest := xs[1..];
      assert forall x :: x in xs <==> x == xs[0] || x in rest;
      assert xs[0] !in rest;
      MinusDistinct(rest, gone);
    }
  }

  lemma DistinctSnoc(xs: seq<Act>, a: Act)
    ensures Distinct(xs + [a]) <==> Distinct(xs) && a !in xs
  {
    if Distinct(xs + [a]) {
      assert forall i :: 0 <= i < |xs| ==> (xs + [a])[i] == xs[i] && (xs + [a])[i] != (xs + [a])[|xs|];
    }
  }

  // ----- what a release runs

  lemma UnwindSnoc(front: seq<Act>, a: Act, s: Script)
    ensures Unwind(front + [a], s) == [a] + Unwind(Minus(front, Cancels(OpsOf(s, a))), s)
  {
    assert (front + [a])[..|front|] == front;
  }

  /** Only registered obligations run, and each once. */
  lemma {:induction false} RunsOnce(acts: seq<Act>, s: Script)
    requires Distinct(acts)
    ensures Distinct(Unwind(acts, s)) && forall x :: x in Unwind(acts, s) ==> x in acts
    decreases |acts|
  {
    if acts == [] {
    } else {
      var front, a := acts[..|acts| - 1], acts[|acts| - 1];
      var gone := Cancels(OpsOf(s, a));
      assert acts == front + [a];
      DistinctSnoc(front, a);
      MinusDistinct(front, gone);
      MinusShrinks(front, gone);
      RunsOnce(Minus(front, gone), s);
    }
  }

  /** `b` was registered after `a`. */
  predicate Later(acts: seq<Act>, a: Act, b: Act) {
    acts != [] && if acts[0] == a then b in acts[1..] else Later(acts[1..], a, b)
  }

  lemma {:induction false} LaterSnoc(front: seq<Act>, z: Act, a: Act, b: Act)
    requires Distinct(front + [z])
    ensures Later(front + [z], a, b) <==> Later(front, a, b) || (a in front && b == z)
  {
    if front == [] {
      assert (front + [z])[1..] == [];
    } else {
      assert (front + [z])[1..] == front[1..] + [z];
      LaterSnoc(front[1..], z, a, b);
    }
  }

  lemma {:induction false} LaterMinus(acts: seq<Act>, gone: set<Act>, a: Act, b: Act)
    requires Distinct(acts) && a !in gone && b !in gone
    ensures Later(Minus(acts, gone), a, b) <==> Later(acts, a, b)
  {
    if acts == [] {
    } else {
      var rest := acts[1..];
      LaterMinus(rest, gone, a, b);
      MinusDistinct(rest, gone);
      if acts[0] !in gone {
        assert ([acts[0]] + Minus(rest, gone))[1..] == Minus(rest, gone);
      }
    }
  }

  /** None that runs and was registered after `a` cancels it. */
  ghost predicate Spared(acts: seq<Act>, s: Script, a: Act) {
    forall b :: b in Unwind(acts, s) && Later(acts, a, b) ==> a !in Cancels(OpsOf(s, b))
  }

  /** An obligation runs exactly unless one that runs before it cancels it. */
  lemma {:induction false} RunsUnlessCancelled(acts: seq<Act>, s: Script, a: Act)
    requires Distinct(acts) && a in acts
    ensures a in Unwind(acts, s) <==> Spared(acts, s, a)
    decreases |acts|
  {
    var front, z := acts[..|acts| - 1], acts[|acts| - 1];
    var rest := Minus(front, Cancels(OpsOf(s, z)));
    assert acts == front + [z];
    DistinctSnoc(front, z);
    MinusDistinct(front, Cancels(OpsOf(s, z)));
    RunsOnce(rest, s);
    LaterInRest(front, z, s, a);
    if a in rest {
      MinusShrinks(front, Cancels(OpsOf(s, z)));
      RunsUnlessCancelled(rest, s, a);
    } else if a in front {
      assert Later(acts, a, z) && z in Unwind(acts, s);
    }
  }

  /** Of those that run after `z`, the same ones are later than `a` among all as among what `z` leaves. */
  lemma LaterInRest(front: seq<Act>, z: Act, s: Script, a: Act)
    requires Distinct(front + [z])
    ensures var rest := Minus(front, Cancels(OpsOf(s, z)));
      && (a in front ==> Later(front + [z], a, z)) && (a == z ==> forall b :: !Later(front + [z], a, b))
      && forall b :: a in rest && b in rest ==> (Later(front + [z], a, b) <==> Later(rest, a, b))
  {
    var gone := Cancels(OpsOf(s, z));
    DistinctSnoc(front, z);
    MinusDistinct(front, gone);
    forall b
      ensures Later(front + [z], a, b) <==> Later(front, a, b) || (a in front && b == z)
      ensures Later(front, a, b) ==> a in front
    {
      LaterSnoc(front, z, a, b);
      LaterIsIn(front, a, b);
    }
    forall b | a in Minus(front, gone) && b in Minus(front, gone)
      ensures Later(front, a, b) <==> Later(Minus(front, gone), a, b)
    {
      LaterMinus(front, gone, a, b);
    }
  }

  lemma {:induction false} LaterIsIn(acts: seq<Act>, a: Act, b: Act)
    ensures Later(acts, a, b) ==> a in acts && b in acts
  {
    if acts == [] {
    } else {
      LaterIsIn(acts[1..], a, b);
    }
  }

  /** What runs, runs in the reverse order of registration. */
  lemma {:induction false} RunsInReverse(acts: seq<Act>, s: Script)
    requires Distinct(acts)
    ensures Unwind(acts, s) == Minus(Reversed(acts), Skipped(acts, s))
    decreases |acts|
  {
    if acts == [] {
    } else {
      var front, z := acts[..|acts| - 1], acts[|acts| - 1];
      var gone := Cancels(OpsOf(s, z));
      var rest := Minus(front, gone);
      assert acts == front + [z];
      DistinctSnoc(front, z);
      MinusDistinct(front, gone);
      MinusShrinks(front, gone);
      RunsOnce(rest, s);
      RunsInReverse(rest, s);
      MinusReversed(front, gone);
      MinusTwice(Reversed(front), gone, Skipped(rest, s));
      ReversedHas(front);
      MinusAlike(Reversed(front), gone + Skipped(rest, s), Skipped(acts, s));
      ReversedSnoc(front, z);
      assert ([z] + Reversed(front))[1..] == Reversed(front);
    }
  }

  ghost function Skipped(acts: seq<Act>, s: Script): set<Act> {
    set x | x in acts && x !in Unwind(acts, s)
  }

  lemma {:induction false} MinusAlike(xs: seq<Act>, a: set<Act>, b: set<Act>)
    requires forall x :: x in xs ==> (x in a <==> x in b)
    ensures Minus(xs, a) == Minus(xs, b)
  {
    if xs == [] {
    } else {
      MinusAlike(xs[1..], a, b);
    }
  }

  lemma {:induction false} ReversedHas(xs: seq<Act>)
    ensures forall x :: x in Reversed(xs) <==> x in xs
  {
    if xs == [] {
    } else {
      ReversedHas(xs[1..]);
      assert xs == [xs[0]] + xs[1..];
    }
  }

  /** When no obligation cancels another, all run, last first. */
  lemma {:induction false} AllRunInReverse(acts: seq<Act>, s: Script)
    requires forall b :: b in acts ==> Harmless(acts, s, b)
    ensures Unwind(acts, s) == Reversed(acts)
  {
    if acts == [] {
    } else {
      var front, z := acts[..|acts| - 1], acts[|acts| - 1];
      assert acts == front + [z];
      HarmlessFront(front, z, s);
      AllRunInReverse(front, s);
      MinusNone(front, Cancels(OpsOf(s, z)));
      UnwindSnoc(front, z, s);
      ReversedSnoc(front, z);
    }
  }

  /** `b` cancels none of `acts`. */
  ghost predicate Harmless(acts: seq<Act>, s: Script, b: Act) {
    forall a :: a in acts ==> a !in Cancels(OpsOf(s, b))
  }

  lemma HarmlessFront(front: seq<Act>, z: Act, s: Script)
    requires forall b :: b in front + [z] ==> Harmless(front + [z], s, b)
    ensures forall b :: b in front ==> Harmless(front, s, b)
    ensures forall a :: a in front ==> a !in Cancels(OpsOf(s, z))
  {
    var acts := front + [z];
    assert forall a :: a in front ==> a in acts;
    assert acts[|front|] == z && Harmless(acts, s, z);
  }

  lemma ReversedSnoc(front: seq<Act>, z: Act)
    ensures Reversed(front + [z]) == [z] + Reversed(front)
  {
    ReversedAppend(front, [z]);
    assert [z][1..] == [];
  }

  class Pool {
    var nodes: seq<Node>
    var releasing: bool

    /** No obligation is registered twice. */
    ghost predicate Valid()
      reads this
    {
      Distinct(Acts(nodes))
    }

    constructor ()
      ensures Valid() && nodes == [] && !releasing
    {
      nodes, releasing := [], false;
    }

    /** `res_zalloc`; `failed` is a failed allocation. */
    method Alloc(failed: bool) returns (ok: bool)
      requires Valid()
      modifies this`nodes
      ensures Valid() && ok == (!releasing && !failed) && Acts(nodes) == Acts(old(nodes))
      ensures |nodes| == |old(nodes)| + if ok then 1 else 0
    {
      ok := !releasing && !failed;
      if ok {
        ActsSnoc(nodes, Memory);
        nodes := nodes + [Memory];
      }
    }

    /** `res_add_action` */
    method Add(a: Act, failed: bool) returns (r: Result)
      requires Valid()
      modifies this`nodes
      ensures Valid()
      ensures r == if releasing then Err(ESHUTDOWN) else if a in Acts(old(nodes)) then Err(EEXIST)
                   else if failed then Err(ENOMEM) else Ok
      ensures Acts(nodes) == if r.Ok? then Acts(old(nodes)) + [a] else Acts(old(nodes))
      ensures r.Err? ==> nodes == old(nodes)
    {
      if releasing {
        return Err(ESHUTDOWN);
      }
      var k := IndexOf(nodes, a);
      if k < |nodes| {
        return Err(EEXIST);
      }
      if failed {
        return Err(ENOMEM);
      }
      ActsSnoc(nodes, Duty(a));
      DistinctSnoc(Acts(nodes), a);
      nodes := nodes + [Duty(a)];
      r := Ok;
    }

    /** `res_cancel_action`, allowed at any time. */
    method Cancel(a: Act) returns (r: Result)
      requires Valid()
      modifies this`nodes
      ensures Valid()
      ensures r == if a in Acts(old(nodes)) then Ok else Err(ENOENT)
      ensures Acts(nodes) == Minus(Acts(old(nodes)), {a}) && |nodes| <= |old(nodes)|
    {
      var k := IndexOf(nodes, a);
      if k == |nodes| {
        MinusNone(Acts(nodes), {a});
        return Err(ENOENT);
      }
      RemoveOne(nodes, k, a);
      MinusDistinct(Acts(nodes), {a});
      nodes := nodes[..k] + nodes[k + 1..];
      r := Ok;
    }

    /** `res_release_all`, where the cleanup functions behave as `s` says: the obligations run last first,
        and the pool ends empty. A nested release does nothing. */
    method ReleaseAll(s: Script) returns (ran: seq<Act>)
      requires Valid()
      modifies this
      ensures Valid()
      ensures old(releasing) ==> nodes == old(nodes) && releasing && ran == []
      ensures !old(releasing) ==> nodes == [] && !releasing && ran == Unwind(Acts(old(nodes)), s)
      decreases if releasing then 0 else 2
    {
      ran := [];
      if releasing {
        return;
      }
      releasing := true;
      while nodes != []
        invariant Valid() && releasing && Unwind(Acts(old(nodes)), s) == ran + Unwind(Acts(nodes), s)
        decreases |nodes|
      {
        var node := Unlink();
        if node.Duty? {
          UnwindSnoc(Acts(nodes), node.act, s);
          ran := ran + [node.act];
          RunCallback(OpsOf(s, node.act), s);
        }
      }
      releasing := false;
    }

    /** Take the last node off the list. */
    method Unlink() returns (node: Node)
      requires Valid() && nodes != []
      modifies this`nodes
      ensures Valid() && |nodes| == |old(nodes)| - 1
      ensures Acts(old(nodes)) == if node.Duty? then Acts(nodes) + [node.act] else Acts(nodes)
    {
      var last := |nodes| - 1;
      node := nodes[last];
      assert nodes == nodes[..last] + [node];
      PopLast(nodes[..last], node);
      nodes := nodes[..last];
    }

    /** What a cleanup function does to the pool that is running it. The refusals while releasing leave it
        only one effect, to cancel obligations. */
    method RunCallback(ops: seq<Op>, s: Script)
      requires Valid() && releasing
      modifies this
      ensures Valid() && releasing && |nodes| <= |old(nodes)|
      ensures Acts(nodes) == Minus(Acts(old(nodes)), Cancels(ops))
      decreases 1
    {
      MinusNone(Acts(nodes), {});
      for i := 0 to |ops|
        invariant Valid() && releasing && |nodes| <= |old(nodes)|
        invariant Acts(nodes) == Minus(Acts(old(nodes)), Cancels(ops[..i]))
      {
        ghost var acts := Acts(nodes);
        CallbackStep(ops[i], s);
        assert ops[..i + 1][..i] == ops[..i];
        ghost var c := if ops[i].TryCancel? then {ops[i].a} else {};
        MinusTwice(Acts(old(nodes)), Cancels(ops[..i]), c);
      }
      assert ops[..|ops|] == ops;
    }

    /** One operation of a cleanup function. */
    method CallbackStep(op: Op, s: Script)
      requires Valid() && releasing
      modifies this
      ensures Valid() && releasing && |nodes| <= |old(nodes)|
      ensures Acts(nodes) == Minus(Acts(old(nodes)), if op.TryCancel? then {op.a} else {})
      decreases 1, 0
    {
      MinusNone(Acts(nodes), {});
      match op
      case TryAdd(a, failed) =>
        var r := Add(a, failed);
      case TryAlloc(failed) =>
        var ok := Alloc(failed);
      case TryRelease =>
        var ran := ReleaseAll(s);
      case TryTake(a) =>
        var other := new Pool();
        var r := other.Add(a, false);
        r := Transfer(other, this, a);
      case TryGive(a) =>
        var other := new Pool();
        var r := Transfer(this, other, a);
      case TryCancel(a) =>
        var r := Cancel(a);
    }
  }

  /** `res_transfer_action`: the obligation moves to the end of the other pool or nothing changes; none
      is lost or doubled. */
  method Transfer(source: Pool, target: Pool, a: Act) returns (r: Result)
    requires source.Valid() && target.Valid()
    modifies source`nodes, target`nodes
    ensures source.Valid() && target.Valid()
    ensures r == if source.releasing || target.releasing then Err(ESHUTDOWN)
                 else if a !in Acts(old(source.nodes)) then Err(ENOENT)
                 else if source != target && a in Acts(old(target.nodes)) then Err(EEXIST) else Ok
    ensures r.Err? || source == target ==> source.nodes == old(source.nodes) && target.nodes == old(target.nodes)
    ensures r.Ok? && source != target ==>
      Acts(source.nodes) == Minus(Acts(old(source.nodes)), {a}) && Acts(target.nodes) == Acts(old(target.nodes)) + [a]
    ensures forall x :: (x in Acts(source.nodes) || x in Acts(target.nodes))
                        <==> (x in Acts(old(source.nodes)) || x in Acts(old(target.nodes)))
  {
    if source.releasing || target.releasing {
      return Err(ESHUTDOWN);
    }
    var k := IndexOf(source.nodes, a);
    if k == |source.nodes| {
      return Err(ENOENT);
    }
    if source == target {
      return Ok;
    }
    if IndexOf(target.nodes, a) < |target.nodes| {
      return Err(EEXIST);
    }
    RemoveOne(source.nodes, k, a);
    MinusDistinct(Acts(source.nodes), {a});
    ActsSnoc(target.nodes, Duty(a));
    DistinctSnoc(Acts(target.nodes), a);
    source.nodes := source.nodes[..k] + source.nodes[k + 1..];
    target.nodes := target.nodes + [Duty(a)];
    r := Ok;
  }

  /** The scan for an obligation. */
  function IndexOf(ns: seq<Node>, a: Act): (k: nat)
    ensures k <= |ns| && (k < |ns| ==> ns[k] == Duty(a)) && (k < |ns| <==> a in Acts(ns))
    ensures forall j :: 0 <= j < k ==> ns[j] != Duty(a)
  {
    if ns == [] || ns[0] == Duty(a) then 0 else 1 + IndexOf(ns[1..], a)
  }

  lemma ActsSnoc(front: seq<Node>, n: Node)
    ensures Acts(front + [n]) == Acts(front) + if n.Duty? then [n.act] else []
  {
    ActsAppend(front, [n]);
    assert [n][1..] == [];
  }

  lemma PopLast(front: seq<Node>, n: Node)
    requires Distinct(Acts(front + [n]))
    ensures Acts(front + [n]) == (if n.Duty? then Acts(front) + [n.act] else Acts(front)) && Distinct(Acts(front))
  {
    ActsSnoc(front, n);
    if n.Duty? {
      DistinctSnoc(Acts(front), n.act);
    }
  }

  lemma RemoveOne(ns: seq<Node>, k: nat, a: Act)
    requires Distinct(Acts(ns)) && k < |ns| && ns[k] == Duty(a)
    ensures Acts(ns[..k] + ns[k + 1..]) == Minus(Acts(ns), {a})
  {
    assert ns == ns[..k] + ([Duty(a)] + ns[k + 1..]);
    RemoveMiddle(ns[..k], a, ns[k + 1..]);
  }

  lemma RemoveMiddle(front: seq<Node>, a: Act, back: seq<Node>)
    requires Distinct(Acts(front + ([Duty(a)] + back)))
    ensures Acts(front + back) == Minus(Acts(front + ([Duty(a)] + back)), {a})
  {
    ActsAppend(front, [Duty(a)] + back);
    assert ([Duty(a)] + back)[1..] == back;
    ActsAppend(front, back);
    MinusMiddle(Acts(front), a, Acts(back));
  }

  lemma MinusMiddle(xs: seq<Act>, a: Act, ys: seq<Act>)
    requires Distinct(xs + ([a] + ys))
    ensures Minus(xs + ([a] + ys), {a}) == xs + ys
  {
    OnlyOnce(xs, a, ys);
    MinusAppend(xs, [a] + ys, {a});
    assert ([a] + ys)[1..] == ys;
    MinusNone(xs, {a});
    MinusNone(ys, {a});
  }

  lemma OnlyOnce(xs: seq<Act>, a: Act, ys: seq<Act>)
    requires Distinct(xs + ([a] + ys))
    ensures a !in xs && a !in ys
  {
    var all := xs + ([a] + ys);
    assert all[|xs|] == a;
    assert forall i :: 0 <= i < |xs| ==> all[i] == xs[i];
    assert forall i :: 0 <= i < |ys| ==> all[|xs| + 1 + i] == ys[i];
  }
}
