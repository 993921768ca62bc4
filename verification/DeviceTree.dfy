/** Recursive device destruction of `src/core/device.c`: children before their parent, each pool's
    obligations in reverse order. Destroying a device does not change who is whose parent. */
module DeviceTree {
  import opened ResPool

  datatype Parent = Root | Of(device: nat)

  /** `rank` witnesses that the parent relation has no cycle: parents rank higher. */
  ghost predicate Acyclic(parent: map<nat, Parent>, rank: map<nat, nat>, top: nat) {
    && parent.Keys <= rank.Keys
    && (forall x :: x in rank ==> rank[x] <= top)
    && forall x :: x in parent && parent[x].Of? ==> parent[x].device in parent && rank[x] < rank[parent[x].device]
  }

  /** `x` is `d` or one of its descendants. */
  ghost predicate Below(parent: map<nat, Parent>, rank: map<nat, nat>, top: nat, x: nat, d: nat)
    requires Acyclic(parent, rank, top) && x in parent
    decreases top - rank[x]
  {
    x == d || (parent[x].Of? && Below(parent, rank, top, parent[x].device, d))
  }

  /** Every listed device is known, listed once, and its parent is listed. */
  ghost predicate Closed(devs: seq<nat>, parent: map<nat, Parent>) {
    && (forall x :: x in devs ==> x in parent)
    && (forall x :: x in devs && parent[x].Of? ==> parent[x].device in devs)
    && OnceEach(devs)
  }

  ghost predicate OnceEach(xs: seq<nat>) {
    forall i, j :: 0 <= i < j < |xs| ==> xs[i] != xs[j]
  }

  function Without(devs: seq<nat>, gone: set<nat>): (r: seq<nat>)
    ensures forall x :: x in r <==> x in devs && x !in gone
    ensures |r| <= |devs|
  {
    if devs == [] then []
    else if devs[0] in gone then Without(devs[1..], gone)
    else [devs[0]] + Without(devs[1..], gone)
  }

  lemma {:induction false} WithoutDistinct(devs: seq<nat>, gone: set<nat>)
    requires OnceEach(devs)
    ensures OnceEach(Without(devs, gone))
  {
    if devs == [] {
    } else {
      var rest := devs[1..];
      assert devs[0] !in rest;
      WithoutDistinct(rest, gone);
    }
  }

  /** A removed set that contains with each device its children keeps the rest closed. */
  lemma ClosedWithout(devs: seq<nat>, parent: map<nat, Parent>, gone: set<nat>)
    requires Closed(devs, parent)
    requires forall x :: x in devs && parent[x].Of? && parent[x].device in gone ==> x in gone
    ensures Closed(Without(devs, gone), parent)
  {
    WithoutDistinct(devs, gone);
  }

  /** As long as a descendant is listed, a child is. */
  lemma {:induction false} ChildOnTheWay(devs: seq<nat>, parent: map<nat, Parent>, rank: map<nat, nat>, top: nat,
                                         x: nat, d: nat)
    requires Acyclic(parent, rank, top) && Closed(devs, parent) && x in devs && x != d && Below(parent, rank, top, x, d)
    ensures exists c :: c in devs && parent[c] == Of(d)
    decreases top - rank[x]
  {
    if parent[x].device == d {
      assert parent[x] == Of(d);
    } else {
      ChildOnTheWay(devs, parent, rank, top, parent[x].device, d);
    }
  }

  /** Below is transitive through a child. */
  lemma {:induction false} BelowChild(parent: map<nat, Parent>, rank: map<nat, nat>, top: nat, x: nat, c: nat, d: nat)
    requires Acyclic(parent, rank, top) && x in parent && c in parent && parent[c] == Of(d)
    requires Below(parent, rank, top, x, c)
    ensures Below(parent, rank, top, x, d) && x != d
    decreases top - rank[x]
  {
    RankAbove(parent, rank, top, x, c);
    if x == c {
    } else {
      BelowChild(parent, rank, top, parent[x].device, c, d);
    }
  }

  /** Nothing is properly below something of lower or equal rank. */
  lemma {:induction false} RankAbove(parent: map<nat, Parent>, rank: map<nat, nat>, top: nat, x: nat, d: nat)
    requires Acyclic(parent, rank, top) && x in parent && d in parent && Below(parent, rank, top, x, d)
    ensures x == d || rank[x] < rank[d]
    decreases top - rank[x]
  {
    if x == d {
    } else {
      RankAbove(parent, rank, top, parent[x].device, d);
    }
  }

  // ----- what a destruction does

  /** The pools after that of `d` was released. */
  ghost function Emptied(held: map<nat, seq<Act>>, d: nat): map<nat, seq<Act>> {
    held[d := []]
  }

  /** What the cleanup functions in each device's pool do to that pool. */
  type Scripts = map<nat, Script>

  function ScriptOf(ss: Scripts, d: nat): Script {
    if d in ss then ss[d] else map[]
  }

  /** Devices removed one after the other, each with the obligations that its pool ran. */
  datatype History = Nothing | Then(past: History, d: nat, ran: seq<Act>)

  ghost function DevsAfter(devs: seq<nat>, e: History): seq<nat> {
    if e.Nothing? then devs else Without(DevsAfter(devs, e.past), {e.d})
  }

  ghost function HeldAfter(held: map<nat, seq<Act>>, e: History): map<nat, seq<Act>> {
    if e.Nothing? then held else Emptied(HeldAfter(held, e.past), e.d)
  }

  ghost predicate Legal(parent: map<nat, Parent>, devs: seq<nat>, held: map<nat, seq<Act>>, ss: Scripts, e: History)
    decreases e, 1
  {
    e.Then? ==> LastLegal(parent, devs, held, ss, e)
  }

  /** The device removed last was listed and had no listed child, and its pool was released. */
  ghost predicate LastLegal(parent: map<nat, Parent>, devs: seq<nat>, held: map<nat, seq<Act>>, ss: Scripts, e: History)
    requires e.Then?
    decreases e, 0
  {
    && Legal(parent, devs, held, ss, e.past)
    && e.d in DevsAfter(devs, e.past) && e.d in HeldAfter(held, e.past)
    && (forall x :: x in DevsAfter(devs, e.past) && x in parent ==> parent[x] != Of(e.d))
    && e.ran == Unwind(HeldAfter(held, e.past)[e.d], ScriptOf(ss, e.d))
  }

  lemma OneMore(parent: map<nat, Parent>, devs: seq<nat>, held: map<nat, seq<Act>>, ss: Scripts, e: History,
                now: seq<nat>, d: nat, ran: seq<Act>)
    requires Legal(parent, devs, held, ss, e) && now == DevsAfter(devs, e) && d in now && d in HeldAfter(held, e)
    requires forall x :: x in now && x in parent ==> parent[x] != Of(d)
    requires ran == Unwind(HeldAfter(held, e)[d], ScriptOf(ss, d))
    ensures Legal(parent, devs, held, ss, Then(e, d, ran)) && DevsAfter(devs, Then(e, d, ran)) == Without(now, {d})
    ensures HeldAfter(held, Then(e, d, ran)) == Emptied(HeldAfter(held, e), d)
  {
    assert LastLegal(parent, devs, held, ss, Then(e, d, ran));
  }

  /** The devices in the order in which they go. */
  function LogOf(e: History): seq<nat> {
    if e.Nothing? then [] else LogOf(e.past) + [e.d]
  }

  /** The obligations in the order in which they run. */
  function RanOf(e: History): seq<Act> {
    if e.Nothing? then [] else RanOf(e.past) + e.ran
  }

  /** Children come before their parents. */
  ghost predicate ChildrenFirst(log: seq<nat>, parent: map<nat, Parent>) {
    forall i, j :: 0 <= i < |log| && 0 <= j < |log| && log[i] in parent && parent[log[i]] == Of(log[j]) ==> i < j
  }

  /** Every device goes at most once, children before their parents, and the rest stays listed. */
  lemma {:induction false} ChildrenGoFirst(parent: map<nat, Parent>, devs: seq<nat>, held: map<nat, seq<Act>>,
                                           ss: Scripts, e: History)
    requires Legal(parent, devs, held, ss, e)
    ensures OnceEach(LogOf(e)) && ChildrenFirst(LogOf(e), parent)
    ensures forall x :: x in devs <==> x in LogOf(e) || x in DevsAfter(devs, e)
    ensures forall x :: x in LogOf(e) ==> x !in DevsAfter(devs, e)
    ensures forall y :: y in DevsAfter(devs, e) && y in parent && parent[y].Of? ==> parent[y].device !in LogOf(e)
  {
    if e.Nothing? {
    } else {
      assert LastLegal(parent, devs, held, ss, e);
      ChildrenGoFirst(parent, devs, held, ss, e.past);
      Appended(LogOf(e.past), e.d, parent);
    }
  }

  lemma Appended(log: seq<nat>, d: nat, parent: map<nat, Parent>)
    requires OnceEach(log) && ChildrenFirst(log, parent) && d !in log
    requires d in parent && parent[d].Of? ==> parent[d].device != d && parent[d].device !in log
    ensures OnceEach(log + [d]) && ChildrenFirst(log + [d], parent)
  {}

  /** The obligations run are those of the pools as they were at the beginning, device after device. */
  lemma {:induction false} PoolsUnwind(parent: map<nat, Parent>, devs: seq<nat>, held: map<nat, seq<Act>>, ss: Scripts,
                                       e: History)
    requires Legal(parent, devs, held, ss, e)
    ensures forall x :: x in LogOf(e) ==> x in held
    ensures RanOf(e) == Unwound(LogOf(e), held, ss)
    ensures forall x :: x in held && x !in LogOf(e) ==> x in HeldAfter(held, e) && HeldAfter(held, e)[x] == held[x]
    ensures HeldAfter(held, e).Keys == held.Keys
  {
    if e.Nothing? {
    } else {
      assert LastLegal(parent, devs, held, ss, e);
      PoolsUnwind(parent, devs, held, ss, e.past);
      ChildrenGoFirst(parent, devs, held, ss, e.past);
      assert LogOf(e)[..|LogOf(e)| - 1] == LogOf(e.past);
    }
  }

  /** What the release of the pool of `x` runs. */
  ghost function Released(held: map<nat, seq<Act>>, ss: Scripts, x: nat): seq<Act> {
    if x in held then Unwind(held[x], ScriptOf(ss, x)) else []
  }

  /** What the pools of the devices of `log` run, one after the other. */
  ghost function Unwound(log: seq<nat>, held: map<nat, seq<Act>>, ss: Scripts): seq<Act> {
    if log == [] then [] else Unwound(log[..|log| - 1], held, ss) + Released(held, ss, log[|log| - 1])
  }

  lemma {:induction false} UnwoundHas(log: seq<nat>, held: map<nat, seq<Act>>, ss: Scripts, x: nat, a: Act)
    requires x in log && a in Released(held, ss, x)
    ensures a in Unwound(log, held, ss)
  {
    if x == log[|log| - 1] {
    } else {
      UnwoundHas(log[..|log| - 1], held, ss, x, a);
    }
  }

  /** Every obligation of a destroyed device runs, unless one of the same pool that runs before it
      cancels it. */
  lemma NoneForgotten(parent: map<nat, Parent>, devs: seq<nat>, held: map<nat, seq<Act>>, ss: Scripts, e: History,
                      x: nat, a: Act)
    requires Legal(parent, devs, held, ss, e) && x in LogOf(e) && x in held && Distinct(held[x]) && a in held[x]
    ensures a in Unwind(held[x], ScriptOf(ss, x)) <==> Spared(held[x], ScriptOf(ss, x), a)
    ensures Spared(held[x], ScriptOf(ss, x), a) ==> a in RanOf(e)
  {
    RunsUnlessCancelled(held[x], ScriptOf(ss, x), a);
    PoolsUnwind(parent, devs, held, ss, e);
    if Spared(held[x], ScriptOf(ss, x), a) {
      UnwoundHas(LogOf(e), held, ss, x, a);
    }
  }

  /** When no cleanup function cancels anything, the whole teardown runs every pool in reverse. */
  lemma {:induction false} PlainTeardown(log: seq<nat>, held: map<nat, seq<Act>>, ss: Scripts)
    requires forall x :: x in log ==> x in held && forall b :: b in held[x] ==> Harmless(held[x], ScriptOf(ss, x), b)
    ensures Unwound(log, held, ss) == InReverse(log, held)
  {
    if log == [] {
    } else {
      var x := log[|log| - 1];
      assert x in log;
      PlainTeardown(log[..|log| - 1], held, ss);
      AllRunInReverse(held[x], ScriptOf(ss, x));
    }
  }

  /** Every pool last first, device after device. */
  ghost function InReverse(log: seq<nat>, held: map<nat, seq<Act>>): seq<Act> {
    if log == [] then []
    else
      var x := log[|log| - 1];
      InReverse(log[..|log| - 1], held) + if x in held then Reversed(held[x]) else []
  }

  class Registry {
    var devices: seq<nat>
    var parent: map<nat, Parent>
    var pools: map<nat, Pool>
    /** Whose pool it is. */
    ghost var owner: map<Pool, nat>
    ghost var rank: map<nat, nat>
    ghost var top: nat

    ghost predicate Valid()
      reads this, pools.Values
    {
      Acyclic(parent, rank, top) && Closed(devices, parent) && PoolsOk()
    }

    /** Every listed device has a pool of its own that is not being released. */
    ghost predicate PoolsOk()
      reads this`devices, this`pools, this`owner, pools.Values
    {
      && (forall x :: x in devices ==> x in pools && pools[x].Valid() && !pools[x].releasing)
      && forall x :: x in pools ==> pools[x] in owner && owner[pools[x]] == x
    }

    /** The obligations in each device's pool, in the order of their registration. */
    ghost function Held(): map<nat, seq<Act>>
      reads this`pools, pools.Values
    {
      map x | x in pools :: Acts(pools[x].nodes)
    }

    /** `e` led from the devices `devs` with the obligations `held` to the present state. */
    ghost predicate Reached(devs: seq<nat>, held: map<nat, seq<Act>>, ss: Scripts, e: History)
      reads this`devices, this`parent, this`pools, pools.Values
    {
      Legal(parent, devs, held, ss, e) && devices == DevsAfter(devs, e) && Held() == HeldAfter(held, e)
    }

    constructor ()
      ensures Valid() && devices == [] && parent == map[]
    {
      devices, parent, pools, owner, rank, top := [], map[], map[], map[], map[], 0;
    }

    /** `device_alloc_locked` for a device not seen before. */
    method Alloc(d: nat)
      requires Valid() && d !in parent && d !in pools
      modifies this
      ensures Valid() && devices == old(devices) + [d] && parent == old(parent)[d := Root]
      ensures d in pools && pools == old(pools)[d := pools[d]] && fresh(pools[d]) && pools[d].nodes == []
    {
      var p := new Pool();
      devices, parent, pools := devices + [d], parent[d := Root], pools[d := p];
      owner, rank := owner[p := d], rank[d := 0];
    }

    /** A device becomes the child of another, before it has children of its own. */
    method Attach(d: nat, p: nat)
      requires Valid() && d in devices && p in devices && d != p && forall x :: x in parent ==> parent[x] != Of(d)
      modifies this`parent, this`rank, this`top
      ensures Valid() && parent == old(parent)[d := Of(p)]
    {
      parent := parent[d := Of(p)];
      rank := map x | x in rank :: if x == d then 0 else rank[x] + 1;
      top := top + 1;
    }

    /** The first listed child, if any. */
    method FindChild(d: nat) returns (found: bool, c: nat)
      requires Valid()
      ensures found ==> c in devices && parent[c] == Of(d)
      ensures !found ==> forall x :: x in devices ==> parent[x] != Of(d)
    {
      for i := 0 to |devices|
        invariant forall j :: 0 <= j < i ==> parent[devices[j]] != Of(d)
      {
        if parent[devices[i]] == Of(d) {
          return true, devices[i];
        }
      }
      return false, 0;
    }

    /** `device_destroy_locked`: the device and its descendants go and nothing else. The history goes on
        from `e`. */
    method Destroy(d: nat, ss: Scripts, ghost devs: seq<nat>, ghost held: map<nat, seq<Act>>, ghost e: History)
      returns (ghost e': History)
      requires Valid() && d in devices && Reached(devs, held, ss, e)
      modifies this`devices, pools.Values
      ensures Valid() && Reached(devs, held, ss, e') && e'.Then? && e'.d == d
      ensures Survive(old(devices), devices, parent, rank, top, d) && |devices| < |old(devices)|
      decreases rank[d], 1
    {
      e' := DestroyChildren(d, ss, devs, held, e);
      OnlySelf(old(devices), devices, parent, rank, top, d);
      e' := Remove(d, ss, devs, held, e');
    }

    /** A device without children leaves the list and its pool is released. */
    method Remove(d: nat, ss: Scripts, ghost devs: seq<nat>, ghost held: map<nat, seq<Act>>, ghost e: History)
      returns (ghost e': History)
      requires Valid() && d in devices && Reached(devs, held, ss, e) && forall x :: x in devices ==> parent[x] != Of(d)
      modifies this`devices, pools.Values
      ensures Valid() && Reached(devs, held, ss, e') && e'.Then? && e'.d == d
      ensures devices == Without(old(devices), {d}) && |devices| < |old(devices)|
    {
      ghost var before := devices;
      Unlist(d);
      var ran := Release(d, ss);
      e' := Then(e, d, ran);
      OneMore(parent, devs, held, ss, e, before, d, ran);
      assert Held() == HeldAfter(held, e');
    }

    method Unlist(d: nat)
      requires Valid() && d in devices && forall x :: x in devices ==> parent[x] != Of(d)
      modifies this`devices
      ensures Valid() && devices == Without(old(devices), {d}) && |devices| < |old(devices)|
      ensures d in pools && d !in devices && pools[d].Valid() && !pools[d].releasing && Held() == old(Held())
    {
      ClosedWithout(devices, parent, {d});
      Shorter(devices, {d}, d);
      devices := Without(devices, {d});
    }

    method Release(d: nat, ss: Scripts) returns (ran: seq<Act>)
      requires PoolsOk() && d in pools && d !in devices && pools[d].Valid() && !pools[d].releasing
      modifies pools[d]
      ensures PoolsOk() && Held() == Emptied(old(Held()), d)
      ensures d in old(Held()) && ran == Unwind(old(Held())[d], ScriptOf(ss, d))
    {
      ran := pools[d].ReleaseAll(ScriptOf(ss, d));
    }

    /** The loop of `vm_destroy`: the last listed device goes first, until none is left. */
    method DestroyAll(ss: Scripts) returns (ghost e: History)
      requires Valid()
      modifies this`devices, pools.Values
      ensures Valid() && devices == [] && Reached(old(devices), old(Held()), ss, e)
    {
      e := Nothing;
      ghost var devs, held := devices, Held();
      while devices != []
        invariant Valid() && Reached(devs, held, ss, e)
        decreases |devices|
      {
        e := Destroy(devices[|devices| - 1], ss, devs, held, e);
      }
    }

    /** `device_destroy_children`: exactly the proper descendants go. */
    method DestroyChildren(d: nat, ss: Scripts, ghost devs: seq<nat>, ghost held: map<nat, seq<Act>>, ghost e: History)
      returns (ghost e': History)
      requires Valid() && d in devices && Reached(devs, held, ss, e)
      modifies this`devices, pools.Values
      ensures Valid() && d in devices && Reached(devs, held, ss, e') && |devices| <= |old(devices)|
      ensures Between(old(devices), devices, parent, rank, top, d)
      ensures forall x :: x in devices ==> parent[x] != Of(d)
      decreases rank[d], 0
    {
      e' := e;
      while true
        invariant Valid() && Reached(devs, held, ss, e') && |devices| <= |old(devices)|
        invariant Between(old(devices), devices, parent, rank, top, d)
        decreases |devices|
      {
        var found, c := FindChild(d);
        if !found {
          return;
        }
        e' := DestroyChild(d, c, ss, old(devices), devs, held, e');
      }
    }

    method DestroyChild(d: nat, c: nat, ss: Scripts, ghost all: seq<nat>, ghost devs: seq<nat>,
                        ghost held: map<nat, seq<Act>>, ghost e: History)
      returns (ghost e': History)
      requires Valid() && Reached(devs, held, ss, e) && c in devices && parent[c] == Of(d)
      requires Between(all, devices, parent, rank, top, d)
      modifies this`devices, pools.Values
      ensures Valid() && Reached(devs, held, ss, e') && |devices| < |old(devices)|
      ensures Between(all, devices, parent, rank, top, d)
      decreases rank[c], 2
    {
      e' := Destroy(c, ss, devs, held, e);
      StaysBetween(all, old(devices), devices, parent, rank, top, c, d);
    }
  }

  /** Only `d` and what is below it is gone. */
  ghost predicate Survive(all: seq<nat>, devs: seq<nat>, parent: map<nat, Parent>, rank: map<nat, nat>, top: nat,
                          d: nat)
  {
    && Acyclic(parent, rank, top) && (forall x :: x in all ==> x in parent)
    && forall x :: x in devs <==> x in all && !Below(parent, rank, top, x, d)
  }

  /** Only something properly below `d` is gone. */
  ghost predicate Between(all: seq<nat>, devs: seq<nat>, parent: map<nat, Parent>, rank: map<nat, nat>, top: nat,
                          d: nat)
  {
    && Acyclic(parent, rank, top) && (forall x :: x in all ==> x in parent) && (forall x :: x in devs ==> x in all)
    && forall x :: x in all && (x == d || !Below(parent, rank, top, x, d)) ==> x in devs
  }

  lemma StaysBetween(all: seq<nat>, devs: seq<nat>, devs': seq<nat>, parent: map<nat, Parent>, rank: map<nat, nat>,
                     top: nat, c: nat, d: nat)
    requires Between(all, devs, parent, rank, top, d) && Closed(devs, parent) && c in devs && parent[c] == Of(d)
    requires Survive(devs, devs', parent, rank, top, c)
    ensures Between(all, devs', parent, rank, top, d)
  {
    NotBelowChild(devs, parent, rank, top, c, d);
  }

  /** When no child is left, only `d` itself is left of its tree. */
  lemma OnlySelf(all: seq<nat>, devs: seq<nat>, parent: map<nat, Parent>, rank: map<nat, nat>, top: nat, d: nat)
    requires Between(all, devs, parent, rank, top, d) && Closed(devs, parent)
    requires forall x :: x in devs ==> parent[x] != Of(d)
    ensures Survive(all, Without(devs, {d}), parent, rank, top, d)
  {
    NoneLeft(devs, parent, rank, top, d);
  }

  /** What is not properly below `d` is not below its child. */
  lemma NotBelowChild(devs: seq<nat>, parent: map<nat, Parent>, rank: map<nat, nat>, top: nat, c: nat, d: nat)
    requires Acyclic(parent, rank, top) && Closed(devs, parent) && c in devs && parent[c] == Of(d)
    ensures forall x :: x in devs && (x == d || !Below(parent, rank, top, x, d)) ==> !Below(parent, rank, top, x, c)
  {
    forall x | x in devs && Below(parent, rank, top, x, c)
      ensures Below(parent, rank, top, x, d) && x != d
    {
      BelowChild(parent, rank, top, x, c, d);
    }
  }

  /** Without a listed child, no proper descendant is listed. */
  lemma NoneLeft(devs: seq<nat>, parent: map<nat, Parent>, rank: map<nat, nat>, top: nat, d: nat)
    requires Acyclic(parent, rank, top) && Closed(devs, parent) && forall x :: x in devs ==> parent[x] != Of(d)
    ensures forall x :: x in devs && Below(parent, rank, top, x, d) ==> x == d
  {
    forall x | x in devs && Below(parent, rank, top, x, d)
      ensures x == d
    {
      if x != d {
        ChildOnTheWay(devs, parent, rank, top, x, d);
      }
    }
  }

  lemma {:induction false} Shorter(devs: seq<nat>, gone: set<nat>, c: nat)
    requires c in devs && c in gone
    ensures |Without(devs, gone)| < |devs|
  {
    if devs[0] in gone {
    } else {
      Shorter(devs[1..], gone, c);
    }
  }
}
