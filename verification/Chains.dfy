/** Descriptor chains, independent of how the device walks them: what a chain of a descriptor
    table is, when the device may accept it, and why the walk's length bound detects loops. */
module Chains {
  import opened GuestMemory
  import opened Streams

  datatype Desc = Desc(addr: nat, len: nat, flags: nat, next: nat)

  predicate HasNext(d: Desc) {
    d.flags % 2 == 1
  }

  predicate IsWrite(d: Desc) {
    d.flags / 2 % 2 == 1
  }

  function BufOf(d: Desc): Buf {
    Buf(d.addr, d.len, IsWrite(d))
  }

  predicate LinkAt(t: seq<Desc>, p: seq<nat>, i: nat)
    requires 1 <= i < |p|
  {
    p[i - 1] < |t| && HasNext(t[p[i - 1]]) && p[i] == t[p[i - 1]].next
  }

  /** Indices into the table, each reached from the one before through a NEXT flag. */
  ghost predicate Walk(t: seq<Desc>, p: seq<nat>) {
    && (forall i :: 0 <= i < |p| ==> p[i] < |t|)
    && forall i :: 1 <= i < |p| ==> LinkAt(t, p, i)
  }

  ghost predicate Acyclic(p: seq<nat>) {
    forall i, j :: 0 <= i < j < |p| ==> p[i] != p[j]
  }

  /** All device-readable buffers come before the device-writable ones. */
  ghost predicate Ordered(t: seq<Desc>, p: seq<nat>)
    requires Walk(t, p)
  {
    forall i, j :: 0 <= i < j < |p| && IsWrite(t[p[i]]) ==> IsWrite(t[p[j]])
  }

  /** A descriptor the device can use: only the NEXT and WRITE flags, and a usable buffer. */
  ghost predicate Usable(rs: seq<Region>, d: Desc) {
    d.flags < 4 && BufMapped(rs, BufOf(d))
  }

  ghost predicate GoodChain(rs: seq<Region>, t: seq<Desc>, head: nat, p: seq<nat>) {
    && p != [] && p[0] == head && Walk(t, p) && !HasNext(t[p[|p| - 1]])
    && Acyclic(p) && Ordered(t, p)
    && forall i :: 0 <= i < |p| ==> Usable(rs, t[p[i]])
  }

  /** The chain starting at `head` is one the device accepts. */
  ghost predicate Acceptable(rs: seq<Region>, t: seq<Desc>, head: nat) {
    exists p :: GoodChain(rs, t, head, p)
  }

  /** What the walker has seen: it went through `w` and is about to look at `index`. */
  ghost predicate Arrived(t: seq<Desc>, head: nat, w: seq<nat>, index: nat) {
    && Walk(t, w)
    && if w == [] then index == head
       else w[0] == head && HasNext(t[w[|w| - 1]]) && index == t[w[|w| - 1]].next
  }

  /** A chain is determined by its head, so every complete chain extends the walk so far. */
  lemma {:induction false} Determined(t: seq<Desc>, head: nat, w: seq<nat>, index: nat, p: seq<nat>)
    requires Arrived(t, head, w, index)
    requires p != [] && p[0] == head && Walk(t, p) && !HasNext(t[p[|p| - 1]])
    ensures |p| > |w| && p[..|w|] == w && p[|w|] == index
  {
    if w == [] {
    } else {
      var n := |w| - 1;
      WalkPrefix(t, w, n);
      assert n > 0 ==> LinkAt(t, w, n);
      Determined(t, head, w[..n], w[n], p);
      assert LinkAt(t, p, n + 1);
      assert p[..n + 1] == w[..n] + [w[n]] == w;
    }
  }

  /** There is one chain from a head at most. */
  lemma OneWalk(rs: seq<Region>, t: seq<Desc>, head: nat, p: seq<nat>, q: seq<nat>)
    requires GoodChain(rs, t, head, p) && GoodChain(rs, t, head, q)
    ensures p == q
  {
    var n := |p| - 1;
    WalkPrefix(t, p, n);
    assert n > 0 ==> LinkAt(t, p, n);
    Determined(t, head, p[..n], p[n], q);
    assert |q| > n + 1 ==> LinkAt(t, q, n + 1);
    assert p == p[..n] + [p[n]] && q[..n + 1] == q[..n] + [q[n]];
  }

  /** Two walks from a head go the same way. */
  lemma {:induction false} SameWay(t: seq<Desc>, head: nat, w: seq<nat>, index: nat, v: seq<nat>, next: nat)
    requires Arrived(t, head, w, index) && Arrived(t, head, v, next) && |w| <= |v|
    ensures v[..|w|] == w && index == if |w| < |v| then v[|w|] else next
  {
    if w == [] {
    } else {
      var n := |w| - 1;
      WalkPrefix(t, w, n);
      assert n > 0 ==> LinkAt(t, w, n);
      SameWay(t, head, w[..n], w[n], v, next);
      assert |w| < |v| ==> LinkAt(t, v, |w|);
      assert v[..|w|] == v[..n] + [v[n]] && w == w[..n] + [w[n]];
    }
  }

  lemma WalkPrefix(t: seq<Desc>, p: seq<nat>, n: nat)
    requires Walk(t, p) && n <= |p|
    ensures Walk(t, p[..n])
  {
    forall i | 1 <= i < n
      ensures LinkAt(t, p[..n], i)
    {
      assert LinkAt(t, p, i);
    }
  }

  /** A chain that ends cannot have passed a descriptor twice: it would have to repeat forever. */
  lemma {:induction false} EndedIsAcyclic(t: seq<Desc>, p: seq<nat>, i: nat, j: nat)
    requires p != [] && Walk(t, p) && !HasNext(t[p[|p| - 1]])
    requires i < j < |p|
    ensures p[i] != p[j]
    decreases |p| - j
  {
    assert LinkAt(t, p, i + 1);
    if j == |p| - 1 {
    } else {
      EndedIsAcyclic(t, p, i + 1, j + 1);
      assert LinkAt(t, p, j + 1);
    }
  }

  /** More indices than descriptors: some descriptor is visited twice. */
  lemma {:induction false} Pigeonhole(p: seq<nat>, n: nat)
    requires |p| > n && forall i :: 0 <= i < |p| ==> p[i] < n
    ensures exists i, j :: 0 <= i < j < |p| && p[i] == p[j]
  {
    if Acyclic(p) {
      DistinctCount(p);
      BelowCount(Elems(p), n);
    }
  }

  function Elems(p: seq<nat>): set<nat> {
    set x | x in p
  }

  lemma {:induction false} DistinctCount(p: seq<nat>)
    requires Acyclic(p)
    ensures |Elems(p)| == |p|
  {
    if p == [] {
    } else {
      var last := |p| - 1;
      DistinctCount(p[..last]);
      assert Elems(p) == Elems(p[..last]) + {p[last]};
      assert p[last] !in Elems(p[..last]);
    }
  }

  lemma {:induction false} BelowCount(s: set<nat>, n: nat)
    requires forall x :: x in s ==> x < n
    ensures |s| <= n
  {
    if n > 0 {
      BelowCount(s - {n - 1}, n - 1);
    } else {
      assert s == {};
    }
  }

  function BufsOf(t: seq<Desc>, p: seq<nat>): seq<Buf>
    requires forall i :: 0 <= i < |p| ==> p[i] < |t|
  {
    seq(|p|, i requires 0 <= i < |p| => BufOf(t[p[i]]))
  }

  /** Some descriptor of the walk is device-writable. */
  ghost predicate SawWrite(t: seq<Desc>, w: seq<nat>)
    requires Walk(t, w)
  {
    exists i :: 0 <= i < |w| && IsWrite(t[w[i]])
  }

  /** Everything up to here is fine. */
  ghost predicate Sound(rs: seq<Region>, t: seq<Desc>, w: seq<nat>)
    requires Walk(t, w)
  {
    Ordered(t, w) && forall i :: 0 <= i < |w| ==> Usable(rs, t[w[i]])
  }

  /** The walk cannot be continued to an acceptable chain: the next index is out of range, the
      walk is as long as the table, or the next descriptor is unusable or out of order. */
  lemma Reject(rs: seq<Region>, t: seq<Desc>, head: nat, w: seq<nat>, index: nat)
    requires Arrived(t, head, w, index)
    requires index >= |t| || |w| == |t| || !Usable(rs, t[index]) || (SawWrite(t, w) && !IsWrite(t[index]))
    ensures !Acceptable(rs, t, head)
  {
    forall p
      ensures !GoodChain(rs, t, head, p)
    {
      if GoodChain(rs, t, head, p) {
        Determined(t, head, w, index, p);
        if |w| == |t| {
          Pigeonhole(p, |t|);
        }
      }
    }
  }

  /** A walk as long as the table that goes on has revisited a descriptor. */
  lemma LoopFound(t: seq<Desc>, head: nat, w: seq<nat>, index: nat)
    requires Arrived(t, head, w, index) && |w| == |t| && index < |t|
    ensures Walk(t, w + [index]) && !Acyclic(w + [index])
  {
    Extend(t, head, w, index);
    Pigeonhole(w + [index], |t|);
  }

  lemma Extend(t: seq<Desc>, head: nat, w: seq<nat>, index: nat)
    requires Arrived(t, head, w, index) && index < |t|
    ensures Walk(t, w + [index]) && (w + [index])[0] == head
    ensures BufsOf(t, w + [index]) == BufsOf(t, w) + [BufOf(t[index])]
  {
    var p := w + [index];
    forall i | 1 <= i < |p|
      ensures LinkAt(t, p, i)
    {
      if i < |w| {
        assert LinkAt(t, w, i);
      }
    }
  }

  lemma ExtendSound(rs: seq<Region>, t: seq<Desc>, head: nat, w: seq<nat>, index: nat)
    requires Arrived(t, head, w, index) && index < |t| && Sound(rs, t, w)
    requires Usable(rs, t[index]) && (SawWrite(t, w) ==> IsWrite(t[index]))
    ensures Walk(t, w + [index]) && Sound(rs, t, w + [index])
    ensures SawWrite(t, w + [index]) <==> SawWrite(t, w) || IsWrite(t[index])
  {
    Extend(t, head, w, index);
    var p := w + [index];
    assert forall i :: 0 <= i < |w| ==> p[i] == w[i];
    assert p[|w|] == index;
    if SawWrite(t, w) {
      var i :| 0 <= i < |w| && IsWrite(t[w[i]]);
      assert IsWrite(t[p[i]]);
    }
  }

  /** A sound walk that stops is an acceptable chain. */
  lemma Accept(rs: seq<Region>, t: seq<Desc>, head: nat, p: seq<nat>)
    requires p != [] && p[0] == head && Walk(t, p) && Sound(rs, t, p) && !HasNext(t[p[|p| - 1]])
    ensures GoodChain(rs, t, head, p)
  {
    forall i, j | 0 <= i < j < |p|
      ensures p[i] != p[j]
    {
      EndedIsAcyclic(t, p, i, j);
    }
  }
}
