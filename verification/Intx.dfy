/** Shared INTx lines: functions on the bus of `src/hw/pci/pci.c` and the aggregation in
    `src/hw/pci/pio_bridge.c`. A 64-bit word of the bridge's bitsets is the set of its one bits. */
module Intx {
  import opened Spans

  /** A registered function; `masked` is command register bit 10, `level` what the endpoint asserts. */
  datatype Fn = Fn(devfn: nat, pin: nat, level: bool, masked: bool)

  datatype Error = EINVAL | EBUSY | ENOSPC | ESHUTDOWN | EEXIST | ENOMEM

  function SlotOf(devfn: nat): nat {
    devfn / 8
  }

  /** The PIRQ line a function is routed to. */
  function Line(f: Fn): (p: nat)
    requires 1 <= f.pin <= 4
    ensures p < 4
  {
    (SlotOf(f.devfn) + f.pin - 1) % 4
  }

  predicate Drives(f: Fn, p: nat) {
    1 <= f.pin <= 4 && f.level && !f.masked && Line(f) == p
  }

  /** The OR that the line must show. */
  predicate Wanted(fns: seq<Fn>, p: nat) {
    exists k :: 0 <= k < |fns| && Drives(fns[k], p)
  }

  ghost predicate Registered(fns: seq<Fn>) {
    && (forall k :: 0 <= k < |fns| ==> fns[k].devfn < 256 && fns[k].pin <= 4)
    && forall k, l :: 0 <= k < l < |fns| ==> fns[k].devfn != fns[l].devfn
  }

  type Words = seq<seq<set<nat>>>

  predicate Shaped(a: Words) {
    |a| == 4 && forall p :: 0 <= p < 4 ==> |a[p]| == 4
  }

  predicate Bit(a: Words, p: nat, source: nat)
    requires Shaped(a) && p < 4 && source < 256
  {
    source % 64 in a[p][source / 64]
  }

  /** `pio_bridge_set_irq_cb` on the bitsets. */
  function Recorded(a: Words, f: Fn, on: bool): (b: Words)
    requires Shaped(a) && f.devfn < 256
    ensures Shaped(b)
  {
    if !(1 <= f.pin <= 4) then a
    else
      var p, w, bit := Line(f), f.devfn / 64, f.devfn % 64;
      a[p := a[p][w := if on then a[p][w] + {bit} else a[p][w] - {bit}]]
  }

  lemma RecordedBit(a: Words, f: Fn, on: bool, p: nat, source: nat)
    requires Shaped(a) && f.devfn < 256 && p < 4 && source < 256
    ensures Bit(Recorded(a, f, on), p, source) ==
      if 1 <= f.pin <= 4 && Line(f) == p && source == f.devfn then on else Bit(a, p, source)
  {}

  /** The bitset of a line has exactly the functions that drive it, and no stray bits. */
  ghost predicate Tracks(fns: seq<Fn>, a: Words) {
    && Shaped(a)
    && (forall p, w, bit :: 0 <= p < 4 && 0 <= w < 4 && bit in a[p][w] ==> bit < 64)
    && forall p, source :: 0 <= p < 4 && 0 <= source < 256 ==> (Bit(a, p, source) <==> Driven(fns, p, source))
  }

  predicate Driven(fns: seq<Fn>, p: nat, source: nat) {
    exists k :: 0 <= k < |fns| && fns[k].devfn == source && Drives(fns[k], p)
  }

  /** The line test: some word is not zero. */
  predicate NonZero(words: seq<set<nat>>) {
    exists w :: 0 <= w < |words| && words[w] != {}
  }

  lemma NonZeroIsWanted(fns: seq<Fn>, a: Words, p: nat)
    requires Registered(fns) && Tracks(fns, a) && p < 4
    ensures NonZero(a[p]) <==> Wanted(fns, p)
  {
    if NonZero(a[p]) {
      var w :| 0 <= w < 4 && a[p][w] != {};
      var bit :| bit in a[p][w];
      assert Bit(a, p, 64 * w + bit);
    }
    if Wanted(fns, p) {
      var k :| 0 <= k < |fns| && Drives(fns[k], p);
      assert Driven(fns, p, fns[k].devfn);
      assert Bit(a, p, fns[k].devfn);
    }
  }

  /** Reporting the new state of one function makes the bitsets track the new list. */
  lemma TracksUpdate(fns: seq<Fn>, a: Words, k: nat, f: Fn)
    requires Registered(fns) && Tracks(fns, a) && k < |fns| && f.devfn == fns[k].devfn && f.pin == fns[k].pin
    ensures Tracks(fns[k := f], Recorded(a, f, f.level && !f.masked))
  {
    var fns' := fns[k := f];
    var b := Recorded(a, f, f.level && !f.masked);
    forall p, source | 0 <= p < 4 && 0 <= source < 256
      ensures Bit(b, p, source) <==> Driven(fns', p, source)
    {
      RecordedBit(a, f, f.level && !f.masked, p, source);
      assert Bit(a, p, source) <==> Driven(fns, p, source);
      if source == f.devfn {
        assert fns'[k] == f;
      }
      assert forall l :: 0 <= l < |fns| && l != k ==> fns'[l] == fns[l];
    }
  }

  /** A function that drives nothing may come or go. */
  lemma TracksSilent(fns: seq<Fn>, fns': seq<Fn>, a: Words)
    requires Tracks(fns, a)
    requires forall p, source :: 0 <= p < 4 && 0 <= source < 256 ==> Driven(fns', p, source) == Driven(fns, p, source)
    ensures Tracks(fns', a)
  {}

  class Bridge {
    var fns: seq<Fn>
    var asserted: Words
    /** The levels driven on PIRQA to PIRQD. */
    var lines: seq<bool>

    /** Every line shows the OR over the registered functions routed to it. */
    ghost predicate Valid()
      reads this
    {
      && Registered(fns) && Tracks(fns, asserted) && |lines| == 4
      && forall p :: 0 <= p < 4 ==> lines[p] == Wanted(fns, p)
    }

    constructor ()
      ensures Valid() && fns == []
    {
      fns := [];
      var words: seq<set<nat>> := [{}, {}, {}, {}];
      asserted := [words, words, words, words];
      lines := [false, false, false, false];
    }

    /** `pci_device_set_irq_locked` with the bridge's callback. */
    method SetIrq(k: nat, level: bool)
      requires Valid() && k < |fns|
      modifies this
      ensures Valid() && fns == old(fns)[k := old(fns)[k].(level := level)]
    {
      Report(k, fns[k].(level := level));
    }

    /** A command register write: the mask changes and the level is reported again. */
    method SetMask(k: nat, masked: bool)
      requires Valid() && k < |fns|
      modifies this
      ensures Valid() && fns == old(fns)[k := old(fns)[k].(masked := masked)]
    {
      Report(k, fns[k].(masked := masked));
    }

    /** `pci_device_register_locked` with bus membership: an unused device number, or the first free
        slot from 1 on with function 0. `refused` is the error if the owner's pool does not take the
        obligation to unregister. Nothing is asserted yet. */
    method Register(devfn: Option<nat>, pin: nat, masked: bool, refused: Option<Error>) returns (error: Option<Error>)
      requires Valid() && (devfn.Some? ==> devfn.value < 256)
      modifies this`fns
      ensures Valid()
      ensures error == if pin > 4 then Some(EINVAL)
                       else if devfn.None? && FreeSlot(old(fns)) == 32 then Some(ENOSPC)
                       else if devfn.Some? && Used(old(fns), devfn.value) then Some(EBUSY)
                       else refused
      ensures var number := if devfn.Some? then devfn.value else 8 * FreeSlot(old(fns));
        fns == if error.Some? then old(fns) else old(fns) + [Fn(number, pin, false, masked)]
    {
      if pin > 4 {
        return Some(EINVAL);
      }
      var number := if devfn.Some? then devfn.value else 0;
      if devfn.None? {
        var slot := FreeSlot(fns);
        if slot == 32 {
          return Some(ENOSPC);
        }
        number := 8 * slot;
      }
      if Used(fns, number) {
        return Some(EBUSY);
      }
      if refused.Some? {
        return refused;
      }
      SilentJoins(fns, asserted, Fn(number, pin, false, masked));
      fns := fns + [Fn(number, pin, false, masked)];
      error := None;
    }

    /** `pci_unregister`: the function's own contribution is withdrawn, then it leaves the list. */
    method Remove(k: nat)
      requires Valid() && k < |fns|
      modifies this
      ensures Valid() && fns == old(fns)[..k] + old(fns)[k + 1..]
    {
      SetIrq(k, false);
      SilentLeaves(fns, asserted, k);
      fns := fns[..k] + fns[k + 1..];
    }

    method Report(k: nat, f: Fn)
      requires Valid() && k < |fns| && f.devfn == fns[k].devfn && f.pin == fns[k].pin
      modifies this
      ensures Valid() && fns == old(fns)[k := f]
    {
      TracksUpdate(fns, asserted, k, f);
      OtherLines(fns, k, f);
      asserted := Recorded(asserted, f, f.level && !f.masked);
      fns := fns[k := f];
      if 1 <= f.pin <= 4 {
        var p := Line(f);
        NonZeroIsWanted(fns, asserted, p);
        var on := AnyWord(asserted[p]);
        lines := lines[p := on];
      }
    }
  }

  /** The loop over the four words. */
  method AnyWord(words: seq<set<nat>>) returns (on: bool)
    ensures on <==> NonZero(words)
  {
    on := false;
    for i := 0 to |words|
      invariant on <==> NonZero(words[..i])
    {
      assert words[..i + 1] == words[..i] + [words[i]];
      assert words[i] != {} ==> words[..i + 1][i] != {};
      on := on || words[i] != {};
    }
    assert words[..|words|] == words;
  }

  lemma OtherLines(fns: seq<Fn>, k: nat, f: Fn)
    requires k < |fns| && f.devfn == fns[k].devfn && f.pin == fns[k].pin
    ensures forall p :: 0 <= p < 4 && !(1 <= f.pin <= 4 && Line(f) == p) ==> Wanted(fns[k := f], p) == Wanted(fns, p)
  {
    forall p | 0 <= p < 4 && !(1 <= f.pin <= 4 && Line(f) == p)
      ensures Wanted(fns[k := f], p) == Wanted(fns, p)
    {
      assert forall l :: 0 <= l < |fns| ==> Drives(fns[k := f][l], p) == Drives(fns[l], p);
    }
  }

  predicate Used(fns: seq<Fn>, devfn: nat) {
    exists k :: 0 <= k < |fns| && fns[k].devfn == devfn
  }

  predicate SlotUsed(fns: seq<Fn>, slot: nat) {
    exists k :: 0 <= k < |fns| && SlotOf(fns[k].devfn) == slot
  }

  function FreeSlotFrom(fns: seq<Fn>, slot: nat): (s: nat)
    requires slot <= 32
    ensures slot <= s <= 32 && (s < 32 ==> !SlotUsed(fns, s))
    ensures forall t :: slot <= t < s ==> SlotUsed(fns, t)
    decreases 32 - slot
  {
    if slot == 32 || !SlotUsed(fns, slot) then slot else FreeSlotFrom(fns, slot + 1)
  }

  /** The lowest slot from 1 on without any function, or 32. */
  function FreeSlot(fns: seq<Fn>): (s: nat)
    ensures 1 <= s <= 32 && (s < 32 ==> !SlotUsed(fns, s))
    ensures forall t :: 1 <= t < s ==> SlotUsed(fns, t)
  {
    FreeSlotFrom(fns, 1)
  }

  lemma SilentJoins(fns: seq<Fn>, a: Words, f: Fn)
    requires Registered(fns) && Tracks(fns, a) && !f.level && f.devfn < 256 && f.pin <= 4 && !Used(fns, f.devfn)
    ensures Registered(fns + [f]) && Tracks(fns + [f], a)
    ensures forall p :: 0 <= p < 4 ==> Wanted(fns + [f], p) == Wanted(fns, p)
  {
    var all := fns + [f];
    forall p, source | 0 <= p < 4 && 0 <= source < 256
      ensures Driven(all, p, source) == Driven(fns, p, source)
    {
      if Driven(fns, p, source) {
        var k :| 0 <= k < |fns| && fns[k].devfn == source && Drives(fns[k], p);
        assert all[k] == fns[k];
      }
    }
    TracksSilent(fns, all, a);
    forall p | 0 <= p < 4
      ensures Wanted(all, p) == Wanted(fns, p)
    {
      if Wanted(fns, p) {
        var k :| 0 <= k < |fns| && Drives(fns[k], p);
        assert all[k] == fns[k];
      }
    }
  }

  lemma SilentLeaves(fns: seq<Fn>, a: Words, k: nat)
    requires Registered(fns) && Tracks(fns, a) && k < |fns| && !fns[k].level
    ensures var rest := fns[..k] + fns[k + 1..];
      Registered(rest) && Tracks(rest, a) && forall p :: 0 <= p < 4 ==> Wanted(rest, p) == Wanted(fns, p)
  {
    var rest := fns[..k] + fns[k + 1..];
    forall p, source | 0 <= p < 4 && 0 <= source < 256
      ensures Driven(rest, p, source) == Driven(fns, p, source)
    {
      RestDriven(fns, k, p, source);
    }
    TracksSilent(fns, rest, a);
    forall p | 0 <= p < 4
      ensures Wanted(rest, p) == Wanted(fns, p)
    {
      RestWanted(fns, k, p);
    }
  }

  lemma RestDriven(fns: seq<Fn>, k: nat, p: nat, source: nat)
    requires k < |fns| && !fns[k].level
    ensures Driven(fns[..k] + fns[k + 1..], p, source) == Driven(fns, p, source)
  {
    var rest := fns[..k] + fns[k + 1..];
    if Driven(fns, p, source) {
      var l :| 0 <= l < |fns| && fns[l].devfn == source && Drives(fns[l], p);
      assert rest[if l < k then l else l - 1] == fns[l];
    }
    if Driven(rest, p, source) {
      var l :| 0 <= l < |rest| && rest[l].devfn == source && Drives(rest[l], p);
      assert fns[if l < k then l else l + 1] == rest[l];
    }
  }

  lemma RestWanted(fns: seq<Fn>, k: nat, p: nat)
    requires k < |fns| && !fns[k].level
    ensures Wanted(fns[..k] + fns[k + 1..], p) == Wanted(fns, p)
  {
    var rest := fns[..k] + fns[k + 1..];
    if Wanted(fns, p) {
      var l :| 0 <= l < |fns| && Drives(fns[l], p);
      assert rest[if l < k then l else l - 1] == fns[l];
    }
    if Wanted(rest, p) {
      var l :| 0 <= l < |rest| && Drives(rest[l], p);
      assert fns[if l < k then l else l + 1] == rest[l];
    }
  }

  /** Withdrawing one sharer, by masking or removal, leaves the line to the others. */
  lemma OnlyOwnContribution(fns: seq<Fn>, k: nat, f: Fn, p: nat)
    requires k < |fns| && p < 4 && !Drives(f, p)
    ensures Wanted(fns[k := f], p) <==> Wanted(fns[..k] + fns[k + 1..], p)
  {
    var after, rest := fns[k := f], fns[..k] + fns[k + 1..];
    if Wanted(after, p) {
      var l :| 0 <= l < |after| && Drives(after[l], p);
      assert rest[if l < k then l else l - 1] == after[l];
    }
    if Wanted(rest, p) {
      var l :| 0 <= l < |rest| && Drives(rest[l], p);
      assert after[if l < k then l else l + 1] == rest[l];
    }
  }
}
