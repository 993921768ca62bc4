/** The automatic BAR placement of `pci_register_bar_locked` in `src/hw/pci/pci.c`. */
module BarAllocator {
  import opened Spans
  import opened PowersOfTwo

  /** The smallest multiple of `size` that is not below `x`. */
  function AlignUp(x: nat, size: nat): nat
    requires size > 0
  {
    var y := x + (size - 1);
    y - y % size
  }

  /** `base` is a place for the BAR: aligned, inside the window, clear of MMIO and RAM. */
  predicate Places(mmio: seq<Span>, ram: seq<Span>, low: nat, limit: nat, size: nat, base: nat)
    requires size > 0
  {
    && low <= base && base % size == 0 && base + size <= limit
    && Clear(mmio, Span(base, size)) && Clear(ram, Span(base, size))
  }

  lemma AlignUpIsLeast(x: nat, size: nat, b: nat)
    requires size > 0
    ensures AlignUp(x, size) % size == 0 && x <= AlignUp(x, size) < x + size
    ensures b % size == 0 && b >= x ==> b >= AlignUp(x, size)
  {
    var y := x + (size - 1);
    var q := y / size;
    assert y == q * size + y % size;
    MultipleMod(q, size);
    if b % size == 0 && b >= x {
      var p := b / size;
      assert b == p * size;
      if p < q {
        MultipleGap(p, q, size);
      } else if p > q {
        MultipleGap(q, p, size);
      }
    }
  }

  lemma {:induction false} MultipleMod(q: nat, size: nat)
    requires size > 0
    ensures (q * size) % size == 0
  {
    AddMultiple(0, size, q);
    assert q * size == 0 + size * q;
  }

  lemma {:induction false} MultipleGap(p: nat, q: nat, size: nat)
    requires p < q
    ensures p * size + size <= q * size
    decreases q
  {
    Distribute(q, size);
    if p == q - 1 {
    } else {
      MultipleGap(p, q - 1, size);
    }
  }

  lemma Distribute(q: int, size: int)
    ensures q * size == (q - 1) * size + size
  {}

  /** Different multiples of `size` are at least `size` apart. */
  lemma AlignedGap(a: nat, b: nat, size: nat)
    requires size > 0 && a % size == 0 && b % size == 0 && a < b
    ensures a + size <= b
  {
    var p, q := a / size, b / size;
    assert a == p * size && b == q * size;
    if q < p {
      MultipleGap(q, p, size);
    } else if p < q {
      MultipleGap(p, q, size);
    }
  }

  /** Every place between an occupied one and the end of *any* range that occupies it is occupied
      by that range, so jumping to that end skips no free place. */
  lemma JumpSkipsNothing(s: Span, base: nat, size: nat, b: nat)
    requires size > 0 && base % size == 0 && b % size == 0
    requires Overlap(s, Span(base, size)) && base <= b < s.base + s.size
    ensures Overlap(s, Span(b, size))
  {}

  /** `next` is `base`, or the end of a listed range that occupies `base`. */
  ghost predicate Jump(ss: seq<Span>, base: nat, size: nat, next: nat) {
    exists i :: 0 <= i < |ss| && Overlap(ss[i], Span(base, size)) && next == ss[i].base + ss[i].size
  }

  /** The two inner scans: among MMIO regions the last one that overlaps decides, among RAM
      regions the one that ends last. */
  method FindJump(mmio: seq<Span>, ram: seq<Span>, base: nat, size: nat) returns (next: nat)
    ensures next >= base
    ensures next == base ==> Clear(mmio, Span(base, size)) && Clear(ram, Span(base, size))
    ensures next > base ==> Jump(mmio, base, size, next) || Jump(ram, base, size, next)
  {
    next := base;
    for i := 0 to |mmio|
      invariant next >= base
      invariant next == base ==> forall k :: 0 <= k < i ==> !Overlap(mmio[k], Span(base, size))
      invariant next > base ==> Jump(mmio, base, size, next)
    {
      if base < mmio[i].base + mmio[i].size && mmio[i].base < base + size {
        next := mmio[i].base + mmio[i].size;
        assert Overlap(mmio[i], Span(base, size));
      }
    }
    for i := 0 to |ram|
      invariant next >= base
      invariant next == base ==> Clear(mmio, Span(base, size))
      invariant next == base ==> forall k :: 0 <= k < i ==> !Overlap(ram[k], Span(base, size))
      invariant next > base ==> Jump(mmio, base, size, next) || Jump(ram, base, size, next)
    {
      if base < ram[i].base + ram[i].size && ram[i].base < base + size && ram[i].base + ram[i].size > next {
        next := ram[i].base + ram[i].size;
        assert Overlap(ram[i], Span(base, size));
      }
    }
  }

  /** The allocator returns the lowest place, and fails exactly when there is none. */
  method Allocate(mmio: seq<Span>, ram: seq<Span>, low: nat, limit: nat, size: nat) returns (r: Option<nat>)
    requires 0 < size <= FOUR_GIB && limit <= FOUR_GIB
    ensures r.None? <==> forall b: nat :: !Places(mmio, ram, low, limit, size, b)
    ensures r.Some? ==> Places(mmio, ram, low, limit, size, r.value)
    ensures r.Some? ==> forall b: nat :: Places(mmio, ram, low, limit, size, b) ==> r.value <= b
  {
    var base := low;
    while true
      invariant low <= base
      invariant forall b: nat :: Places(mmio, ram, low, limit, size, b) ==> base <= b
      decreases FOUR_GIB - base
    {
      if base > FOUR_GIB - 1 - (size - 1) {
        return None;
      }
      var aligned := AlignUp(base, size);
      forall b: nat | Places(mmio, ram, low, limit, size, b)
        ensures aligned <= b
      {
        AlignUpIsLeast(base, size, b);
      }
      AlignUpIsLeast(base, size, 0);
      base := aligned;
      if base + size > limit || base + size > FOUR_GIB {
        return None;
      }
      var next := FindJump(mmio, ram, base, size);
      if next == base {
        assert Places(mmio, ram, low, limit, size, base);
        return Some(base);
      }
      forall b: nat | Places(mmio, ram, low, limit, size, b)
        ensures next <= b
      {
        NoPlaceBefore(mmio, ram, low, limit, size, base, next, b);
      }
      base := next;
    }
  }

  lemma NoPlaceBefore(mmio: seq<Span>, ram: seq<Span>, low: nat, limit: nat, size: nat, base: nat, next: nat, b: nat)
    requires size > 0 && base % size == 0 && base <= b && Places(mmio, ram, low, limit, size, b)
    requires Jump(mmio, base, size, next) || Jump(ram, base, size, next)
    ensures next <= b
  {}
}
