/** Address ranges and the overlap scans over lists of them, shared by RAM, I/O regions and PCI BARs. */
module Spans {

  datatype Span = Span(base: nat, size: nat)

  datatype Option<T> = None | Some(value: T)

  predicate Covers(s: Span, a: nat) {
    s.base <= a < s.base + s.size
  }

  predicate Overlap(s: Span, t: Span) {
    s.base < t.base + t.size && t.base < s.base + s.size
  }

  predicate Clear(ss: seq<Span>, t: Span) {
    forall i :: 0 <= i < |ss| ==> !Overlap(ss[i], t)
  }

  predicate Apart(ss: seq<Span>) {
    forall i, j :: 0 <= i < j < |ss| ==> !Overlap(ss[i], ss[j])
  }

  /** The overlap scan that every mapping change makes. */
  method Scan(ss: seq<Span>, t: Span) returns (clear: bool)
    ensures clear <==> Clear(ss, t)
  {
    for i := 0 to |ss|
      invariant Clear(ss[..i], t)
    {
      if t.base < ss[i].base + ss[i].size && ss[i].base < t.base + t.size {
        return false;
      }
    }
    assert ss[..|ss|] == ss;
    return true;
  }

  /** Non-empty ranges are apart exactly when no address is covered by both. */
  lemma OverlapIsSharing(s: Span, t: Span)
    requires s.size > 0 && t.size > 0
    ensures Overlap(s, t) <==> exists a :: Covers(s, a) && Covers(t, a)
  {
    if Overlap(s, t) {
      var a := if s.base < t.base then t.base else s.base;
      assert Covers(s, a) && Covers(t, a);
    }
  }

  lemma ApartAppend(ss: seq<Span>, t: Span)
    requires Apart(ss) && Clear(ss, t)
    ensures Apart(ss + [t])
  {}

  lemma ApartRemove(ss: seq<Span>, k: nat)
    requires Apart(ss) && k < |ss|
    ensures Apart(ss[..k] + ss[k + 1..])
  {}

  /** Moving one range to a place clear of the others keeps them apart. */
  lemma ApartMove(ss: seq<Span>, k: nat, t: Span)
    requires Apart(ss) && k < |ss| && Clear(ss[..k] + ss[k + 1..], t)
    ensures Apart(ss[k := t])
  {
    var moved, rest := ss[k := t], ss[..k] + ss[k + 1..];
    forall i, j | 0 <= i < j < |moved|
      ensures !Overlap(moved[i], moved[j])
    {
      if i == k {
        assert moved[j] == rest[j - 1];
      } else if j == k {
        assert moved[i] == rest[i];
      }
    }
  }

  /** An address is covered by at most one of the ranges. */
  lemma OwnerIsUnique(ss: seq<Span>, a: nat, i: nat, j: nat)
    requires Apart(ss) && i < |ss| && j < |ss| && Covers(ss[i], a) && Covers(ss[j], a)
    ensures i == j
  {}
}
