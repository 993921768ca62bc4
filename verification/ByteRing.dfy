/** A fixed-size ring buffer with head and tail indices and a count: the receive and backlog buffers
    of `src/hw/char/uart_16550a.c`. */
module ByteRing {

  type octet = bv8

  /** An index less than twice the size, wrapped. */
  function Slot(x: nat, size: nat): nat
    requires x < 2 * size
  {
    if x < size then x else x - size
  }

  lemma ModIsSlot(x: nat, size: nat)
    requires x < 2 * size
    ensures x % size == Slot(x, size)
  {}

  /** The `cnt` bytes of a ring from index `tail` on. */
  function Window(buf: seq<octet>, tail: nat, cnt: nat): (w: seq<octet>)
    requires tail < |buf| && cnt <= |buf|
    ensures |w| == cnt
    decreases cnt
  {
    if cnt == 0 then [] else [buf[tail]] + Window(buf, Slot(tail + 1, |buf|), cnt - 1)
  }

  lemma WindowGet(buf: seq<octet>, tail: nat, cnt: nat)
    requires tail < |buf| && 0 < cnt <= |buf|
    ensures Window(buf, tail, cnt)[0] == buf[tail]
    ensures Window(buf, tail, cnt)[1..] == Window(buf, Slot(tail + 1, |buf|), cnt - 1)
  {}

  /** A byte stored right after the window extends it. */
  lemma WindowPut(buf: seq<octet>, tail: nat, cnt: nat, c: octet)
    requires tail < |buf| && cnt < |buf|
    ensures Window(buf[Slot(tail + cnt, |buf|) := c], tail, cnt + 1) == Window(buf, tail, cnt) + [c]
  {
    Extends(buf, buf[Slot(tail + cnt, |buf|) := c], tail, cnt, Slot(tail + cnt, |buf|));
  }

  lemma {:induction false} Extends(buf: seq<octet>, after: seq<octet>, tail: nat, cnt: nat, at: nat)
    requires tail < |buf| == |after| && cnt < |buf| && at == Slot(tail + cnt, |buf|)
    requires forall i :: 0 <= i < |buf| && i != at ==> after[i] == buf[i]
    ensures Window(after, tail, cnt + 1) == Window(buf, tail, cnt) + [after[at]]
    decreases cnt
  {
    if cnt == 0 {
      assert Window(after, Slot(tail + 1, |buf|), 0) == [];
    } else {
      Extends(buf, after, Slot(tail + 1, |buf|), cnt - 1, at);
    }
  }

  class Ring {
    const buf: array<octet>
    var head: nat
    var tail: nat
    var cnt: nat
    /** The bytes queued, oldest first. */
    ghost var contents: seq<octet>

    ghost predicate Valid()
      reads this, buf
    {
      && head < buf.Length && tail < buf.Length && cnt == |contents| <= buf.Length
      && head == Slot(tail + cnt, buf.Length)
      && contents == Window(Image(), tail, cnt)
    }

    ghost function Image(): (s: seq<octet>)
      reads buf
      ensures |s| == buf.Length
    {
      buf[..]
    }

    constructor (size: nat)
      requires size > 0
      ensures Valid() && fresh(buf) && buf.Length == size && contents == []
    {
      buf := new octet[size];
      head, tail, cnt, contents := 0, 0, 0, [];
    }

    method Put(c: octet)
      requires Valid() && cnt < buf.Length
      modifies this`head, this`cnt, this`contents, buf
      ensures Valid() && contents == old(contents) + [c]
    {
      ModIsSlot(head + 1, buf.Length);
      WindowPut(buf[..], tail, cnt, c);
      buf[head] := c;
      head := (head + 1) % buf.Length;
      cnt := cnt + 1;
      contents := contents + [c];
    }

    method Get() returns (c: octet)
      requires Valid() && cnt > 0
      modifies this`tail, this`cnt, this`contents
      ensures Valid() && c == old(contents)[0] && contents == old(contents)[1..]
    {
      ModIsSlot(tail + 1, buf.Length);
      WindowGet(buf[..], tail, cnt);
      c := buf[tail];
      tail := (tail + 1) % buf.Length;
      cnt := cnt - 1;
      contents := contents[1..];
    }

    method Clear()
      requires Valid()
      modifies this`head, this`tail, this`cnt, this`contents
      ensures Valid() && contents == []
    {
      head, tail, cnt, contents := 0, 0, 0, [];
    }
  }
}
