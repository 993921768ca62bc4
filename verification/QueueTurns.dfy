/** The loop that every virtio queue handler runs (`while (virtqueue_pop(...) > 0)`), as a history of its
    turns: between two turns the guest writes to its memory, in a turn the device takes what the ring then
    shows. The device's own part of a turn is a parameter, `right`. */
module QueueTurns {
  import opened GuestMemory
  import opened Virtqueues
  import opened VirtioStatus

  /** Where a device stands on one queue: chains popped and pushed, whether the queue is broken, the
      device status, and the device's own state. */
  datatype Stand<S> = Stand(pops: nat, pushes: nat, broken: bool, dev: Dev, own: S)

  /** Why a handler stops: there is nothing to pop, the queue is jammed, or the chain just popped has no
      room for a status. */
  datatype Ending = Drained | Jam | NoStatus(chain: Chain)

  /** One turn, begun at `from` with guest memory `before`: a chain is served, with effect `e`, which
      leaves the own state `own` and guest memory `after`, or the handler stops. */
  datatype Turn<S, E> =
    | Serving(from: Stand<S>, before: Mem, chain: Chain, e: E, own: S, after: Mem)
    | Stopping(from: Stand<S>, before: Mem, end: Ending)

  /** The turns so far. */
  datatype Turns<S, E> = NoTurn | Turned(past: Turns<S, E>, last: Turn<S, E>)

  function StandAfter<S, E>(t: Turn<S, E>): Stand<S> {
    match t
    case Serving(s, _, _, _, own, _) => s.(pops := s.pops + 1, pushes := s.pushes + 1, own := own)
    case Stopping(s, _, Drained) => s
    case Stopping(s, _, Jam) => s.(broken := true, dev := Fail(s.dev))
    case Stopping(s, _, NoStatus(_)) => s.(pops := s.pops + 1, dev := Fail(s.dev))
  }

  function After<S, E>(turns: Turns<S, E>, s: Stand<S>): Stand<S> {
    if turns.NoTurn? then s else StandAfter(turns.last)
  }

  /** Guest memory as the turns leave it. */
  function MemAfter<S, E>(turns: Turns<S, E>, m: Mem): Mem {
    if turns.NoTurn? then m else if turns.last.Serving? then turns.last.after else turns.last.before
  }

  function Length<S, E>(turns: Turns<S, E>): nat {
    if turns.NoTurn? then 0 else Length(turns.past) + 1
  }

  predicate GoesOn<S, E>(turns: Turns<S, E>) {
    turns.Turned? ==> turns.last.Serving?
  }

  /** Turn number k begins with what the turn before left and the guest's writes `guest[k]` on top. */
  ghost predicate Interleaved<S, E>(guest: seq<Mem>, m: Mem, turns: Turns<S, E>) {
    turns.Turned? ==>
      && Interleaved(guest, m, turns.past) && Length(turns.past) < |guest|
      && turns.last.before == Overlay(MemAfter(turns.past, m), guest[Length(turns.past)])
  }

  /** What pop number `pops` finds in guest memory decides the turn. */
  ghost predicate TurnOk<S, E>(rs: seq<Region>, c: Config, right: Turn<S, E> -> bool, t: Turn<S, E>) {
    && right(t)
    && match t
       case Serving(from, before, chain, _, _, _) => !from.broken && Took(rs, before, c, from.pops, chain)
       case Stopping(from, mem, Drained) => Idle(mem, c, from.broken, from.pops)
       case Stopping(from, mem, Jam) => Jammed(rs, mem, c, from.broken, from.pops)
       case Stopping(from, mem, NoStatus(chain)) =>
         !from.broken && Took(rs, mem, c, from.pops, chain) && chain.writable == 0
  }

  /** One turn after the other from `s` on. */
  ghost predicate TurnsOk<S, E>(rs: seq<Region>, c: Config, right: Turn<S, E> -> bool, s: Stand<S>, turns: Turns<S, E>)
    decreases turns, 2
  {
    turns.Turned? ==> Continues(rs, c, right, s, turns)
  }

  /** The last turn begins where the one before ended, which was no stop. */
  ghost predicate Continues<S, E>(rs: seq<Region>, c: Config, right: Turn<S, E> -> bool, s: Stand<S>,
                                  turns: Turns<S, E>)
    requires turns.Turned?
    decreases turns, 1
  {
    GoesOn(turns.past) && After(turns.past, s) == turns.last.from && LastOk(rs, c, right, s, turns)
  }

  ghost predicate LastOk<S, E>(rs: seq<Region>, c: Config, right: Turn<S, E> -> bool, s: Stand<S>, turns: Turns<S, E>)
    requires turns.Turned?
    decreases turns, 0
  {
    TurnsOk(rs, c, right, s, turns.past) && TurnOk(rs, c, right, turns.last)
  }

  lemma OneMore<S, E>(rs: seq<Region>, c: Config, right: Turn<S, E> -> bool, s: Stand<S>, turns: Turns<S, E>,
                      t: Turn<S, E>)
    requires TurnsOk(rs, c, right, s, turns) && GoesOn(turns) && After(turns, s) == t.from
    requires TurnOk(rs, c, right, t)
    ensures TurnsOk(rs, c, right, s, Turned(turns, t))
  {
    var longer := Turned(turns, t);
    assert LastOk(rs, c, right, s, longer) && Continues(rs, c, right, s, longer);
  }

  /** A turn that stops. */
  lemma Stops<S, E>(rs: seq<Region>, c: Config, right: Turn<S, E> -> bool, s: Stand<S>, turns: Turns<S, E>,
                    t: Turn<S, E>)
    requires TurnsOk(rs, c, right, s, turns) && GoesOn(turns) && After(turns, s) == t.from && t.Stopping? && right(t)
    requires match t.end
      case Drained => Idle(t.before, c, t.from.broken, t.from.pops)
      case Jam => Jammed(rs, t.before, c, t.from.broken, t.from.pops)
      case NoStatus(chain) => !t.from.broken && Took(rs, t.before, c, t.from.pops, chain) && chain.writable == 0
    ensures TurnsOk(rs, c, right, s, Turned(turns, t))
  {
    OneMore(rs, c, right, s, turns, t);
  }

  /** What the last turn of a history says. */
  lemma LastTurn<S, E>(rs: seq<Region>, c: Config, right: Turn<S, E> -> bool, s: Stand<S>, turns: Turns<S, E>)
    requires TurnsOk(rs, c, right, s, turns) && turns.Turned?
    ensures TurnsOk(rs, c, right, s, turns.past) && GoesOn(turns.past) && After(turns.past, s) == turns.last.from
    ensures TurnOk(rs, c, right, turns.last)
  {
    assert Continues(rs, c, right, s, turns);
    assert LastOk(rs, c, right, s, turns);
  }

  /** Every chain popped is pushed, except one without room for a status; after a failure the device
      serves nothing until it is reset. */
  lemma {:induction false} PoppedIsPushed<S, E>(rs: seq<Region>, c: Config, right: Turn<S, E> -> bool, s: Stand<S>,
                                                turns: Turns<S, E>)
    requires TurnsOk(rs, c, right, s, turns)
    ensures var e := After(turns, s);
      && s.pushes <= e.pushes
      && if GoesOn(turns) || turns.last.end == Drained then e.pops - s.pops == e.pushes - s.pushes && e.dev == s.dev
         else !Ready(e.dev) && e.pops - s.pops == e.pushes - s.pushes + if turns.last.end == Jam then 0 else 1
  {
    if turns.NoTurn? {
    } else {
      LastTurn(rs, c, right, s, turns);
      PoppedIsPushed(rs, c, right, s, turns.past);
      FailIsNotReady(s.dev);
    }
  }

  // ----- the history is determined by the ring and the guest

  /** The chain that the turn popped. */
  function ChainOf<S, E>(t: Turn<S, E>): Chain
    requires t.Serving? || t.end.NoStatus?
  {
    if t.Serving? then t.chain else t.end.chain
  }

  /** For each chain that it pops, the device has one right thing to do. */
  ghost predicate Functional<S(!new), E(!new)>(right: Turn<S, E> -> bool) {
    forall t, u :: right(t) && right(u) && SamePop(t, u) ==> t == u
  }

  predicate SamePop<S(==), E>(t: Turn<S, E>, u: Turn<S, E>) {
    && t.from == u.from && t.before == u.before
    && (t.Serving? || t.end.NoStatus?) && (u.Serving? || u.end.NoStatus?) && ChainOf(t) == ChainOf(u)
  }

  lemma OneTurn<S(!new), E(!new)>(rs: seq<Region>, c: Config, right: Turn<S, E> -> bool, t: Turn<S, E>, u: Turn<S, E>)
    requires Functional(right) && TurnOk(rs, c, right, t) && TurnOk(rs, c, right, u)
    requires t.from == u.from && t.before == u.before
    ensures t == u
  {
    if (t.Serving? || t.end.NoStatus?) && (u.Serving? || u.end.NoStatus?) {
      OneChain(rs, t.before, c, t.from.pops, ChainOf(t), ChainOf(u));
      assert SamePop(t, u);
    }
  }

  lemma {:induction false} SameHistory<S(!new), E(!new)>(rs: seq<Region>, c: Config, right: Turn<S, E> -> bool,
                                                         s: Stand<S>, guest: seq<Mem>, m: Mem,
                                                         x: Turns<S, E>, y: Turns<S, E>)
    requires Functional(right) && TurnsOk(rs, c, right, s, x) && TurnsOk(rs, c, right, s, y)
    requires Interleaved(guest, m, x) && Interleaved(guest, m, y) && Length(x) == Length(y)
    ensures x == y
  {
    if x.NoTurn? {
    } else {
      LastTurn(rs, c, right, s, x);
      LastTurn(rs, c, right, s, y);
      SameHistory(rs, c, right, s, guest, m, x.past, y.past);
      OneTurn(rs, c, right, x.last, y.last);
    }
  }

  /** The handler went on until something stopped it, or the guest was silent. */
  predicate Finished<S, E>(guest: seq<Mem>, turns: Turns<S, E>) {
    Length(turns) >= |guest| || !GoesOn(turns)
  }

  /** A history that another one goes beyond was not finished. */
  lemma {:induction false} NotFinished<S(!new), E(!new)>(rs: seq<Region>, c: Config, right: Turn<S, E> -> bool,
                                                         s: Stand<S>, guest: seq<Mem>, m: Mem,
                                                         x: Turns<S, E>, y: Turns<S, E>)
    requires Functional(right) && TurnsOk(rs, c, right, s, x) && TurnsOk(rs, c, right, s, y)
    requires Interleaved(guest, m, x) && Interleaved(guest, m, y) && Length(x) < Length(y)
    ensures !Finished(guest, x)
    decreases y
  {
    LastTurn(rs, c, right, s, y);
    if Length(x) == Length(y.past) {
      SameHistory(rs, c, right, s, guest, m, x, y.past);
    } else {
      NotFinished(rs, c, right, s, guest, m, x, y.past);
    }
  }

  /** Whatever the guest writes, a handler has exactly one history: which chains are served, what is
      done for each, what memory holds afterwards and where it stops is determined. */
  lemma OneHistory<S(!new), E(!new)>(rs: seq<Region>, c: Config, right: Turn<S, E> -> bool, s: Stand<S>,
                                     guest: seq<Mem>, m: Mem, x: Turns<S, E>, y: Turns<S, E>)
    requires Functional(right) && TurnsOk(rs, c, right, s, x) && TurnsOk(rs, c, right, s, y)
    requires Interleaved(guest, m, x) && Interleaved(guest, m, y) && Finished(guest, x) && Finished(guest, y)
    ensures x == y
  {
    if Length(x) < Length(y) {
      NotFinished(rs, c, right, s, guest, m, x, y);
    } else if Length(y) < Length(x) {
      NotFinished(rs, c, right, s, guest, m, y, x);
    } else {
      SameHistory(rs, c, right, s, guest, m, x, y);
    }
  }
}
