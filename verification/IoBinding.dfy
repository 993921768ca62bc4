/** The I/O context as one binding sees it: which actions are its owner's and what the others leave
    alone. */
module IoBinding {
  import opened IoQueue
  import opened IoCtx
  import opened IoCtxSafety

  predicate HandsData(s: State, b: nat) {
    In(s, Approved) && s.runner.w.binding == b && s.runner.w.kind.Data?
  }

  /** Actions of the I/O context that are not the owner's own. */
  predicate Foreign(s: State, a: Action, b: nat) {
    && !(a.SetEnabled? && a.b == b) && !(a.Close? && a.b == b)
    && !(a.Post? && a.b == b && a.kind.Data?) && !(a.StartCallback? && HandsData(s, b))
  }

  lemma {:induction false} OfMembers(ws: seq<Work>, b: nat, k: Kind, w: Work)
    requires w in Of(ws, b, k)
    ensures w in ws && w.binding == b && w.kind == k
  {
    if w !in Of(ws[1..], b, k) {
    } else {
      OfMembers(ws[1..], b, k, w);
    }
  }

  /** A foreign action leaves the binding, its deliveries and its callbacks alone. */
  lemma ForeignRunner(s: State, a: Action, b: nat)
    requires Inv(s) && Enabled(s, a) && ByTheRunner(a) && Foreign(s, a, b)
    ensures var t := Next(s, a);
      && IsOpen(t, b) == IsOpen(s, b) && (IsOpen(s, b) ==> t.bindings[b].enabled == s.bindings[b].enabled)
      && t.log.accepted == s.log.accepted && t.nextId == s.nextId && t.nextBinding == s.nextBinding
      && Of(t.log.executed, b, Data) == Of(s.log.executed, b, Data)
  {
    if a.StartCallback? {
      OfAppend(s.log.executed, [s.runner.w], b, Data);
    } else {
      assert Next(s, a).log.executed == s.log.executed;
    }
  }

  lemma ForeignOther(s: State, a: Action, b: nat)
    requires Inv(s) && Enabled(s, a) && !ByTheRunner(a) && Foreign(s, a, b) && b < s.nextBinding
    ensures var t := Next(s, a);
      && IsOpen(t, b) == IsOpen(s, b) && (IsOpen(s, b) ==> t.bindings[b].enabled == s.bindings[b].enabled)
      && t.nextId >= s.nextId && t.nextBinding >= s.nextBinding && t.log.executed == s.log.executed
      && Of(t.log.accepted, b, Data) == Of(s.log.accepted, b, Data)
      && (s.runner.Busy? ==> t.runner == s.runner)
  {
    if a.Post? {
      OfAppend(s.log.accepted, [Work(s.nextId, a.b, a.kind)], b, Data);
    } else if a.Retire? {
      assert RefsOk(s, b);
    }
  }

  lemma ForeignPosts(s: State, a: Action, b: nat, w: Work)
    requires Enabled(s, a) && !ByTheRunner(a) && Foreign(s, a, b)
    requires w in Next(s, a).log.accepted
    ensures w !in s.log.accepted ==>
      w.id == s.nextId && Next(s, a).nextId == s.nextId + 1 && !(w.binding == b && w.kind.Data?)
  {}

  lemma OfSnoc(ws: seq<Work>, w: Work)
    ensures Of(ws + [w], w.binding, w.kind) == Of(ws, w.binding, w.kind) + [w]
  {
    OfAppend(ws, [w], w.binding, w.kind);
    assert Of([w], w.binding, w.kind) == [w];
  }

  lemma FreshIsSilent(s: State)
    requires Inv(s)
    ensures Of(s.log.executed, s.nextBinding, Data) == Of(s.log.accepted, s.nextBinding, Data) == []
    ensures forall w :: w in s.log.accepted ==> w.binding != s.nextBinding && w.id < s.nextId
  {
    var b := s.nextBinding;
    assert StreamInv(s, b, Data);
    NoneOf(s.log.accepted, b, Data);
  }
}
