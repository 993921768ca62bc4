/** Device status and feature negotiation of `src/hw/virtio/virtio.c` (sections 2.1 and 3.1.1 of
    VIRTIO 1.0). */
module VirtioStatus {

  const ACKNOWLEDGE: bv8 := 0x01
  const DRIVER: bv8 := 0x02
  const DRIVER_OK: bv8 := 0x04
  const FEATURES_OK: bv8 := 0x08
  const NEEDS_RESET: bv8 := 0x40
  const FAILED: bv8 := 0x80
  /** The bits a driver may set. */
  const DRIVER_BITS: bv8 := 0x8f
  /** Feature bit 32, the first of the upper half. */
  const VERSION_1: bv32 := 0x1

  /** The 64 feature bits as the two halves that the selector registers address. */
  datatype Features = Features(lo: bv32, hi: bv32)

  datatype Dev = Dev(status: bv8, features: Features)

  const Reset := Dev(0, Features(0, 0))

  predicate Has(status: bv8, bit: bv8) {
    status & bit != 0
  }

  /** VERSION_1 is accepted, and nothing that is not offered with it. */
  predicate Acceptable(f: Features, offered: Features) {
    f.hi & VERSION_1 != 0 && f.lo & !offered.lo == 0 && f.hi & !(offered.hi | VERSION_1) == 0
  }

  /** The status after a non-zero write; `acceptable` says whether the features may be accepted. */
  function StatusAfter(status: bv8, written: bv8, acceptable: bool): bv8 {
    var s1 := (written & DRIVER_BITS) | status;
    var s2 := if Has(s1, ACKNOWLEDGE) then s1 else s1 & 0xf1;
    var s3 := if Has(s2, DRIVER) then s2 else s2 & 0xf3;
    var s4 := if Has(s3, FEATURES_OK) && !Has(status, FEATURES_OK) && !acceptable then s3 & 0xf7 else s3;
    if Has(s4, FEATURES_OK) then s4 else s4 & 0xfb
  }

  /** `virtio_device_set_status_locked` */
  function SetStatus(d: Dev, offered: Features, written: bv8): Dev {
    if written == 0 then Reset else d.(status := StatusAfter(d.status, written, Acceptable(d.features, offered)))
  }

  /** `virtio_device_set_features_locked` on an active device. */
  function SetFeatures(d: Dev, selector: bv32, value: bv32): Dev {
    if Has(d.status, FEATURES_OK) || selector > 1 then d
    else if selector == 0 then d.(features := d.features.(lo := value))
    else d.(features := d.features.(hi := value))
  }

  /** `virtio_device_fail_locked` */
  function Fail(d: Dev): Dev {
    d.(status := d.status | NEEDS_RESET)
  }

  /** `virtio_device_ready_locked` on an active device. */
  predicate Ready(d: Dev) {
    d.status & (DRIVER_OK | NEEDS_RESET | FAILED) == DRIVER_OK
  }

  /** A device that asked for a reset does not serve its queues. */
  lemma FailIsNotReady(d: Dev)
    ensures !Ready(Fail(d))
  {}

  datatype Op = WriteStatus(written: bv8) | WriteFeatures(selector: bv32, value: bv32) | DeviceFails

  function Step(d: Dev, offered: Features, op: Op): Dev {
    match op
    case WriteStatus(w) => SetStatus(d, offered, w)
    case WriteFeatures(sel, v) => SetFeatures(d, sel, v)
    case DeviceFails => Fail(d)
  }

  function Run(ops: seq<Op>, offered: Features): Dev {
    if ops == [] then Reset else Step(Run(ops[..|ops| - 1], offered), offered, ops[|ops| - 1])
  }

  /** Each stage of the initialisation needs the one before. */
  predicate Staged(status: bv8) {
    && (Has(status, DRIVER_OK) ==> Has(status, FEATURES_OK))
    && (Has(status, FEATURES_OK) ==> Has(status, DRIVER))
    && (Has(status, DRIVER) ==> Has(status, ACKNOWLEDGE))
  }

  /** The stages are in order, and accepted features were offered. */
  predicate InOrder(d: Dev, offered: Features) {
    Staged(d.status) && (Has(d.status, FEATURES_OK) ==> Acceptable(d.features, offered))
  }

  lemma StatusKeeps(status: bv8, written: bv8, acceptable: bool)
    requires Staged(status)
    ensures Staged(StatusAfter(status, written, acceptable))
    ensures StatusAfter(status, written, acceptable) & status == status
    ensures Has(StatusAfter(status, written, acceptable), FEATURES_OK) ==> Has(status, FEATURES_OK) || acceptable
    ensures StatusAfter(status, written, acceptable) & !DRIVER_BITS == status & !DRIVER_BITS
  {}

  lemma InOrderStep(d: Dev, offered: Features, op: Op)
    requires InOrder(d, offered)
    ensures InOrder(Step(d, offered, op), offered)
  {}

  /** Over every run of guest writes and device failures, with constant offered features. */
  lemma {:induction false} InOrderRun(ops: seq<Op>, offered: Features)
    ensures InOrder(Run(ops, offered), offered)
  {
    if ops == [] {
    } else {
      InOrderRun(ops[..|ops| - 1], offered);
      InOrderStep(Run(ops[..|ops| - 1], offered), offered, ops[|ops| - 1]);
    }
  }

  /** Unless the driver resets, status bits are never lost and features are frozen once accepted. */
  lemma GrowsUntilReset(d: Dev, offered: Features, op: Op)
    requires InOrder(d, offered) && op != WriteStatus(0)
    ensures Kept(d, Step(d, offered, op))
  {}

  /** Nothing that held at `d` is lost at `e`. */
  predicate Kept(d: Dev, e: Dev) {
    e.status & d.status == d.status && (Has(d.status, FEATURES_OK) ==> e.features == d.features)
  }

  lemma KeptTwice(d: Dev, e: Dev, f: Dev)
    requires Kept(d, e) && Kept(e, f)
    ensures Kept(d, f)
  {}

  /** From any point of a run to any later one without a reset in between. */
  lemma {:induction false} FrozenUntilReset(ops: seq<Op>, offered: Features, n: nat)
    requires n <= |ops| && forall i :: n <= i < |ops| ==> ops[i] != WriteStatus(0)
    ensures Kept(Run(ops[..n], offered), Run(ops, offered))
    decreases |ops|
  {
    if n == |ops| {
      assert ops[..n] == ops;
    } else {
      var before := ops[..|ops| - 1];
      assert before[..n] == ops[..n];
      FrozenUntilReset(before, offered, n);
      InOrderRun(before, offered);
      GrowsUntilReset(Run(before, offered), offered, ops[|ops| - 1]);
      KeptTwice(Run(ops[..n], offered), Run(before, offered), Run(ops, offered));
    }
  }

  /** A failed device does not serve its queues until it is reset, and only a driver that finished
      the initialisation is served. */
  lemma ReadyMeans(ops: seq<Op>, offered: Features)
    ensures var d := Run(ops, offered); Ready(d) ==>
      && Has(d.status, DRIVER_OK) && Has(d.status, FEATURES_OK) && Has(d.status, DRIVER) && Has(d.status, ACKNOWLEDGE)
      && !Has(d.status, NEEDS_RESET) && !Has(d.status, FAILED) && Acceptable(d.features, offered)
  {
    InOrderRun(ops, offered);
  }

  /** The initialisation sequence of section 3.1.1 with features `f`, from any state: reset, then
      the stages up to FEATURES_OK. */
  function Negotiated(d: Dev, offered: Features, f: Features): Dev {
    var reset := Step(d, offered, WriteStatus(0));
    var driver := Step(Step(reset, offered, WriteStatus(0x01)), offered, WriteStatus(0x03));
    var chosen := Step(Step(driver, offered, WriteFeatures(0, f.lo)), offered, WriteFeatures(1, f.hi));
    Step(chosen, offered, WriteStatus(0x0b))
  }

  /** A driver that follows the sequence is served, with the features it chose, exactly when they are
      acceptable; otherwise it sees FEATURES_OK and DRIVER_OK refused. */
  lemma InitialiseWorks(d: Dev, offered: Features, f: Features)
    ensures var e := Step(Negotiated(d, offered, f), offered, WriteStatus(0x0f));
      && e.features == f && (Ready(e) <==> Acceptable(f, offered))
      && (!Acceptable(f, offered) ==> !Has(e.status, FEATURES_OK) && !Has(e.status, DRIVER_OK))
  {}

  /** Bit by bit, what a status write does: a driver may set bits 0 to 3 and 7, each stage needs the one before,
      FEATURES_OK needs acceptable features, the other bits are not the driver's, and no bit is lost. */
  lemma StatusBits(d: Dev, offered: Features, w: bv8)
    requires InOrder(d, offered) && w != 0
    ensures var s, t := d.status, Step(d, offered, WriteStatus(w)).status;
      && (t & 0x01 != 0 <==> s & 0x01 != 0 || w & 0x01 != 0)
      && (t & 0x02 != 0 <==> s & 0x02 != 0 || (w & 0x02 != 0 && t & 0x01 != 0))
      && (t & 0x08 != 0 <==> s & 0x08 != 0 || (w & 0x08 != 0 && t & 0x02 != 0 && Acceptable(d.features, offered)))
      && (t & 0x04 != 0 <==> s & 0x04 != 0 || (w & 0x04 != 0 && t & 0x08 != 0))
      && (t & 0x80 != 0 <==> s & 0x80 != 0 || w & 0x80 != 0)
      && t & 0x70 == s & 0x70
    ensures Step(d, offered, WriteStatus(w)).features == d.features
    ensures Step(d, offered, WriteStatus(0)) == Dev(0, Features(0, 0))
  {}

  /** Each half of the features can be written until they are accepted; other selectors do nothing. */
  lemma FeatureWrites(d: Dev, offered: Features, sel: bv32, v: bv32)
    ensures Step(d, offered, WriteFeatures(sel, v)) ==
      if d.status & 0x08 != 0 || sel >= 2 then d
      else if sel == 0 then Dev(d.status, Features(v, d.features.hi)) else Dev(d.status, Features(d.features.lo, v))
    ensures Step(d, offered, DeviceFails) == Dev(d.status | 0x40, d.features)
    ensures Ready(d) <==> d.status & 0x04 != 0 && d.status & 0x40 == 0 && d.status & 0x80 == 0
  {}

  /** Bit 32 is needed, and only offered bits may be taken with it. */
  lemma AcceptableBits(f: Features, offered: Features)
    ensures Acceptable(f, offered) <==>
      f.hi & 1 == 1 && f.lo | offered.lo == offered.lo && f.hi | offered.hi | 1 == offered.hi | 1
  {}

  /** A device that failed, or that the driver gave up with bit 7, is not served until a reset. */
  lemma NotServedUntilReset(ops: seq<Op>, offered: Features, n: nat)
    requires n < |ops| && (ops[n] == DeviceFails || (ops[n].WriteStatus? && ops[n].written & 0x80 != 0))
    requires forall i :: n < i < |ops| ==> ops[i] != WriteStatus(0)
    ensures !Ready(Run(ops, offered))
  {
    FrozenUntilReset(ops, offered, n + 1);
    InOrderRun(ops[..n], offered);
    assert ops[..n + 1][..n] == ops[..n];
    var d := Run(ops[..n], offered);
    var e := Run(ops[..n + 1], offered);
    assert e == Step(d, offered, ops[n]);
    if ops[n].WriteStatus? {
      StatusBits(d, offered, ops[n].written);
      assert e.status & 0x80 != 0;
    } else {
      assert e.status & 0x40 != 0;
    }
    StillSet(e.status, Run(ops, offered).status);
  }

  lemma StillSet(s: bv8, t: bv8)
    requires t & s == s && (s & 0x80 != 0 || s & 0x40 != 0)
    ensures t & 0xc4 != 0x04
  {}
}
