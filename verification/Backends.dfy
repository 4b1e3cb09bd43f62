/** The in-memory backend and the Ceph object class behave alike on every sequence of calls. */
module Backends {
  import opened Common
  import opened Cells
  import opened Contract
  import Ram
  import Cls

  // ----- one call --------------------------------------------------------------------------------

  /** A RAM object is in the state that the contract gives for its calls. */
  ghost predicate RamIs(o: Option<Ram.LogObject>, sp: Spec) {
    match o
    case None => sp == ABSENT
    case Some(r) =>
      && sp.epoch == Some(r.epoch) && r.Valid() && Marks(sp.log)
      && (forall p: nat :: r.Cell(p) == Fold(sp.log, p))
      && r.Top() == FoldTop(sp.log)
  }

  /** A Ceph object is in the state that the contract gives for its calls. */
  ghost predicate ClsIs(o: Option<Cls.Obj>, sp: Spec) {
    match o
    case None => sp == ABSENT
    case Some(c) =>
      && sp.epoch == Some(c.header.epoch) && c.Valid() && Marks(sp.log)
      && (forall p: nat :: c.Cell(p) == Fold(sp.log, p))
      && c.header.Max() == FoldTop(sp.log)
  }

  lemma {:induction false} RamCall(r: Ram.LogObject, sp: Spec, op: Op)
    requires RamIs(Some(r), sp) && Guarded(op) && Guard(Some(r.epoch), op).Success? && Ram.Kept(Some(r), op)
    ensures var (reply, r') := Ram.Admitted(r, op);
            Run(sp, op).0 == reply && RamIs(Some(r'), Run(sp, op).1)
  {
    hide Fold, FoldTop, Ram.LogObject.Cell, Ram.LogObject.Top, Ram.LogObject.Valid, Ram.Admitted, Next, NextTop;
    var r' := Ram.Admitted(r, op).1;
    Ram.AdmittedTop(r, op);
    Ram.AdmittedMeans(r, op, op.pos);
    FoldSnoc(sp.log, op, 0);
    if op.Read? { ReadKeeps(sp, op, r.Top()); }
    forall p: nat ensures r'.Cell(p) == Fold(Run(sp, op).1.log, p) {
      Ram.AdmittedMeans(r, op, p);
      FoldSnoc(sp.log, op, p);
    }
  }

  lemma {:induction false} ReadKeeps(sp: Spec, op: Op, top: Option<nat>)
    requires op.Read?
    ensures NextTop(top, op) == top && forall c: Cell, p: nat :: Next(c, op, p) == c
  {
  }

  lemma {:induction false} RamStep(o: Option<Ram.LogObject>, sp: Spec, op: Op)
    requires RamIs(o, sp) && Ram.Kept(o, op)
    ensures Ram.Step(o, op).0 == Run(sp, op).0 && RamIs(Ram.Step(o, op).1, Run(sp, op).1)
  {
    hide Ram.Admitted;
    if Guarded(op) {
      if o.Some? && Guard(Some(o.value.epoch), op).Success? { RamCall(o.value, sp, op); }
      hide RamIs;
    }
  }

  lemma {:induction false} ClsCall(c: Cls.Obj, sp: Spec, op: Op)
    requires ClsIs(Some(c), sp) && Guarded(op) && Guard(Some(c.header.epoch), op).Success? && Cls.Allowed(c, op)
    ensures var (reply, c') := Cls.Admitted(c, op);
            Run(sp, op).0 == reply && ClsIs(Some(c'), Run(sp, op).1)
  {
    hide Fold, FoldTop, Cls.Obj.Cell, Cls.Header.Max, Cls.Obj.Valid, Cls.Admitted, Cls.Allowed, Next, NextTop;
    var c' := Cls.Admitted(c, op).1;
    Cls.AdmittedTop(c, op);
    Cls.AdmittedMeans(c, op, op.pos);
    FoldSnoc(sp.log, op, 0);
    if op.Read? { ReadKeeps(sp, op, c.header.Max()); }
    forall p: nat ensures c'.Cell(p) == Fold(Run(sp, op).1.log, p) {
      Cls.AdmittedMeans(c, op, p);
      FoldSnoc(sp.log, op, p);
    }
  }

  /** What the Ceph backend's callers have to observe. */
  predicate Legal(o: Option<Cls.Obj>, op: Op) {
    Guarded(op) && Ram.Coherent(op) ==> if o.None? then op.epoch > 0 else Cls.Allowed(o.value, op)
  }

  lemma {:induction false} ClsStep(o: Option<Cls.Obj>, sp: Spec, op: Op)
    requires ClsIs(o, sp) && Legal(o, op)
    ensures Cls.Step(o, op).0 == Run(sp, op).0 && ClsIs(Cls.Step(o, op).1, Run(sp, op).1)
  {
    hide Cls.Admitted, Cls.Allowed;
    if Guarded(op) {
      Cls.GuardsAgreeIff(Cls.EpochOf(o), op);
      if o.Some? && Guard(Some(o.value.header.epoch), op).Success? { ClsCall(o.value, sp, op); }
      hide ClsIs;
    } else if op.Seal? && o.Some? {
      var c, c' := o.value, Cls.Step(o, op).1.value;
      assert forall p: nat :: c'.Live(p) <==> c.Live(p);
      assert forall p: nat :: c'.Cell(p) == c.Cell(p);
    }
  }

  // ----- whole runs ------------------------------------------------------------------------------

  function RamRun(ops: seq<Op>): (seq<Reply>, Option<Ram.LogObject>) {
    if ops == [] then ([], None)
    else
      var (replies, o) := RamRun(ops[..|ops| - 1]);
      var (reply, o') := Ram.Step(o, ops[|ops| - 1]);
      (replies + [reply], o')
  }

  function ClsRun(ops: seq<Op>): (seq<Reply>, Option<Cls.Obj>) {
    if ops == [] then ([], None)
    else
      var (replies, o) := ClsRun(ops[..|ops| - 1]);
      var (reply, o') := Cls.Step(o, ops[|ops| - 1]);
      (replies + [reply], o')
  }

  function SpecRun(ops: seq<Op>): (seq<Reply>, Spec) {
    if ops == [] then ([], ABSENT)
    else
      var (replies, sp) := SpecRun(ops[..|ops| - 1]);
      var (reply, sp') := Run(sp, ops[|ops| - 1]);
      (replies + [reply], sp')
  }

  /** Every full trim of the run is of an object without entries above the limit. */
  ghost predicate KeptRun(ops: seq<Op>) {
    ops == [] || (KeptRun(ops[..|ops| - 1]) && Ram.Kept(RamRun(ops[..|ops| - 1]).1, ops[|ops| - 1]))
  }

  ghost predicate LegalRun(ops: seq<Op>) {
    ops == [] || (LegalRun(ops[..|ops| - 1]) && Legal(ClsRun(ops[..|ops| - 1]).1, ops[|ops| - 1]))
  }

  /** The in-memory backend keeps the contract as long as full trims keep their promise. */
  lemma {:induction false} RamKeepsContract(ops: seq<Op>)
    requires KeptRun(ops)
    ensures RamRun(ops).0 == SpecRun(ops).0 && RamIs(RamRun(ops).1, SpecRun(ops).1)
    decreases |ops|
  {
    hide RamIs, Ram.Step, Run, Ram.Kept;
    if ops != [] {
      var rest := ops[..|ops| - 1];
      RamKeepsContract(rest);
      RamStep(RamRun(rest).1, SpecRun(rest).1, ops[|ops| - 1]);
    } else {
      NothingYet();
    }
  }

  lemma {:induction false} NothingYet()
    ensures RamIs(None, ABSENT) && ClsIs(None, ABSENT)
  {
  }

  /** The object class keeps it within the limits of its representation. */
  lemma {:induction false} ClsKeepsContract(ops: seq<Op>)
    requires LegalRun(ops)
    ensures ClsRun(ops).0 == SpecRun(ops).0 && ClsIs(ClsRun(ops).1, SpecRun(ops).1)
    decreases |ops|
  {
    hide ClsIs, Cls.Step, Run, Legal;
    if ops != [] {
      var rest := ops[..|ops| - 1];
      ClsKeepsContract(rest);
      ClsStep(ClsRun(rest).1, SpecRun(rest).1, ops[|ops| - 1]);
    } else {
      NothingYet();
    }
  }

  /** Both backends have entries for the same positions, and the same limit. */
  ghost predicate SameKeys(r: Option<Ram.LogObject>, c: Option<Cls.Obj>) {
    && (r.Some? <==> c.Some?)
    && (r.Some? ==>
          && r.value.epoch == c.value.header.epoch
          && r.value.entries.Keys == c.value.omap.Keys
          && r.value.limit == c.value.header.Limit()
          && forall p :: p in c.value.omap ==>
               (c.value.omap[p].invalid <==> r.value.entries[p].trimmed || r.value.entries[p].invalidated))
  }

  lemma {:induction false} KeysRangeTrim(r: Ram.LogObject, c: Cls.Obj, op: Op)
    requires SameKeys(Some(r), Some(c)) && op.Trim? && op.limit && Cls.Allowed(c, op)
    ensures SameKeys(Some(Ram.Admitted(r, op).1), Some(Cls.Admitted(c, op).1))
  {
    hide Cls.Obj.Payload;
  }

  lemma {:induction false} KeysAdmitted(r: Ram.LogObject, c: Cls.Obj, op: Op)
    requires SameKeys(Some(r), Some(c)) && Guarded(op) && Cls.Allowed(c, op) && Ram.Coherent(op)
    ensures SameKeys(Some(Ram.Admitted(r, op).1), Some(Cls.Admitted(c, op).1))
  {
    hide Cls.Overwrite, Cls.Slice, Cls.Reclaim, Cls.Header.UpdateLimit;
    if op.Trim? && op.limit {
      KeysRangeTrim(r, c, op);
      hide SameKeys;
    }
  }

  lemma {:induction false} KeysStep(r: Option<Ram.LogObject>, c: Option<Cls.Obj>, op: Op)
    requires SameKeys(r, c) && Legal(c, op)
    ensures SameKeys(Ram.Step(r, op).1, Cls.Step(c, op).1) && Ram.Kept(r, op)
  {
    if Guarded(op) {
      Cls.GuardsAgreeIff(Cls.EpochOf(c), op);
      if c.Some? && Ram.Coherent(op) { KeysAdmitted(r.value, c.value, op); KeptFromAbove(r, c.value, op); }
      hide Cls.Admitted, Ram.Admitted, SameKeys;
    }
  }

  lemma {:induction false} KeptFromAbove(r: Option<Ram.LogObject>, c: Cls.Obj, op: Op)
    requires SameKeys(r, Some(c)) && Guarded(op) && Cls.Allowed(c, op)
    ensures Ram.Kept(r, op)
  {
    if op.Trim? && op.full {
      assert forall q :: q in c.omap && q > op.pos ==> q in c.Above(op.pos);
    }
  }

  lemma {:induction false} KeysRun(ops: seq<Op>)
    requires LegalRun(ops)
    ensures SameKeys(RamRun(ops).1, ClsRun(ops).1) && KeptRun(ops)
    decreases |ops|
  {
    hide Ram.Step, Cls.Step, Legal, Ram.Kept;
    if ops != [] {
      var rest := ops[..|ops| - 1];
      KeysRun(rest);
      hide SameKeys;
      KeysStep(RamRun(rest).1, ClsRun(rest).1, ops[|ops| - 1]);
    }
  }

  /**
    Backend equivalence: from the empty store, every sequence of calls that keeps to the limits of the
    representation gets the same return codes, data and highest positions from both backends.
    */
  lemma {:induction false} BackendsAgree(ops: seq<Op>)
    requires LegalRun(ops)
    ensures RamRun(ops).0 == ClsRun(ops).0
    ensures RamRun(ops).1.Some? <==> ClsRun(ops).1.Some?
    ensures RamRun(ops).1.Some? ==> forall p: nat :: RamRun(ops).1.value.Cell(p) == ClsRun(ops).1.value.Cell(p)
  {
    hide LegalRun, KeptRun, RamRun, ClsRun, SpecRun, Fold, FoldTop;
    KeysRun(ops);
    RamKeepsContract(ops);
    ClsKeepsContract(ops);
  }

  /** The calls of a run that were successful writes, fills and trims. */
  function Succeeded(ops: seq<Op>, replies: seq<Reply>): seq<Op>
    requires |ops| == |replies|
  {
    if ops == [] then []
    else
      var n := |ops| - 1;
      var before := Succeeded(ops[..n], replies[..n]);
      if Guarded(ops[n]) && !ops[n].Read? && replies[n].ret.Success? then before + [ops[n]] else before
  }

  lemma {:induction false} LogIsSucceeded(ops: seq<Op>)
    ensures |SpecRun(ops).0| == |ops| && SpecRun(ops).1.log == Succeeded(ops, SpecRun(ops).0)
    decreases |ops|
  {
    if ops != [] {
      var rest := ops[..|ops| - 1];
      LogIsSucceeded(rest);
      assert SpecRun(ops).0[..|rest|] == SpecRun(rest).0;
    }
  }

  /**
    After any run whose full trims keep their promise, `MaxPos` reports nothing exactly if nothing was
    ever written, filled or trimmed, and otherwise the maximum of all those positions and limits.
    */
  lemma {:induction false} MaxPosIsRunningMaximum(ops: seq<Op>)
    requires KeptRun(ops) && RamRun(ops).1.Some?
    ensures |RamRun(ops).0| == |ops|
    ensures var done, top := Succeeded(ops, RamRun(ops).0), RamRun(ops).1.value.Top();
            && Marks(done)
            && (top.None? <==> done == [])
            && (top.Some? ==> forall k :: 0 <= k < |done| ==> done[k].pos <= top.value)
            && (top.Some? ==> exists k :: 0 <= k < |done| && done[k].pos == top.value)
  {
    hide KeptRun, RamRun, SpecRun, Fold, FoldTop, Succeeded;
    RamKeepsContract(ops);
    LogIsSucceeded(ops);
    TopIsMaximum(SpecRun(ops).1.log);
  }

  /** The same for the object class. */
  lemma {:induction false} ClsMaxPosIsRunningMaximum(ops: seq<Op>)
    requires LegalRun(ops) && ClsRun(ops).1.Some?
    ensures |ClsRun(ops).0| == |ops|
    ensures var done, top := Succeeded(ops, ClsRun(ops).0), ClsRun(ops).1.value.header.Max();
            && Marks(done)
            && (top.None? <==> done == [])
            && (top.Some? ==> forall k :: 0 <= k < |done| ==> done[k].pos <= top.value)
            && (top.Some? ==> exists k :: 0 <= k < |done| && done[k].pos == top.value)
  {
    hide LegalRun, ClsRun, SpecRun, Fold, FoldTop, Succeeded;
    ClsKeepsContract(ops);
    LogIsSucceeded(ops);
    TopIsMaximum(SpecRun(ops).1.log);
  }

  // ----- positions only move forward -------------------------------------------------------------

  lemma {:induction false} SpecForward(ops: seq<Op>, more: seq<Op>)
    requires ops <= more
    ensures SpecRun(ops).1.log <= SpecRun(more).1.log
    ensures SpecRun(ops).1.epoch.Some? ==> SpecRun(more).1.epoch.Some?
    decreases |more|
  {
    if ops == more {
      assert ops == more;
    } else {
      var rest := more[..|more| - 1];
      assert ops <= rest;
      SpecForward(ops, rest);
    }
  }

  lemma {:induction false} KeptPrefix(ops: seq<Op>, more: seq<Op>)
    requires ops <= more
    ensures KeptRun(more) ==> KeptRun(ops)
    ensures LegalRun(more) ==> LegalRun(ops)
    decreases |more|
  {
    hide Legal, Ram.Kept;
    if ops == more {
      assert ops == more;
    } else {
      assert ops <= more[..|more| - 1];
      KeptPrefix(ops, more[..|more| - 1]);
    }
  }

  /** Between any two points of a run of the in-memory backend a position only moves forward. */
  lemma {:induction false} RamCellsMoveForward(ops: seq<Op>, more: seq<Op>, p: nat)
    requires KeptRun(more) && ops <= more && RamRun(ops).1.Some?
    ensures RamRun(more).1.Some? && Later(RamRun(ops).1.value.Cell(p), RamRun(more).1.value.Cell(p))
  {
    hide KeptRun, RamRun, SpecRun, Fold, FoldTop, Later;
    KeptPrefix(ops, more);
    RamKeepsContract(ops);
    RamKeepsContract(more);
    SpecForward(ops, more);
    FoldLater(SpecRun(ops).1.log, SpecRun(more).1.log, p);
  }

  /** The same for the object class. */
  lemma {:induction false} ClsCellsMoveForward(ops: seq<Op>, more: seq<Op>, p: nat)
    requires LegalRun(more) && ops <= more && ClsRun(ops).1.Some?
    ensures ClsRun(more).1.Some? && Later(ClsRun(ops).1.value.Cell(p), ClsRun(more).1.value.Cell(p))
  {
    hide LegalRun, ClsRun, SpecRun, Fold, FoldTop, Later;
    KeptPrefix(ops, more);
    ClsKeepsContract(ops);
    ClsKeepsContract(more);
    SpecForward(ops, more);
    FoldLater(SpecRun(ops).1.log, SpecRun(more).1.log, p);
  }

  // ----- 32-bit offsets --------------------------------------------------------------------------

  /** The most bytes that an object can have: a full one, and one more write. */
  const MAX_SIZE: nat := 2 * TWO_32 - 2

  lemma {:induction false} SizeStep(o: Option<Cls.Obj>, op: Op)
    requires Legal(o, op) && (o.Some? ==> |o.value.bytes| <= MAX_SIZE)
    ensures Cls.Step(o, op).1.Some? ==> |Cls.Step(o, op).1.value.bytes| <= MAX_SIZE
  {
  }

  /** No legal run makes an object larger than that. */
  lemma {:induction false} SizesBounded(ops: seq<Op>)
    requires LegalRun(ops) && ClsRun(ops).1.Some?
    ensures |ClsRun(ops).1.value.bytes| <= MAX_SIZE
    decreases |ops|
  {
    hide Cls.Step, Legal;
    if ops != [] {
      var rest := ops[..|ops| - 1];
      if ClsRun(rest).1.Some? { SizesBounded(rest); }
      SizeStep(ClsRun(rest).1, ops[|ops| - 1]);
    }
  }

  /** A legal run leads to an object of `n` bytes. */
  ghost predicate Makes(ops: seq<Op>, n: nat) {
    LegalRun(ops) && ClsRun(ops).1.Some? && |ClsRun(ops).1.value.bytes| == n
  }

  /** A write to such an object, of less than 2^32 bytes, leaves all other positions as they are. */
  ghost predicate LeavesOthers(ops: seq<Op>)
    requires ClsRun(ops).1.Some?
  {
    forall e: nat, pos: nat, data: Bytes, p: nat :: |data| < TWO_32 && p != pos ==>
      WriteTo(ClsRun(ops).1.value, e, pos, data).Cell(p) == ClsRun(ops).1.value.Cell(p)
  }

  function WriteTo(o: Cls.Obj, e: nat, pos: nat, data: Bytes): Cls.Obj {
    Cls.Step(Some(o), Op.Write(e, pos, data)).1.value
  }

  lemma {:induction false} WriteElsewhere(o: Cls.Obj, e: nat, pos: nat, data: Bytes, p: nat)
    requires o.Valid() && |o.bytes| < TWO_32 && |data| < TWO_32 && p != pos
    ensures WriteTo(o, e, pos, data).Cell(p) == o.Cell(p)
  {
    hide Cls.Admitted, Cls.Obj.Cell, Cls.Obj.Valid;
    Cls.AdmittedMeans(o, Op.Write(e, pos, data), p);
  }

  function Zeros(n: nat): Bytes {
    seq(n, i => 0)
  }

  /** As many bytes as fit one write, and the rest of the `n` bytes in a second one. */
  function Filling(n: nat): seq<Op>
    requires TWO_32 <= n <= MAX_SIZE
  {
    [Op.Seal(1, Some(0)), Op.Write(1, 0, Zeros(TWO_32 - 1)), Op.Write(1, 1, Zeros(n - (TWO_32 - 1)))]
  }

  lemma {:induction false} LegalNext(ops: seq<Op>, op: Op)
    requires LegalRun(ops) && Legal(ClsRun(ops).1, op)
    ensures LegalRun(ops + [op]) && ClsRun(ops + [op]).1 == Cls.Step(ClsRun(ops).1, op).1
  {
    hide Legal, Cls.Step;
    assert (ops + [op])[..|ops|] == ops;
  }

  const SEALED := Cls.Obj(Cls.Header(1, true, 0, 0, -1), map[], [])

  /** Positions 0 and 1 with `a` and `b` bytes of zeros. */
  function Half(a: nat): Cls.Obj {
    Cls.Obj(Cls.Header(1, false, 0, 0, -1), map[0 := Cls.Entry(false, true, [], 0, a)], Zeros(a))
  }

  function Whole(a: nat, b: nat): Cls.Obj {
    Cls.Obj(Cls.Header(1, false, 1, 0, -1),
            map[0 := Cls.Entry(false, true, [], 0, a), 1 := Cls.Entry(false, true, [], a, b)], Zeros(a) + Zeros(b))
  }

  lemma {:induction false} FirstHalf(a: nat)
    requires a < TWO_32
    ensures Legal(Some(SEALED), Op.Write(1, 0, Zeros(a)))
    ensures Cls.Step(Some(SEALED), Op.Write(1, 0, Zeros(a))).1 == Some(Half(a))
  {
    Cls.SpillAppends(SEALED, 0, Zeros(a));
    hide Cls.SetData;
    assert [] + Zeros(a) == Zeros(a);
  }

  lemma {:induction false} SecondHalf(a: nat, b: nat)
    requires a < TWO_32 && b < TWO_32
    ensures Legal(Some(Half(a)), Op.Write(1, 1, Zeros(b)))
    ensures Cls.Step(Some(Half(a)), Op.Write(1, 1, Zeros(b))).1 == Some(Whole(a, b))
  {
    Cls.SpillAppends(Half(a), 1, Zeros(b));
    hide Cls.SetData;
  }

  lemma {:induction false} FillingMakes(n: nat)
    requires TWO_32 <= n <= MAX_SIZE
    ensures Makes(Filling(n), n) && ClsRun(Filling(n)).1 == Some(Whole(TWO_32 - 1, n - (TWO_32 - 1)))
  {
    var a, b := TWO_32 - 1, n - (TWO_32 - 1);
    var ops := Filling(n);
    hide Cls.Step, Legal, Half, LegalRun, ClsRun;
    FillingStarts();
    LegalNext([], ops[0]);
    FirstHalf(a);
    LegalNext([] + [ops[0]], ops[1]);
    SecondHalf(a, b);
    LegalNext([] + [ops[0]] + [ops[1]], ops[2]);
    assert [] + [ops[0]] + [ops[1]] + [ops[2]] == ops;
  }

  lemma {:induction false} FillingStarts()
    ensures LegalRun([]) && ClsRun([]).1 == None
    ensures Legal(None, Op.Seal(1, Some(0))) && Cls.Step(None, Op.Seal(1, Some(0))).1 == Some(SEALED)
  {
  }

  lemma {:induction false} ThirdWrite(a: nat, b: nat)
    ensures var o, o' := Whole(a, b), WriteTo(Whole(a, b), 1, 2, [1]);
            && o'.omap == o.omap[2 := Cls.Entry(false, true, [], |o.bytes| % TWO_32, 1)]
            && o'.bytes == Cls.Overwrite(o.bytes, |o.bytes| % TWO_32, [1])
            && o'.header == o.header.UpdateMax(2)
  {
    hide Cls.Overwrite;
    assert [1][..1] == [1 as byte];
  }

  lemma {:induction false} OverwriteOne(bytes: Bytes, k: nat)
    requires k < |bytes|
    ensures |Cls.Overwrite(bytes, k, [1])| == |bytes| && Cls.Overwrite(bytes, k, [1])[k] == 1
  {
  }

  lemma {:induction false} FirstCell(o: Cls.Obj, a: nat)
    requires 0 in o.omap && o.omap[0] == Cls.Entry(false, true, [], 0, a) && 0 < a <= |o.bytes| && o.header.Limit().None?
    ensures o.Cell(0) == Data(o.bytes[..a])
  {
  }

  /** The next write starts in the middle of position 0's bytes. */
  lemma {:induction false} FillingHit(a: nat, b: nat)
    requires a == TWO_32 - 1 && 0 < b < TWO_32
    ensures WriteTo(Whole(a, b), 1, 2, [1]).Cell(0) != Whole(a, b).Cell(0)
  {
    hide WriteTo, Cls.Overwrite, Cls.Obj.Cell;
    var o, k := Whole(a, b), (a + b) % TWO_32;
    var o' := WriteTo(o, 1, 2, [1]);
    assert k == b - 1 < a;
    ThirdWrite(a, b);
    OverwriteOne(o.bytes, k);
    FirstCell(o, a);
    FirstCell(o', a);
    assert o.bytes[..a][k] == 0 && o'.bytes[..a][k] == 1;
  }

  /**
    Offsets are 32-bit. For every size that an object can have: writing leaves the other positions of
    every object of that size alone if and only if the size is below 2^32.
    */
  lemma {:induction false} OffsetExactIff(n: nat)
    requires n <= MAX_SIZE
    ensures n < TWO_32 <==> forall ops :: Makes(ops, n) ==> LeavesOthers(ops)
  {
    hide LegalRun, ClsRun, Filling, Whole, WriteTo, SpecRun, Fold, FoldTop;
    if n < TWO_32 {
      forall ops, e: nat, pos: nat, data: Bytes, p: nat | Makes(ops, n) && |data| < TWO_32 && p != pos
        ensures WriteTo(ClsRun(ops).1.value, e, pos, data).Cell(p) == ClsRun(ops).1.value.Cell(p)
      {
        ClsKeepsContract(ops);
        WriteElsewhere(ClsRun(ops).1.value, e, pos, data, p);
      }
    } else {
      FillingMakes(n);
      FillingHit(TWO_32 - 1, n - (TWO_32 - 1));
      assert !LeavesOthers(Filling(n));
    }
  }

  // ----- the signed limit ------------------------------------------------------------------------

  /** A range trim of the object that a run leads to does what the contract says at every position. */
  ghost predicate TrimsRight(ops: seq<Op>, op: Op)
    requires op.Trim? && ClsRun(ops).1.Some?
  {
    var o := ClsRun(ops).1.value;
    forall p: nat :: Cls.Admitted(o, op).1.Cell(p) == Next(o.Cell(p), op, p)
  }

  lemma {:induction false} TrimRight(o: Cls.Obj, op: Op, p: nat)
    requires o.Valid() && op.Trim? && op.limit && !op.full && op.pos < Cls.TWO_63
    ensures Cls.Admitted(o, op).1.Cell(p) == Next(o.Cell(p), op, p)
  {
    hide Cls.Obj.Cell, Cls.Obj.Valid;
    Cls.AdmittedMeans(o, op, p);
  }

  lemma {:induction false} LimitLost(e: nat, pos: nat)
    requires Cls.TWO_63 <= pos < Cls.TWO_64
    ensures Cls.Admitted(SEALED, Op.Trim(e, pos, true, false)).1.Cell(pos) == Unwritten
  {
  }

  /**
    The stored limit is signed: trimming up to `pos` does what it should in every object that a legal
    run leads to, if and only if `pos` is below 2^63.
    */
  lemma {:induction false} LimitSurvivesIff(e: nat, pos: nat)
    requires pos < Cls.TWO_64
    ensures pos < Cls.TWO_63 <==>
            forall ops :: LegalRun(ops) && ClsRun(ops).1.Some? ==> TrimsRight(ops, Op.Trim(e, pos, true, false))
  {
    hide LegalRun, ClsRun, SpecRun, Cls.Admitted, Cls.Obj.Cell, Fold, FoldTop;
    var op := Op.Trim(e, pos, true, false);
    if pos < Cls.TWO_63 {
      forall ops, p: nat | LegalRun(ops) && ClsRun(ops).1.Some?
        ensures Cls.Admitted(ClsRun(ops).1.value, op).1.Cell(p) == Next(ClsRun(ops).1.value.Cell(p), op, p)
      {
        ClsKeepsContract(ops);
        TrimRight(ClsRun(ops).1.value, op, p);
      }
    } else {
      FillingStarts();
      LegalNext([], Op.Seal(1, Some(0)));
      LimitLost(e, pos);
      assert !TrimsRight([] + [Op.Seal(1, Some(0))], op);
    }
  }
}
