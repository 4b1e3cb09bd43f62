/**
  Client-driven reclaim (CephBackend::Trim in src/storage/ceph/ceph.cc). A full trim is many calls:
  set the limit, then list and delete one key at a time, then truncate. Here those steps interleave
  freely with each other and with any other client's calls on the same object.
  */
module Reclaiming {
  import opened Common
  import opened Cells
  import opened Contract
  import opened Cls
  import opened Backends
  import opened CephObjects

  /** Where a full trim stands. `start` is the last key it has seen. */
  datatype Phase = Listing(start: Option<nat>) | Deleting(key: nat) | Truncating | Ended(ret: Ret)

  datatype Reclaimer = Reclaimer(pos: nat, phase: Phase)

  datatype State = State(obj: Option<Obj>, reclaimers: seq<Reclaimer>, replies: seq<Reply>)

  /** `Advance` carries the key that `omap_get_keys` would return. */
  datatype Step = Call(op: Op) | Advance(i: nat, key: Option<nat>)

  /** A full trim as its first call sees it. */
  function Plain(op: Op): Op {
    if op.Trim? && op.limit then op.(full := false) else op
  }

  /** The key is the first one after `start`, or there is none. */
  ghost predicate Lists(omap: map<nat, Entry>, start: Option<nat>, key: Option<nat>) {
    if key.None? then forall k :: k in omap ==> !After(start, k)
    else key.value in omap && After(start, key.value) && forall k :: k in omap && After(start, k) ==> key.value <= k
  }

  function Listed(r: Reclaimer, key: Option<nat>): Reclaimer {
    if key.None? then r.(phase := Truncating)
    else if key.value > r.pos then r.(phase := Ended(EIO))
    else r.(phase := Deleting(key.value))
  }

  ghost function Do(s: State, step: Step): State {
    match step
    case Call(op) =>
      var (reply, o) := Cls.Step(s.obj, Plain(op));
      var started := if op.Trim? && op.full && op.limit && reply.ret.Success? then [Reclaimer(op.pos, Listing(None))] else [];
      State(o, s.reclaimers + started, s.replies + [reply])
    case Advance(i, key) =>
      if i >= |s.reclaimers| || s.obj.None? then s
      else
        var o, r := s.obj.value, s.reclaimers[i];
        match r.phase
        case Listing(start) => if Lists(o.omap, start, key) then s.(reclaimers := s.reclaimers[i := Listed(r, key)]) else s
        case Deleting(k) =>
          s.(obj := Some(o.(omap := o.omap - {k})), reclaimers := s.reclaimers[i := r.(phase := Listing(Some(k)))])
        case Truncating =>
          s.(obj := Some(o.(bytes := [])), reclaimers := s.reclaimers[i := r.(phase := Ended(Success))])
        case Ended(_) => s
  }

  ghost function Reached(steps: seq<Step>): State {
    if steps == [] then State(None, [], []) else Do(Reached(steps[..|steps| - 1]), steps[|steps| - 1])
  }

  /**
    Calls as clients of the log make them on an object whose last position is `last`: only range trims
    name a higher position, and a trim is full only if it reaches the last position.
    */
  predicate Proper(last: nat, o: Option<Obj>, op: Op) {
    && Legal(o, Plain(op))
    && (Guarded(op) && !(op.Trim? && op.limit) ==> op.pos <= last)
    && (op.Trim? && op.full && op.limit ==> last <= op.pos)
  }

  ghost predicate ProperRun(last: nat, steps: seq<Step>) {
    steps == []
    || (var n := |steps| - 1;
        ProperRun(last, steps[..n]) && (steps[n].Call? ==> Proper(last, Reached(steps[..n]).obj, steps[n].op)))
  }

  /** The calls of a run: what remains when the reclaim steps are left out. */
  function Calls(steps: seq<Step>): seq<Op> {
    if steps == [] then []
    else
      var n := |steps| - 1;
      if steps[n].Call? then Calls(steps[..n]) + [Plain(steps[n].op)] else Calls(steps[..n])
  }

  // ----- the invariant ---------------------------------------------------------------------------

  /** While anybody reclaims, the whole object is trimmed, and no reclaimer has met a key it may not delete. */
  ghost predicate ReclaimersOk(last: nat, s: State) {
    && (s.reclaimers != [] ==> s.obj.Some? && s.obj.value.Covered(last))
    && (forall i :: 0 <= i < |s.reclaimers| ==> last <= s.reclaimers[i].pos && s.reclaimers[i].phase != Ended(EIO))
  }

  ghost predicate Inv(last: nat, s: State, sp: Spec) {
    && ClsIs(s.obj, sp)
    && (s.obj.Some? ==> forall p :: p in s.obj.value.omap ==> p <= last)
    && ReclaimersOk(last, s)
  }

  lemma {:induction false} CallKeys(last: nat, o: Option<Obj>, op: Op)
    requires Proper(last, o, op) && (o.Some? ==> forall p :: p in o.value.omap ==> p <= last)
    ensures var o' := Cls.Step(o, Plain(op)).1;
            && (o.Some? ==> o'.Some?)
            && (o'.Some? ==> forall p :: p in o'.value.omap ==> p <= last)
  {
    hide Overwrite, Slice, Obj.Payload;
  }

  lemma {:induction false} CallLimit(last: nat, o: Option<Obj>, op: Op)
    requires Proper(last, o, op)
    ensures var (reply, o') := Cls.Step(o, Plain(op));
            && (o.Some? && o.value.Covered(last) ==> o'.Some? && o'.value.Covered(last))
            && (op.Trim? && op.full && op.limit && reply.ret.Success? ==> o'.Some? && o'.value.Covered(last))
  {
    hide Overwrite, Slice, Obj.Payload;
  }

  lemma {:induction false} CallStep(last: nat, s: State, sp: Spec, op: Op)
    requires Inv(last, s, sp) && Proper(last, s.obj, op)
    ensures var s' := Do(s, Call(op));
            && Inv(last, s', Run(sp, Plain(op)).1)
            && s'.replies == s.replies + [Run(sp, Plain(op)).0]
  {
    hide Cls.Step, ClsIs, Run, Obj.Covered;
    ClsStep(s.obj, sp, Plain(op));
    CallKeys(last, s.obj, op);
    CallLimit(last, s.obj, op);
    StillReclaiming(last, s, Do(s, Call(op)), op);
  }

  lemma {:induction false} StillReclaiming(last: nat, s: State, s': State, op: Op)
    requires ReclaimersOk(last, s)
    requires s.obj.Some? && s.obj.value.Covered(last) ==> s'.obj.Some? && s'.obj.value.Covered(last)
    requires || s'.reclaimers == s.reclaimers
             || (op.Trim? && last <= op.pos && s'.reclaimers == s.reclaimers + [Reclaimer(op.pos, Listing(None))]
                 && s'.obj.Some? && s'.obj.value.Covered(last))
    ensures ReclaimersOk(last, s')
  {
    hide Obj.Covered;
  }

  /** Deleting a trimmed key, or truncating when everything is trimmed, changes no cell. */
  lemma {:induction false} Invisible(o: Obj, o': Obj, last: nat, sp: Spec)
    requires ClsIs(Some(o), sp) && o.Covered(last) && (forall p :: p in o.omap ==> p <= last)
    requires o'.header == o.header && o'.omap.Keys <= o.omap.Keys && forall p :: p in o'.omap ==> o'.omap[p] == o.omap[p]
    ensures ClsIs(Some(o'), sp) && o'.Covered(last) && forall p :: p in o'.omap ==> p <= last
  {
    hide Slice, Obj.Payload, Fold, FoldTop;
    assert forall p :: !o.Live(p) && !o'.Live(p);
    forall p: nat ensures o'.Cell(p) == o.Cell(p) {
      if p in o.omap { assert o.Covered(p); }
    }
  }

  lemma {:induction false} AdvanceStep(last: nat, s: State, sp: Spec, i: nat, key: Option<nat>)
    requires Inv(last, s, sp)
    ensures var s' := Do(s, Advance(i, key)); Inv(last, s', sp) && s'.replies == s.replies
  {
    hide ClsIs, Obj.Covered;
    if i < |s.reclaimers| && s.obj.Some? {
      var o, r := s.obj.value, s.reclaimers[i];
      match r.phase {
        case Deleting(k) => Invisible(o, o.(omap := o.omap - {k}), last, sp);
        case Truncating => Invisible(o, o.(bytes := []), last, sp);
        case _ =>
      }
    }
  }

  /**
    Reclaim is safe: whatever the interleaving, every call is answered as if a full trim were a single
    range trim, the object holds what those calls alone make it hold, live extents are in bounds and
    apart, and no full trim fails.
    */
  lemma {:induction false} ReclaimIsInvisible(last: nat, steps: seq<Step>)
    requires ProperRun(last, steps)
    ensures Reached(steps).replies == SpecRun(Calls(steps)).0
    ensures Inv(last, Reached(steps), SpecRun(Calls(steps)).1)
    decreases |steps|
  {
    hide Inv, Proper, Run, Do;
    if steps == [] {
      NothingReclaimed(last);
    } else {
      var n := |steps| - 1;
      ReclaimIsInvisible(last, steps[..n]);
      var s, sp := Reached(steps[..n]), SpecRun(Calls(steps[..n])).1;
      match steps[n] {
        case Call(op) =>
          CallStep(last, s, sp, op);
          var calls := Calls(steps);
          assert calls[..|calls| - 1] == Calls(steps[..n]);
        case Advance(i, key) => AdvanceStep(last, s, sp, i, key);
      }
    }
  }

  lemma {:induction false} NothingReclaimed(last: nat)
    ensures Inv(last, State(None, [], []), ABSENT)
  {
  }

  // ----- the promise is needed -------------------------------------------------------------------

  lemma {:induction false} ReachedSnoc(steps: seq<Step>, step: Step)
    ensures Reached(steps + [step]) == Do(Reached(steps), step)
  {
    assert (steps + [step])[..|steps|] == steps;
  }

  lemma {:induction false} NothingReached()
    ensures Reached([]) == State(None, [], [])
  {
  }

  /** A full trim has set its limit, found no key, and is about to truncate. */
  function BeforeTruncate(pos: nat): State {
    State(Some(Obj(Header(1, false, pos, 0, pos), map[], [])), [Reclaimer(pos, Truncating)], [Code(Success), Code(Success)])
  }

  lemma {:induction false} TrimUpToTruncate(pos: nat)
    requires pos < TWO_63
    ensures Do(Do(Do(State(None, [], []), Call(Op.Seal(1, Some(0)))), Call(Op.Trim(1, pos, true, true))), Advance(0, None))
         == BeforeTruncate(pos)
  {
    var s1 := Do(State(None, [], []), Call(Op.Seal(1, Some(0))));
    assert s1 == State(Some(Obj(Header(1, true, 0, 0, -1), map[], [])), [], [Code(Success)]);
    var s2 := Do(s1, Call(Op.Trim(1, pos, true, true)));
    assert s2.reclaimers == [Reclaimer(pos, Listing(None))];
  }

  lemma {:induction false} TruncateLoses(pos: nat, q: nat, data: Bytes)
    requires pos < q && 0 < |data| < TWO_32
    ensures var s := Do(Do(BeforeTruncate(pos), Call(Op.Write(1, q, data))), Advance(0, None));
            s.replies == [Code(Success), Code(Success), Code(Success)] && s.obj.Some? && s.obj.value.Cell(q) == Data([])
  {
    SpillAppends(BeforeTruncate(pos).obj.value, q, data);
    hide SetData;
    var s := Do(BeforeTruncate(pos), Call(Op.Write(1, q, data)));
    assert s.obj.value.omap[q] == Entry(false, true, [], 0, |data|);
    assert s.reclaimers[0].phase == Truncating;
  }

  lemma {:induction false} TruncateReached(pos: nat)
    requires pos < TWO_63
    ensures Reached([Call(Op.Seal(1, Some(0))), Call(Op.Trim(1, pos, true, true)), Advance(0, None)]) == BeforeTruncate(pos)
  {
    var seal, trim, advance := Call(Op.Seal(1, Some(0))), Call(Op.Trim(1, pos, true, true)), Advance(0, None);
    hide Do, BeforeTruncate, Reached;
    NothingReached();
    TrimUpToTruncate(pos);
    ReachedSnoc([], seal);
    ReachedSnoc([seal], trim);
    ReachedSnoc([seal, trim], advance);
    assert [] + [seal] == [seal] && [seal] + [trim] == [seal, trim];
    assert [seal, trim] + [advance] == [seal, trim, advance];
  }

  /** A full trim that does not reach the last position can lose the data of a write that comes in between. */
  lemma {:induction false} UnpromisedTrimLosesData(pos: nat, q: nat, data: Bytes)
    requires pos < TWO_63 && pos < q && 0 < |data| < TWO_32
    ensures var s := Reached([Call(Op.Seal(1, Some(0))), Call(Op.Trim(1, pos, true, true)), Advance(0, None),
                              Call(Op.Write(1, q, data)), Advance(0, None)]);
            && s.replies == [Code(Success), Code(Success), Code(Success)]
            && s.obj.Some? && s.obj.value.Cell(q) == Data([])
  {
    hide Do, BeforeTruncate, Obj.Cell, Reached;
    TruncateReached(pos);
    TruncateLoses(pos, q, data);
    var start := [Call(Op.Seal(1, Some(0))), Call(Op.Trim(1, pos, true, true)), Advance(0, None)];
    var write := Call(Op.Write(1, q, data));
    ReachedSnoc(start, write);
    ReachedSnoc(start + [write], Advance(0, None));
    assert start + [write] + [Advance(0, None)]
        == [Call(Op.Seal(1, Some(0))), Call(Op.Trim(1, pos, true, true)), Advance(0, None), write, Advance(0, None)];
  }
}
