/** Each step of each operation keeps the shared invariant and establishes what its thread knows next. */
module TaskSteps {
  import opened Common
  import opened Arithmetic
  import opened Stripes
  import opened PlainLists
  import opened ObjectMaps
  import opened MapTo
  import opened Views
  import opened Cells
  import opened Ram
  import opened Protocol
  import opened History
  import opened CoreSteps
  import opened Handoff
  import opened Threads

  /** An append has written its data, once and at the position it reports. */
  predicate Wrote(task: Task) {
    task.Append? && task.apc == ADone(Success)
  }

  /** A write is recorded exactly when an append ends well, and says what the append reports. */
  ghost predicate Honest(a: Core, b: Core, task: Task, task': Task, t: nat) {
    && (b.hist == a.hist ==> (Wrote(task') ==> Wrote(task)))
    && (b.hist != a.hist ==>
          && |b.hist| == |a.hist| + 1
          && var ev := b.hist[|a.hist|];
             && ev.thread == t
             && (ev.op.Write? <==> Wrote(task'))
             && (ev.op.Write? ==> !Wrote(task) && task'.data == ev.op.data && task'.pos.Some? && task'.pos.value.1 == ev.op.pos))
    && (Wrote(task) ==> task' == task)
  }

  /** What a step has to show. */
  ghost predicate Good(core: Core, client: Client, token: nat, task: Task, t: nat, core': Core, task': Task) {
    && CoreOk(core') && Grows(core, core') && TaskOk(core', client, token, task') && Honest(core, core', task, task', t)
  }

  lemma {:induction false} GrowsRefl(core: Core)
    ensures Grows(core, core)
  {
  }

  /** A call with the position's own object is aimed right. */
  lemma {:induction false} PointTargeted(v: View, p: nat, oid: Oid, op: Op)
    requires Map(v.om, p).0 == Some(oid) && Guarded(op) && op.pos == p && (op.Trim? ==> !op.limit && !op.full)
    ensures Targeted(v.Stripes(), oid, op)
  {
    MapIs(v, p);
  }

  lemma {:induction false} MappedOwned(core: Core, v: VersionedView, p: nat, oid: Oid)
    requires CoreOk(core) && Committed(core.views, v) && Map(v.view.om, p).0 == Some(oid)
    ensures Owns(Latest(core).Stripes(), oid)
  {
    hide ViewsOk, StoreOk, LogOk, EventsOk, WritesOk, HandedOff, View.Stripes, Map, ObjectMap.Good;
    MapIs(v.view, p);
    LatestKeeps(core, v);
  }

  /** Sealing the object of a mapped position, as operations do when the object is missing. */
  lemma {:induction false} SealMapped(core: Core, v: VersionedView, p: nat, oid: Oid, t: nat)
    requires CoreOk(core) && Committed(core.views, v) && Map(v.view.om, p).0 == Some(oid)
    ensures var core' := CallObject(core, v.view, oid, Op.Seal(v.epoch, None), t).1;
            CoreOk(core') && Grows(core, core') && core'.views == core.views && core'.hist == core.hist
  {
    MappedOwned(core, v, p, oid);
    hide CoreOk, Map, CallObject, Grows, View.Stripes, ObjectMap.Good;
    SealKeeps(core, v.view, oid, v.epoch, t);
  }

  // ----- AppendOp --------------------------------------------------------------------------------

  lemma {:induction false} AppendCall(core: Core, client: Client, token: nat, task: Task, t: nat, v: VersionedView, oid: Oid)
    requires CoreOk(core) && task.Append? && task.apc == ACall(v) && AppendOk(core.views, client, token, task)
    requires Map(v.view.om, task.pos.value.1).0 == Some(oid)
    ensures var op := Op.Write(v.epoch, task.pos.value.1, task.data);
            var (reply, core') := CallObject(core, v.view, oid, op, t);
            && CoreOk(core') && Grows(core, core') && core'.views == core.views
            && core'.hist == (if reply.ret.Success?
                              then core.hist + [Event(op, oid, Touched(v.view.Stripes(), oid, op), t)]
                              else core.hist)
  {
    hide CoreOk, Targeted, Map, CallObject, Grows, View.Stripes, ObjectMap.Good, Touched;
    var op := Op.Write(v.epoch, task.pos.value.1, task.data);
    PointTargeted(v.view, task.pos.value.1, oid, op);
    assert WriteOk(core.views, op);
    CallKeeps(core, v.epoch, oid, op, t);
  }

  lemma {:induction false} AppendCallStep(core: Core, client: Client, token: nat, task: Task, t: nat, fail: bool)
    requires CoreOk(core) && task.Append? && task.apc.ACall? && AppendOk(core.views, client, token, task)
    ensures var (core', task') := StepAppend(core, client, task, t, fail);
            Good(core, client, token, task, t, core', task')
  {
    hide CoreOk, Map, CallObject, Grows, View.Stripes, ObjectMap.Good, Touched;
    GrowsRefl(core);
    var mapped := Map(task.apc.v.view.om, task.pos.value.1).0;
    if mapped.Some? {
      AppendCall(core, client, token, task, t, task.apc.v, mapped.value);
    }
  }

  lemma {:induction false} AppendSealStep(core: Core, client: Client, token: nat, task: Task, t: nat, fail: bool)
    requires CoreOk(core) && task.Append? && task.apc.ASeal? && AppendOk(core.views, client, token, task)
    ensures var (core', task') := StepAppend(core, client, task, t, fail);
            Good(core, client, token, task, t, core', task')
  {
    hide CoreOk, Map, CallObject, Grows, View.Stripes, ObjectMap.Good;
    GrowsRefl(core);
    var mapped := Map(task.apc.v.view.om, task.pos.value.1).0;
    if mapped.Some? {
      SealMapped(core, task.apc.v, task.pos.value.1, mapped.value, t);
    }
  }

  lemma {:induction false} AppendStep(core: Core, client: Client, token: nat, task: Task, t: nat, fail: bool)
    requires CoreOk(core) && ClientOk(core.views, client, token) && task.Append? && !task.apc.ATail?
    requires AppendOk(core.views, client, token, task)
    ensures var (core', task') := StepAppend(core, client, task, t, fail);
            Good(core, client, token, task, t, core', task')
  {
    GrowsRefl(core);
    hide CoreOk, Map, CallObject, Grows, View.Stripes, ObjectMap.Good;
    match task.apc {
      case ACall(v) => AppendCallStep(core, client, token, task, t, fail);
      case ASeal(v) => AppendSealStep(core, client, token, task, t, fail);
      case _ =>
    }
  }

  // ----- FillOp, TrimOp, ReadOp ------------------------------------------------------------------

  lemma {:induction false} PointCall(core: Core, v: VersionedView, kind: PointKind, p: nat, oid: Oid, t: nat)
    requires CoreOk(core) && Committed(core.views, v) && Map(v.view.om, p).0 == Some(oid)
    ensures var op := PointOp(kind, v.epoch, p);
            var (reply, core') := CallObject(core, v.view, oid, op, t);
            && CoreOk(core') && Grows(core, core') && core'.views == core.views
            && (core'.hist == core.hist || core'.hist == core.hist + [Event(op, oid, Touched(v.view.Stripes(), oid, op), t)])
  {
    hide CoreOk, Targeted, Map, CallObject, Grows, View.Stripes, ObjectMap.Good, Touched;
    var op := PointOp(kind, v.epoch, p);
    PointTargeted(v.view, p, oid, op);
    CallKeeps(core, v.epoch, oid, op, t);
  }

  lemma {:induction false} PointStep(core: Core, client: Client, token: nat, task: Task, t: nat, fail: bool)
    requires CoreOk(core) && ClientOk(core.views, client, token) && task.Point? && TaskOk(core, client, token, task)
    ensures var (core', task') := StepPoint(core, client, task, t, fail);
            Good(core, client, token, task, t, core', task')
  {
    GrowsRefl(core);
    hide CoreOk, Map, CallObject, Grows, View.Stripes, ObjectMap.Good, Touched;
    match task.ppc {
      case PCall(v) =>
        var mapped := Map(v.view.om, task.at).0;
        if mapped.Some? { PointCall(core, v, task.kind, task.at, mapped.value, t); }
      case PSeal(v) =>
        var mapped := Map(v.view.om, task.at).0;
        if mapped.Some? { SealMapped(core, v, task.at, mapped.value, t); }
      case _ =>
    }
  }

  // ----- TrimToOp --------------------------------------------------------------------------------

  /** `map_to` aims range trims right, and flags them as full only when they are. */
  lemma {:induction false} RangeTargeted(l: seq<Stripe>, k: nat, limit: nat, i: nat, e: nat)
    requires WellFormed(l) && AllAligned(l) && k < |l| && i < |Targets(l[k], limit)|
    ensures var (oid, full) := Targets(l[k], limit)[i];
            Owns(l, oid) && Targeted(l, oid, Op.Trim(e, limit, true, full))
  {
    var ts := Targets(l[k], limit);
    AlignedIsExact(l[k], limit);
    ExactInList(l, limit, k, ts);
    hide Collect, Remainder;
    assert ts[i] in ts;
  }

  lemma {:induction false} TrimToCall(core: Core, v: VersionedView, k: nat, i: nat, limit: nat, t: nat)
    requires CoreOk(core) && Committed(core.views, v)
    requires k < |v.view.Stripes()| && i < |Targets(v.view.Stripes()[k], limit)|
    ensures var (oid, full) := Targets(v.view.Stripes()[k], limit)[i];
            var op := Op.Trim(v.epoch, limit, true, full);
            var (reply, core') := CallObject(core, v.view, oid, op, t);
            && Owns(v.view.Stripes(), oid)
            && CoreOk(core') && Grows(core, core') && core'.views == core.views
            && core'.hist == (if reply.ret.Success?
                              then core.hist + [Event(op, oid, Touched(v.view.Stripes(), oid, op), t)]
                              else core.hist)
  {
    hide CoreOk, Targeted, CallObject, Grows, View.Stripes, ObjectMap.Good, Touched, Targets;
    RangeTargeted(v.view.Stripes(), k, limit, i, v.epoch);
    var (oid, full) := Targets(v.view.Stripes()[k], limit)[i];
    CallKeeps(core, v.epoch, oid, Op.Trim(v.epoch, limit, true, full), t);
  }

  lemma {:induction false} TrimmedOneMore(hist: seq<Event>, l: seq<Stripe>, limit: nat, k: nat, i: nat, ev: Event)
    requires WellFormed(l) && k < |l| && i < |Targets(l[k], limit)| && TrimmedTo(hist, l, limit, k, i)
    requires ev.op.Trim? && ev.op.limit && ev.op.pos == limit
    requires ev.where == Touched(l, Targets(l[k], limit)[i].0, ev.op)
    ensures TrimmedTo(hist + [ev], l, limit, k, i + 1)
  {
    hide Targets, WellFormed, Replay, Remainder;
    forall p: nat ensures Replay(hist, p) == Invalid ==> Replay(hist + [ev], p) == Invalid
                  ensures p in ev.where ==> Replay(hist + [ev], p) == Invalid
    {
      ReplaySnoc(hist, ev, p);
    }
  }

  lemma {:induction false} TrimmedStripe(hist: seq<Event>, l: seq<Stripe>, limit: nat, k: nat, i: nat)
    requires WellFormed(l) && AllAligned(l) && k < |l| && i >= |Targets(l[k], limit)| && TrimmedTo(hist, l, limit, k, i)
    ensures TrimmedTo(hist, l, limit, k + 1, 0)
  {
    hide Replay, Remainder, Collect;
    var ts := Targets(l[k], limit);
    AlignedIsExact(l[k], limit);
    ExactInList(l, limit, k, ts);
    hide Targets, Exact;
    forall p: nat | p <= limit && p < Top(l, k + 1) ensures Replay(hist, p) == Invalid {
      if p >= Top(l, k) {
        InStripe(l, k, p);
        var oid := l[k].Home(p);
        assert Holds(l, oid, p);
        var f :| (oid, f) in ts;
        var j :| 0 <= j < |ts| && ts[j] == (oid, f);
      }
    }
  }

  lemma {:induction false} ScanStep(core: Core, client: Client, token: nat, task: Task, t: nat, fail: bool)
    requires CoreOk(core) && task.TrimTo? && task.tpc.TScan? && TrimToOk(core, task.upTo, task.tpc)
    requires task.tpc.k < task.tpc.v.view.om.nextStripeId
    requires task.tpc.i < |TargetsAt(task.tpc.v.view, task.tpc.k, task.upTo)|
    ensures var (core', task') := StepTrimTo(core, client, task, t, fail);
            Good(core, client, token, task, t, core', task')
  {
    hide CoreOk, CallObject, Grows, View.Stripes, ObjectMap.Good, Touched, Targets, TrimmedTo;
    var v, k, i, limit := task.tpc.v, task.tpc.k, task.tpc.i, task.upTo;
    StripeIs(v.view, k);
    TrimToCall(core, v, k, i, limit, t);
    var (oid, full) := Targets(v.view.Stripes()[k], limit)[i];
    var op := Op.Trim(v.epoch, limit, true, full);
    TrimmedOneMore(core.hist, v.view.Stripes(), limit, k, i, Event(op, oid, Touched(v.view.Stripes(), oid, op), t));
  }

  /** The steps of TrimToOp that call no backend. */
  lemma {:induction false} TrimToLocal(core: Core, client: Client, token: nat, task: Task, t: nat, fail: bool)
    requires CoreOk(core) && ClientOk(core.views, client, token) && task.TrimTo? && TrimToOk(core, task.upTo, task.tpc)
    requires !task.tpc.TSeal?
    requires task.tpc.TScan? && task.tpc.k < task.tpc.v.view.om.nextStripeId ==>
               task.tpc.i >= |TargetsAt(task.tpc.v.view, task.tpc.k, task.upTo)|
    ensures var (core', task') := StepTrimTo(core, client, task, t, fail);
            core' == core && task'.TrimTo? && TrimToOk(core', task'.upTo, task'.tpc)
  {
    hide CoreOk, Map, CallObject, View.Stripes, ObjectMap.Good, Targets, Replay, OnePerConfig, SequencerOk;
    match task.tpc {
      case TStart =>
        if client.view.Some? { MapIs(client.view.value.view, task.upTo); }
      case TScan(v, k, i) =>
        MapIs(v.view, task.upTo);
        if k < v.view.om.nextStripeId {
          StripeIs(v.view, k);
          TrimmedStripe(core.hist, v.view.Stripes(), task.upTo, k, i);
        }
      case TDone(_) =>
    }
  }

  lemma {:induction false} TrimToStep(core: Core, client: Client, token: nat, task: Task, t: nat, fail: bool)
    requires CoreOk(core) && ClientOk(core.views, client, token) && task.TrimTo? && TrimToOk(core, task.upTo, task.tpc)
    ensures var (core', task') := StepTrimTo(core, client, task, t, fail);
            Good(core, client, token, task, t, core', task')
  {
    hide CoreOk, ClientOk, Map, CallObject, Grows, View.Stripes, ObjectMap.Good, Targets, TargetsAt, TrimmedTo, Replay;
    GrowsRefl(core);
    match task.tpc {
      case TSeal(v, oid) => SealOwned(core, v, oid, v.epoch, t);
      case TScan(v, k, i) =>
        if k < v.view.om.nextStripeId && i < |TargetsAt(v.view, k, task.upTo)| {
          ScanStep(core, client, token, task, t, fail);
        } else {
          TrimToLocal(core, client, token, task, t, fail);
        }
      case _ => TrimToLocal(core, client, token, task, t, fail);
    }
  }

  /** Sealing an object of a stripe of the view. */
  lemma {:induction false} SealOwned(core: Core, v: VersionedView, oid: Oid, e: nat, t: nat)
    requires CoreOk(core) && Committed(core.views, v) && Owns(v.view.Stripes(), oid) && 1 <= e <= v.epoch + 1
    ensures var (reply, core') := CallObject(core, v.view, oid, Op.Seal(e, None), t);
            && CoreOk(core') && Grows(core, core') && core'.views == core.views && core'.hist == core.hist
            && oid in core'.store && core'.store[oid].epoch >= e
            && (reply.ret.Success? || reply.ret.ESPIPE?)
  {
    CoreViews(core);
    LatestKeeps(core, v);
    SealObject(core.store, oid, e);
    hide CoreOk, Apply, Grows, View.Stripes, ObjectMap.Good;
    SealKeeps(core, v.view, oid, e, t);
  }

  lemma {:induction false} CoreViews(core: Core)
    requires CoreOk(core)
    ensures ViewsOk(core.views)
  {
  }

  // ----- propose_sequencer -----------------------------------------------------------------------

  lemma {:induction false} SealedOneMore(a: Core, b: Core, v: VersionedView, k: nat, i: nat)
    requires ViewsOk(a.views) && ProposeOk(a, QSeal(v, k, i)) && i < v.view.Stripes()[k].width && Grows(a, b)
    requires Oid(k, i) in b.store && b.store[Oid(k, i)].epoch >= v.epoch + 1
    ensures ProposeOk(b, QSeal(v, k, i + 1))
  {
    hide ViewsOk, View.Stripes, ObjectMap.Good, Quiet, Grows;
    ProposeLasts(a, b, QSeal(v, k, i));
    var l := v.view.Stripes();
    forall oid | Owns(l, oid) && (oid.stripe > k || (oid.stripe == k && oid.index < i + 1))
      ensures oid in b.store && b.store[oid].epoch > v.epoch
    {
      if oid.stripe == k && oid.index == i { assert oid == Oid(k, i); }
    }
  }

  lemma {:induction false} ProposeSealStep(core: Core, client: Client, token: nat, task: Task, t: nat, fail: bool)
    requires CoreOk(core) && task.Propose? && task.qpc.QSeal? && ProposeOk(core, task.qpc)
    ensures var (core', task') := StepPropose(core, client, token, task, t, fail);
            Good(core, client, token, task, t, core', task')
  {
    hide CoreOk, CallObject, Grows, View.Stripes, ObjectMap.Good, Map, ViewsOk, SealedFrom, Quiet;
    var v, k, i := task.qpc.v, task.qpc.k, task.qpc.i;
    GrowsRefl(core);
    CoreViews(core);
    MapIs(v.view, 0);
    StripeIs(v.view, k);
    if i < v.view.Stripes()[k].width {
      SealOwned(core, v, Oid(k, i), v.epoch + 1, t);
      SealedOneMore(core, CallObject(core, v.view, Oid(k, i), Op.Seal(v.epoch + 1, None), t).1, v, k, i);
    } else {
      hide ProposeOk;
      StartMax(core, v, k, i);
    }
  }

  lemma {:induction false} StartMax(core: Core, v: VersionedView, k: nat, i: nat)
    requires ProposeOk(core, QSeal(v, k, i)) && i >= v.view.Stripes()[k].width
    ensures ProposeOk(core, QMax(v, k, 0, None))
  {
    hide View.Stripes, ObjectMap.Good, Quiet, Remainder;
  }

  lemma {:induction false} ProposeMaxStep(core: Core, client: Client, token: nat, task: Task, t: nat, fail: bool)
    requires CoreOk(core) && task.Propose? && task.qpc.QMax? && ProposeOk(core, task.qpc)
    ensures var (core', task') := StepPropose(core, client, token, task, t, fail);
            Good(core, client, token, task, t, core', task')
  {
    hide CoreOk, Grows, View.Stripes, ObjectMap.Good, Map, SealedFrom, Quiet, Scanned, SealedAbove;
    var v, k, i, max := task.qpc.v, task.qpc.k, task.qpc.i, task.qpc.max;
    GrowsRefl(core);
    MapIs(v.view, 0);
    StripeIs(v.view, k);
    if i < v.view.Stripes()[k].width {
      ScanOne(core, v, k, i, max);
    } else {
      hide CallObject;
      assert i == v.view.Stripes()[k].width;
      if max.Some? { FoundSeed(core, v, k, max.value); } else { FoundNothing(core, v, k); }
    }
  }

  lemma {:induction false} ProposeStep(core: Core, client: Client, token: nat, task: Task, t: nat, fail: bool)
    requires CoreOk(core) && ClientOk(core.views, client, token) && task.Propose? && ProposeOk(core, task.qpc)
    ensures var (core', task') := StepPropose(core, client, token, task, t, fail);
            Good(core, client, token, task, t, core', task')
  {
    GrowsRefl(core);
    hide CoreOk, CallObject, Grows, View.Stripes, ObjectMap.Good, Map, SealedFrom, Quiet, Scanned, SealedAbove;
    match task.qpc {
      case QStart =>
        if client.view.Some? {
          MapIs(client.view.value.view, 0);
          StartScan(core, client.view.value);
        }
      case QSeal(_, _, _) => ProposeSealStep(core, client, token, task, t, fail);
      case QMax(_, _, _, _) => ProposeMaxStep(core, client, token, task, t, fail);
      case QCas(v, seed) =>
        if v.epoch == |core.views| {
          SeedReady(core, v, seed, token);
          hide Follows, ReadyFor;
          CommitKeeps(core, v.view.WithSequencer(SequencerConfig(v.epoch + 1, token, seed)));
        }
      case QDone(_) =>
    }
  }

  // ----- the remaining operations ----------------------------------------------------------------

  /** An expansion or an advance follows the view it was made from, and needs no hand-off. */
  lemma {:induction false} ChangeFollows(core: Core, v: VersionedView, change: Change, next: View)
    requires CoreOk(core) && Committed(core.views, v) && v.epoch == |core.views|
    requires (change.Expanding? ==> change.options.Valid()) && Changed(v.view, change) == Some(next)
    ensures Follows(Latest(core), next, |core.views| + 1) && ReadyFor(core, next)
  {
    hide LogOk, StoreOk, EventsOk, HandedOff, WritesOk, View.Stripes, ObjectMap.Good, Quiet, SealedAbove, Extends;
    assert ConfigOk(core.views, |core.views| - 1);
    match change {
      case Expanding(p, options) => assert v.view.ExpandMapping(p, options) == Some(next);
      case Advancing(p) => assert v.view.AdvanceMinValid(p) == Some(next);
    }
  }

  lemma {:induction false} UpdateStep(core: Core, client: Client, token: nat, task: Task, t: nat, fail: bool)
    requires CoreOk(core) && ClientOk(core.views, client, token) && task.Update? && TaskOk(core, client, token, task)
    ensures var (core', task') := StepUpdate(core, client, task, fail);
            Good(core, client, token, task, t, core', task')
  {
    GrowsRefl(core);
    hide CoreOk, Grows, View.Stripes, ObjectMap.Good, Changed;
    if task.upc.UCas? && task.upc.v.epoch == |core.views| {
      ChangeFollows(core, task.upc.v, task.change, task.upc.next);
      hide Follows, ReadyFor;
      CommitKeeps(core, task.upc.next);
    }
  }

  lemma {:induction false} InitStep(core: Core, client: Client, token: nat, task: Task, t: nat)
    requires CoreOk(core) && ClientOk(core.views, client, token) && task.Init? && TaskOk(core, client, token, task)
    ensures var (core', task') := StepInit(core, client, task, t);
            Good(core, client, token, task, t, core', task')
  {
    GrowsRefl(core);
    hide CoreOk, CallObject, Grows, View.Stripes, ObjectMap.Good, MapStripe;
    if task.ipc.ISeal? {
      var v, k, i := task.ipc.v, task.ipc.k, task.ipc.i;
      if k < v.view.om.nextStripeId {
        StripeIs(v.view, k);
        if i < v.view.Stripes()[k].width {
          SealOwned(core, v, Oid(k, i), v.epoch, t);
        }
      }
    }
  }

  lemma {:induction false} LookStarts(core: Core, client: Client, token: nat, task: Task, t: nat)
    requires CoreOk(core) && ClientOk(core.views, client, token) && task.Tail? && TaskOk(core, client, token, task)
    ensures var (core', task') := StepTail(core, client, task);
            Good(core, client, token, task, t, core', task')
  {
    hide CoreOk, Grows, View.Stripes, ObjectMap.Good, OnePerConfig, SequencerOk;
    GrowsRefl(core);
  }
}
