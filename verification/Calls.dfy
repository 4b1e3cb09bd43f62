/**
  The backend calls that the operations make: which call a task makes next, that it is all its step does
  to the store and to the history, and that the object map directs it to the right object.
  */
module Calls {
  import opened Common
  import opened Stripes
  import opened PlainLists
  import opened ObjectMaps
  import opened MapTo
  import opened Views
  import opened Cells
  import opened Ram
  import opened Protocol
  import opened History
  import opened CoreSteps
  import opened Handoff
  import opened Threads
  import opened TaskSteps

  // ----- the calls of the protocol ---------------------------------------------------------------

  function Mapped(v: VersionedView, p: nat, op: Op): Option<(Oid, Op)> {
    match Map(v.view.om, p).0
    case None => None
    case Some(oid) => Some((oid, op))
  }

  /** The backend call on a log object that the next step of a task makes. */
  function CallOf(task: Task): Option<(Oid, Op)> {
    match task
    case Append(data, pos, pc) =>
      if pos.None? then None
      else
        (match pc
         case ACall(v) => Mapped(v, pos.value.1, Op.Write(v.epoch, pos.value.1, data))
         case ASeal(v) => Mapped(v, pos.value.1, Op.Seal(v.epoch, None))
         case _ => None)
    case Point(kind, at, pc) =>
      (match pc
       case PCall(v) => Mapped(v, at, PointOp(kind, v.epoch, at))
       case PSeal(v) => Mapped(v, at, Op.Seal(v.epoch, None))
       case _ => None)
    case TrimTo(limit, pc) =>
      (match pc
       case TScan(v, k, i) =>
         if k < v.view.om.nextStripeId && i < |TargetsAt(v.view, k, limit)| then
           var (oid, full) := TargetsAt(v.view, k, limit)[i];
           Some((oid, Op.Trim(v.epoch, limit, true, full)))
         else None
       case TSeal(v, oid) => Some((oid, Op.Seal(v.epoch, None)))
       case _ => None)
    case Propose(pc) =>
      (match pc
       case QSeal(v, k, i) => StripeCall(v, k, i, Op.Seal(v.epoch + 1, None))
       case QMax(v, k, i, _) => StripeCall(v, k, i, Op.MaxPos)
       case _ => None)
    case Init(_, pc) => if pc.ISeal? then StripeCall(pc.v, pc.k, pc.i, Op.Seal(pc.v.epoch, None)) else None
    case _ => None
  }

  function StripeCall(v: VersionedView, k: nat, i: nat, op: Op): Option<(Oid, Op)> {
    if k < v.view.om.nextStripeId && i < StripeById(v.view.om, k).width then Some((Oid(k, i), op)) else None
  }

  /** The call is recorded exactly if it changes the log: a write, fill or trim that succeeds. */
  ghost predicate Recorded(core: Core, core': Core, oid: Oid, op: Op, t: nat) {
    if Guarded(op) && !op.Read? && Apply(core.store, oid, op).0.ret.Success? then
      && |core'.hist| == |core.hist| + 1 && core'.hist[..|core.hist|] == core.hist
      && core'.hist[|core.hist|].op == op && core'.hist[|core.hist|].oid == oid && core'.hist[|core.hist|].thread == t
    else core'.hist == core.hist
  }

  /** That call is all that a step does to the store and to the history; a step with a call commits no view. */
  lemma {:induction false} CallIs(core: Core, client: Client, c: nat, task: Task, t: nat, fail: bool)
    requires task.Update? && task.change.Expanding? ==> task.change.options.Valid()
    ensures var core' := StepTask(core, client, c, task, t, fail).0;
            match CallOf(task)
            case None => core'.store == core.store && core'.hist == core.hist
            case Some(call) =>
              && core'.store == Apply(core.store, call.0, call.1).1 && core'.views == core.views
              && Recorded(core, core', call.0, call.1, t)
  {
    hide Map, Apply, Touched, ObjectMap.Good, View.Stripes, Changed, Options.Valid, MapStripe, StripeById, TargetsAt, CallObject;
    match CallOf(task) {
      case None =>
      case Some((oid, op)) => CallRecorded(core, client, c, task, t, fail);
    }
  }

  /** A call by `CallObject` is recorded. */
  lemma {:induction false} Records(core: Core, v: View, oid: Oid, op: Op, t: nat)
    ensures var (reply, core') := CallObject(core, v, oid, op, t);
            && reply == Apply(core.store, oid, op).0 && core'.store == Apply(core.store, oid, op).1
            && core'.views == core.views && Recorded(core, core', oid, op, t)
  {
    hide Apply, Touched, View.Stripes, ObjectMap.Good;
  }

  lemma {:induction false} CallRecorded(core: Core, client: Client, c: nat, task: Task, t: nat, fail: bool)
    requires CallOf(task).Some?
    ensures var core', call := StepTask(core, client, c, task, t, fail).0, CallOf(task).value;
            && core'.store == Apply(core.store, call.0, call.1).1 && core'.views == core.views
            && Recorded(core, core', call.0, call.1, t)
  {
    hide Map, Apply, Touched, ObjectMap.Good, View.Stripes, Options.Valid, MapStripe, StripeById, TargetsAt, CallObject, Recorded;
    var (oid, op) := CallOf(task).value;
    match task {
      case Append(_, _, pc) => Records(core, pc.v.view, oid, op, t);
      case Point(_, _, pc) => Records(core, pc.v.view, oid, op, t);
      case TrimTo(_, pc) => Records(core, pc.v.view, oid, op, t);
      case Propose(pc) => Records(core, pc.v.view, oid, op, t);
      case Init(_, pc) => Records(core, pc.v.view, oid, op, t);
      case _ =>
    }
  }

  /** The stores give the same reply to the task's next call. */
  ghost predicate SameReply(a: Core, b: Core, task: Task) {
    && a.views == b.views
    && (CallOf(task).Some? ==>
          var (oid, op) := CallOf(task).value;
          Apply(a.store, oid, op).0 == Apply(b.store, oid, op).0)
  }

  /** The steps go on alike. */
  ghost predicate Alike(x: (Core, Task), y: (Core, Task)) {
    x.1 == y.1 && x.0.views == y.0.views
  }

  lemma {:induction false} AppendDecides(a: Core, b: Core, client: Client, task: Task, t: nat, fail: bool)
    requires task.Append? && SameReply(a, b, task)
    ensures Alike(StepAppend(a, client, task, t, fail), StepAppend(b, client, task, t, fail))
  {
    hide Map, Apply, Touched, ObjectMap.Good, View.Stripes;
  }

  lemma {:induction false} PointDecides(a: Core, b: Core, client: Client, task: Task, t: nat, fail: bool)
    requires task.Point? && SameReply(a, b, task)
    ensures Alike(StepPoint(a, client, task, t, fail), StepPoint(b, client, task, t, fail))
  {
    hide Map, Apply, Touched, ObjectMap.Good, View.Stripes;
  }

  lemma {:induction false} TrimToDecides(a: Core, b: Core, client: Client, task: Task, t: nat, fail: bool)
    requires task.TrimTo? && SameReply(a, b, task)
    ensures Alike(StepTrimTo(a, client, task, t, fail), StepTrimTo(b, client, task, t, fail))
  {
    hide Map, Apply, Touched, ObjectMap.Good, View.Stripes, TargetsAt;
  }

  lemma {:induction false} ProposeDecides(a: Core, b: Core, client: Client, c: nat, task: Task, t: nat, fail: bool)
    requires task.Propose? && SameReply(a, b, task)
    ensures Alike(StepPropose(a, client, c, task, t, fail), StepPropose(b, client, c, task, t, fail))
  {
    hide Apply, Touched, ObjectMap.Good, View.Stripes, StripeById;
  }

  /** A task goes on as the reply tells it: to a task, two stores that give the same reply are the same. */
  lemma {:induction false} ReplyDecides(a: Core, b: Core, client: Client, c: nat, task: Task, t: nat, fail: bool)
    requires task.Update? && task.change.Expanding? ==> task.change.options.Valid()
    requires SameReply(a, b, task)
    ensures Alike(StepTask(a, client, c, task, t, fail), StepTask(b, client, c, task, t, fail))
  {
    hide StepAppend, StepPoint, StepTrimTo, StepPropose, Apply, Touched, ObjectMap.Good, View.Stripes, Changed, CallOf,
         Options.Valid, MapStripe, StripeById;
    match task {
      case Append(_, _, _) => AppendDecides(a, b, client, task, t, fail);
      case Point(_, _, _) => PointDecides(a, b, client, task, t, fail);
      case TrimTo(_, _) => TrimToDecides(a, b, client, task, t, fail);
      case Propose(_) => ProposeDecides(a, b, client, c, task, t, fail);
      case _ =>
    }
  }

  // ----- what the calls are ----------------------------------------------------------------------

  /** Calls as the object map directs them; `l` are the stripes of the latest view. */
  ghost predicate Directed(l: seq<Stripe>, oid: Oid, op: Op)
    requires WellFormed(l)
  {
    && Owns(l, oid)
    && (op.Seal? ==> op.epoch > 0)
    && (Guarded(op) ==> op.epoch > 0 && Targeted(l, oid, op))
  }

  lemma {:induction false} DirectedLater(core: Core, v: VersionedView, oid: Oid, op: Op)
    requires CoreOk(core) && Committed(core.views, v) && Directed(v.view.Stripes(), oid, op)
    ensures Directed(Latest(core).Stripes(), oid, op)
  {
    hide ViewsOk, StoreOk, LogOk, EventsOk, HandedOff, WritesOk, View.Stripes, ObjectMap.Good, Targeted, WellFormed;
    CoreViews(core);
    LatestKeeps(core, v);
    if Guarded(op) { TargetedLater(v.view.Stripes(), Latest(core).Stripes(), oid, op); }
  }

  lemma {:induction false} MappedDirected(core: Core, v: VersionedView, p: nat, op: Op)
    requires CoreOk(core) && Committed(core.views, v) && Mapped(v, p, op).Some?
    requires op.Seal? || (Guarded(op) && op.pos == p && (op.Trim? ==> !op.limit && !op.full))
    requires op.epoch == v.epoch
    ensures Directed(Latest(core).Stripes(), Mapped(v, p, op).value.0, op)
  {
    hide CoreOk, View.Stripes, ObjectMap.Good, Map, Targeted, WellFormed, Holds;
    var oid := Mapped(v, p, op).value.0;
    HoldsOwned(v.view, p, oid);
    if Guarded(op) { PointTargeted(v.view, p, oid, op); }
    DirectedLater(core, v, oid, op);
  }

  lemma {:induction false} HoldsOwned(v: View, p: nat, oid: Oid)
    requires Map(v.om, p).0 == Some(oid)
    ensures Owns(v.Stripes(), oid)
  {
    hide Map, View.Stripes, ObjectMap.Good;
    MapIs(v, p);
  }

  lemma {:induction false} StripeDirected(core: Core, v: VersionedView, k: nat, i: nat, op: Op)
    requires CoreOk(core) && Committed(core.views, v) && StripeCall(v, k, i, op).Some?
    requires op.MaxPos? || (op.Seal? && op.epoch > 0)
    ensures Directed(Latest(core).Stripes(), Oid(k, i), op)
  {
    hide CoreOk, View.Stripes, ObjectMap.Good, StripeById, WellFormed;
    StripeIs(v.view, k);
    DirectedLater(core, v, Oid(k, i), op);
  }

  lemma {:induction false} ScanDirected(core: Core, v: VersionedView, k: nat, i: nat, limit: nat)
    requires CoreOk(core) && Committed(core.views, v) && k < v.view.om.nextStripeId && i < |TargetsAt(v.view, k, limit)|
    ensures var (oid, full) := TargetsAt(v.view, k, limit)[i];
            Directed(Latest(core).Stripes(), oid, Op.Trim(v.epoch, limit, true, full))
  {
    hide CoreOk, View.Stripes, ObjectMap.Good, StripeById, WellFormed, Targets, Targeted;
    StripeIs(v.view, k);
    RangeTargeted(v.view.Stripes(), k, limit, i, v.epoch);
    var (oid, full) := TargetsAt(v.view, k, limit)[i];
    DirectedLater(core, v, oid, Op.Trim(v.epoch, limit, true, full));
  }

  /** Every call of the protocol goes where the object map directs it. */
  lemma {:induction false} CallsDirected(core: Core, client: Client, token: nat, task: Task)
    requires CoreOk(core) && TaskOk(core, client, token, task) && CallOf(task).Some?
    ensures var (oid, op) := CallOf(task).value; Directed(Latest(core).Stripes(), oid, op)
  {
    hide CoreOk, Directed, Map, ObjectMap.Good, View.Stripes, TargetsAt, StripeById, SealedFrom, Quiet, Scanned, SealedAbove,
         TrimmedTo, PositionOk, Replay, WellFormed;
    match task {
      case Append(data, pos, pc) =>
        if pc.ACall? { MappedDirected(core, pc.v, pos.value.1, Op.Write(pc.v.epoch, pos.value.1, data)); }
        else { MappedDirected(core, pc.v, pos.value.1, Op.Seal(pc.v.epoch, None)); }
      case Point(kind, at, pc) =>
        if pc.PCall? { MappedDirected(core, pc.v, at, PointOp(kind, pc.v.epoch, at)); }
        else { MappedDirected(core, pc.v, at, Op.Seal(pc.v.epoch, None)); }
      case TrimTo(limit, pc) =>
        if pc.TScan? { ScanDirected(core, pc.v, pc.k, pc.i, limit); } else { TSealDirected(core, limit, pc); }
      case Propose(pc) =>
        if pc.QSeal? { StripeDirected(core, pc.v, pc.k, pc.i, Op.Seal(pc.v.epoch + 1, None)); }
        else { StripeDirected(core, pc.v, pc.k, pc.i, Op.MaxPos); }
      case Init(_, pc) => StripeDirected(core, pc.v, pc.k, pc.i, Op.Seal(pc.v.epoch, None));
      case _ =>
    }
  }

  lemma {:induction false} TSealDirected(core: Core, limit: nat, pc: TrimToPc)
    requires CoreOk(core) && pc.TSeal? && TrimToOk(core, limit, pc)
    ensures Directed(Latest(core).Stripes(), pc.oid, Op.Seal(pc.v.epoch, None))
  {
    hide CoreOk, View.Stripes, ObjectMap.Good, WellFormed;
    DirectedLater(core, pc.v, pc.oid, Op.Seal(pc.v.epoch, None));
  }
}
