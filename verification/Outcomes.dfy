/**
  What the operations answer and do, in terms of the log's content: the step with which a read, fill,
  trim or append ends, and what an append does when its write is refused.
  */
module Outcomes {
  import opened Common
  import opened Stripes
  import opened PlainLists
  import opened ObjectMaps
  import opened Views
  import opened Cells
  import opened Ram
  import opened Protocol
  import opened History
  import opened CoreSteps
  import opened Threads
  import opened Runs
  import opened Theorems
  import opened Calls

  // ----- one step of one thread ------------------------------------------------------------------

  /** The thread is about to use a sequencer. */
  predicate AtTail(task: Task) {
    (task.Append? && task.apc.ATail?) || (task.Tail? && task.lpc.LTake?)
  }

  /** A thread's step changes the shared state and its own task, nothing else. */
  lemma {:induction false} RunIs(s: State, t: nat, fail: bool)
    requires Inv(s) && t < |s.threads| && !AtTail(s.threads[t].task)
    ensures ThreadFormed(s.threads[t], |s.clients|)
    ensures var c, task := s.threads[t].client, s.threads[t].task;
            var (core, task') := StepTask(s.core, s.clients[c], c, task, t, fail);
            Do(s, Run(t, fail)) == s.(core := core, threads := s.threads[t := Thread(c, task')])
  {
    hide Inv, StepTask;
    InvFormed(s);
  }

  /** The core of a state, before and after a step. */
  lemma {:induction false} Cores(s: State, step: Step)
    requires Inv(s)
    ensures CoreOk(s.core) && CoreOk(Do(s, step).core) && |s.core.views| > 0 && |Do(s, step).core.views| > 0
    ensures Inv(Do(s, step))
  {
    hide Inv, Do, CoreOk;
    InvFormed(s);
    DoStep(s, step);
    InvCore(s);
    InvCore(Do(s, step));
    SomeView(s.core);
    SomeView(Do(s, step).core);
  }

  lemma {:induction false} SomeView(core: Core)
    requires CoreOk(core)
    ensures |core.views| > 0
  {
    hide StoreOk, LogOk, EventsOk, HandedOff, WritesOk, Follows, Extends, ConfigOk;
  }

  // ----- a call and the content of the log -------------------------------------------------------

  /** Calls about one position. */
  predicate Single(op: Op) {
    Guarded(op) && !(op.Trim? && op.limit)
  }

  /** Why a call is not admitted by its object. */
  predicate Missing(core: Core, oid: Oid) {
    oid !in core.store
  }

  predicate Stale(core: Core, oid: Oid, epoch: nat) {
    oid in core.store && core.store[oid].epoch > epoch
  }

  /** The reply to a call: the object is missing, or is sealed, or the content decides. */
  lemma {:induction false} ReplyIs(core: Core, oid: Oid, op: Op)
    requires CoreOk(core) && Single(op) && op.epoch > 0 && Targeted(Latest(core).Stripes(), oid, op)
    ensures Apply(core.store, oid, op).0 ==
            if Missing(core, oid) then Code(ENOENT)
            else if Stale(core, oid, op.epoch) then Code(ESPIPE)
            else Answer(Content(core, op.pos), op)
  {
    hide LogOk, EventsOk, HandedOff, WritesOk, Follows, Extends, ConfigOk, StoreOk, Apply, Answer, CellAt, Map, View.Stripes, ObjectMap.Good;
    ReplyFrom(Latest(core).Stripes(), |core.views|, core.store, oid, op);
    SingleHeld(Latest(core).Stripes(), oid, op);
    MapIs(Latest(core), op.pos);
  }

  lemma {:induction false} SingleHeld(l: seq<Stripe>, oid: Oid, op: Op)
    requires WellFormed(l) && Single(op) && Targeted(l, oid, op)
    ensures Holds(l, oid, op.pos) && Coherent(op)
  {
    hide WellFormed, Holds;
  }

  /** The content of the log after a call about one position. */
  lemma {:induction false} ContentAfter(a: Core, b: Core, oid: Oid, op: Op, q: nat)
    requires CoreOk(a) && CoreOk(b) && b.views == a.views && Single(op)
    requires Targeted(Latest(a).Stripes(), oid, op) && b.store == Apply(a.store, oid, op).1
    ensures |a.views| > 0
    ensures Content(b, q) == if Apply(a.store, oid, op).0.ret.Success? then Next(Content(a, q), op, q) else Content(a, q)
  {
    hide LogOk, EventsOk, HandedOff, WritesOk, Follows, Extends, ConfigOk, StoreOk, Apply, CellAt, Map, View.Stripes, ObjectMap.Good,
         Targeted;
    var l := Latest(a).Stripes();
    MapIs(Latest(a), q);
    SingleHeld(l, oid, op);
    if Apply(a.store, oid, op).0.ret.Success? {
      if Map(Latest(a).om, q).0.Some? {
        var o := Map(Latest(a).om, q).0.value;
        CallOnCells(l, |a.views|, a.store, oid, op, o, q);
        OnlyThere(l, oid, o, op, q, Content(a, q));
      } else {
        OnlyThere(l, oid, oid, op, q, Content(a, q));
      }
    } else {
      CallChangesNothing(a.store, oid, op);
    }
  }

  /** A call about one position changes no other, and its position is in its own object only. */
  lemma {:induction false} OnlyThere(l: seq<Stripe>, oid: Oid, o: Oid, op: Op, q: nat, c: Cell)
    requires WellFormed(l) && Single(op) && Holds(l, oid, op.pos)
    requires Holds(l, o, q) || forall x :: !Holds(l, x, q)
    ensures o != oid || (forall x :: !Holds(l, x, q)) ==> Next(c, op, q) == c
  {
    LocateIsHolds(l, q);
    hide WellFormed, Holds, Locate;
  }

  // ----- reads, fills and trims ------------------------------------------------------------------

  /** What an operation on a position that holds `c` returns. */
  function PointReply(kind: PointKind, c: Cell): Reply {
    match kind
    case PRead =>
      (match c
       case Data(bytes) => Reply(Success, bytes, None)
       case Invalid => Code(ENODATA)
       case Unwritten => Code(ENOENT))
    case PFill => Code(if c.Data? then EROFS else Success)
    case PTrim => Code(Success)
  }

  /** What it leaves there: a fill makes a hole of an unwritten position only, a trim invalidates. */
  function PointCell(kind: PointKind, c: Cell): Cell {
    match kind
    case PRead => c
    case PFill => if c.Unwritten? then Invalid else c
    case PTrim => Invalid
  }

  /** The content of the log has changed at `p` only, to `c`. */
  ghost predicate OnlyAt(a: Core, b: Core, p: nat, c: Cell)
    requires |a.views| > 0 && |b.views| > 0
  {
    forall q: nat :: Content(b, q) == if q == p then c else Content(a, q)
  }

  /** The kinds of operation are told apart by what their call means for the log. */
  lemma {:induction false} PointMeans(kind: PointKind, epoch: nat, p: nat, c: Cell)
    ensures var op := PointOp(kind, epoch, p);
            && Single(op) && op.pos == p && op.epoch == epoch
            && Answer(c, op) == (if kind.PRead? && c.Unwritten? then Code(ERANGE) else PointReply(kind, c))
            && (Answer(c, op).ret.Success? ==> Next(c, op, p) == PointCell(kind, c))
            && (!Answer(c, op).ret.Success? ==> PointCell(kind, c) == c)
            && forall q: nat, d: Cell :: q != p ==> Next(d, op, q) == d
  {
  }

  /** What a read, fill or trim that has a view does next, by what it finds at its position. */
  function AfterPoint(core: Core, task: Task, v: VersionedView, fail: bool): Task
    requires task.Point? && |core.views| > 0
  {
    match Map(v.view.om, task.at).0
    case None => task.(ppc := if fail then PDone(Code(EIO)) else PStart)
    case Some(oid) =>
      if Missing(core, oid) then task.(ppc := PSeal(v))
      else if Stale(core, oid, v.epoch) then task.(ppc := PStart)
      else task.(ppc := PDone(PointReply(task.kind, Content(core, task.at))))
  }

  /** The step in which a read, fill or trim makes its call. */
  lemma {:induction false} PointCalls(core: Core, client: Client, c: nat, task: Task, t: nat, fail: bool, core': Core, task': Task)
    requires CoreOk(core) && CoreOk(core') && task.Point? && task.ppc.PCall? && TaskOk(core, client, c, task)
    requires StepPoint(core, client, task, t, fail) == (core', task')
    ensures |core.views| > 0 && |core'.views| > 0 && task'.Point? && task' == AfterPoint(core, task, task.ppc.v, fail)
    ensures CallOf(task).None? ==> core' == core
    ensures OnlyAt(core, core', task.at,
                   if CallOf(task).Some? && task'.ppc.PDone? then PointCell(task.kind, Content(core, task.at)) else Content(core, task.at))
  {
    hide CoreOk, Apply, Map, Content, ObjectMap.Good, View.Stripes, Targeted, Touched, CallObject, PointOp, PointCell, Answer, Next;
    SomeView(core);
    var v, p := task.ppc.v, task.at;
    if Map(v.view.om, p).0.Some? {
      var oid, op := Map(v.view.om, p).0.value, PointOp(task.kind, v.epoch, p);
      PointMeans(task.kind, v.epoch, p, Content(core, p));
      CallsDirected(core, client, c, task);
      Records(core, v.view, oid, op, t);
      ReplyIs(core, oid, op);
      SomeView(core');
      forall q: nat
        ensures Content(core', q) == if q == p && task'.ppc.PDone? then PointCell(task.kind, Content(core, p)) else Content(core, q)
      {
        ContentAfter(core, core', oid, op, q);
      }
    }
  }

  /** A thread that has been sealing a missing object does not end with that step. */
  lemma {:induction false} PointSealGoesOn(core: Core, client: Client, c: nat, task: Task, t: nat, fail: bool)
    requires CoreOk(core) && task.Point? && task.ppc.PSeal? && TaskOk(core, client, c, task)
    ensures !StepPoint(core, client, task, t, fail).1.ppc.PDone?
  {
    hide CoreOk, Map, ObjectMap.Good, View.Stripes, Touched;
    if Map(task.ppc.v.view.om, task.at).0.Some? {
      SealObject(core.store, Map(task.ppc.v.view.om, task.at).0.value, task.ppc.v.epoch);
    }
  }

  /**
    How a read, fill or trim of `p` ends. Either it fails because its view could not be expanded, and
    changes nothing; or the content of `p` at that moment decides the reply: a read returns the data,
    ENODATA where the position is invalid and ENOENT where nothing was written; a fill is refused with
    EROFS where there are data; and only `p` changes, by a fill of an unwritten position and by a trim.
    */
  lemma {:induction false} PointEnds(s: State, t: nat, fail: bool, reply: Reply)
    requires Reachable(s) && t < |s.threads| && s.threads[t].task.Point? && !s.threads[t].task.ppc.PDone?
    requires Do(s, Run(t, fail)).threads[t].task == s.threads[t].task.(ppc := PDone(reply))
    ensures var core, core', task := s.core, Do(s, Run(t, fail)).core, s.threads[t].task;
            && |core.views| > 0 && |core'.views| > 0
            && (|| (reply == Code(EIO) && fail && core' == core
                    && task.ppc.PCall? && Map(task.ppc.v.view.om, task.at).0.None?)
                || (reply == PointReply(task.kind, Content(core, task.at))
                    && OnlyAt(core, core', task.at, PointCell(task.kind, Content(core, task.at)))))
  {
    hide Reachable, Precedes, Inv, CoreOk, Do, StepPoint, TaskOk, Map, Content, OnlyAt, ObjectMap.Good, PointReply, PointCell;
    ReachableInv(s);
    Cores(s, Run(t, fail));
    RunIs(s, t, fail);
    ThreadTask(s, t);
    var c, task, client := s.threads[t].client, s.threads[t].task, s.clients[s.threads[t].client];
    match task.ppc {
      case PCall(_) => PointCalls(s.core, client, c, task, t, fail, Do(s, Run(t, fail)).core, task.(ppc := PDone(reply)));
      case PSeal(_) => PointSealGoesOn(s.core, client, c, task, t, fail);
      case _ => PointStarts(s.core, client, task, t, fail);
    }
  }

  /**
    A read, fill or trim that has a view: where the object is missing it goes on to create it, where it is
    sealed it starts again with a newer view, and otherwise it ends; it changes nothing else.
    */
  lemma {:induction false} PointTries(s: State, t: nat, fail: bool)
    requires Reachable(s) && t < |s.threads| && s.threads[t].task.Point? && s.threads[t].task.ppc.PCall?
    ensures var task, s' := s.threads[t].task, Do(s, Run(t, fail));
            && |s.core.views| > 0 && |s'.core.views| > 0 && t < |s'.threads|
            && s'.threads[t].task == AfterPoint(s.core, task, task.ppc.v, fail)
            && OnlyAt(s.core, s'.core, task.at,
                      if Map(task.ppc.v.view.om, task.at).0.Some? && s'.threads[t].task.ppc.PDone?
                      then PointCell(task.kind, Content(s.core, task.at)) else Content(s.core, task.at))
  {
    hide Reachable, Precedes, Inv, CoreOk, Do, StepPoint, TaskOk, Map, Content, OnlyAt, ObjectMap.Good, AfterPoint;
    ReachableInv(s);
    Cores(s, Run(t, fail));
    RunIs(s, t, fail);
    ThreadTask(s, t);
    var c, task, s' := s.threads[t].client, s.threads[t].task, Do(s, Run(t, fail));
    PointCalls(s.core, s.clients[c], c, task, t, fail, s'.core, s'.threads[t].task);
  }

  lemma {:induction false} PointStarts(core: Core, client: Client, task: Task, t: nat, fail: bool)
    requires task.Point? && task.ppc.PStart?
    ensures StepPoint(core, client, task, t, fail)
         == (core, task.(ppc := if client.view.None? then PStart else PCall(client.view.value)))
  {
  }

  // ----- appends ---------------------------------------------------------------------------------

  /** What an append that holds position `p` does next, by what it finds there. */
  function AfterWrite(core: Core, task: Task, v: VersionedView, p: nat, fail: bool): Task
    requires task.Append? && |core.views| > 0
  {
    match Map(v.view.om, p).0
    case None => task.(apc := if fail then ADone(EIO) else AStart)
    case Some(oid) =>
      if Missing(core, oid) then task.(apc := ASeal(v))
      else if Stale(core, oid, v.epoch) then task.(apc := AStart)
      else if Content(core, p).Unwritten? then task.(apc := ADone(Success))
      else task.(apc := AStart, pos := None)
  }

  lemma {:induction false} AppendWrites(core: Core, client: Client, c: nat, task: Task, t: nat, fail: bool, core': Core, task': Task)
    requires CoreOk(core) && task.Append? && task.apc.ACall? && task.pos.Some? && TaskOk(core, client, c, task)
    requires CoreOk(core') && StepAppend(core, client, task, t, fail) == (core', task')
    ensures var p := task.pos.value.1;
            && |core.views| > 0 && |core'.views| > 0 && task'.Append?
            && task' == AfterWrite(core, task, task.apc.v, p, fail)
            && OnlyAt(core, core', p, if task'.apc == ADone(Success) then Data(task.data) else Content(core, p))
  {
    hide CoreOk, Apply, Map, Content, ObjectMap.Good, View.Stripes, Targeted, Touched, CallObject, Next, PositionOk, HeldOk;
    SomeView(core);
    var v, p := task.apc.v, task.pos.value.1;
    if Map(v.view.om, p).0.Some? {
      var oid, op := Map(v.view.om, p).0.value, Op.Write(v.epoch, p, task.data);
      CallsDirected(core, client, c, task);
      Records(core, v.view, oid, op, t);
      ReplyIs(core, oid, op);
      SomeView(core');
      forall q: nat
        ensures Content(core', q) == if q == p && Apply(core.store, oid, op).0.ret.Success? then Data(task.data) else Content(core, q)
      {
        ContentAfter(core, core', oid, op, q);
        WriteNext(Content(core, q), op, q, Content(core, p));
      }
    }
  }

  lemma {:induction false} WriteNext(c: Cell, op: Op, q: nat, d: Cell)
    requires op.Write?
    ensures q != op.pos ==> Next(c, op, q) == c
    ensures c.Unwritten? ==> Next(c, op, op.pos) == Data(op.data)
    ensures Answer(d, op).ret.Success? <==> d.Unwritten?
  {
  }

  /**
    An append with a position: where the object is missing it creates it, where it is sealed it starts
    again, and keeps its position both times; where nothing was written it writes its data and ends with
    0; where something was done before it gives the position up, to take a new one.
    */
  lemma {:induction false} AppendTries(s: State, t: nat, fail: bool)
    requires Reachable(s) && t < |s.threads| && s.threads[t].task.Append?
    requires s.threads[t].task.apc.ACall? && s.threads[t].task.pos.Some?
    ensures var task, s' := s.threads[t].task, Do(s, Run(t, fail));
            var p := task.pos.value.1;
            && |s.core.views| > 0 && |s'.core.views| > 0 && t < |s'.threads|
            && s'.threads[t].task == AfterWrite(s.core, task, task.apc.v, p, fail)
            && OnlyAt(s.core, s'.core, p,
                      if s'.threads[t].task.apc == ADone(Success) then Data(task.data) else Content(s.core, p))
  {
    hide Reachable, Precedes, Inv, CoreOk, Do, StepAppend, TaskOk, Map, Content, OnlyAt, ObjectMap.Good, AfterWrite;
    ReachableInv(s);
    Cores(s, Run(t, fail));
    RunIs(s, t, fail);
    ThreadTask(s, t);
    var c, task, s' := s.threads[t].client, s.threads[t].task, Do(s, Run(t, fail));
    AppendWrites(s.core, s.clients[c], c, task, t, fail, s'.core, s'.threads[t].task);
  }

  /** The steps of an append that call no backend, or only create an object, change no content. */
  lemma {:induction false} AppendOther(core: Core, client: Client, c: nat, task: Task, t: nat, fail: bool)
    requires CoreOk(core) && task.Append? && !task.apc.ACall? && !task.apc.ADone? && TaskOk(core, client, c, task)
    ensures var task' := StepAppend(core, client, task, t, fail).1;
            && task'.Append? && task'.pos == task.pos && task'.data == task.data
            && (task'.apc.ADone? ==> task'.apc == ADone(EIO) && task.apc.AStart?
                                     && client.view.Some? && client.view.value.sequencer.None?)
  {
    hide CoreOk, Map, ObjectMap.Good, View.Stripes, Touched, PositionOk, HeldOk;
    if task.apc.ASeal? && task.pos.Some? && Map(task.apc.v.view.om, task.pos.value.1).0.Some? {
      SealObject(core.store, Map(task.apc.v.view.om, task.pos.value.1).0.value, task.apc.v.epoch);
    }
  }

  /**
    How an append ends: with 0, its data written where nothing was written before; or with EIO, when its
    client's view has no sequencer or its view could not be expanded. No other outcome exists.
    */
  lemma {:induction false} AppendEnds(s: State, t: nat, fail: bool, ret: Ret)
    requires Reachable(s) && t < |s.threads| && s.threads[t].task.Append? && !s.threads[t].task.apc.ADone?
    requires Do(s, Run(t, fail)).threads[t].task.Append? && Do(s, Run(t, fail)).threads[t].task.apc == ADone(ret)
    ensures var core, core', task, task' := s.core, Do(s, Run(t, fail)).core, s.threads[t].task, Do(s, Run(t, fail)).threads[t].task;
            && |core.views| > 0 && |core'.views| > 0 && task'.pos == task.pos
            && (|| (ret == EIO && task.apc.AStart?
                    && s.threads[t].client < |s.clients| && s.clients[s.threads[t].client].view.Some?
                    && s.clients[s.threads[t].client].view.value.sequencer.None?)
                || (ret == EIO && fail && task.apc.ACall? && task.pos.Some?
                    && Map(task.apc.v.view.om, task.pos.value.1).0.None?)
                || (ret == Success && task.pos.Some? && Content(core, task.pos.value.1) == Unwritten
                    && OnlyAt(core, core', task.pos.value.1, Data(task.data))))
  {
    hide Reachable, Precedes, Inv, CoreOk, Do, StepAppend, TakePosition, Map, Content, OnlyAt, ObjectMap.Good, Missing, Stale;
    ReachableInv(s);
    Cores(s, Run(t, fail));
    ThreadTask(s, t);
    var c, task := s.threads[t].client, s.threads[t].task;
    if task.apc.ATail? {
      TakesStay(s, t, fail);
    } else if task.apc.ACall? {
      HasPosition(s, t);
      AppendTries(s, t, fail);
    } else {
      RunIs(s, t, fail);
      AppendOther(s.core, s.clients[c], c, task, t, fail);
    }
  }

  lemma {:induction false} HasPosition(s: State, t: nat)
    requires Inv(s) && t < |s.threads| && s.threads[t].task.Append? && s.threads[t].task.apc.ACall?
    ensures s.threads[t].task.pos.Some?
  {
    hide CoreOk, ClientsOk, OnceOk, IssuedOk, PositionOk, HeldOk, ObjectMap.Good;
    assert ThreadOk(s.core, s.clients, s.threads[t]);
  }

  /** Taking a position does not end an append. */
  lemma {:induction false} TakesStay(s: State, t: nat, fail: bool)
    requires Inv(s) && t < |s.threads| && s.threads[t].task.Append? && s.threads[t].task.apc.ATail?
    requires s.threads[t].client < |s.clients|
    ensures var s' := TakePosition(s, t);
            && Do(s, Run(t, fail)) == s'
            && |s'.threads| == |s.threads| && s'.threads[t].task.Append? && !s'.threads[t].task.apc.ADone?
  {
    hide Inv, StepTask, Bumped;
    InvFormed(s);
  }

  // ----- creating objects ------------------------------------------------------------------------

  /** The epoch of the view in which an operation creates objects. */
  function CreatingEpoch(task: Task): nat {
    match task
    case Append(_, _, ASeal(v)) => v.epoch
    case Point(_, _, PSeal(v)) => v.epoch
    case TrimTo(_, TSeal(v, _)) => v.epoch
    case Init(_, ISeal(v, _, _)) => v.epoch
    case _ => 0
  }

  /** Where an operation goes on after it has created a missing object. */
  function AfterSeal(task: Task, created: bool): Task {
    match task
    case Append(_, _, ASeal(v)) => task.(apc := if created then ACall(v) else AStart)
    case Point(_, _, PSeal(_)) => task.(ppc := PStart)
    case TrimTo(_, TSeal(_, _)) => task.(tpc := TStart)
    case Init(_, ISeal(v, k, i)) => task.(ipc := ISeal(v, k, i + 1))
    case _ => task
  }

  /**
    An operation that found no object, or initialises a stripe, creates the object with exactly its view's
    epoch, so that its next call there is not stale unless somebody else sealed the object, and does not end.
    */
  lemma {:induction false} MissingIsCreated(core: Core, client: Client, c: nat, task: Task, t: nat, fail: bool)
    requires CoreOk(core) && TaskOk(core, client, c, task) && CallOf(task).Some? && CallOf(task).value.1.Seal?
    requires !task.Propose? && !task.Update?
    ensures var (core', task') := StepTask(core, client, c, task, t, fail);
            var oid, e := CallOf(task).value.0, CreatingEpoch(task);
            && e > 0 && oid in core'.store
            && core'.store[oid].epoch == (if Missing(core, oid) then e else Max(e, core.store[oid].epoch))
            && (forall o, p: nat :: CellAt(core'.store, o, p) == CellAt(core.store, o, p))
            && task' == AfterSeal(task, Missing(core, oid) || core.store[oid].epoch < e)
  {
    hide CoreOk, Map, ObjectMap.Good, View.Stripes, Touched, PositionOk, HeldOk, TargetsAt, CellAt, TrimmedTo, Replay;
    CallsDirected(core, client, c, task);
    SealObject(core.store, CallOf(task).value.0, CallOf(task).value.1.epoch);
  }
}
