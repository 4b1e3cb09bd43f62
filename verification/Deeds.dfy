/**
  Whose doing an event is, and which results operations can have: what holds of every thread in every
  reachable state.
  */
module Deeds {
  import opened Common
  import opened Stripes
  import opened PlainLists
  import opened ObjectMaps
  import opened Views
  import opened Cells
  import opened Ram
  import opened Protocol
  import opened History
  import opened CoreSteps
  import opened Handoff
  import opened Threads
  import opened TaskSteps
  import opened Runs
  import opened Theorems
  import opened Calls
  import opened Outcomes

  // ----- whose doing -----------------------------------------------------------------------------

  /** The operation that makes such a call: appends write, fills fill, and only trims trim. */
  predicate Made(op: Op, task: Task) {
    match op
    case Write(_, pos, data) => task.Append? && task.data == data
    case Fill(_, pos) => task.Point? && task.kind.PFill? && task.at == pos
    case Trim(_, pos, limit, _) =>
      if limit then task.TrimTo? && task.upTo == pos else task.Point? && task.kind.PTrim? && task.at == pos
    case _ => false
  }

  ghost predicate EventsMade(hist: seq<Event>, threads: seq<Thread>) {
    forall j :: 0 <= j < |hist| ==> hist[j].thread < |threads| && Made(hist[j].op, threads[hist[j].thread].task)
  }

  /** What a task was asked to do does not change. */
  predicate SameJob(a: Task, b: Task) {
    match a
    case Append(data, _, _) => b.Append? && b.data == data
    case Point(kind, at, _) => b.Point? && b.kind == kind && b.at == at
    case TrimTo(limit, _) => b.TrimTo? && b.upTo == limit
    case Propose(_) => b.Propose?
    case Update(change, _) => b.Update? && b.change == change
    case Init(target, _) => b.Init? && b.target == target
    case Tail(increment, _) => b.Tail? && b.increment == increment
  }

  lemma {:induction false} JobKept(core: Core, client: Client, c: nat, task: Task, t: nat, fail: bool)
    requires task.Update? && task.change.Expanding? ==> task.change.options.Valid()
    ensures SameJob(task, StepTask(core, client, c, task, t, fail).1)
  {
    hide Map, CallObject, ObjectMap.Good, View.Stripes, Changed, Options.Valid, MapStripe, StripeById, TargetsAt, CallPropose;
  }

  /** A call that is recorded is one that its task makes. */
  lemma {:induction false} CallIsMade(task: Task)
    requires CallOf(task).Some? && Guarded(CallOf(task).value.1) && !CallOf(task).value.1.Read?
    ensures Made(CallOf(task).value.1, task)
  {
    hide Map, TargetsAt, StripeById;
  }

  lemma {:induction false} MadeKept(op: Op, a: Task, b: Task)
    requires Made(op, a) && SameJob(a, b)
    ensures Made(op, b)
  {
  }

  lemma {:induction false} EventsKept(a: Core, b: Core, threads: seq<Thread>, t: nat, task: Task)
    requires EventsMade(a.hist, threads) && t < |threads| && SameJob(threads[t].task, task)
    requires match CallOf(threads[t].task)
             case None => b.hist == a.hist
             case Some(call) => Recorded(a, b, call.0, call.1, t)
    ensures EventsMade(b.hist, threads[t := Thread(threads[t].client, task)])
  {
    hide Made, SameJob, CallOf, Apply;
    var threads' := threads[t := Thread(threads[t].client, task)];
    forall j | 0 <= j < |b.hist| ensures b.hist[j].thread < |threads'| && Made(b.hist[j].op, threads'[b.hist[j].thread].task) {
      if j < |a.hist| {
        assert b.hist[j] == a.hist[j];
        if a.hist[j].thread == t { MadeKept(a.hist[j].op, threads[t].task, task); }
      } else {
        CallIsMade(threads[t].task);
        MadeKept(b.hist[j].op, threads[t].task, task);
      }
    }
  }

  // ----- results ---------------------------------------------------------------------------------

  /** The first `i` objects of stripe `k` exist, with an epoch of at least `e`. */
  ghost predicate CreatedTo(store: Store, k: nat, i: nat, e: nat) {
    forall j: nat :: j < i ==> Oid(k, j) in store && store[Oid(k, j)].epoch >= e
  }

  /** What an operation of client `c` may have come to. */
  ghost predicate ResultOk(core: Core, c: nat, task: Task)
    requires |core.views| > 0
  {
    match task
    case Append(_, _, pc) => pc.ADone? ==> pc.ret.Success? || pc.ret.EIO?
    case Point(kind, _, pc) => pc.PDone? ==> pc.reply == Code(EIO) || exists cell: Cell :: pc.reply == PointReply(kind, cell)
    case TrimTo(limit, pc) =>
      && (pc.TScan? ==> limit < pc.v.view.om.minValid)
      && (pc.TDone? ==> pc.ret.EIO? || (pc.ret.Success? && limit < Latest(core).om.minValid))
    case Propose(pc) =>
      pc.QDone? && pc.won.Some? ==>
        && 1 < pc.won.value <= |core.views|
        && core.views[pc.won.value - 1].config.Some?
        && core.views[pc.won.value - 1].config.value.epoch == pc.won.value
        && core.views[pc.won.value - 1].config.value.token == c
    case Init(target, pc) =>
      && (pc.ISeal? ==> InitOk(core.store, pc.v.view.Stripes(), target, pc.k, pc.i, pc.v.epoch))
      && (pc.IDone? && pc.stripe.Some? ==> InitDone(core.store, Latest(core).Stripes(), target, pc.stripe.value))
    case Tail(_, pc) => pc.LDone? ==> (pc.ret.Success? && pc.tail.Some?) || (pc.ret.EIO? && pc.tail.None?)
    case Update(_, _) => true
  }

  ghost predicate InitOk(store: Store, l: seq<Stripe>, target: nat, k: nat, i: nat, e: nat) {
    k < |l| && l[k].Has(target) && i <= l[k].width && CreatedTo(store, k, i, e)
  }

  /** All objects of the stripe that has the target exist. */
  ghost predicate InitDone(store: Store, l: seq<Stripe>, target: nat, k: nat) {
    k < |l| && l[k].Has(target) && forall i: nat :: i < l[k].width ==> Oid(k, i) in store
  }

  ghost predicate ResultsOk(core: Core, threads: seq<Thread>)
    requires |core.views| > 0
  {
    forall t :: 0 <= t < |threads| ==> ResultOk(core, threads[t].client, threads[t].task)
  }

  /** Other threads cannot change what an operation has come to. */
  lemma {:induction false} ResultLasts(a: Core, b: Core, c: nat, task: Task)
    requires CoreOk(a) && CoreOk(b) && Grows(a, b) && |a.views| > 0 && |b.views| > 0
    requires ResultOk(a, c, task)
    ensures ResultOk(b, c, task)
  {
    hide CoreOk, Fits, ObjectMap.Good, View.Stripes, PointReply;
    match task {
      case TrimTo(_, _) => LatestGrows(a, b);
      case Init(_, _) => LatestGrows(a, b);
      case _ =>
    }
  }

  lemma {:induction false} LatestGrows(a: Core, b: Core)
    requires CoreOk(a) && CoreOk(b) && Grows(a, b) && |a.views| > 0 && |b.views| > 0
    ensures Latest(a).Stripes() <= Latest(b).Stripes() && Latest(a).om.minValid <= Latest(b).om.minValid
  {
    hide StoreOk, LogOk, EventsOk, HandedOff, WritesOk, Follows, ConfigOk, View.Stripes, ObjectMap.Good, Fits;
    assert Extends(b.views[|a.views| - 1], Latest(b));
  }

  /** A view that an operation works in is not newer than the latest one. */
  lemma {:induction false} WorksInOlder(core: Core, v: VersionedView)
    requires CoreOk(core) && |core.views| > 0 && Committed(core.views, v)
    ensures v.view.Stripes() <= Latest(core).Stripes() && v.view.om.minValid <= Latest(core).om.minValid
  {
    hide StoreOk, LogOk, EventsOk, HandedOff, WritesOk, Follows, ConfigOk, View.Stripes, ObjectMap.Good;
    assert Extends(core.views[v.epoch - 1], Latest(core));
  }

  lemma {:induction false} AppendResult(core: Core, client: Client, c: nat, task: Task, t: nat, fail: bool, core': Core, task': Task)
    requires CoreOk(core) && CoreOk(core') && |core.views| > 0 && |core'.views| > 0
    requires task.Append? && !task.apc.ATail? && TaskOk(core, client, c, task) && ResultOk(core, c, task)
    requires StepAppend(core, client, task, t, fail) == (core', task')
    ensures ResultOk(core', c, task')
  {
    hide CoreOk, Map, ObjectMap.Good, View.Stripes, CallObject, Content, OnlyAt, Missing, Stale, PositionOk, HeldOk;
    if task.apc.ACall? {
      AppendWrites(core, client, c, task, t, fail, core', task');
    } else if !task.apc.ADone? {
      AppendOther(core, client, c, task, t, fail);
    }
  }

  lemma {:induction false} PointResult(core: Core, client: Client, c: nat, task: Task, t: nat, fail: bool, core': Core, task': Task)
    requires CoreOk(core) && CoreOk(core') && |core.views| > 0 && |core'.views| > 0
    requires task.Point? && TaskOk(core, client, c, task) && ResultOk(core, c, task)
    requires StepPoint(core, client, task, t, fail) == (core', task')
    ensures ResultOk(core', c, task')
  {
    hide CoreOk, Map, ObjectMap.Good, View.Stripes, CallObject, Content, OnlyAt, PointReply, PointCell;
    if task.ppc.PCall? && task'.ppc.PDone? {
      PointCalls(core, client, c, task, t, fail, core', task');
    } else if task.ppc.PSeal? {
      PointSealGoesOn(core, client, c, task, t, fail);
    }
  }

  /** A range trim is admitted, or finds its object missing or sealed. */
  lemma {:induction false} RangeReply(core: Core, oid: Oid, op: Op)
    requires CoreOk(core) && op.Trim? && op.limit && op.epoch > 0 && Targeted(Latest(core).Stripes(), oid, op)
    ensures var ret := Apply(core.store, oid, op).0.ret; ret.Success? || ret.ENOENT? || ret.ESPIPE?
  {
    hide LogOk, EventsOk, HandedOff, WritesOk, Follows, Extends, ConfigOk, StoreOk, Apply, CellAt, View.Stripes, ObjectMap.Good, Targeted;
    TargetCoherent(Latest(core).Stripes(), oid, op);
    ReplyFrom(Latest(core).Stripes(), |core.views|, core.store, oid, op);
  }

  lemma {:induction false} TrimToResult(core: Core, client: Client, c: nat, task: Task, t: nat, fail: bool, core': Core, task': Task)
    requires CoreOk(core) && CoreOk(core') && |core.views| > 0 && |core'.views| > 0 && Grows(core, core')
    requires task.TrimTo? && TaskOk(core, client, c, task) && ResultOk(core, c, task)
    requires StepTrimTo(core, client, task, t, fail) == (core', task')
    ensures ResultOk(core', c, task')
  {
    hide CoreOk, Map, ObjectMap.Good, View.Stripes, CallObject, Apply, TargetsAt, TrimmedTo, Replay, Targeted, Fits;
    LatestGrows(core, core');
    match task.tpc {
      case TScan(v, k, i) =>
        WorksInOlder(core, v);
        if CallOf(task).Some? {
          CallsDirected(core, client, c, task);
          var (oid, op) := CallOf(task).value;
          RangeReply(core, oid, op);
          Records(core, v.view, oid, op, t);
        }
      case TSeal(v, oid) =>
        CallsDirected(core, client, c, task);
        SealReply(core.store, oid, v.epoch);
        Records(core, v.view, oid, Op.Seal(v.epoch, None), t);
      case _ =>
    }
  }

  lemma {:induction false} SealReply(st: Store, oid: Oid, e: nat)
    requires e > 0
    ensures var ret := Apply(st, oid, Op.Seal(e, None)).0.ret; ret.Success? || ret.ESPIPE?
  {
  }

  lemma {:induction false} ProposeResult(core: Core, client: Client, c: nat, task: Task, t: nat, fail: bool, core': Core, task': Task)
    requires CoreOk(core) && CoreOk(core') && |core.views| > 0 && |core'.views| > 0 && Grows(core, core')
    requires task.Propose? && TaskOk(core, client, c, task) && ResultOk(core, c, task)
    requires StepPropose(core, client, c, task, t, fail) == (core', task')
    ensures ResultOk(core', c, task')
  {
    hide CoreOk, ObjectMap.Good, View.Stripes, CallObject, StripeById, Fits, SealedFrom, Quiet, Scanned, SealedAbove;
  }

  lemma {:induction false} InitSealed(core: Core, v: VersionedView, target: nat, k: nat, i: nat, t: nat)
    requires CoreOk(core) && Committed(core.views, v) && InitOk(core.store, v.view.Stripes(), target, k, i, v.epoch)
    ensures k < v.view.om.nextStripeId && StripeById(v.view.om, k) == v.view.Stripes()[k]
    ensures i < v.view.Stripes()[k].width ==>
              InitOk(CallObject(core, v.view, Oid(k, i), Op.Seal(v.epoch, None), t).1.store, v.view.Stripes(), target, k, i + 1, v.epoch)
    ensures i == v.view.Stripes()[k].width && |core.views| > 0 ==> InitDone(core.store, Latest(core).Stripes(), target, k)
  {
    hide CoreOk, ObjectMap.Good, View.Stripes, CallObject, StripeById, Apply, Recorded;
    MapIs(v.view, 0);
    StripeIs(v.view, k);
    if i < v.view.Stripes()[k].width {
      SealObject(core.store, Oid(k, i), v.epoch);
      Records(core, v.view, Oid(k, i), Op.Seal(v.epoch, None), t);
    } else if |core.views| > 0 {
      WorksInOlder(core, v);
    }
  }

  lemma {:induction false} InitResult(core: Core, client: Client, c: nat, task: Task, t: nat, fail: bool, core': Core, task': Task)
    requires CoreOk(core) && CoreOk(core') && |core.views| > 0 && |core'.views| > 0 && Grows(core, core')
    requires ClientOk(core.views, client, c) && task.Init? && TaskOk(core, client, c, task) && ResultOk(core, c, task)
    requires StepInit(core, client, task, t) == (core', task')
    ensures ResultOk(core', c, task')
  {
    hide CoreOk, ObjectMap.Good, View.Stripes, CallObject, StripeById, MapStripe, Fits, OnePerConfig, SequencerOk, InitDone, CreatedTo, HeldOk;
    LatestGrows(core, core');
    match task.ipc {
      case IStart =>
        if client.view.Some? {
          StripeOfTarget(client.view.value.view, task.target);
          if MapStripe(client.view.value.view.om, task.target).Some? {
            NoneCreated(core.store, client.view.value, task.target);
          }
        }
      case ISeal(v, k, i) => InitSealed(core, v, task.target, k, i, t);
      case IDone(_) =>
    }
  }

  lemma {:induction false} NoneCreated(store: Store, v: VersionedView, target: nat)
    requires MapStripe(v.view.om, target).Some?
    ensures InitOk(store, v.view.Stripes(), target, MapStripe(v.view.om, target).value.id, 0, v.epoch)
  {
    hide View.Stripes, MapStripe, ObjectMap.Good;
    StripeOfTarget(v.view, target);
  }

  /** `map_stripe` finds the stripe that has the position. */
  lemma {:induction false} StripeOfTarget(v: View, p: nat)
    ensures MapStripe(v.om, p).Some? ==>
              var k := MapStripe(v.om, p).value.id; k < |v.Stripes()| && v.Stripes()[k].Has(p)
    ensures MapStripe(v.om, p).None? <==> Map(v.om, p).0.None?
  {
    LookupsAgree(v.om, p);
    LocateIsHolds(v.Stripes(), p);
  }

  lemma {:induction false} AnyResult(core: Core, client: Client, c: nat, task: Task, t: nat, fail: bool, core': Core, task': Task)
    requires CoreOk(core) && CoreOk(core') && |core.views| > 0 && |core'.views| > 0 && Grows(core, core')
    requires ClientOk(core.views, client, c) && TaskOk(core, client, c, task) && !AtTail(task) && ResultOk(core, c, task)
    requires task.Update? && task.change.Expanding? ==> task.change.options.Valid()
    requires StepTask(core, client, c, task, t, fail) == (core', task')
    ensures ResultOk(core', c, task')
  {
    hide CoreOk, ClientOk, TaskOk, Grows, StepAppend, StepPoint, StepTrimTo, StepPropose, StepInit, ObjectMap.Good, View.Stripes, Changed;
    match task {
      case Append(_, _, _) => AppendResult(core, client, c, task, t, fail, core', task');
      case Point(_, _, _) => PointResult(core, client, c, task, t, fail, core', task');
      case TrimTo(_, _) => TrimToResult(core, client, c, task, t, fail, core', task');
      case Propose(_) => ProposeResult(core, client, c, task, t, fail, core', task');
      case Init(_, _) => InitResult(core, client, c, task, t, fail, core', task');
      case _ =>
    }
  }

  // ----- every reachable state -------------------------------------------------------------------

  ghost predicate DeedsOk(s: State) {
    |s.core.views| > 0 && EventsMade(s.core.hist, s.threads) && ResultsOk(s.core, s.threads)
  }

  /** A thread moves to a task with the same job; the shared state grows. */
  lemma {:induction false} ResultsKept(a: Core, b: Core, threads: seq<Thread>, t: nat, task: Task)
    requires CoreOk(a) && CoreOk(b) && Grows(a, b) && |a.views| > 0 && |b.views| > 0
    requires ResultsOk(a, threads) && t < |threads| && ResultOk(b, threads[t].client, task)
    ensures ResultsOk(b, threads[t := Thread(threads[t].client, task)])
  {
    hide CoreOk, Grows, ResultOk;
    var threads' := threads[t := Thread(threads[t].client, task)];
    forall u | 0 <= u < |threads'| ensures ResultOk(b, threads'[u].client, threads'[u].task) {
      if u != t { ResultLasts(a, b, threads[u].client, threads[u].task); }
    }
  }

  lemma {:induction false} PlainDeeds(s: State, t: nat, fail: bool)
    requires Inv(s) && DeedsOk(s) && t < |s.threads| && !AtTail(s.threads[t].task)
    ensures DeedsOk(Do(s, Run(t, fail)))
  {
    hide Inv, CoreOk, ClientOk, TaskOk, Grows, StepTask, ResultOk, CallOf, Recorded, EventsMade, ResultsOk, SameJob, AtTail;
    InvFormed(s);
    Cores(s, Run(t, fail));
    DoGrows(s, Run(t, fail));
    RunIs(s, t, fail);
    ThreadTask(s, t);
    var c, task := s.threads[t].client, s.threads[t].task;
    var (core', task') := StepTask(s.core, s.clients[c], c, task, t, fail);
    ClientOf(s, c);
    OneResult(s.core, s.threads, t);
    AnyResult(s.core, s.clients[c], c, task, t, fail, core', task');
    JobKept(s.core, s.clients[c], c, task, t, fail);
    CallIs(s.core, s.clients[c], c, task, t, fail);
    EventsKept(s.core, core', s.threads, t, task');
    ResultsKept(s.core, core', s.threads, t, task');
  }

  lemma {:induction false} OneResult(core: Core, threads: seq<Thread>, t: nat)
    requires |core.views| > 0 && ResultsOk(core, threads) && t < |threads|
    ensures ResultOk(core, threads[t].client, threads[t].task)
  {
    hide ResultOk;
  }

  /** Using a sequencer leaves the shared state alone. */
  lemma {:induction false} TailDeeds(s: State, t: nat, fail: bool)
    requires Inv(s) && DeedsOk(s) && t < |s.threads| && AtTail(s.threads[t].task)
    ensures DeedsOk(Do(s, Run(t, fail)))
  {
    hide Inv, CoreOk, StepTask, Bumped, Made, PointReply, ObjectMap.Good, View.Stripes;
    InvFormed(s);
    var s' := Do(s, Run(t, fail));
    assert s'.core == s.core && |s'.threads| == |s.threads|;
    var task, task' := s.threads[t].task, s'.threads[t].task;
    assert SameJob(task, task') && ResultOk(s.core, s.threads[t].client, task');
    forall j | 0 <= j < |s.core.hist| ensures Made(s.core.hist[j].op, s'.threads[s.core.hist[j].thread].task) {
      if s.core.hist[j].thread == t { MadeKept(s.core.hist[j].op, task, task'); }
    }
    hide ResultOk;
    assert ResultsOk(s'.core, s'.threads);
  }

  lemma {:induction false} DeedsStep(s: State, step: Step)
    requires Inv(s) && DeedsOk(s)
    ensures DeedsOk(Do(s, step))
  {
    hide Inv, StepTask, TakePosition, LookAtTail, EventsMade, ResultsOk, Install, Fetch, AtTail, ThreadFormed;
    match step {
      case Run(t, fail) =>
        if t < |s.threads| {
          if AtTail(s.threads[t].task) { TailDeeds(s, t, fail); } else { PlainDeeds(s, t, fail); }
        }
      case Start(c, task) =>
        if c < |s.clients| && Fresh(task) { StartDeeds(s, c, task); }
      case _ =>
    }
  }

  lemma {:induction false} StartDeeds(s: State, c: nat, task: Task)
    requires DeedsOk(s) && Fresh(task)
    ensures DeedsOk(s.(threads := s.threads + [Thread(c, task)]))
  {
    hide Made, PointReply, ObjectMap.Good, View.Stripes;
    assert ResultOk(s.core, c, task);
    hide ResultOk;
  }

  lemma {:induction false} DeedsReached(options: Options, withStripes: bool, steps: seq<Step>)
    requires options.Valid()
    ensures DeedsOk(Reached(options, withStripes, steps))
    decreases |steps|
  {
    hide Inv, Do, Initial, Options.Valid;
    if steps != [] {
      var rest := steps[..|steps| - 1];
      DeedsReached(options, withStripes, rest);
      ReachedInv(options, withStripes, rest);
      DeedsStep(Reached(options, withStripes, rest), steps[|steps| - 1]);
    }
  }

  lemma {:induction false} ReachableDeeds(s: State)
    requires Reachable(s)
    ensures DeedsOk(s)
  {
    hide DeedsOk, Reached, Options.Valid;
    var options: Options, withStripes: bool, steps: seq<Step>, more: seq<Step> :|
      && options.Valid() && steps <= more
      && s == Reached(options, withStripes, steps) && s == Reached(options, withStripes, more);
    DeedsReached(options, withStripes, steps);
  }

  /**
    Every event is the doing of an operation that asks for it: appends write their data, fills fill their
    position, trims trim theirs, and range trims trim up to their limit. Nothing else changes the log.
    */
  lemma {:induction false} EventsAreMade(s: State, j: nat)
    requires Reachable(s) && j < |s.core.hist|
    ensures s.core.hist[j].thread < |s.threads| && Made(s.core.hist[j].op, s.threads[s.core.hist[j].thread].task)
  {
    hide Reachable, Precedes, Made, ResultsOk;
    ReachableDeeds(s);
  }

  /**
    The results that operations can have. An append ends with 0 or EIO; a range trim ends with EIO, or with
    0 and then the minimum valid position is above its limit; a proposal that ended with 0 has committed a
    view that makes its own client the sequencer; an initialised stripe has the target and all its objects.
    */
  lemma {:induction false} ResultsAre(s: State, t: nat)
    requires Reachable(s) && t < |s.threads|
    ensures |s.core.views| > 0 && ResultOk(s.core, s.threads[t].client, s.threads[t].task)
  {
    hide Reachable, Precedes, EventsMade, ResultOk;
    ReachableDeeds(s);
  }
}
