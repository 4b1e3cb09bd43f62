/**
  What an operation does next: how it begins in its client's view, how the longer ones go on, and when
  they end. Single writes, reads, fills and trims are in `Outcomes`.
  */
module Turns {
  import opened Common
  import opened Stripes
  import opened ObjectMaps
  import opened MapTo
  import opened Views
  import opened Cells
  import opened Ram
  import opened Protocol
  import opened History
  import opened CoreSteps
  import opened Handoff
  import opened Threads
  import opened TaskSteps
  import opened Runs
  import opened Theorems
  import opened Calls
  import opened Outcomes
  import opened Deeds
  import opened Seeds
  import opened Sequencing

  // ----- beginning -------------------------------------------------------------------------------

  /** The operation is about to begin, or to begin again. */
  predicate AtStart(task: Task) {
    match task
    case Append(_, _, pc) => pc.AStart?
    case Point(_, _, pc) => pc.PStart?
    case TrimTo(_, pc) => pc.TStart?
    case Propose(pc) => pc.QStart?
    case Update(_, pc) => pc.UStart?
    case Init(_, pc) => pc.IStart?
    case Tail(_, pc) => pc.LStart?
  }

  /**
    How operations begin in view `v`: appends and tail look-ups need a sequencer, range trims a limit that
    is mapped and below the minimum valid position; a proposer starts with the last stripe; an update that
    has nothing to change is done.
    */
  ghost predicate Begun(v: VersionedView, task: Task, next: Task, fail: bool) {
    match task
    case Append(_, _, _) => next == task.(apc := if v.sequencer.Some? then ATail(v) else ADone(EIO))
    case Point(_, _, _) => next == task.(ppc := PCall(v))
    case TrimTo(limit, _) =>
      next == task.(tpc := if limit < v.view.om.minValid && Map(v.view.om, limit).0.Some? then TScan(v, 0, 0)
                           else if fail then TDone(EIO) else TStart)
    case Propose(_) =>
      var n := |v.view.Stripes()|;
      next == Propose(if n == 0 then QCas(v, 0) else QSeal(v, n - 1, 0))
    case Update(change, _) =>
      || (next == task.(upc := UDone) && ChangeMade(v.view, change, None))
      || exists view :: next == task.(upc := UCas(v, view)) && ChangeMade(v.view, change, Some(view))
    case Init(target, _) =>
      if Map(v.view.om, target).0.None? then next == task.(ipc := IDone(None))
      else next.Init? && next.target == target && next.ipc.ISeal? && next.ipc.v == v && next.ipc.i == 0
           && next.ipc.k < |v.view.Stripes()| && v.view.Stripes()[next.ipc.k].Has(target)
    case Tail(_, _) => next == task.(lpc := if v.sequencer.Some? then LTake(v) else LDone(EIO, None))
  }

  lemma {:induction false} Begins(core: Core, client: Client, c: nat, task: Task, t: nat, fail: bool)
    requires AtStart(task) && client.view.Some?
    requires task.Update? && task.change.Expanding? ==> task.change.options.Valid()
    ensures StepTask(core, client, c, task, t, fail).0 == core
    ensures Begun(client.view.value, task, StepTask(core, client, c, task, t, fail).1, fail)
  {
    hide Map, ObjectMap.Good, View.Stripes, Changed, ChangeMade, Options.Valid, MapStripe, StripeById, TargetsAt, CallObject;
    var v := client.view.value;
    match task {
      case Propose(_) => MapIs(v.view, 0);
      case Update(change, _) => ChangeMeans(v.view, change);
      case Init(target, _) => StripeOfTarget(v.view, target);
      case _ =>
    }
  }

  /** In every run an operation begins in the view that its client has installed, and so does one that starts again. */
  lemma {:induction false} OperationsBegin(s: State, t: nat, fail: bool)
    requires Reachable(s) && t < |s.threads| && AtStart(s.threads[t].task)
    ensures s.threads[t].client < |s.clients|
    ensures var th, s' := s.threads[t], Do(s, Run(t, fail));
            var view := s.clients[th.client].view;
            && s'.core == s.core && t < |s'.threads|
            && if view.None? then s' == s else Begun(view.value, th.task, s'.threads[t].task, fail)
  {
    hide Reachable, Precedes, Inv, Begun, StepTask, TaskOk, AtStart;
    ReachableInv(s);
    ThreadTask(s, t);
    var th, s' := s.threads[t], Do(s, Run(t, fail));
    NotAtTail(th.task);
    RunIs(s, t, fail);
    if s.clients[th.client].view.Some? {
      Begins(s.core, s.clients[th.client], th.client, th.task, t, fail);
    } else {
      Waits(s.core, s.clients[th.client], th.client, th.task, t, fail);
      assert s.threads[t := th] == s.threads;
    }
  }

  lemma {:induction false} NotAtTail(task: Task)
    requires AtStart(task)
    ensures !AtTail(task)
  {
  }

  lemma {:induction false} Waits(core: Core, client: Client, c: nat, task: Task, t: nat, fail: bool)
    requires AtStart(task) && client.view.None?
    requires task.Update? && task.change.Expanding? ==> task.change.options.Valid()
    ensures StepTask(core, client, c, task, t, fail) == (core, task)
  {
    hide ObjectMap.Good, View.Stripes, Changed, Options.Valid, CallObject;
  }

  // ----- ending ----------------------------------------------------------------------------------

  /** Thread `t` is an operation of that kind on `p` that has ended with `reply`. */
  predicate Ended(s: State, t: nat, kind: PointKind, p: nat, reply: Reply) {
    t < |s.threads| && s.threads[t].task == Point(kind, p, PDone(reply))
  }

  /** Before a step after which the thread is such an operation, it was the same operation. */
  lemma {:induction false} SameBefore(s: State, t: nat, fail: bool, kind: PointKind, p: nat, reply: Reply)
    requires Inv(s) && t < |s.threads| && Ended(Do(s, Run(t, fail)), t, kind, p, reply)
    ensures var task := s.threads[t].task; task.Point? && task.kind == kind && task.at == p && !AtTail(task)
  {
    hide Inv, StepTask, SameJob, Bumped, TaskOk;
    InvFormed(s);
    ThreadTask(s, t);
    if !AtTail(s.threads[t].task) {
      var c, task := s.threads[t].client, s.threads[t].task;
      RunIs(s, t, fail);
      JobKept(s.core, s.clients[c], c, task, t, fail);
      SameKind(task, StepTask(s.core, s.clients[c], c, task, t, fail).1);
    }
  }

  lemma {:induction false} SameKind(a: Task, b: Task)
    requires SameJob(a, b) && b.Point?
    ensures a.Point? && a.kind == b.kind && a.at == b.at
  {
  }

  /**
    Whatever step a read, fill or trim ends with is its own: either its view could not be expanded and
    nothing changes, or the content of its position at that moment is what it answers from and acts on.
    */
  lemma {:induction false} PointEndsInStep(s: State, step: Step, t: nat, kind: PointKind, p: nat, reply: Reply)
    requires Reachable(s) && Ended(Do(s, step), t, kind, p, reply) && !Ended(s, t, kind, p, reply)
    ensures var core' := Do(s, step).core;
            && |s.core.views| > 0 && |core'.views| > 0
            && (|| (reply == Code(EIO) && core' == s.core)
                || (reply == PointReply(kind, Content(s.core, p))
                    && OnlyAt(s.core, core', p, PointCell(kind, Content(s.core, p)))))
  {
    hide Reachable, Precedes, Inv, CoreOk, Content, OnlyAt, PointReply, PointCell, StepTask, StepPoint, Install, Fetch, Bumped, AtTail, Map;
    ReachableInv(s);
    Cores(s, step);
    if t < |s.threads| {
      if step.Run? && step.thread == t {
        SameBefore(s, t, step.fail, kind, p, reply);
        if s.threads[t].task.ppc.PDone? {
          RunIs(s, t, step.fail);
          EndedStays(s.core, s.clients[s.threads[t].client], s.threads[t].task, t, step.fail);
          Pointed(s, t, step.fail);
          assert false;
        } else {
          PointEnds(s, t, step.fail, reply);
        }
      } else {
        OthersIssue(s, step, t);
      }
    }
  }

  lemma {:induction false} Pointed(s: State, t: nat, fail: bool)
    requires t < |s.threads| && ThreadFormed(s.threads[t], |s.clients|) && s.threads[t].task.Point?
    ensures var th := s.threads[t];
            StepTask(s.core, s.clients[th.client], th.client, th.task, t, fail) == StepPoint(s.core, s.clients[th.client], th.task, t, fail)
  {
    hide StepPoint;
  }

  // ----- range trims -----------------------------------------------------------------------------

  /** What a range trim does next in stripe `k`, whose targets are `ts`. */
  function AfterScan(core: Core, task: Task, v: VersionedView, k: nat, i: nat, ts: seq<Target>): TrimToPc {
    if i >= |ts| then TScan(v, k + 1, 0)
    else if Missing(core, ts[i].0) then TSeal(v, ts[i].0)
    else if Stale(core, ts[i].0, v.epoch) then TStart
    else TScan(v, k, i + 1)
  }

  /** The content of the log has changed in one object and up to the limit only, where it is now invalid. */
  ghost predicate OnlyUpTo(a: Core, b: Core, oid: Oid, limit: nat)
    requires |a.views| > 0 && |b.views| > 0
  {
    forall q: nat :: Content(b, q) ==
      if q <= limit && Map(Latest(a).om, q).0 == Some(oid) then Invalid else Content(a, q)
  }

  ghost predicate SameContent(a: Core, b: Core)
    requires |a.views| > 0 && |b.views| > 0
  {
    forall q: nat :: Content(b, q) == Content(a, q)
  }

  /** The content of the log after a range trim of one object. */
  lemma {:induction false} RangeContent(a: Core, b: Core, oid: Oid, op: Op)
    requires CoreOk(a) && CoreOk(b) && |a.views| > 0 && b.views == a.views && op.Trim? && op.limit
    requires Targeted(Latest(a).Stripes(), oid, op) && b.store == Apply(a.store, oid, op).1
    ensures if Apply(a.store, oid, op).0.ret.Success? then OnlyUpTo(a, b, oid, op.pos) else SameContent(a, b)
  {
    hide LogOk, EventsOk, HandedOff, WritesOk, Follows, Extends, ConfigOk, StoreOk, Apply, CellAt, Map, View.Stripes, ObjectMap.Good,
         Targeted;
    var l := Latest(a).Stripes();
    if Apply(a.store, oid, op).0.ret.Success? {
      forall q: nat ensures Content(b, q) == if q <= op.pos && Map(Latest(a).om, q).0 == Some(oid) then Invalid else Content(a, q) {
        if Map(Latest(a).om, q).0.Some? {
          CallOnCells(l, |a.views|, a.store, oid, op, Map(Latest(a).om, q).0.value, q);
        }
      }
    } else {
      CallChangesNothing(a.store, oid, op);
    }
  }

  /** Whether a range trim's call is admitted. */
  lemma {:induction false} RangeAdmitted(core: Core, oid: Oid, op: Op)
    requires CoreOk(core) && op.Trim? && op.limit && op.epoch > 0 && Targeted(Latest(core).Stripes(), oid, op)
    ensures Apply(core.store, oid, op).0.ret ==
            if Missing(core, oid) then ENOENT else if Stale(core, oid, op.epoch) then ESPIPE else Success
  {
    hide LogOk, EventsOk, HandedOff, WritesOk, Follows, Extends, ConfigOk, StoreOk, Apply, CellAt, View.Stripes, ObjectMap.Good, Targeted;
    TargetCoherent(Latest(core).Stripes(), oid, op);
    ReplyFrom(Latest(core).Stripes(), |core.views|, core.store, oid, op);
  }

  lemma {:induction false} ScanGoesOn(core: Core, client: Client, c: nat, task: Task, t: nat, fail: bool, core': Core, task': Task)
    requires CoreOk(core) && CoreOk(core') && task.TrimTo? && task.tpc.TScan? && TaskOk(core, client, c, task)
    requires StepTrimTo(core, client, task, t, fail) == (core', task')
    ensures var v, k, i, limit := task.tpc.v, task.tpc.k, task.tpc.i, task.upTo;
            var l := v.view.Stripes();
            && |core.views| > 0 && |core'.views| > 0
            && if k >= |l| then task' == task.(tpc := TDone(Success)) && core' == core
               else
                 && task' == task.(tpc := AfterScan(core, task, v, k, i, Targets(l[k], limit)))
                 && if task'.tpc == TScan(v, k, i + 1) && i < |Targets(l[k], limit)|
                    then OnlyUpTo(core, core', Targets(l[k], limit)[i].0, limit)
                    else SameContent(core, core')
  {
    hide CoreOk, Map, ObjectMap.Good, View.Stripes, CallObject, Apply, Targets, TrimmedTo, Replay, Targeted, Content, StripeById;
    SomeView(core);
    SomeView(core');
    var v, k, i, limit := task.tpc.v, task.tpc.k, task.tpc.i, task.upTo;
    MapIs(v.view, 0);
    if k < |v.view.Stripes()| {
      StripeIs(v.view, k);
      if i < |Targets(v.view.Stripes()[k], limit)| {
        CallsDirected(core, client, c, task);
        var (oid, full) := Targets(v.view.Stripes()[k], limit)[i];
        var op := Op.Trim(v.epoch, limit, true, full);
        Records(core, v.view, oid, op, t);
        RangeAdmitted(core, oid, op);
        RangeContent(core, core', oid, op);
      }
    }
  }

  /**
    A range trim goes through the targets of the stripes one by one, and ends with 0 after the last stripe
    of its view. It waits for nothing but a missing object, which it creates, or a newer view, with which it
    starts again; and the only contents that it changes are those of its target up to its limit.
    */
  lemma {:induction false} RangeTrimGoesOn(s: State, t: nat, fail: bool)
    requires Reachable(s) && t < |s.threads| && s.threads[t].task.TrimTo? && s.threads[t].task.tpc.TScan?
    ensures var task, s' := s.threads[t].task, Do(s, Run(t, fail));
            var v, k, i, limit := task.tpc.v, task.tpc.k, task.tpc.i, task.upTo;
            var l := v.view.Stripes();
            && |s.core.views| > 0 && |s'.core.views| > 0 && t < |s'.threads|
            && if k >= |l| then s'.threads[t].task == task.(tpc := TDone(Success)) && s'.core == s.core
               else
                 && s'.threads[t].task == task.(tpc := AfterScan(s.core, task, v, k, i, Targets(l[k], limit)))
                 && if s'.threads[t].task.tpc == TScan(v, k, i + 1) && i < |Targets(l[k], limit)|
                    then OnlyUpTo(s.core, s'.core, Targets(l[k], limit)[i].0, limit)
                    else SameContent(s.core, s'.core)
  {
    hide Reachable, Precedes, Inv, CoreOk, Do, StepTrimTo, TaskOk, AfterScan, OnlyUpTo, SameContent, ObjectMap.Good, View.Stripes, Targets;
    ReachableInv(s);
    Cores(s, Run(t, fail));
    RunIs(s, t, fail);
    ThreadTask(s, t);
    var c, task, s' := s.threads[t].client, s.threads[t].task, Do(s, Run(t, fail));
    ScanGoesOn(s.core, s.clients[c], c, task, t, fail, s'.core, s'.threads[t].task);
  }

  // ----- proposals -------------------------------------------------------------------------------

  /** The search for the seed has moved on, in the same view: to the next object, from sealing to asking, or down a stripe. */
  predicate SearchMoved(a: ProposePc, b: ProposePc) {
    match a
    case QSeal(v, k, i) => b == QSeal(v, k, i + 1) || b == QMax(v, k, 0, None)
    case QMax(v, k, i, _) =>
      (b.QMax? && b.v == v && b.k == k && b.i == i + 1) || (b.QCas? && b.v == v) || (k > 0 && b == QSeal(v, k - 1, 0))
    case _ => false
  }

  /** After its search a proposer proposes once: it is done if that is taken; else it may give up or search again. */
  predicate Proposed(views: nat, v: VersionedView, next: ProposePc, fail: bool) {
    next == if v.epoch == views then QDone(Some(v.epoch + 1)) else if fail then QDone(None) else QStart
  }

  lemma {:induction false} ProposerTurn(core: Core, client: Client, c: nat, task: Task, t: nat, fail: bool)
    requires CoreOk(core) && task.Propose? && ProposeOk(core, task.qpc) && !task.qpc.QStart? && !task.qpc.QDone?
    ensures var task' := StepPropose(core, client, c, task, t, fail).1;
            && task'.Propose?
            && if task.qpc.QCas? then Proposed(|core.views|, task.qpc.v, task'.qpc, fail) else SearchMoved(task.qpc, task'.qpc)
  {
    hide CoreOk, ObjectMap.Good, View.Stripes, CallObject, StripeById, SealedFrom, Quiet, Scanned, SealedAbove;
    match task.qpc {
      case QSeal(v, k, i) =>
        MapIs(v.view, 0);
        StripeIs(v.view, k);
        if i < v.view.Stripes()[k].width { SealOwned(core, v, Oid(k, i), v.epoch + 1, t); }
      case QMax(v, k, i, max) =>
        MapIs(v.view, 0);
        StripeIs(v.view, k);
        if i < v.view.Stripes()[k].width { AskedAnswers(core, v, k, i, max, t); }
      case _ =>
    }
  }

  /** The objects that a proposer asks exist. */
  lemma {:induction false} AskedAnswers(core: Core, v: VersionedView, k: nat, i: nat, max: Option<nat>, t: nat)
    requires CoreOk(core) && ProposeOk(core, QMax(v, k, i, max)) && i < v.view.Stripes()[k].width
    ensures CallObject(core, v.view, Oid(k, i), Op.MaxPos, t).0.ret.Success?
  {
    hide CoreOk, View.Stripes, ObjectMap.Good, Quiet, Scanned;
    ScanOne(core, v, k, i, max);
  }

  /**
    A proposer searches without fail and proposes: its proposal ends it with 0 exactly if it worked in the
    latest view.
    */
  lemma {:induction false} ProposalGoesOn(s: State, t: nat, fail: bool)
    requires Reachable(s) && t < |s.threads| && s.threads[t].task.Propose?
    requires !s.threads[t].task.qpc.QStart? && !s.threads[t].task.qpc.QDone?
    ensures var pc, s' := s.threads[t].task.qpc, Do(s, Run(t, fail));
            && t < |s'.threads| && s'.threads[t].task.Propose?
            && if pc.QCas? then Proposed(|s.core.views|, pc.v, s'.threads[t].task.qpc, fail)
               else SearchMoved(pc, s'.threads[t].task.qpc)
  {
    hide Reachable, Precedes, Inv, CoreOk, Do, StepPropose, TaskOk, Proposed, SearchMoved, ObjectMap.Good, View.Stripes;
    ReachableInv(s);
    InvCore(s);
    RunIs(s, t, fail);
    ThreadTask(s, t);
    var c, task := s.threads[t].client, s.threads[t].task;
    SearcherOk(s.core, s.clients[c], c, task);
    ProposerTurn(s.core, s.clients[c], c, task, t, fail);
  }

  // ----- updates and initialisation --------------------------------------------------------------

  /** An update is done once its proposal is taken; else it may give up or begin again. */
  lemma {:induction false} UpdateGoesOn(s: State, t: nat, fail: bool)
    requires Reachable(s) && t < |s.threads| && s.threads[t].task.Update? && s.threads[t].task.upc.UCas?
    ensures var task, s' := s.threads[t].task, Do(s, Run(t, fail));
            && t < |s'.threads|
            && s'.threads[t].task == task.(upc := if task.upc.v.epoch == |s.core.views| || fail then UDone else UStart)
  {
    hide Reachable, Precedes, Inv, CoreOk, ObjectMap.Good, View.Stripes, Changed, Options.Valid;
    ReachableInv(s);
    RunIs(s, t, fail);
    ThreadTask(s, t);
    assert Committed(s.core.views, s.threads[t].task.upc.v);
  }

  lemma {:induction false} InitTurn(core: Core, client: Client, c: nat, task: Task, t: nat)
    requires task.Init? && task.ipc.ISeal? && task.ipc.k < |task.ipc.v.view.Stripes()|
    ensures var v, k, i := task.ipc.v, task.ipc.k, task.ipc.i;
            StepInit(core, client, task, t).1 ==
              task.(ipc := if i < v.view.Stripes()[k].width then ISeal(v, k, i + 1) else IDone(Some(k)))
  {
    hide ObjectMap.Good, View.Stripes, CallObject, StripeById, MapStripe;
    MapIs(task.ipc.v.view, 0);
    StripeIs(task.ipc.v.view, task.ipc.k);
  }

  /** Initialising a stripe goes through its objects and ends with the last one. */
  lemma {:induction false} InitGoesOn(s: State, t: nat, fail: bool)
    requires Reachable(s) && t < |s.threads| && s.threads[t].task.Init? && s.threads[t].task.ipc.ISeal?
    ensures var task, s' := s.threads[t].task, Do(s, Run(t, fail));
            var v, k, i := task.ipc.v, task.ipc.k, task.ipc.i;
            && t < |s'.threads| && k < |v.view.Stripes()|
            && s'.threads[t].task == task.(ipc := if i < v.view.Stripes()[k].width then ISeal(v, k, i + 1) else IDone(Some(k)))
  {
    hide Reachable, Precedes, Inv, StepInit, TaskOk, ObjectMap.Good, View.Stripes, CreatedTo, InitDone;
    ReachableInv(s);
    RunIs(s, t, fail);
    ThreadTask(s, t);
    ResultsAre(s, t);
    InitTurn(s.core, s.clients[s.threads[t].client], s.threads[t].client, s.threads[t].task, t);
  }
}
