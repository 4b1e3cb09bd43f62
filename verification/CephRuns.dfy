/**
  The protocol on Ceph objects. Beside the in-memory store of a run, every log object also exists as
  a Ceph object that gets the same calls, with the reclaim steps of its full trims interleaved at any
  point. The Ceph objects give the replies that the run was made with, and hold the same log; so what
  is proved of runs holds when Ceph objects answer the calls.

  A range trim goes on as soon as the limit is set, while the program waits for its reclaim steps: the
  interleavings here include those of the program.
  */
module CephRuns {
  import opened Common
  import opened Stripes
  import opened PlainLists
  import opened ObjectMaps
  import opened MapTo
  import opened Views
  import opened Cells
  import opened Ram
  import opened Protocol
  import opened History
  import opened CoreSteps
  import opened Threads
  import opened TaskSteps
  import opened Runs
  import opened Theorems
  import opened Calls
  import Backends
  import Cls
  import Contract
  import Reclaiming

  // ----- one object ------------------------------------------------------------------------------

  /** The last position of an object. */
  ghost predicate LastIs(l: seq<Stripe>, oid: Oid, last: nat)
    requires WellFormed(l)
  {
    Holds(l, oid, last) && forall p: nat :: Holds(l, oid, p) ==> p <= last
  }

  lemma {:induction false} LastExists(l: seq<Stripe>, oid: Oid) returns (last: nat)
    requires WellFormed(l) && AllAligned(l) && Owns(l, oid)
    ensures LastIs(l, oid, last)
  {
    var s := l[oid.stripe];
    ObjectRange(s, oid.index);
    last := s.max - (s.width - 1) + oid.index;
  }

  /** The call as the Ceph client sends it: sealing tells the object how to store data. */
  function WithSize(op: Op, omapMax: Option<nat>): Op {
    if op.Seal? then Op.Seal(op.epoch, omapMax) else op
  }

  /** The limits of the object class's representation, for a call on an object. */
  predicate Within(o: Option<Cls.Obj>, op: Op) {
    o.Some? && Guarded(op) ==> Cls.Allowed(o.value, Reclaiming.Plain(op))
  }

  /** Directed calls are proper: the object map keeps the promise behind a full trim. */
  lemma {:induction false} DirectedIsProper(l: seq<Stripe>, oid: Oid, last: nat, o: Option<Cls.Obj>, op: Op, omapMax: Option<nat>)
    requires WellFormed(l) && Directed(l, oid, op) && LastIs(l, oid, last) && Within(o, op)
    ensures Reclaiming.Proper(last, o, WithSize(op, omapMax))
  {
    hide WellFormed;
  }

  /** Specifications with the same content serve the same objects. */
  lemma {:induction false} SameSpec(o: Option<LogObject>, x: Contract.Spec, y: Contract.Spec)
    requires Backends.RamIs(o, x) && x.epoch == y.epoch && Contract.Marks(y.log) && (x == Contract.ABSENT ==> y == x)
    requires Contract.FoldTop(x.log) == Contract.FoldTop(y.log)
    requires forall p: nat :: Contract.Fold(x.log, p) == Contract.Fold(y.log, p)
    ensures Backends.RamIs(o, y)
  {
    hide LogObject.Cell, LogObject.Top, LogObject.Valid, Contract.Fold, Contract.FoldTop;
  }

  lemma {:induction false} PlainLog(log: seq<Op>, op: Op)
    requires op.Trim? && Contract.Marks(log + [op])
    ensures var plain := Reclaiming.Plain(op);
            && Contract.Marks(log + [plain])
            && Contract.FoldTop(log + [plain]) == Contract.FoldTop(log + [op])
            && forall p: nat :: Contract.Fold(log + [plain], p) == Contract.Fold(log + [op], p)
  {
    hide Contract.Fold, Contract.FoldTop;
    var plain := Reclaiming.Plain(op);
    assert forall k :: 0 <= k < |log| ==> (log + [plain])[k] == (log + [op])[k];
    Contract.FoldSnoc(log, plain, 0);
    Contract.FoldSnoc(log, op, 0);
    forall p: nat ensures Contract.Fold(log + [plain], p) == Contract.Fold(log + [op], p) {
      Contract.FoldSnoc(log, plain, p);
      Contract.FoldSnoc(log, op, p);
    }
  }

  /** To everybody but the reclaimer a full trim is a range trim, and the configured size does not matter. */
  lemma {:induction false} PlainRun(o: Option<LogObject>, sp: Contract.Spec, op: Op, omapMax: Option<nat>)
    requires Backends.RamIs(o, Contract.Run(sp, op).1) && Coherent(op)
    ensures var plain := Reclaiming.Plain(WithSize(op, omapMax));
            Contract.Run(sp, plain).0 == Contract.Run(sp, op).0 && Backends.RamIs(o, Contract.Run(sp, plain).1)
  {
    hide LogObject.Cell, LogObject.Top, LogObject.Valid, Contract.Fold, Contract.FoldTop, Contract.Marks;
    if op.Trim? && op.limit && Contract.Run(sp, op).1 != sp {
      PlainLog(sp.log, op);
      SameSpec(o, Contract.Run(sp, op).1, Contract.Run(sp, Reclaiming.Plain(op)).1);
    }
  }

  /** An in-memory object and a Ceph object that have answered the same calls. */
  ghost predicate Paired(l: seq<Stripe>, oid: Oid, o: Option<LogObject>, c: Reclaiming.State)
    requires WellFormed(l)
  {
    exists sp :: Backends.RamIs(o, sp) && CephOk(l, oid, c, sp)
  }

  ghost predicate CephOk(l: seq<Stripe>, oid: Oid, c: Reclaiming.State, sp: Contract.Spec)
    requires WellFormed(l)
  {
    && Backends.ClsIs(c.obj, sp)
    && (forall last: nat :: LastIs(l, oid, last) ==> Reclaiming.Inv(last, c, sp))
    && (!Owns(l, oid) ==> c.obj.None? && c.reclaimers == [])
  }

  /** Both answer a call alike and stay paired. */
  lemma {:induction false} PairedCall(l: seq<Stripe>, oid: Oid, o: Option<LogObject>, c: Reclaiming.State, op: Op, omapMax: Option<nat>)
    requires WellFormed(l) && AllAligned(l) && Paired(l, oid, o, c) && Directed(l, oid, op) && Within(c.obj, op)
    requires o.Some? ==> ObjectOk(l, oid, o.value)
    ensures var c' := Reclaiming.Do(c, Reclaiming.Call(WithSize(op, omapMax)));
            && Paired(l, oid, Ram.Step(o, op).1, c')
            && c'.replies == c.replies + [Ram.Step(o, op).0]
  {
    hide WellFormed, AllAligned, ObjectOk, Targeted, Within, Holds, Ram.Step, Contract.Run, Backends.RamIs, Backends.ClsIs,
         Reclaiming.Inv, Reclaiming.Do, Reclaiming.Proper, WithSize;
    var sp :| Backends.RamIs(o, sp) && CephOk(l, oid, c, sp);
    var last := LastExists(l, oid);
    DirectedKept(l, oid, o, op);
    Backends.RamStep(o, sp, op);
    DirectedIsProper(l, oid, last, c.obj, op, omapMax);
    Reclaiming.CallStep(last, c, sp, WithSize(op, omapMax));
    PlainRun(Ram.Step(o, op).1, sp, op, omapMax);
    var sp' := Contract.Run(sp, Reclaiming.Plain(WithSize(op, omapMax))).1;
    InvIs(last, Reclaiming.Do(c, Reclaiming.Call(WithSize(op, omapMax))), sp');
    assert CephOk(l, oid, Reclaiming.Do(c, Reclaiming.Call(WithSize(op, omapMax))), sp');
  }

  lemma {:induction false} InvIs(last: nat, c: Reclaiming.State, sp: Contract.Spec)
    requires Reclaiming.Inv(last, c, sp)
    ensures Backends.ClsIs(c.obj, sp)
  {
    hide Backends.ClsIs;
  }

  lemma {:induction false} DirectedKept(l: seq<Stripe>, oid: Oid, o: Option<LogObject>, op: Op)
    requires WellFormed(l) && Directed(l, oid, op) && (o.Some? ==> ObjectOk(l, oid, o.value))
    ensures Kept(o, op) && Coherent(op)
  {
    hide WellFormed, ObjectOk, Holds, LogObject.NoneAbove;
    if Guarded(op) && o.Some? { PromiseKept(l, oid, o.value, op); }
  }

  /** A reclaim step changes nothing that a call could see. */
  lemma {:induction false} PairedReclaim(l: seq<Stripe>, oid: Oid, o: Option<LogObject>, c: Reclaiming.State, i: nat, key: Option<nat>)
    requires WellFormed(l) && AllAligned(l) && Paired(l, oid, o, c)
    ensures Paired(l, oid, o, Reclaiming.Do(c, Reclaiming.Advance(i, key)))
  {
    hide WellFormed, AllAligned, Holds, Backends.RamIs, Backends.ClsIs, Reclaiming.Inv, Reclaiming.Lists;
    var sp :| Backends.RamIs(o, sp) && CephOk(l, oid, c, sp);
    var c' := Reclaiming.Do(c, Reclaiming.Advance(i, key));
    if Owns(l, oid) {
      var last := LastExists(l, oid);
      Reclaiming.AdvanceStep(last, c, sp, i, key);
      InvIs(last, c', sp);
      assert CephOk(l, oid, c', sp);
    } else {
      assert c' == c;
    }
  }

  /** A longer list of stripes leaves every pair a pair. */
  lemma {:induction false} PairedLater(l: seq<Stripe>, m: seq<Stripe>, oid: Oid, o: Option<LogObject>, c: Reclaiming.State)
    requires WellFormed(l) && WellFormed(m) && l <= m && Paired(l, oid, o, c)
    ensures Paired(m, oid, o, c)
  {
    hide WellFormed, Backends.RamIs, Holds;
    var sp :| Backends.RamIs(o, sp) && CephOk(l, oid, c, sp);
    forall last: nat | LastIs(m, oid, last) ensures Reclaiming.Inv(last, c, sp) {
      if Owns(l, oid) {
        forall p: nat ensures Holds(l, oid, p) <==> Holds(m, oid, p) { PrefixKeeps(l, m, oid, p); }
        assert LastIs(l, oid, last);
      } else {
        NothingThere(last, c, sp);
      }
    }
    assert CephOk(m, oid, c, sp);
  }

  lemma {:induction false} NothingThere(last: nat, c: Reclaiming.State, sp: Contract.Spec)
    requires c.obj.None? && c.reclaimers == [] && Backends.ClsIs(c.obj, sp)
    ensures Reclaiming.Inv(last, c, sp)
  {
  }

  // ----- runs ------------------------------------------------------------------------------------

  /** A state of the protocol, and the Ceph objects. */
  datatype Joint = Joint(s: State, ceph: map<Oid, Reclaiming.State>)

  /** A step of the protocol, or a reclaim step of some full trim on some object. */
  datatype JointStep = Runs(step: Step, omapMax: Option<nat>) | Reclaims(oid: Oid, i: nat, key: Option<nat>)

  const NOTHING := Reclaiming.State(None, [], [])

  function CephOf(ceph: map<Oid, Reclaiming.State>, oid: Oid): Reclaiming.State {
    if oid in ceph then ceph[oid] else NOTHING
  }

  /** The call that a step of the protocol makes. */
  function CallIn(s: State, step: Step): Option<(Oid, Op)> {
    if step.Run? && step.thread < |s.threads| && ThreadFormed(s.threads[step.thread], |s.clients|)
    then CallOf(s.threads[step.thread].task) else None
  }

  ghost function DoJoint(j: Joint, step: JointStep): Joint {
    match step
    case Runs(step, omapMax) =>
      var s := Do(j.s, step);
      (match CallIn(j.s, step)
       case None => j.(s := s)
       case Some((oid, op)) =>
         Joint(s, j.ceph[oid := Reclaiming.Do(CephOf(j.ceph, oid), Reclaiming.Call(WithSize(op, omapMax)))]))
    case Reclaims(oid, i, key) =>
      j.(ceph := j.ceph[oid := Reclaiming.Do(CephOf(j.ceph, oid), Reclaiming.Advance(i, key))])
  }

  ghost function JointReached(options: Options, withStripes: bool, steps: seq<JointStep>): Joint
    requires options.Valid()
  {
    if steps == [] then Joint(Begin(options, withStripes), map[])
    else DoJoint(JointReached(options, withStripes, steps[..|steps| - 1]), steps[|steps| - 1])
  }

  /** The step keeps to the limits of the object class. */
  ghost predicate StepWithin(j: Joint, step: JointStep) {
    step.Runs? && CallIn(j.s, step.step).Some? ==>
      var (oid, op) := CallIn(j.s, step.step).value;
      Within(CephOf(j.ceph, oid).obj, op)
  }

  ghost predicate RunWithin(options: Options, withStripes: bool, steps: seq<JointStep>)
    requires options.Valid()
  {
    steps == []
    || (var n := |steps| - 1;
        && RunWithin(options, withStripes, steps[..n])
        && StepWithin(JointReached(options, withStripes, steps[..n]), steps[n]))
  }

  /** The protocol's own steps. */
  function StepsOf(steps: seq<JointStep>): seq<Step> {
    if steps == [] then []
    else
      var n := |steps| - 1;
      if steps[n].Runs? then StepsOf(steps[..n]) + [steps[n].step] else StepsOf(steps[..n])
  }

  /** The protocol's part of a joint run is a run of the protocol. */
  lemma {:induction false} JointIsRun(options: Options, withStripes: bool, steps: seq<JointStep>)
    requires options.Valid()
    ensures JointReached(options, withStripes, steps).s == Reached(options, withStripes, StepsOf(steps))
    decreases |steps|
  {
    hide Do, Begin, CallIn, Options.Valid;
    if steps != [] {
      var n := |steps| - 1;
      JointIsRun(options, withStripes, steps[..n]);
      if steps[n].Runs? {
        var own := StepsOf(steps);
        assert own[..|own| - 1] == StepsOf(steps[..n]);
      }
    }
  }

  ghost predicate AllPaired(core: Core, ceph: map<Oid, Reclaiming.State>)
    requires |core.views| > 0
  {
    forall oid :: Paired(Latest(core).Stripes(), oid, Lookup(core.store, oid), CephOf(ceph, oid))
  }

  lemma {:induction false} CallPairs(core: Core, ceph: map<Oid, Reclaiming.State>, core': Core, oid: Oid, op: Op, omapMax: Option<nat>)
    requires CoreOk(core) && AllPaired(core, ceph) && Directed(Latest(core).Stripes(), oid, op) && Within(CephOf(ceph, oid).obj, op)
    requires core'.views == core.views && core'.store == Apply(core.store, oid, op).1
    ensures var c := Reclaiming.Do(CephOf(ceph, oid), Reclaiming.Call(WithSize(op, omapMax)));
            && AllPaired(core', ceph[oid := c])
            && c.replies == CephOf(ceph, oid).replies + [Apply(core.store, oid, op).0]
  {
    hide Follows, Extends, ConfigOk, LogOk, EventsOk, HandedOff, WritesOk, View.Stripes, ObjectMap.Good, ObjectOk, Paired,
         Directed, Within, Ram.Step, Reclaiming.Do;
    var l := Latest(core).Stripes();
    var c := Reclaiming.Do(CephOf(ceph, oid), Reclaiming.Call(WithSize(op, omapMax)));
    PairedCall(l, oid, Lookup(core.store, oid), CephOf(ceph, oid), op, omapMax);
    forall o ensures Paired(l, o, Lookup(core'.store, o), CephOf(ceph[oid := c], o)) {
      assert Paired(l, o, Lookup(core.store, o), CephOf(ceph, o));
      if o == oid {
        assert Lookup(core'.store, o) == Ram.Step(Lookup(core.store, oid), op).1 by { StepStays(Lookup(core.store, oid), op); }
      } else {
        assert Lookup(core'.store, o) == Lookup(core.store, o);
      }
    }
  }

  /** No call removes an object. */
  lemma {:induction false} StepStays(o: Option<LogObject>, op: Op)
    ensures o.Some? ==> Ram.Step(o, op).1.Some?
  {
  }

  lemma {:induction false} ViewPairs(core: Core, core': Core, ceph: map<Oid, Reclaiming.State>)
    requires CoreOk(core) && CoreOk(core') && AllPaired(core, ceph) && Grows(core, core') && core'.store == core.store
    ensures AllPaired(core', ceph)
  {
    hide StoreOk, LogOk, EventsOk, HandedOff, WritesOk, View.Stripes, ObjectMap.Good, Paired, Follows, ConfigOk, Fits;
    assert Extends(core'.views[|core.views| - 1], Latest(core'));
    forall o ensures Paired(Latest(core').Stripes(), o, Lookup(core'.store, o), CephOf(ceph, o)) {
      PairedLater(Latest(core).Stripes(), Latest(core').Stripes(), o, Lookup(core.store, o), CephOf(ceph, o));
    }
  }

  lemma {:induction false} ReclaimPairs(core: Core, ceph: map<Oid, Reclaiming.State>, oid: Oid, i: nat, key: Option<nat>)
    requires |core.views| > 0 && AllPaired(core, ceph)
    ensures AllPaired(core, ceph[oid := Reclaiming.Do(CephOf(ceph, oid), Reclaiming.Advance(i, key))])
  {
    hide View.Stripes, ObjectMap.Good, Paired, Reclaiming.Do;
    PairedReclaim(Latest(core).Stripes(), oid, Lookup(core.store, oid), CephOf(ceph, oid), i, key);
  }

  /** What a step of the protocol does to the store: its call, if it makes one. */
  lemma {:induction false} StepCalls(s: State, step: Step)
    requires Inv(s) && Formed(s)
    ensures CoreOk(s.core) && CoreOk(Do(s, step).core) && Grows(s.core, Do(s, step).core)
    ensures match CallIn(s, step)
            case None => Do(s, step).core.store == s.core.store
            case Some(call) =>
              && Directed(Latest(s.core).Stripes(), call.0, call.1)
              && Do(s, step).core.views == s.core.views
              && Do(s, step).core.store == Apply(s.core.store, call.0, call.1).1
  {
    hide Inv, CoreOk, StepTask, Apply, Directed, ObjectMap.Good, View.Stripes, Grows, TaskOk, CallOf;
    InvCore(s);
    DoGrows(s, step);
    DoStep(s, step);
    InvCore(Do(s, step));
    if step.Run? && step.thread < |s.threads| && ThreadFormed(s.threads[step.thread], |s.clients|) {
      var t := step.thread;
      var c, task := s.threads[t].client, s.threads[t].task;
      CallIs(s.core, s.clients[c], c, task, t, step.fail);
      if CallOf(task).Some? {
        ThreadTask(s, t);
        CallsDirected(s.core, s.clients[c], c, task);
        NoCallThere(task);
      }
    }
  }

  lemma {:induction false} NoCallThere(task: Task)
    requires CallOf(task).Some?
    ensures !(task.Append? && task.apc.ATail?) && !(task.Tail? && task.lpc.LTake?)
  {
    hide Map, TargetsAt, StripeById;
  }

  /** One joint step: the pairs stay pairs, and a call gets the same reply from both. */
  lemma {:induction false} JointStepOk(j: Joint, step: JointStep)
    requires Inv(j.s) && Formed(j.s) && |j.s.core.views| > 0 && AllPaired(j.s.core, j.ceph) && StepWithin(j, step)
    ensures var j' := DoJoint(j, step); |j'.s.core.views| > 0 && AllPaired(j'.s.core, j'.ceph)
    ensures step.Runs? && CallIn(j.s, step.step).Some? ==>
              var (oid, op) := CallIn(j.s, step.step).value;
              CephOf(DoJoint(j, step).ceph, oid).replies == CephOf(j.ceph, oid).replies + [Apply(j.s.core.store, oid, op).0]
  {
    hide Inv, CoreOk, Do, Apply, Directed, ObjectMap.Good, View.Stripes, CallIn, Within, AllPaired, Reclaiming.Do, Fits;
    match step {
      case Runs(own, omapMax) =>
        StepCalls(j.s, own);
        match CallIn(j.s, own) {
          case None => ViewPairs(j.s.core, Do(j.s, own).core, j.ceph);
          case Some((oid, op)) => CallPairs(j.s.core, j.ceph, Do(j.s, own).core, oid, op, omapMax);
        }
      case Reclaims(oid, i, key) => ReclaimPairs(j.s.core, j.ceph, oid, i, key);
    }
  }

  lemma {:induction false} BeginPaired(view: View)
    ensures AllPaired(Core([view], map[], []), map[])
  {
    hide View.Stripes, ObjectMap.Good, Holds, WellFormed, LogObject.Cell, LogObject.Top, LogObject.Valid;
    forall oid ensures Paired(view.Stripes(), oid, None, NOTHING) {
      assert Backends.RamIs(None, Contract.ABSENT);
      forall last: nat ensures Reclaiming.Inv(last, NOTHING, Contract.ABSENT) { NothingThere(last, NOTHING, Contract.ABSENT); }
      assert CephOk(view.Stripes(), oid, NOTHING, Contract.ABSENT);
    }
  }

  lemma {:induction false} JointPaired(options: Options, withStripes: bool, steps: seq<JointStep>)
    requires options.Valid() && RunWithin(options, withStripes, steps)
    ensures var j := JointReached(options, withStripes, steps);
            Inv(j.s) && Formed(j.s) && |j.s.core.views| > 0 && AllPaired(j.s.core, j.ceph)
    decreases |steps|
  {
    hide Inv, Formed, AllPaired, DoJoint, StepWithin, Options.Valid, Initial, Reached;
    JointIsRun(options, withStripes, steps);
    ReachedInv(options, withStripes, StepsOf(steps));
    if steps == [] {
      BeginPaired(Initial(options, withStripes));
    } else {
      var n := |steps| - 1;
      JointPaired(options, withStripes, steps[..n]);
      JointStepOk(JointReached(options, withStripes, steps[..n]), steps[n]);
    }
  }

  /**
    In every joint run within the limits of the object class, whatever the interleaving of reclaim steps,
    the Ceph objects answer every call of the protocol as the run's store does, and no full trim fails.
    */
  lemma {:induction false} CephAnswersAlike(options: Options, withStripes: bool, steps: seq<JointStep>, step: Step, omapMax: Option<nat>)
    requires options.Valid() && RunWithin(options, withStripes, steps + [Runs(step, omapMax)])
    requires CallIn(JointReached(options, withStripes, steps).s, step).Some?
    ensures var j, j' := JointReached(options, withStripes, steps), JointReached(options, withStripes, steps + [Runs(step, omapMax)]);
            var (oid, op) := CallIn(j.s, step).value;
            && j'.s == Do(j.s, step)
            && CephOf(j'.ceph, oid).replies == CephOf(j.ceph, oid).replies + [Apply(j.s.core.store, oid, op).0]
            && (forall i :: 0 <= i < |CephOf(j'.ceph, oid).reclaimers| ==> CephOf(j'.ceph, oid).reclaimers[i].phase != Reclaiming.Ended(EIO))
  {
    hide Inv, Formed, AllPaired, CallIn, Options.Valid, StepWithin, Do, Apply, Reclaiming.Do;
    var all := steps + [Runs(step, omapMax)];
    assert all[..|steps|] == steps;
    JointPaired(options, withStripes, steps);
    JointPaired(options, withStripes, all);
    JointStepOk(JointReached(options, withStripes, steps), Runs(step, omapMax));
    var j, j' := JointReached(options, withStripes, steps), JointReached(options, withStripes, all);
    NoneFailed(j'.s.core, j'.ceph, CallIn(j.s, step).value.0);
  }

  lemma {:induction false} NoneFailed(core: Core, ceph: map<Oid, Reclaiming.State>, oid: Oid)
    requires |core.views| > 0 && AllPaired(core, ceph)
    ensures forall i :: 0 <= i < |CephOf(ceph, oid).reclaimers| ==> CephOf(ceph, oid).reclaimers[i].phase != Reclaiming.Ended(EIO)
  {
    hide View.Stripes, ObjectMap.Good, Backends.RamIs, Backends.ClsIs, WellFormed, Holds;
    var l, c := Latest(core).Stripes(), CephOf(ceph, oid);
    assert Paired(l, oid, Lookup(core.store, oid), c);
    var sp :| Backends.RamIs(Lookup(core.store, oid), sp) && CephOk(l, oid, c, sp);
    if Owns(l, oid) {
      var last := LastExists(l, oid);
      assert Reclaiming.Inv(last, c, sp);
    }
  }

  /** What a Ceph object holds at a position. */
  function CephCell(c: Reclaiming.State, p: nat): Cell {
    if c.obj.Some? then c.obj.value.Cell(p) else Unwritten
  }

  /** The Ceph objects hold the log: at every position the content that the theorems are about. */
  lemma {:induction false} CephHoldsLog(options: Options, withStripes: bool, steps: seq<JointStep>, p: nat)
    requires options.Valid() && RunWithin(options, withStripes, steps)
    ensures var j := JointReached(options, withStripes, steps);
            && Reachable(j.s) && |j.s.core.views| > 0
            && Content(j.s.core, p) == (match Map(Latest(j.s.core).om, p).0
                                        case None => Unwritten
                                        case Some(oid) => CephCell(CephOf(j.ceph, oid), p))
  {
    hide Inv, Formed, Map, JointReached, Options.Valid, RunWithin, Reached;
    JointPaired(options, withStripes, steps);
    JointIsRun(options, withStripes, steps);
    var j, own := JointReached(options, withStripes, steps), StepsOf(steps);
    assert own <= own && j.s == Reached(options, withStripes, own);
    match Map(Latest(j.s.core).om, p).0 {
      case None =>
      case Some(oid) => PairedCells(Latest(j.s.core).Stripes(), oid, Lookup(j.s.core.store, oid), CephOf(j.ceph, oid), p);
    }
  }

  lemma {:induction false} PairedCells(l: seq<Stripe>, oid: Oid, o: Option<LogObject>, c: Reclaiming.State, p: nat)
    requires WellFormed(l) && Paired(l, oid, o, c)
    ensures CephCell(c, p) == if o.Some? then o.value.Cell(p) else Unwritten
  {
    hide WellFormed, Holds, LogObject.Cell, LogObject.Top, LogObject.Valid, Cls.Obj.Cell, Cls.Obj.Valid, Cls.Header.Max,
         Contract.Fold, Contract.FoldTop, Reclaiming.Inv;
    var sp :| Backends.RamIs(o, sp) && CephOk(l, oid, c, sp);
  }
}
