/**
  Where a new sequencer starts (src/libzlog/view_manager.cc, propose_sequencer and seal_stripe): exactly
  one past the highest position that older epochs named in the last stripe that they used.
  */
module Seeds {
  import opened Common
  import opened Stripes
  import opened PlainLists
  import opened ObjectMaps
  import opened MapTo
  import opened Expansion
  import opened Views
  import opened Cells
  import opened Ram
  import opened Protocol
  import opened History
  import opened CoreSteps
  import opened Handoff
  import opened Threads
  import opened TaskSteps
  import opened Runs
  import opened Theorems
  import opened Calls
  import opened Outcomes

  // ----- events and the highest positions of objects ---------------------------------------------

  /** Events are on objects of the view of their epoch. */
  ghost predicate EventsOwned(core: Core) {
    forall j :: 0 <= j < |core.hist| ==> OwnedIn(core.views, core.hist[j])
  }

  ghost predicate OwnedIn(views: seq<View>, ev: Event) {
    Guarded(ev.op) && 1 <= ev.op.epoch <= |views| && Owns(views[ev.op.epoch - 1].Stripes(), ev.oid)
  }

  /** `top` is the highest position that an event named on the object; there is none without an event. */
  ghost predicate TopIs(hist: seq<Event>, oid: Oid, top: Option<nat>) {
    && (forall j :: 0 <= j < |hist| && hist[j].oid == oid && Guarded(hist[j].op) ==> top.Some? && hist[j].op.pos <= top.value)
    && (top.Some? ==> exists j :: 0 <= j < |hist| && hist[j].oid == oid && Guarded(hist[j].op) && hist[j].op.pos == top.value)
  }

  function TopOf(store: Store, oid: Oid): Option<nat> {
    if oid in store then store[oid].Top() else None
  }

  ghost predicate TopsAre(core: Core) {
    forall oid :: TopIs(core.hist, oid, TopOf(core.store, oid))
  }

  /** A call and the highest position of its object. */
  lemma {:induction false} TopAfter(l: seq<Stripe>, n: nat, st: Store, oid: Oid, op: Op, o: Oid)
    requires WellFormed(l) && StoreOk(l, n, st) && Directed(l, oid, op)
    ensures var (reply, st') := Apply(st, oid, op);
            TopOf(st', o) == if o == oid && Guarded(op) && !op.Read? && reply.ret.Success? then NextTop(TopOf(st, o), op) else TopOf(st, o)
  {
    hide WellFormed, Targeted, StoreOk, ObjectOk, Kept, Admitted, LogObject.Valid;
    if oid in st && Guarded(op) {
      StoredOk(l, n, st, oid);
      ObjectValid(l, oid, st[oid], op);
      PromiseKept(l, oid, st[oid], op);
      AdmittedTop(st[oid], op);
    }
  }

  lemma {:induction false} TopMoves(a: Core, b: Core, oid: Oid, op: Op, t: nat, o: Oid)
    requires TopIs(a.hist, o, TopOf(a.store, o)) && Recorded(a, b, oid, op, t)
    requires TopOf(b.store, o) == if o == oid && Guarded(op) && !op.Read? && Apply(a.store, oid, op).0.ret.Success?
                                  then NextTop(TopOf(a.store, o), op) else TopOf(a.store, o)
    ensures TopIs(b.hist, o, TopOf(b.store, o))
  {
    hide Apply, TopOf;
    var n := |a.hist|;
    if b.hist != a.hist {
      assert forall j :: 0 <= j < n ==> b.hist[j] == a.hist[j];
      if o == oid {
        assert b.hist[n].oid == oid && b.hist[n].op == op;
        var top := TopOf(a.store, o);
        if top.Some? && top.value >= op.pos {
          var j :| 0 <= j < n && a.hist[j].oid == o && Guarded(a.hist[j].op) && a.hist[j].op.pos == top.value;
          assert b.hist[j].oid == o && b.hist[j].op.pos == top.value;
        }
      } else if TopOf(a.store, o).Some? {
        var j :| 0 <= j < n && a.hist[j].oid == o && Guarded(a.hist[j].op) && a.hist[j].op.pos == TopOf(a.store, o).value;
        assert b.hist[j].oid == o;
      }
    }
  }

  /** The object of a call belongs to the view that the call's epoch names. */
  lemma {:induction false} CallIsOwn(core: Core, client: Client, c: nat, task: Task)
    requires CoreOk(core) && TaskOk(core, client, c, task) && CallOf(task).Some? && Guarded(CallOf(task).value.1)
    ensures var (oid, op) := CallOf(task).value;
            1 <= op.epoch <= |core.views| && Owns(core.views[op.epoch - 1].Stripes(), oid)
  {
    hide CoreOk, Map, ObjectMap.Good, View.Stripes, StripeById, SealedFrom, Quiet, Scanned, SealedAbove, TrimmedTo, PositionOk,
         Replay, WellFormed, HeldOk, Targets, Targeted;
    match task {
      case Append(_, pos, pc) => HoldsOwned(pc.v.view, pos.value.1, CallOf(task).value.0);
      case Point(_, at, pc) => HoldsOwned(pc.v.view, at, CallOf(task).value.0);
      case TrimTo(limit, pc) =>
        StripeIs(pc.v.view, pc.k);
        RangeTargeted(pc.v.view.Stripes(), pc.k, limit, pc.i, pc.v.epoch);
      case _ =>
    }
  }

  /** A step keeps both: events are on owned objects, and every object's highest position is theirs. */
  lemma {:induction false} MarksKept(a: Core, client: Client, c: nat, task: Task, t: nat, b: Core)
    requires CoreOk(a) && |a.views| > 0 && TaskOk(a, client, c, task) && a.views <= b.views
    requires EventsOwned(a) && TopsAre(a)
    requires match CallOf(task)
             case None => b.store == a.store && b.hist == a.hist
             case Some(call) => b.store == Apply(a.store, call.0, call.1).1 && Recorded(a, b, call.0, call.1, t)
    ensures EventsOwned(b) && TopsAre(b)
  {
    hide TaskOk, CallOf, ViewsOk, LogOk, EventsOk, HandedOff, WritesOk, StoreOk, View.Stripes, ObjectMap.Good, Apply, Directed,
         TopIs, TopOf, WellFormed, Owns;
    if CallOf(task).Some? {
      var (oid, op) := CallOf(task).value;
      CallsDirected(a, client, c, task);
      if Guarded(op) { CallIsOwn(a, client, c, task); }
      forall o ensures TopIs(b.hist, o, TopOf(b.store, o)) {
        TopAfter(Latest(a).Stripes(), |a.views|, a.store, oid, op, o);
        TopMoves(a, b, oid, op, t, o);
      }
      assert forall j :: 0 <= j < |a.hist| ==> b.hist[j] == a.hist[j];
    }
  }

  // ----- what the proposer has found -------------------------------------------------------------

  /** Epochs up to `e` did nothing in the stripes from `k` on. */
  ghost predicate UnusedFrom(hist: seq<Event>, e: nat, k: nat) {
    forall j :: 0 <= j < |hist| && Guarded(hist[j].op) && hist[j].op.epoch <= e ==> hist[j].oid.stripe < k
  }

  /** An event of an epoch up to `e` in the first `i` objects of stripe `k`. */
  predicate InScan(ev: Event, e: nat, k: nat, i: nat) {
    Guarded(ev.op) && ev.op.epoch <= e && ev.oid.stripe == k && ev.oid.index < i
  }

  /** `max` is the highest position that those events named. */
  ghost predicate ScanIs(hist: seq<Event>, e: nat, k: nat, i: nat, max: Option<nat>) {
    && (forall j :: 0 <= j < |hist| && InScan(hist[j], e, k, i) ==> max.Some? && hist[j].op.pos <= max.value)
    && (max.Some? ==> exists j :: 0 <= j < |hist| && InScan(hist[j], e, k, i) && hist[j].op.pos == max.value)
  }

  /** The objects of the stripes from `k` on are sealed beyond `e`. */
  ghost predicate SealedStripes(store: Store, l: seq<Stripe>, e: nat, k: nat) {
    forall oid :: Owns(l, oid) && oid.stripe >= k ==> oid in store && store[oid].epoch > e
  }

  /**
    The first position of the configuration that follows epoch `e`, whose view has the stripes `l`: 0 if
    nothing was done up to `e`; else one past the highest position named in the last stripe used.
    */
  ghost predicate SeedIs(core: Core, l: seq<Stripe>, e: nat, seed: nat) {
    if seed == 0 then UnusedFrom(core.hist, e, 0) && SealedStripes(core.store, l, e, 0)
    else exists k: nat :: LastUsed(core, l, e, k, seed)
  }

  ghost predicate LastUsed(core: Core, l: seq<Stripe>, e: nat, k: nat, seed: nat) {
    && 0 < seed && k < |l| && SealedStripes(core.store, l, e, k)
    && UnusedFrom(core.hist, e, k + 1) && ScanIs(core.hist, e, k, l[k].width, Some(seed - 1))
  }

  /** What a proposer has found, as long as its proposal can still succeed. */
  ghost predicate FoundOk(core: Core, pc: ProposePc) {
    match pc
    case QSeal(v, k, _) => v.epoch == |core.views| ==> UnusedFrom(core.hist, v.epoch, k + 1)
    case QMax(v, k, i, max) =>
      v.epoch == |core.views| ==> UnusedFrom(core.hist, v.epoch, k + 1) && ScanIs(core.hist, v.epoch, k, i, max)
    case QCas(v, seed) => v.epoch == |core.views| ==> SeedIs(core, v.view.Stripes(), v.epoch, seed)
    case _ => true
  }

  ghost predicate NewSeedsOk(core: Core) {
    forall i: nat :: NewConfig(core.views, i) ==> SeedIs(core, core.views[i - 1].Stripes(), i, core.views[i].config.value.position)
  }

  // ----- other threads cannot undo it ------------------------------------------------------------

  /** A new event with an epoch up to `e` is not in a sealed stripe. */
  lemma {:induction false} NewEventBelow(a: Core, b: Core, e: nat, k: nat)
    requires ViewsOk(a.views) && Grows(a, b) && EventsOwned(b) && 1 <= e <= |a.views| && b.hist != a.hist
    requires SealedStripes(a.store, a.views[e - 1].Stripes(), e, k)
    ensures var ev := b.hist[|a.hist|]; Guarded(ev.op) && ev.op.epoch <= e ==> ev.oid.stripe < k
  {
    hide Follows, ConfigOk, View.Stripes, ObjectMap.Good;
    var ev := b.hist[|a.hist|];
    assert OwnedIn(b.views, ev);
    if ev.op.epoch <= e { assert Extends(a.views[ev.op.epoch - 1], a.views[e - 1]); }
  }

  lemma {:induction false} UnusedLasts(a: Core, b: Core, e: nat, k: nat, m: nat)
    requires ViewsOk(a.views) && Grows(a, b) && EventsOwned(b) && 1 <= e <= |a.views| && k <= m
    requires SealedStripes(a.store, a.views[e - 1].Stripes(), e, k) && UnusedFrom(a.hist, e, m)
    ensures UnusedFrom(b.hist, e, m)
  {
    hide ViewsOk, Fits, OwnedIn, View.Stripes, ObjectMap.Good, SealedStripes;
    if b.hist != a.hist {
      NewEventBelow(a, b, e, k);
      forall j | 0 <= j < |b.hist| && Guarded(b.hist[j].op) && b.hist[j].op.epoch <= e ensures b.hist[j].oid.stripe < m {
        if j < |a.hist| { assert b.hist[j] == a.hist[j]; }
      }
    }
  }

  lemma {:induction false} ScanLasts(a: Core, b: Core, e: nat, k: nat, i: nat, max: Option<nat>)
    requires ViewsOk(a.views) && Grows(a, b) && EventsOwned(b) && 1 <= e <= |a.views|
    requires SealedStripes(a.store, a.views[e - 1].Stripes(), e, k) && ScanIs(a.hist, e, k, i, max)
    ensures ScanIs(b.hist, e, k, i, max)
  {
    hide ViewsOk, Fits, OwnedIn, View.Stripes, ObjectMap.Good, SealedStripes;
    if b.hist != a.hist {
      NewEventBelow(a, b, e, k);
      assert forall j :: 0 <= j < |a.hist| ==> b.hist[j] == a.hist[j];
      if max.Some? {
        var j :| 0 <= j < |a.hist| && InScan(a.hist[j], e, k, i) && a.hist[j].op.pos == max.value;
        assert InScan(b.hist[j], e, k, i);
      }
    }
  }

  lemma {:induction false} SealedLasts(a: Core, b: Core, l: seq<Stripe>, e: nat, k: nat)
    requires Grows(a, b) && SealedStripes(a.store, l, e, k)
    ensures SealedStripes(b.store, l, e, k)
  {
    hide Fits, Owns;
  }

  lemma {:induction false} SeedLasts(a: Core, b: Core, e: nat, seed: nat)
    requires ViewsOk(a.views) && Grows(a, b) && EventsOwned(b) && 1 <= e <= |a.views|
    requires SeedIs(a, a.views[e - 1].Stripes(), e, seed)
    ensures SeedIs(b, a.views[e - 1].Stripes(), e, seed)
  {
    hide ViewsOk, Grows, EventsOwned, View.Stripes, ObjectMap.Good, SealedStripes, UnusedFrom, ScanIs;
    var l := a.views[e - 1].Stripes();
    if seed == 0 {
      UnusedLasts(a, b, e, 0, 0);
      SealedLasts(a, b, l, e, 0);
    } else {
      var k: nat :| LastUsed(a, l, e, k, seed);
      UnusedLasts(a, b, e, k, k + 1);
      ScanLasts(a, b, e, k, l[k].width, Some(seed - 1));
      SealedLasts(a, b, l, e, k);
      assert LastUsed(b, l, e, k, seed);
    }
  }

  lemma {:induction false} SealedIsStripes(store: Store, l: seq<Stripe>, e: nat, k: nat, i: nat)
    requires k < |l| && SealedFrom(store, l, e, k, i)
    ensures SealedStripes(store, l, e, k + 1) && (i >= l[k].width ==> SealedStripes(store, l, e, k))
  {
  }

  lemma {:induction false} FoundLasts(a: Core, b: Core, pc: ProposePc)
    requires ViewsOk(a.views) && Grows(a, b) && EventsOwned(b) && ProposeOk(a, pc) && FoundOk(a, pc)
    ensures FoundOk(b, pc)
  {
    hide ViewsOk, EventsOwned, View.Stripes, ObjectMap.Good, SealedStripes, UnusedFrom, ScanIs, SeedIs, SealedFrom, Quiet, Scanned,
         SealedAbove, Fits, WellFormed;
    match pc {
      case QSeal(v, k, i) =>
        SealedIsStripes(a.store, v.view.Stripes(), v.epoch, k, i);
        if v.epoch == |b.views| { UnusedLasts(a, b, v.epoch, k + 1, k + 1); }
      case QMax(v, k, i, max) =>
        SealedIsStripes(a.store, v.view.Stripes(), v.epoch, k, v.view.Stripes()[k].width);
        if v.epoch == |b.views| {
          UnusedLasts(a, b, v.epoch, k, k + 1);
          ScanLasts(a, b, v.epoch, k, i, max);
        }
      case QCas(v, seed) =>
        if v.epoch == |b.views| { SeedLasts(a, b, v.epoch, seed); }
      case _ =>
    }
  }

  // ----- the proposer's own steps ----------------------------------------------------------------

  /** The search begins above all stripes: nothing was done there. */
  lemma {:induction false} SearchBegins(core: Core, v: VersionedView)
    requires CoreOk(core) && EventsOwned(core) && Committed(core.views, v)
    ensures UnusedFrom(core.hist, v.epoch, |v.view.Stripes()|)
    ensures |v.view.Stripes()| == 0 ==> SeedIs(core, v.view.Stripes(), v.epoch, 0)
  {
    hide StoreOk, LogOk, EventsOk, HandedOff, WritesOk, Follows, ConfigOk, View.Stripes, ObjectMap.Good, WellFormed;
    forall j | 0 <= j < |core.hist| && Guarded(core.hist[j].op) && core.hist[j].op.epoch <= v.epoch
      ensures core.hist[j].oid.stripe < |v.view.Stripes()|
    {
      assert OwnedIn(core.views, core.hist[j]);
      assert Extends(core.views[core.hist[j].op.epoch - 1], core.views[v.epoch - 1]);
    }
  }

  /** One more object is asked for its highest position. */
  lemma {:induction false} OneScanned(hist: seq<Event>, e: nat, k: nat, i: nat, max: Option<nat>, top: Option<nat>)
    requires ScanIs(hist, e, k, i, max) && TopIs(hist, Oid(k, i), top)
    requires forall j :: 0 <= j < |hist| ==> Guarded(hist[j].op) && hist[j].op.epoch <= e
    ensures ScanIs(hist, e, k, i + 1, Highest(max, top))
  {
    var high := Highest(max, top);
    forall j | 0 <= j < |hist| && InScan(hist[j], e, k, i + 1) ensures high.Some? && hist[j].op.pos <= high.value {
      if hist[j].oid.index == i { assert hist[j].oid == Oid(k, i); } else { assert InScan(hist[j], e, k, i); }
    }
    if high.Some? {
      if top.Some? && high == top {
        var j :| 0 <= j < |hist| && hist[j].oid == Oid(k, i) && hist[j].op.pos == top.value;
        assert InScan(hist[j], e, k, i + 1);
      } else {
        var j :| 0 <= j < |hist| && InScan(hist[j], e, k, i) && hist[j].op.pos == max.value;
        assert InScan(hist[j], e, k, i + 1);
      }
    }
  }

  /** A whole stripe is scanned: it gives the seed, or the search goes on below it. */
  lemma {:induction false} StripeScanned(core: Core, l: seq<Stripe>, e: nat, k: nat, max: Option<nat>)
    requires EventsOwned(core) && ViewsOk(core.views) && 1 <= e <= |core.views| && l == core.views[e - 1].Stripes()
    requires k < |l| && SealedFrom(core.store, l, e, k, l[k].width)
    requires UnusedFrom(core.hist, e, k + 1) && ScanIs(core.hist, e, k, l[k].width, max)
    ensures max.Some? ==> SeedIs(core, l, e, max.value + 1)
    ensures max.None? ==> UnusedFrom(core.hist, e, k) && (k == 0 ==> SeedIs(core, l, e, 0))
  {
    hide Follows, ConfigOk, View.Stripes, ObjectMap.Good, WellFormed, SealedFrom;
    SealedIsStripes(core.store, l, e, k, l[k].width);
    if max.Some? {
      assert LastUsed(core, l, e, k, max.value + 1);
    } else {
      forall j | 0 <= j < |core.hist| && Guarded(core.hist[j].op) && core.hist[j].op.epoch <= e ensures core.hist[j].oid.stripe < k {
        assert OwnedIn(core.views, core.hist[j]) && Extends(core.views[core.hist[j].op.epoch - 1], core.views[e - 1]);
        assert Owns(l, core.hist[j].oid);
        assert !InScan(core.hist[j], e, k, l[k].width);
      }
    }
  }

  lemma {:induction false} FoundBySeal(core: Core, client: Client, c: nat, task: Task, t: nat, fail: bool, core': Core, task': Task)
    requires CoreOk(core) && task.Propose? && task.qpc.QSeal? && ProposeOk(core, task.qpc) && FoundOk(core, task.qpc)
    requires StepPropose(core, client, c, task, t, fail) == (core', task')
    ensures task'.Propose? && FoundOk(core', task'.qpc)
  {
    hide CoreOk, View.Stripes, ObjectMap.Good, CallObject, StripeById, SealedFrom, Quiet, UnusedFrom, SeedIs, WellFormed;
    var v, k, i := task.qpc.v, task.qpc.k, task.qpc.i;
    MapIs(v.view, 0);
    StripeIs(v.view, k);
    if i < v.view.Stripes()[k].width {
      Records(core, v.view, Oid(k, i), Op.Seal(v.epoch + 1, None), t);
    }
  }

  lemma {:induction false} FoundByScan(core: Core, client: Client, c: nat, task: Task, t: nat, fail: bool, core': Core, task': Task)
    requires CoreOk(core) && task.Propose? && task.qpc.QMax? && ProposeOk(core, task.qpc) && FoundOk(core, task.qpc)
    requires EventsOwned(core) && TopsAre(core) && StepPropose(core, client, c, task, t, fail) == (core', task')
    ensures task'.Propose? && FoundOk(core', task'.qpc)
  {
    hide CoreOk, View.Stripes, ObjectMap.Good, SealedFrom, Quiet, Scanned, SealedAbove, UnusedFrom, ScanIs, SeedIs, TopIs, WellFormed,
         StripeById, EventsOwned, LogObject.Top;
    var v, k, i, max := task.qpc.v, task.qpc.k, task.qpc.i, task.qpc.max;
    MapIs(v.view, 0);
    StripeIs(v.view, k);
    CoreViews(core);
    if i < v.view.Stripes()[k].width {
      ScanOne(core, v, k, i, max);
      EpochsOfEvents(core);
      if v.epoch == |core.views| { OneScanned(core.hist, v.epoch, k, i, max, TopOf(core.store, Oid(k, i))); }
    } else if v.epoch == |core.views| {
      StripeScanned(core, v.view.Stripes(), v.epoch, k, max);
    }
  }

  lemma {:induction false} EpochsOfEvents(core: Core)
    requires CoreOk(core)
    ensures forall j :: 0 <= j < |core.hist| ==> Guarded(core.hist[j].op) && core.hist[j].op.epoch <= |core.views|
  {
    hide ViewsOk, StoreOk, LogOk, HandedOff, WritesOk, View.Stripes, ObjectMap.Good, Touched;
    forall j | 0 <= j < |core.hist| ensures Guarded(core.hist[j].op) && core.hist[j].op.epoch <= |core.views| {
      assert EventOk(core.views, core.hist[j]);
    }
  }

  lemma {:induction false} FoundByStep(core: Core, client: Client, c: nat, task: Task, t: nat, fail: bool, core': Core, task': Task)
    requires CoreOk(core) && ClientOk(core.views, client, c) && task.Propose? && ProposeOk(core, task.qpc)
    requires FoundOk(core, task.qpc) && EventsOwned(core) && TopsAre(core)
    requires StepPropose(core, client, c, task, t, fail) == (core', task')
    ensures task'.Propose? && FoundOk(core', task'.qpc)
  {
    hide CoreOk, View.Stripes, ObjectMap.Good, CallObject, SealedFrom, Quiet, Scanned, SealedAbove, UnusedFrom, ScanIs, SeedIs, TopsAre,
         WellFormed, StripeById, OnePerConfig, SequencerOk, EventsOwned;
    match task.qpc {
      case QStart =>
        if client.view.Some? {
          MapIs(client.view.value.view, 0);
          SearchBegins(core, client.view.value);
        }
      case QSeal(_, _, _) => FoundBySeal(core, client, c, task, t, fail, core', task');
      case QMax(_, _, _, _) => FoundByScan(core, client, c, task, t, fail, core', task');
      case _ =>
    }
  }

  // ----- committing ------------------------------------------------------------------------------

  /**
    The views that operations commit: a proposer makes its own client the sequencer, from the seed that
    it found, and changes nothing else; an update commits the change that it was asked for. Both only on
    top of the view that they worked in.
    */
  predicate Commits(a: Core, c: nat, task: Task, b: Core)
    requires |a.views| > 0 && (task.Update? && task.change.Expanding? ==> task.change.options.Valid())
  {
    b.views == a.views ||
    (&& |b.views| == |a.views| + 1 && a.views <= b.views
     && match task
        case Propose(QCas(v, seed)) => Latest(b) == Latest(a).WithSequencer(SequencerConfig(|b.views|, c, seed))
        case Update(change, UCas(v, next)) => Some(Latest(b)) == Changed(Latest(a), change)
        case _ => false)
  }

  /** Only proposers and updates commit views. */
  lemma {:induction false} OthersCommitNothing(core: Core, client: Client, c: nat, task: Task, t: nat, fail: bool)
    requires !task.Update? && !(task.Propose? && task.qpc.QCas?)
    ensures StepTask(core, client, c, task, t, fail).0.views == core.views
  {
    hide Map, Apply, Touched, ObjectMap.Good, View.Stripes, Options.Valid, MapStripe, StripeById, TargetsAt;
  }

  lemma {:induction false} StepCommits(core: Core, client: Client, c: nat, task: Task, t: nat, fail: bool, core': Core, task': Task)
    requires CoreOk(core) && |core.views| > 0 && TaskOk(core, client, c, task)
    requires StepTask(core, client, c, task, t, fail) == (core', task')
    ensures Commits(core, c, task, core')
    ensures task.Propose? && task.qpc.QCas? ==>
              (core'.views != core.views <==> task.qpc.v.epoch == |core.views|)
              && (task'.Propose? && task'.qpc.QDone? && task'.qpc.won.Some? ==> core'.views != core.views)
    ensures task.Update? && task.upc.UCas? ==> (core'.views != core.views <==> task.upc.v.epoch == |core.views|)
  {
    hide CoreOk, ObjectMap.Good, View.Stripes, Changed, Quiet, SealedAbove, SealedFrom, Scanned, Options.Valid, StepAppend, StepPoint, StepTrimTo, AppendOk, TrimToOk;
    if !task.Update? && !(task.Propose? && task.qpc.QCas?) { OthersCommitNothing(core, client, c, task, t, fail); }
  }

  /** The change that an update makes: the position gets mapped and no more, or the minimum is the one asked for. */
  ghost predicate ChangeMade(v: View, change: Change, next: Option<View>) {
    match change
    case Expanding(p, options) =>
      && options.Valid()
      && (next.None? <==> Map(v.om, p).0.Some?)
      && (next.Some? ==> Expands(v.om, next.value.om, p, NextShape(v.om, options)) && next.value.config == v.config)
    case Advancing(p) =>
      && (next.None? <==> p <= v.om.minValid)
      && (next.Some? ==> next.value.om.minValid == p && next.value.Stripes() == v.Stripes() && next.value.config == v.config)
  }

  lemma {:induction false} ChangeMeans(v: View, change: Change)
    requires change.Expanding? ==> change.options.Valid()
    ensures ChangeMade(v, change, Changed(v, change))
  {
    hide Map, Grow, Options.Valid, Expands, ObjectMap.Good;
    if change.Expanding? {
      if Map(v.om, change.p).0.None? { GrowIsMinimal(v.om, change.p, change.options); }
    } else if change.p > v.om.minValid {
      MinimumOnly(v, change.p);
    }
  }

  /** The minimum valid position plays no part in the stripes. */
  lemma {:induction false} MinimumOnly(v: View, p: nat)
    requires p > v.om.minValid
    ensures v.AdvanceMinValid(p).Some? && v.AdvanceMinValid(p).value.Stripes() == v.Stripes()
  {
    hide ObjectMap.Good;
  }

  /** A new configuration starts at its proposer's seed; changes keep the configuration. */
  lemma {:induction false} SeedsCommitted(a: Core, c: nat, task: Task, b: Core)
    requires CoreOk(a) && |a.views| > 0 && Grows(a, b) && EventsOwned(b) && NewSeedsOk(a)
    requires task.Update? && task.change.Expanding? ==> task.change.options.Valid()
    requires Commits(a, c, task, b)
    requires task.Propose? ==> FoundOk(a, task.qpc)
    requires task.Propose? && task.qpc.QCas? && b.views != a.views ==> Committed(a.views, task.qpc.v) && task.qpc.v.epoch == |a.views|
    ensures NewSeedsOk(b)
  {
    hide CoreOk, Fits, EventsOwned, View.Stripes, ObjectMap.Good, SeedIs, Changed, Options.Valid, ChangeMade;
    CoreViews(a);
    LatestConfig(a);
    if task.Update? { ChangeMeans(Latest(a), task.change); ConfigStays(Latest(a), task.change); }
    forall i: nat | NewConfig(b.views, i) ensures SeedIs(b, b.views[i - 1].Stripes(), i, b.views[i].config.value.position) {
      if i < |a.views| {
        assert NewConfig(a.views, i);
      }
      SeedLasts(a, b, i, b.views[i].config.value.position);
    }
  }

  lemma {:induction false} ConfigStays(v: View, change: Change)
    requires change.Expanding? ==> change.options.Valid()
    requires ChangeMade(v, change, Changed(v, change))
    ensures Changed(v, change).Some? ==> Changed(v, change).value.config == v.config
  {
    hide Changed, Options.Valid, Map, Expands, ObjectMap.Good, View.Stripes;
  }

  lemma {:induction false} LatestConfig(core: Core)
    requires CoreOk(core)
    ensures |core.views| > 0 && (Latest(core).config.Some? ==> Latest(core).config.value.epoch <= |core.views|)
  {
    hide StoreOk, LogOk, EventsOk, HandedOff, WritesOk, Follows, Extends, View.Stripes, ObjectMap.Good;
    assert ConfigOk(core.views, |core.views| - 1);
  }

  // ----- every reachable state -------------------------------------------------------------------

  ghost predicate SearchesOk(core: Core, threads: seq<Thread>) {
    forall t :: 0 <= t < |threads| && threads[t].task.Propose? ==> FoundOk(core, threads[t].task.qpc)
  }

  ghost predicate SeedsOk(s: State) {
    EventsOwned(s.core) && TopsAre(s.core) && NewSeedsOk(s.core) && SearchesOk(s.core, s.threads)
  }

  lemma {:induction false} SearchesKept(s: State, core: Core, t: nat, task: Task)
    requires Inv(s) && Grows(s.core, core) && EventsOwned(core) && SearchesOk(s.core, s.threads) && t < |s.threads|
    requires task.Propose? ==> FoundOk(core, task.qpc)
    ensures SearchesOk(core, s.threads[t := Thread(s.threads[t].client, task)])
  {
    hide Inv, CoreOk, Grows, EventsOwned, FoundOk, TaskOk;
    var threads := s.threads[t := Thread(s.threads[t].client, task)];
    InvCore(s);
    CoreViews(s.core);
    forall u | 0 <= u < |threads| && threads[u].task.Propose? ensures FoundOk(core, threads[u].task.qpc) {
      if u != t {
        ThreadTask(s, u);
        SearcherOk(s.core, s.clients[s.threads[u].client], s.threads[u].client, s.threads[u].task);
        FoundLasts(s.core, core, s.threads[u].task.qpc);
      }
    }
  }

  lemma {:induction false} SearcherOk(core: Core, client: Client, c: nat, task: Task)
    requires task.Propose? && TaskOk(core, client, c, task)
    ensures ProposeOk(core, task.qpc)
    ensures task.qpc.QCas? ==> Committed(core.views, task.qpc.v)
  {
    hide Quiet, SealedAbove, SealedFrom, Scanned, ObjectMap.Good, View.Stripes;
  }

  lemma {:induction false} PlainSeeds(s: State, t: nat, fail: bool)
    requires Inv(s) && SeedsOk(s) && t < |s.threads| && !AtTail(s.threads[t].task)
    ensures SeedsOk(Do(s, Run(t, fail)))
  {
    hide Inv, Do, CoreOk, ClientOk, TaskOk, Grows, StepTask, CallOf, Recorded, EventsOwned, TopsAre, NewSeedsOk, FoundOk, AtTail, Commits;
    InvFormed(s);
    Cores(s, Run(t, fail));
    DoGrows(s, Run(t, fail));
    RunIs(s, t, fail);
    ThreadTask(s, t);
    var c, task := s.threads[t].client, s.threads[t].task;
    var client := s.clients[c];
    var (core', task') := StepTask(s.core, client, c, task, t, fail);
    StepCommits(s.core, client, c, task, t, fail, core', task');
    CallIs(s.core, client, c, task, t, fail);
    ViewsGrow(s.core, core');
    MarksKept(s.core, client, c, task, t, core');
    FoundStep(s, t, fail, core', task');
    SeedsCommitted(s.core, c, task, core');
    SearchesKept(s, core', t, task');
  }

  /** The running thread's own search goes on right. */
  lemma {:induction false} FoundStep(s: State, t: nat, fail: bool, core': Core, task': Task)
    requires Inv(s) && SeedsOk(s) && t < |s.threads| && !AtTail(s.threads[t].task)
    requires ThreadFormed(s.threads[t], |s.clients|)
    requires var th := s.threads[t]; StepTask(s.core, s.clients[th.client], th.client, th.task, t, fail) == (core', task')
    ensures task'.Propose? ==> FoundOk(core', task'.qpc)
    ensures var task := s.threads[t].task;
            task.Propose? ==>
              FoundOk(s.core, task.qpc) && (task.qpc.QCas? ==> Committed(s.core.views, task.qpc.v))
  {
    hide Inv, CoreOk, ClientOk, TaskOk, StepPropose, EventsOwned, TopsAre, NewSeedsOk, FoundOk, AtTail, Map, CallObject, ObjectMap.Good,
         View.Stripes, Changed, Options.Valid, MapStripe, StripeById, TargetsAt, CallPropose;
    var c, task := s.threads[t].client, s.threads[t].task;
    InvCore(s);
    if task.Propose? {
      ThreadTask(s, t);
      SearcherOk(s.core, s.clients[c], c, task);
      ClientOf(s, c);
      FoundByStep(s.core, s.clients[c], c, task, t, fail, core', task');
    }
  }

  lemma {:induction false} SeedsStep(s: State, step: Step)
    requires Inv(s) && SeedsOk(s)
    ensures SeedsOk(Do(s, step))
  {
    hide Inv, StepTask, EventsOwned, TopsAre, NewSeedsOk, FoundOk, Install, Fetch, Bumped, ThreadFormed;
    if step.Run? && step.thread < |s.threads| && !AtTail(s.threads[step.thread].task) {
      PlainSeeds(s, step.thread, step.fail);
    } else if step.Start? && Fresh(step.task) && step.client < |s.clients| {
      StartSeeds(s, step.client, step.task);
    }
  }

  lemma {:induction false} StartSeeds(s: State, c: nat, task: Task)
    requires SeedsOk(s) && Fresh(task)
    ensures SeedsOk(s.(threads := s.threads + [Thread(c, task)]))
  {
    hide EventsOwned, TopsAre, NewSeedsOk, Options.Valid, UnusedFrom, ScanIs, SeedIs;
  }

  lemma {:induction false} BeginSeeds(options: Options, withStripes: bool)
    requires options.Valid()
    ensures SeedsOk(Begin(options, withStripes))
  {
    hide Initial, Options.Valid, FoundOk, ObjectMap.Good, View.Stripes;
  }

  lemma {:induction false} SeedsReached(options: Options, withStripes: bool, steps: seq<Step>)
    requires options.Valid()
    ensures SeedsOk(Reached(options, withStripes, steps))
    decreases |steps|
  {
    hide Inv, Do, Begin, SeedsOk, Options.Valid;
    if steps == [] {
      BeginSeeds(options, withStripes);
    } else {
      var rest := steps[..|steps| - 1];
      SeedsReached(options, withStripes, rest);
      ReachedInv(options, withStripes, rest);
      SeedsStep(Reached(options, withStripes, rest), steps[|steps| - 1]);
    }
  }

  lemma {:induction false} ReachableSeeds(s: State)
    requires Reachable(s)
    ensures SeedsOk(s)
  {
    hide SeedsOk, Reached, Options.Valid;
    var options: Options, withStripes: bool, steps: seq<Step>, more: seq<Step> :|
      && options.Valid() && steps <= more
      && s == Reached(options, withStripes, steps) && s == Reached(options, withStripes, more);
    SeedsReached(options, withStripes, steps);
  }

  /** `MaxPos` of an object: the highest position that a write, fill or trim named there, in the whole run. */
  lemma {:induction false} MaxPosOfRun(s: State, oid: Oid)
    requires Reachable(s)
    ensures TopIs(s.core.hist, oid, if oid in s.core.store then s.core.store[oid].Top() else None)
  {
    hide Reachable, Precedes, TopIs, NewSeedsOk, SearchesOk, EventsOwned;
    ReachableSeeds(s);
    assert TopIs(s.core.hist, oid, TopOf(s.core.store, oid));
  }

  /**
    The first position of a new configuration is exact. It is 0 if nothing was done under older epochs.
    Otherwise there is a last stripe in which something was, it is sealed, and the first position is one
    past the highest position that was named in it, which its object still reports as at least that high.
    */
  lemma {:induction false} FirstPositionIsExact(s: State, i: nat)
    requires Reachable(s) && NewConfig(s.core.views, i)
    ensures var l, first := s.core.views[i - 1].Stripes(), s.core.views[i].config.value.position;
            && SeedIs(s.core, l, i, first)
            && (first > 0 ==> exists oid :: Owns(l, oid) && oid in s.core.store && s.core.store[oid].Top().Some?
                                            && s.core.store[oid].Top().value >= first - 1)
  {
    hide Reachable, Precedes, TopsAre, SearchesOk, EventsOwned, View.Stripes, ObjectMap.Good, SealedStripes, UnusedFrom, TopIs,
         LogObject.Top, WellFormed;
    ReachableSeeds(s);
    var l, first := s.core.views[i - 1].Stripes(), s.core.views[i].config.value.position;
    if first > 0 {
      var k: nat :| LastUsed(s.core, l, i, k, first);
      var j :| 0 <= j < |s.core.hist| && InScan(s.core.hist[j], i, k, l[k].width) && s.core.hist[j].op.pos == first - 1;
      var oid := s.core.hist[j].oid;
      MaxPosOfRun(s, oid);
      NamedIsBelow(s.core.hist, oid, TopOf(s.core.store, oid), j);
    }
  }

  lemma {:induction false} NamedIsBelow(hist: seq<Event>, oid: Oid, top: Option<nat>, j: nat)
    requires TopIs(hist, oid, top) && j < |hist| && hist[j].oid == oid && Guarded(hist[j].op)
    ensures top.Some? && top.value >= hist[j].op.pos
  {
  }

  /**
    A step of a run commits no view, or the one that its operation asked for; and a proposal is taken
    exactly if it was made in the latest view.
    */
  lemma {:induction false} RunCommits(s: State, t: nat, fail: bool)
    requires Reachable(s) && t < |s.threads|
    ensures |s.core.views| > 0 && ThreadFormed(s.threads[t], |s.clients|)
    ensures Commits(s.core, s.threads[t].client, s.threads[t].task, Do(s, Run(t, fail)).core)
    ensures var task, committed := s.threads[t].task, Do(s, Run(t, fail)).core.views != s.core.views;
            && (task.Propose? && task.qpc.QCas? ==> (committed <==> task.qpc.v.epoch == |s.core.views|))
            && (task.Update? && task.upc.UCas? ==> (committed <==> task.upc.v.epoch == |s.core.views|))
  {
    hide Reachable, Precedes, Inv, CoreOk, TaskOk, StepTask, Changed;
    ReachableInv(s);
    InvFormed(s);
    InvCore(s);
    SomeView(s.core);
    ThreadTask(s, t);
    var c, task := s.threads[t].client, s.threads[t].task;
    if !AtTail(task) {
      var (core', task') := StepTask(s.core, s.clients[c], c, task, t, fail);
      StepCommits(s.core, s.clients[c], c, task, t, fail, core', task');
    }
  }
}
