/**
  What the protocol guarantees over whole runs of any number of clients. `Reachable(s)` says that some
  sequence of steps leads to `s`, `Precedes(s, s')` that some run that reaches `s` goes on to `s'`.
  */
module Theorems {
  import opened Common
  import opened Stripes
  import opened PlainLists
  import opened ObjectMaps
  import opened Views
  import opened Cells
  import opened Ram
  import opened Protocol
  import opened History
  import opened CoreSteps
  import opened Handoff
  import opened Threads
  import opened TaskSteps
  import opened Runs

  // ----- how runs continue -----------------------------------------------------------------------

  /** The shared state of a continued run. */
  ghost predicate Since(a: Core, b: Core) {
    && a.views <= b.views
    && a.hist <= b.hist
    && forall oid :: oid in a.store ==> oid in b.store && a.store[oid].epoch <= b.store[oid].epoch
  }

  lemma {:induction false} DoGrows(s: State, step: Step)
    requires Inv(s) && Formed(s)
    ensures Grows(s.core, Do(s, step).core)
  {
    hide CoreOk, OnceOk, ClientOk, TaskOk, IssuedOk, StepTask, ObjectMap.Good, Fits;
    GrowsRefl(s.core);
    if step.Run? && step.thread < |s.threads| {
      var t := step.thread;
      assert ThreadOk(s.core, s.clients, s.threads[t]);
      var c, task := s.threads[t].client, s.threads[t].task;
      if !(task.Append? && task.apc.ATail?) && !(task.Tail? && task.lpc.LTake?) {
        AnyTaskStep(s.core, s.clients[c], c, task, t, step.fail);
      }
    }
  }

  lemma {:induction false} RunGrows(options: Options, withStripes: bool, steps: seq<Step>, more: seq<Step>)
    requires options.Valid() && steps <= more
    ensures Since(Reached(options, withStripes, steps).core, Reached(options, withStripes, more).core)
    decreases |more|
  {
    hide Inv, Formed, Do, Fits, ObjectMap.Good;
    if steps != more {
      var n := |more| - 1;
      assert steps <= more[..n];
      RunGrows(options, withStripes, steps, more[..n]);
      ReachedInv(options, withStripes, more[..n]);
      DoGrows(Reached(options, withStripes, more[..n]), more[n]);
    } else {
      assert steps == more;
    }
  }

  /** The run continues from `s` to `s'`. */
  ghost predicate Precedes(s: State, s': State) {
    exists options: Options, withStripes: bool, steps: seq<Step>, more: seq<Step> ::
      && options.Valid() && steps <= more
      && s == Reached(options, withStripes, steps) && s' == Reached(options, withStripes, more)
  }

  ghost predicate Reachable(s: State) {
    Precedes(s, s)
  }

  lemma {:induction false} ReachableInv(s: State)
    requires Reachable(s)
    ensures Inv(s) && Formed(s)
  {
    hide Inv, Formed, Reached;
    var options: Options, withStripes: bool, steps: seq<Step>, more: seq<Step> :|
      && options.Valid() && steps <= more
      && s == Reached(options, withStripes, steps) && s == Reached(options, withStripes, more);
    ReachedInv(options, withStripes, steps);
  }

  lemma {:induction false} PrecedesSince(s: State, s': State)
    requires Precedes(s, s')
    ensures Inv(s) && Inv(s') && Since(s.core, s'.core) && Reachable(s')
  {
    hide Inv, Formed, Since, Reached;
    var options: Options, withStripes: bool, steps: seq<Step>, more: seq<Step> :|
      && options.Valid() && steps <= more
      && s == Reached(options, withStripes, steps) && s' == Reached(options, withStripes, more);
    ReachedInv(options, withStripes, steps);
    ReachedInv(options, withStripes, more);
    RunGrows(options, withStripes, steps, more);
    assert more <= more;
  }

  // ----- the log ---------------------------------------------------------------------------------

  /** What the log holds at `p`: the content of the object that the latest view maps `p` to. */
  function Content(core: Core, p: nat): Cell
    requires |core.views| > 0
  {
    match Map(Latest(core).om, p).0
    case None => Unwritten
    case Some(oid) => CellAt(core.store, oid, p)
  }

  /** The content of the log is the replay of its history. */
  lemma {:induction false} ContentIsReplay(core: Core, p: nat)
    requires CoreOk(core)
    ensures Content(core, p) == Replay(core.hist, p)
  {
    hide Map, Replay, CellAt, Follows, Extends, ConfigOk, StoreOk, EventsOk, HandedOff, WritesOk, View.Stripes, ObjectMap.Good;
    MapIs(Latest(core), p);
    if p >= Top(Latest(core).Stripes(), |Latest(core).Stripes()|) {
      NothingAbove(core, p);
      ReplayUntouched(core.hist, p);
    }
  }

  lemma {:induction false} ReplayLater(h: seq<Event>, h': seq<Event>, p: nat)
    requires h <= h'
    ensures Later(Replay(h, p), Replay(h', p))
    decreases |h'|
  {
    if h != h' {
      var n := |h'| - 1;
      assert h <= h'[..n];
      ReplayLater(h, h'[..n], p);
    } else {
      assert h == h';
    }
  }

  /** A trim was about `p`. */
  ghost predicate TrimmedIn(h: seq<Event>, p: nat) {
    exists k :: 0 <= k < |h| && h[k].op.Trim? && p in h[k].where
  }

  /** After a first write only a trim makes a difference. */
  lemma {:induction false} ReplayWritten(h: seq<Event>, j: nat, p: nat)
    requires forall i :: 0 <= i < |h| ==> Aimed(h[i])
    requires j < |h| && h[j].op.Write? && h[j].op.pos == p && p in h[j].where
    requires forall i :: 0 <= i < j ==> p !in h[i].where
    ensures Replay(h, p) == if TrimmedIn(h, p) then Invalid else Data(h[j].op.data)
    decreases |h|
  {
    var n := |h| - 1;
    var g := h[..n];
    assert forall i :: 0 <= i < n ==> g[i] == h[i];
    assert TrimmedIn(h, p) <==> TrimmedIn(g, p) || (h[n].op.Trim? && p in h[n].where) by {
      if k :| 0 <= k < n && h[k].op.Trim? && p in h[k].where { assert g[k].op.Trim?; }
    }
    if j < n {
      ReplayWritten(g, j, p);
    } else {
      ReplayUntouched(g, p);
    }
  }

  /**
    A position only moves from unwritten to its data to invalid, or from unwritten to invalid, whatever
    views, seals and full trims come in between.
    */
  lemma {:induction false} PositionLifecycle(s: State, s': State, p: nat)
    requires Precedes(s, s')
    ensures |s.core.views| > 0 && |s'.core.views| > 0
    ensures Later(Content(s.core, p), Content(s'.core, p))
  {
    hide Precedes, Reachable, Content, Replay, ClientsOk, ThreadsOk, OnceOk, IssuedOk, StoreOk, LogOk, EventsOk, HandedOff, WritesOk,
         Follows, Extends, ConfigOk, View.Stripes, ObjectMap.Good;
    PrecedesSince(s, s');
    ContentIsReplay(s.core, p);
    ContentIsReplay(s'.core, p);
    ReplayLater(s.core.hist, s'.core.hist, p);
  }

  /** What a read of `p` in any committed view returns: the content of the log, or a reason to retry. */
  lemma {:induction false} ReadSeesLog(s: State, e: nat, p: nat, oid: Oid)
    requires Reachable(s) && 1 <= e <= |s.core.views| && Map(s.core.views[e - 1].om, p).0 == Some(oid)
    ensures var reply := Apply(s.core.store, oid, Op.Read(e, p)).0;
            || reply == Answer(Content(s.core, p), Op.Read(e, p))
            || reply == Code(ESPIPE)
            || (reply == Code(ENOENT) && Content(s.core, p) == Unwritten)
  {
    hide Reachable, Precedes, ClientsOk, ThreadsOk, OnceOk, IssuedOk, CoreOk, Apply, Content, Map, Answer, ObjectMap.Good;
    ReachableInv(s);
    SameObject(s.core, e, p, oid);
    ReadAnswers(s.core.store, oid, e, p);
  }

  lemma {:induction false} ReadAnswers(st: Store, oid: Oid, e: nat, p: nat)
    requires e > 0
    ensures var reply := Apply(st, oid, Op.Read(e, p)).0;
            || reply == Answer(CellAt(st, oid, p), Op.Read(e, p))
            || reply == Code(ESPIPE)
            || (reply == Code(ENOENT) && CellAt(st, oid, p) == Unwritten)
  {
  }

  /** Every view that maps `p` maps it to the object that the latest view maps it to. */
  lemma {:induction false} SameObject(core: Core, e: nat, p: nat, oid: Oid)
    requires CoreOk(core) && 1 <= e <= |core.views| && Map(core.views[e - 1].om, p).0 == Some(oid)
    ensures Map(Latest(core).om, p).0 == Some(oid) && Content(core, p) == CellAt(core.store, oid, p)
  {
    hide Map, LogOk, StoreOk, EventsOk, HandedOff, WritesOk, View.Stripes, ObjectMap.Good, Follows, ConfigOk;
    MapIs(core.views[e - 1], p);
    MapIs(Latest(core), p);
    assert Extends(core.views[e - 1], Latest(core));
    PrefixKeeps(core.views[e - 1].Stripes(), Latest(core).Stripes(), oid, p);
  }

  // ----- appends ---------------------------------------------------------------------------------

  /** Thread `t` wrote `data` at `p`, as event `j` of the history. */
  predicate WroteAt(s: State, t: nat, p: nat, data: Bytes, j: nat) {
    j < |s.core.hist| && s.core.hist[j].thread == t && s.core.hist[j].op.Write?
    && s.core.hist[j].op.pos == p && s.core.hist[j].op.data == data
  }

  /**
    Append is all or once: an append that returns 0 has written its data exactly once and at the
    position it reports; one that fails, or has not ended, has written nothing.
    */
  lemma {:induction false} AppendAllOrOnce(s: State, t: nat)
    requires Reachable(s) && t < |s.threads| && s.threads[t].task.Append?
    ensures var task := s.threads[t].task;
            if task.apc == ADone(Success) then
              && task.pos.Some?
              && (exists j: nat :: WroteAt(s, t, task.pos.value.1, task.data, j))
              && (forall i: nat, j: nat, p: nat, q: nat, x: Bytes, y: Bytes ::
                    WroteAt(s, t, p, x, i) && WroteAt(s, t, q, y, j) ==> i == j)
            else forall j: nat, p: nat, x: Bytes :: !WroteAt(s, t, p, x, j)
  {
    hide Reachable, Precedes, ClientsOk, ThreadsOk, CoreOk, IssuedOk;
    ReachableInv(s);
    if Wrote(s.threads[t].task) {
      var j :| 0 <= j < |s.core.hist| && s.core.hist[j].op.Write? && s.core.hist[j].thread == t;
      assert WroteAt(s, t, s.threads[t].task.pos.value.1, s.threads[t].task.data, j);
    }
  }

  /** Appended data is what the log holds from then on, until a trim covers the position. */
  lemma {:induction false} AppendedStays(s: State, s': State, t: nat, p: nat, data: Bytes, j: nat)
    requires Precedes(s, s') && WroteAt(s, t, p, data, j)
    ensures |s'.core.views| > 0
    ensures Content(s'.core, p) == if TrimmedIn(s'.core.hist, p) then Invalid else Data(data)
  {
    hide Precedes, Reachable, Inv, CoreOk, Content, TrimmedIn;
    PrecedesSince(s, s');
    InvCore(s');
    assert s'.core.hist[j] == s.core.hist[j];
    ContentWritten(s'.core, j, p);
  }

  // ----- reads -----------------------------------------------------------------------------------

  /** Thread `t` is a read of `p` that has ended with `reply`. */
  predicate ReadEnded(s: State, t: nat, p: nat, reply: Reply) {
    t < |s.threads| && s.threads[t].task == Point(PRead, p, PDone(reply))
  }

  /** What a read of `p` may return once `data` was appended there; EIO is a failure to expand the view. */
  ghost predicate ReadReply(core: Core, p: nat, data: Bytes, reply: Reply) {
    || reply == Reply(Success, data, None)
    || (reply == Code(ENODATA) && TrimmedIn(core.hist, p))
    || reply == Code(EIO)
  }

  /** A backend read of an appended position. */
  lemma {:induction false} ReadCall(s: State, v: VersionedView, p: nat, oid: Oid, u: nat, data: Bytes, j: nat)
    requires Inv(s) && WroteAt(s, u, p, data, j) && Committed(s.core.views, v) && Map(v.view.om, p).0 == Some(oid)
    ensures var reply := Apply(s.core.store, oid, Op.Read(v.epoch, p)).0;
            || reply == Reply(Success, data, None)
            || (reply == Code(ENODATA) && TrimmedIn(s.core.hist, p))
            || reply == Code(ESPIPE)
  {
    hide Inv, CoreOk, Apply, Content, Map, CellAt, Replay, ObjectMap.Good;
    InvCore(s);
    SameObject(s.core, v.epoch, p, oid);
    ReadAnswers(s.core.store, oid, v.epoch, p);
    ContentWritten(s.core, j, p);
  }

  lemma {:induction false} InvCore(s: State)
    requires Inv(s)
    ensures CoreOk(s.core)
  {
    hide CoreOk, ClientsOk, ThreadsOk, OnceOk, IssuedOk;
  }

  /** What the log holds where there was a write. */
  lemma {:induction false} ContentWritten(core: Core, j: nat, p: nat)
    requires CoreOk(core) && j < |core.hist| && core.hist[j].op.Write? && core.hist[j].op.pos == p
    ensures |core.views| > 0
    ensures Content(core, p) == if TrimmedIn(core.hist, p) then Invalid else Data(core.hist[j].op.data)
  {
    hide Content, Replay, StoreOk, LogOk, HandedOff, Follows, Extends, ConfigOk, View.Stripes, ObjectMap.Good;
    ContentIsReplay(core, p);
    forall i | 0 <= i < |core.hist| ensures Aimed(core.hist[i]) { assert EventOk(core.views, core.hist[i]); }
    ReplayWritten(core.hist, j, p);
  }

  /** The step with which a read of an appended position ends. */
  lemma {:induction false} ReadStep(s: State, t: nat, fail: bool, p: nat, reply: Reply, u: nat, data: Bytes, j: nat)
    requires Inv(s) && WroteAt(s, u, p, data, j) && t < |s.threads| && s.threads[t].client < |s.clients|
    requires s.threads[t].task.Point? && !s.threads[t].task.ppc.PDone?
    requires var task := s.threads[t].task;
             StepPoint(s.core, s.clients[s.threads[t].client], task, t, fail).1 == Point(PRead, p, PDone(reply))
    ensures ReadReply(s.core, p, data, reply)
  {
    hide Inv, Apply, Map, ObjectMap.Good, View.Stripes, TrimmedIn, CoreOk;
    PointViews(s, t);
    var task := s.threads[t].task;
    match task.ppc {
      case PCall(v) =>
        var mapped := Map(v.view.om, p).0;
        if mapped.Some? { ReadCall(s, v, p, mapped.value, u, data, j); }
      case PSeal(v) =>
        var mapped := Map(v.view.om, p).0;
        if mapped.Some? { SealObject(s.core.store, mapped.value, v.epoch); }
      case _ =>
    }
  }

  lemma {:induction false} PointViews(s: State, t: nat)
    requires Inv(s) && t < |s.threads| && s.threads[t].task.Point?
    ensures var pc := s.threads[t].task.ppc; pc.PCall? || pc.PSeal? ==> Committed(s.core.views, pc.v)
  {
    hide CoreOk, ClientsOk, OnceOk, IssuedOk, ObjectMap.Good;
    assert ThreadOk(s.core, s.clients, s.threads[t]);
  }

  /** One step of any thread: an ended read ended before, or just now. */
  lemma {:induction false} DoRead(s: State, step: Step, t: nat, p: nat, reply: Reply, u: nat, data: Bytes, j: nat)
    requires Inv(s) && Formed(s) && WroteAt(s, u, p, data, j) && ReadEnded(Do(s, step), t, p, reply)
    ensures ReadEnded(s, t, p, reply) || ReadReply(s.core, p, data, reply)
  {
    hide Inv, Apply, Map, ObjectMap.Good, View.Stripes, StepPoint, StepAppend, StepTrimTo, StepPropose, StepUpdate,
         StepInit, StepTail, TrimmedIn, ReadReply, Install, Fetch, WroteAt;
    if step.Run? && step.thread == t && t < |s.threads| {
      assert ThreadFormed(s.threads[t], |s.clients|);
      TaskKinds(s.core, s.clients[s.threads[t].client], s.threads[t].client, s.threads[t].task, t, step.fail);
      if s.threads[t].task.Point? && !s.threads[t].task.ppc.PDone? {
        ReadStep(s, t, step.fail, p, reply, u, data, j);
      } else if s.threads[t].task.Point? {
        assert StepPoint(s.core, s.clients[s.threads[t].client], s.threads[t].task, t, step.fail).1 == s.threads[t].task by {
          EndedStays(s.core, s.clients[s.threads[t].client], s.threads[t].task, t, step.fail);
        }
      }
    }
  }

  lemma {:induction false} EndedStays(core: Core, client: Client, task: Task, t: nat, fail: bool)
    requires task.Point? && task.ppc.PDone?
    ensures StepPoint(core, client, task, t, fail) == (core, task)
  {
  }

  /** A step keeps the kind of its task. */
  lemma {:induction false} TaskKinds(core: Core, client: Client, c: nat, task: Task, t: nat, fail: bool)
    requires task.Update? && task.change.Expanding? ==> task.change.options.Valid()
    ensures StepTask(core, client, c, task, t, fail).1.Point? ==> task.Point?
  {
    hide Map, CallObject, ObjectMap.Good, View.Stripes, Changed, Options.Valid, MapStripe, StripeById, TargetsAt, CallPropose;
  }

  lemma {:induction false} RunReads(options: Options, withStripes: bool, steps: seq<Step>, more: seq<Step>,
                                    t: nat, p: nat, reply: Reply, u: nat, data: Bytes, j: nat)
    requires options.Valid() && steps <= more
    requires WroteAt(Reached(options, withStripes, steps), u, p, data, j)
    requires forall r :: !ReadEnded(Reached(options, withStripes, steps), t, p, r)
    requires ReadEnded(Reached(options, withStripes, more), t, p, reply)
    ensures ReadReply(Reached(options, withStripes, more).core, p, data, reply)
    decreases |more|
  {
    hide Inv, Formed, Do, ReadEnded, WroteAt, ReadReply, Options.Valid;
    if steps == more {
      assert false;
    } else {
      var n := |more| - 1;
      assert steps <= more[..n];
      var s := Reached(options, withStripes, more[..n]);
      RunGrows(options, withStripes, steps, more[..n]);
      RunGrows(options, withStripes, more[..n], more);
      ReachedInv(options, withStripes, more[..n]);
      WroteLasts(Reached(options, withStripes, steps), s, u, p, data, j);
      DoRead(s, more[n], t, p, reply, u, data, j);
      if ReadEnded(s, t, p, reply) {
        RunReads(options, withStripes, steps, more[..n], t, p, reply, u, data, j);
      }
      ReadReplyLasts(s.core, Reached(options, withStripes, more).core, p, data, reply);
    }
  }

  lemma {:induction false} WroteLasts(s: State, s': State, u: nat, p: nat, data: Bytes, j: nat)
    requires Since(s.core, s'.core) && WroteAt(s, u, p, data, j)
    ensures WroteAt(s', u, p, data, j)
  {
    assert s'.core.hist[j] == s.core.hist[j];
  }

  lemma {:induction false} ReadReplyLasts(a: Core, b: Core, p: nat, data: Bytes, reply: Reply)
    requires Since(a, b) && ReadReply(a, p, data, reply)
    ensures ReadReply(b, p, data, reply)
  {
    if TrimmedIn(a.hist, p) {
      var k :| 0 <= k < |a.hist| && a.hist[k].op.Trim? && p in a.hist[k].where;
      assert b.hist[k] == a.hist[k];
    }
  }

  /**
    A read operation of a position that ends after an append there has succeeded, whoever runs it and in
    whatever view it began, returns the appended data, or reports them gone if a trim covers the
    position, or fails because the view could not be expanded.
    */
  lemma {:induction false} ReadReturnsAppended(s: State, s': State, t: nat, p: nat, reply: Reply, u: nat, data: Bytes, j: nat)
    requires Precedes(s, s') && WroteAt(s, u, p, data, j)
    requires (forall r :: !ReadEnded(s, t, p, r)) && ReadEnded(s', t, p, reply)
    ensures ReadReply(s'.core, p, data, reply)
  {
    hide Reached, ReadEnded, WroteAt, ReadReply, Options.Valid;
    var options: Options, withStripes: bool, steps: seq<Step>, more: seq<Step> :|
      && options.Valid() && steps <= more
      && s == Reached(options, withStripes, steps) && s' == Reached(options, withStripes, more);
    RunReads(options, withStripes, steps, more, t, p, reply, u, data, j);
  }

  /** The sequencer configuration under which a call was made, as its epoch. */
  function Era(views: seq<View>, op: Op): nat
    requires Guarded(op)
  {
    if 1 <= op.epoch <= |views| && views[op.epoch - 1].config.Some? then views[op.epoch - 1].config.value.epoch else 0
  }

  /** Something done before a configuration's time is below its first position. */
  lemma {:induction false} BelowNewEra(core: Core, i: nat, e: nat, p: nat)
    requires CoreOk(core) && i < |core.hist| && p in core.hist[i].where
    requires 1 <= e <= |core.views| && core.views[e - 1].config.Some?
    requires Guarded(core.hist[i].op) && Era(core.views, core.hist[i].op) < core.views[e - 1].config.value.epoch
    ensures p < core.views[e - 1].config.value.position
  {
    hide StoreOk, LogOk, WritesOk, Follows, View.Stripes, ObjectMap.Good, SealedAbove;
    var ev, config := core.hist[i], core.views[e - 1].config.value;
    assert EventOk(core.views, ev) && ConfigOk(core.views, e - 1);
    var n := config.epoch - 1;
    assert core.views[n].config == core.views[e - 1].config;
    assert forall k :: n <= k < |core.views| ==> Extends(core.views[n], core.views[k]);
    assert HandOffAt(core, n);
  }

  /**
    Era ordering: every position appended under an earlier sequencer configuration is below every one
    appended under a later configuration, and no position is appended twice.
    */
  lemma {:induction false} EraOrder(s: State, t: nat, p: nat, x: Bytes, i: nat, u: nat, q: nat, y: Bytes, j: nat)
    requires Reachable(s) && WroteAt(s, t, p, x, i) && WroteAt(s, u, q, y, j)
    ensures Era(s.core.views, s.core.hist[i].op) < Era(s.core.views, s.core.hist[j].op) ==> p < q
    ensures p == q ==> i == j && t == u
    ensures Era(s.core.views, s.core.hist[i].op) > 0
  {
    hide Reachable, Precedes, ClientsOk, ThreadsOk, OnceOk, IssuedOk, StoreOk, LogOk, HandedOff, EventsOk,
         Follows, Extends, View.Stripes, ObjectMap.Good;
    ReachableInv(s);
    var core := s.core;
    assert WriteOk(core.views, core.hist[i].op) && WriteOk(core.views, core.hist[j].op);
    assert ConfigOk(core.views, core.hist[i].op.epoch - 1);
    if Era(core.views, core.hist[i].op) < Era(core.views, core.hist[j].op) {
      BelowNewEra(core, i, core.hist[j].op.epoch, p);
    }
  }

  // ----- sequencers ------------------------------------------------------------------------------

  /** Nothing with an older epoch than that of view `i + 1` touches, or can touch, positions from `first` on. */
  ghost predicate HandedOver(core: Core, l: seq<Stripe>, i: nat, first: nat)
    requires WellFormed(l)
  {
    && (forall j, p :: 0 <= j < |core.hist| && p in core.hist[j].where && p >= first ==>
          Guarded(core.hist[j].op) && core.hist[j].op.epoch > i)
    && (forall oid, p: nat :: Holds(l, oid, p) && p >= first ==> Refuses(core.store, oid, i))
  }

  /** An object refuses every call with an epoch up to `i` as stale, and does not change. */
  ghost predicate Refuses(st: Store, oid: Oid, i: nat) {
    forall op :: Guarded(op) && Coherent(op) && 1 <= op.epoch <= i ==> Apply(st, oid, op) == (Code(ESPIPE), st)
  }

  lemma {:induction false} SealedRefuses(st: Store, oid: Oid, i: nat)
    requires oid in st && st[oid].epoch > i
    ensures Refuses(st, oid, i)
  {
  }

  lemma {:induction false} HandOffHolds(core: Core, i: nat)
    requires CoreOk(core) && NewConfig(core.views, i)
    ensures HandedOver(core, core.views[i - 1].Stripes(), i, core.views[i].config.value.position)
  {
    hide StoreOk, LogOk, ViewsOk, View.Stripes, ObjectMap.Good, WritesOk, Refuses, WellFormed, Touched;
    assert HandOffAt(core, i);
    var l, first := core.views[i - 1].Stripes(), core.views[i].config.value.position;
    forall j, p | 0 <= j < |core.hist| && p in core.hist[j].where && p >= first
      ensures Guarded(core.hist[j].op) && core.hist[j].op.epoch > i
    {
      assert EventOk(core.views, core.hist[j]);
    }
    forall oid, p: nat | Holds(l, oid, p) && p >= first ensures Refuses(core.store, oid, i) {
      SealedRefuses(core.store, oid, i);
    }
  }

  /**
    Hand-off: once view `i + 1`, with a new sequencer configuration, is committed, no write, fill or
    trim with an older epoch was or ever will be about a position from the configuration's first one
    on; every such call is refused as stale, although lower stripes were never sealed.
    */
  lemma {:induction false} SequencerHandOff(s: State, s': State, i: nat)
    requires Precedes(s, s') && NewConfig(s.core.views, i)
    ensures HandedOver(s'.core, s.core.views[i - 1].Stripes(), i, s.core.views[i].config.value.position)
  {
    hide Precedes, Reachable, ClientsOk, ThreadsOk, OnceOk, IssuedOk, CoreOk, HandedOver, View.Stripes, ObjectMap.Good;
    PrecedesSince(s, s');
    assert NewConfig(s'.core.views, i);
    HandOffHolds(s'.core, i);
  }

  /** The stale calls include every call that a client can still make with an older view. */
  lemma {:induction false} OlderViewsAgree(s: State, i: nat, e: nat, oid: Oid, p: nat)
    requires Reachable(s) && 1 <= e <= i <= |s.core.views| && Holds(s.core.views[e - 1].Stripes(), oid, p)
    ensures Holds(s.core.views[i - 1].Stripes(), oid, p)
  {
    hide Reachable, Precedes, ClientsOk, ThreadsOk, OnceOk, IssuedOk, StoreOk, LogOk, HandedOff, WritesOk, EventsOk,
         Follows, ConfigOk, View.Stripes, ObjectMap.Good;
    ReachableInv(s);
    assert Extends(s.core.views[e - 1], s.core.views[i - 1]);
    PrefixKeeps(s.core.views[e - 1].Stripes(), s.core.views[i - 1].Stripes(), oid, p);
  }

  /** Sequencer `i` of client `c` and sequencer `j` of client `d` serve the same configuration. */
  predicate SameEra(s: State, c: nat, i: nat, d: nat, j: nat)
    requires c < |s.clients| && i < |s.clients[c].sequencers| && d < |s.clients| && j < |s.clients[d].sequencers|
  {
    ConfigEpoch(s.core.views, s.clients[c].sequencers[i]) == ConfigEpoch(s.core.views, s.clients[d].sequencers[j])
  }

  lemma {:induction false} SameToken(views: seq<View>, c: nat, x: Sequencer, d: nat, y: Sequencer)
    requires ViewsOk(views) && SequencerOk(views, c, x) && SequencerOk(views, d, y)
    requires ConfigEpoch(views, x) == ConfigEpoch(views, y)
    ensures c == d
  {
    hide ViewsOk, ObjectMap.Good;
    if x.epoch <= y.epoch { SameConfig(views, x.epoch - 1, y.epoch - 1, x.epoch - 1); }
    else { SameConfig(views, y.epoch - 1, x.epoch - 1, x.epoch - 1); }
  }

  lemma {:induction false} SequencersOf(s: State, c: nat, i: nat)
    requires Inv(s) && c < |s.clients| && i < |s.clients[c].sequencers|
    ensures ViewsOk(s.core.views) && SequencerOk(s.core.views, c, s.clients[c].sequencers[i])
    ensures OnePerConfig(s.core.views, s.clients[c].sequencers)
  {
    hide ThreadsOk, OnceOk, IssuedOk, SequencerOk, OnePerConfig, HeldOk, ObjectMap.Good;
    assert ClientOk(s.core.views, s.clients[c], c);
    hide ClientsOk;
    CoreViews(s.core);
  }

  /** At most one sequencer is ever created for a configuration, by whatever client. */
  lemma {:induction false} OneSequencer(s: State, c: nat, i: nat, d: nat, j: nat)
    requires Reachable(s)
    requires c < |s.clients| && i < |s.clients[c].sequencers| && d < |s.clients| && j < |s.clients[d].sequencers|
    ensures SameEra(s, c, i, d, j) ==> c == d && i == j
    ensures s.clients[c].sequencers[i].epoch == s.clients[d].sequencers[j].epoch ==> c == d && i == j
  {
    hide Reachable, Precedes, Inv, ViewsOk, SequencerOk;
    ReachableInv(s);
    SequencersOf(s, c, i);
    SequencersOf(s, d, j);
    if SameEra(s, c, i, d, j) {
      SameToken(s.core.views, c, s.clients[c].sequencers[i], d, s.clients[d].sequencers[j]);
    }
  }

  /** No position is issued twice under one configuration. */
  lemma {:induction false} IssuedOnce(s: State, a: nat, b: nat)
    requires Reachable(s) && a < b < |s.issued|
    ensures var x, y := s.issued[a], s.issued[b];
            && x.client < |s.clients| && x.index < |s.clients[x.client].sequencers|
            && y.client < |s.clients| && y.index < |s.clients[y.client].sequencers|
            && (SameEra(s, x.client, x.index, y.client, y.index) ==> x.pos != y.pos)
  {
    hide Reachable, Precedes, ClientsOk, ThreadsOk, OnceOk, CoreOk;
    ReachableInv(s);
    var x, y := s.issued[a], s.issued[b];
    OneSequencer(s, x.client, x.index, y.client, y.index);
  }

  /** A client's view carries a sequencer exactly if its configuration carries the client's token. */
  lemma {:induction false} SequencerIffToken(s: State, c: nat)
    requires Reachable(s) && c < |s.clients| && s.clients[c].view.Some?
    ensures var v := s.clients[c].view.value;
            && 1 <= v.epoch <= |s.core.views| && v.view == s.core.views[v.epoch - 1]
            && (v.sequencer.Some? <==> v.view.config.Some? && v.view.config.value.token == c)
            && (v.sequencer.Some? ==>
                  && v.sequencer.value < |s.clients[c].sequencers|
                  && ConfigEpoch(s.core.views, s.clients[c].sequencers[v.sequencer.value]) == v.view.config.value.epoch)
  {
    hide Reachable, Precedes, ThreadsOk, OnceOk, IssuedOk, CoreOk, SequencerOk, OnePerConfig, ObjectMap.Good;
    ReachableInv(s);
    assert ClientOk(s.core.views, s.clients[c], c);
  }

  /** A client keeps its installed view or has moved to one of a later epoch; it keeps its sequencers. */
  ghost predicate Forward(a: Client, b: Client) {
    && (a.view.Some? ==> b.view.Some? && (b.view == a.view || b.view.value.epoch > a.view.value.epoch))
    && ClientGrows(a, b)
  }

  lemma {:induction false} InstallForward(views: seq<View>, client: Client, token: nat)
    requires ClientOk(views, client, token)
    ensures Forward(client, Install(client, token)) && Forward(client, Fetch(views, client))
  {
    hide SequencerOk, OnePerConfig, HeldOk, ObjectMap.Good;
  }

  lemma {:induction false} DoForward(s: State, step: Step, c: nat)
    requires Inv(s) && Formed(s) && c < |s.clients|
    ensures c < |Do(s, step).clients| && Forward(s.clients[c], Do(s, step).clients[c])
  {
    hide ThreadsOk, OnceOk, IssuedOk, CoreOk, ClientOk, Install, Fetch, StepTask, ObjectMap.Good;
    InstallForward(s.core.views, s.clients[c], c);
  }

  lemma {:induction false} RunForward(options: Options, withStripes: bool, steps: seq<Step>, more: seq<Step>, c: nat)
    requires options.Valid() && steps <= more && c < |Reached(options, withStripes, steps).clients|
    ensures c < |Reached(options, withStripes, more).clients|
    ensures Forward(Reached(options, withStripes, steps).clients[c], Reached(options, withStripes, more).clients[c])
    decreases |more|
  {
    hide Inv, Formed, Do, ObjectMap.Good;
    if steps != more {
      var n := |more| - 1;
      assert steps <= more[..n];
      RunForward(options, withStripes, steps, more[..n], c);
      ReachedInv(options, withStripes, more[..n]);
      DoForward(Reached(options, withStripes, more[..n]), more[n], c);
    } else {
      assert steps == more;
    }
  }

  /** Along every run, the epochs of the views that a client installs strictly increase. */
  lemma {:induction false} InstalledViewsMoveForward(s: State, s': State, c: nat)
    requires Precedes(s, s') && c < |s.clients|
    ensures c < |s'.clients| && Forward(s.clients[c], s'.clients[c])
  {
    hide Forward, Reached;
    var options: Options, withStripes: bool, steps: seq<Step>, more: seq<Step> :|
      && options.Valid() && steps <= more
      && s == Reached(options, withStripes, steps) && s' == Reached(options, withStripes, more);
    RunForward(options, withStripes, steps, more, c);
  }

  // ----- views -----------------------------------------------------------------------------------

  /**
    The committed views: the first has no sequencer, each later one is its predecessor with a changed
    mapping, minimum valid position or sequencer, committed views are never replaced.
    */
  lemma {:induction false} ViewHistory(s: State, s': State)
    requires Precedes(s, s')
    ensures |s.core.views| > 0 && s.core.views <= s'.core.views && s.core.views[0].config.None?
    ensures forall i, j :: 0 <= i && j == i + 1 < |s.core.views| ==> Follows(s.core.views[i], s.core.views[j], j + 1)
  {
    hide Precedes, Reachable, ClientsOk, ThreadsOk, OnceOk, IssuedOk, StoreOk, LogOk, HandedOff, WritesOk, EventsOk,
         Extends, ConfigOk, View.Stripes, ObjectMap.Good, Follows;
    PrecedesSince(s, s');
  }

  /** What follows for any two views: positions keep their object, minima and configurations only grow. */
  lemma {:induction false} ViewsOnlyExtend(s: State, i: nat, j: nat, p: nat)
    requires Reachable(s) && i <= j < |s.core.views|
    ensures var v, w := s.core.views[i], s.core.views[j];
            && (Map(v.om, p).0.Some? ==> Map(w.om, p).0 == Map(v.om, p).0)
            && v.om.minValid <= w.om.minValid
            && (v.config.Some? ==> w.config.Some? && v.config.value.epoch <= w.config.value.epoch)
  {
    hide Reachable, Precedes, ClientsOk, ThreadsOk, OnceOk, IssuedOk, StoreOk, LogOk, HandedOff, WritesOk, EventsOk,
         Follows, ConfigOk, View.Stripes, ObjectMap.Good, Map;
    ReachableInv(s);
    var v, w := s.core.views[i], s.core.views[j];
    assert Extends(v, w);
    MapIs(v, p);
    MapIs(w, p);
    if Map(v.om, p).0.Some? {
      PrefixKeeps(v.Stripes(), w.Stripes(), Map(v.om, p).0.value, p);
    }
  }

  /** A configuration that was replaced never comes back. */
  lemma {:induction false} ConfigsNeverReturn(s: State, i: nat, k: nat, j: nat)
    requires Reachable(s) && i <= k <= j < |s.core.views|
    requires s.core.views[i].config.Some? && s.core.views[j].config.Some?
    requires s.core.views[i].config.value.epoch == s.core.views[j].config.value.epoch
    ensures s.core.views[i].config == s.core.views[k].config == s.core.views[j].config
  {
    hide Reachable, Precedes, ClientsOk, ThreadsOk, OnceOk, IssuedOk, StoreOk, LogOk, HandedOff, WritesOk, EventsOk, ViewsOk;
    ReachableInv(s);
    SameConfig(s.core.views, i, j, k);
  }

  // ----- trimming and epochs ---------------------------------------------------------------------

  lemma {:induction false} TrimToDone(s: State, t: nat, p: nat)
    requires Inv(s) && t < |s.threads| && s.threads[t].task.TrimTo?
    requires s.threads[t].task.tpc == TDone(Success) && p <= s.threads[t].task.upTo
    ensures Replay(s.core.hist, p) == Invalid
  {
    hide CoreOk, ClientsOk, OnceOk, IssuedOk, Replay, AppendOk, ProposeOk, ObjectMap.Good;
    assert ThreadOk(s.core, s.clients, s.threads[t]);
  }

  /** A range trim that returned 0 has made every position up to its limit invalid, for ever. */
  lemma {:induction false} TrimToComplete(s: State, s': State, t: nat, p: nat)
    requires Precedes(s, s') && t < |s.threads| && s.threads[t].task.TrimTo?
    requires s.threads[t].task.tpc == TDone(Success) && p <= s.threads[t].task.upTo
    ensures |s'.core.views| > 0 && Content(s'.core, p) == Invalid
  {
    hide Precedes, Reachable, Content, Replay, ClientsOk, ThreadsOk, OnceOk, IssuedOk, StoreOk, LogOk, HandedOff, EventsOk, WritesOk,
         Follows, Extends, ConfigOk, View.Stripes, ObjectMap.Good;
    PrecedesSince(s, s');
    TrimToDone(s, t, p);
    ContentIsReplay(s'.core, p);
    ReplayLater(s.core.hist, s'.core.hist, p);
  }

  /** Epochs in the store and in the history stay close to the head's. */
  lemma {:induction false} EpochsBounded(s: State)
    requires Reachable(s)
    ensures forall oid :: oid in s.core.store ==> s.core.store[oid].epoch <= |s.core.views| + 1
    ensures forall j :: 0 <= j < |s.core.hist| ==>
              Guarded(s.core.hist[j].op) && 1 <= s.core.hist[j].op.epoch <= |s.core.views|
  {
    hide Reachable, Precedes, ClientsOk, ThreadsOk, OnceOk, IssuedOk, LogOk, HandedOff, WritesOk, ViewsOk, ObjectOk;
    ReachableInv(s);
    forall j | 0 <= j < |s.core.hist| ensures Guarded(s.core.hist[j].op) && 1 <= s.core.hist[j].op.epoch <= |s.core.views| {
      assert EventOk(s.core.views, s.core.hist[j]);
    }
  }
}
