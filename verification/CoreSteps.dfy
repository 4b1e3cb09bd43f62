/** The three ways in which the shared state changes, each keeping its invariant. */
module CoreSteps {
  import opened Common
  import opened Stripes
  import opened PlainLists
  import opened ObjectMaps
  import opened Views
  import opened Cells
  import opened Ram
  import opened Protocol
  import opened History

  // ----- sealing ---------------------------------------------------------------------------------

  /** Sealing or initialising an object changes no cell and raises its epoch to at least `e`. */
  lemma {:induction false} SealObject(st: Store, oid: Oid, e: nat)
    requires e > 0
    ensures var (reply, st') := Apply(st, oid, Op.Seal(e, None));
            && (reply.ret.Success? || reply.ret.ESPIPE?)
            && st'.Keys == st.Keys + {oid} && st'[oid].epoch >= e
            && (forall o :: o in st ==> st'[o].epoch >= st[o].epoch)
            && (forall o, p: nat :: CellAt(st', o, p) == CellAt(st, o, p))
  {
  }

  lemma {:induction false} SealStore(l: seq<Stripe>, n: nat, st: Store, oid: Oid, e: nat)
    requires WellFormed(l) && StoreOk(l, n, st) && Owns(l, oid) && 1 <= e <= n + 1
    ensures StoreOk(l, n, Apply(st, oid, Op.Seal(e, None)).1)
  {
    hide Holds, Owns, WellFormed;
  }

  lemma {:induction false} SealKeeps(core: Core, v: View, oid: Oid, e: nat, t: nat)
    requires CoreOk(core) && Owns(Latest(core).Stripes(), oid) && 1 <= e <= |core.views| + 1
    ensures var core' := CallObject(core, v, oid, Op.Seal(e, None), t).1;
            && CoreOk(core') && Grows(core, core')
            && core'.views == core.views && core'.hist == core.hist
            && oid in core'.store && core'.store[oid].epoch >= e
  {
    hide Follows, Extends, ConfigOk, View.Stripes, ObjectMap.Good, Apply, CellAt, ObjectOk, Quiet, SealedAbove, StoreOk, WellFormed, Holds;
    SealObject(core.store, oid, e);
    SealStore(Latest(core).Stripes(), |core.views|, core.store, oid, e);
    var core' := CallObject(core, v, oid, Op.Seal(e, None), t).1;
    assert Grows(core, core');
    HandOffLasts(core, core');
  }

  /** The hand-off survives any growth that adds no view. */
  lemma {:induction false} HandOffLasts(a: Core, b: Core)
    requires ViewsOk(a.views) && HandedOff(a) && Grows(a, b) && b.views == a.views
    ensures HandedOff(b)
  {
    hide ViewsOk, Quiet, SealedAbove, Grows, View.Stripes;
    forall i: nat | NewConfig(b.views, i) ensures HandOffAt(b, i) {
      assert HandOffAt(a, i);
      QuietLasts(a, b, i, a.views[i].config.value.position);
    }
  }

  // ----- writing, filling and trimming -----------------------------------------------------------

  /**
    A call is sent to the object that holds its position. A range trim is sent to an object that
    starts at or below the limit, and is full only if the object ends there too.
    */
  ghost predicate Targeted(l: seq<Stripe>, oid: Oid, op: Op)
    requires WellFormed(l)
  {
    && Guarded(op) && Coherent(op)
    && (if op.Trim? && op.limit then
          && Owns(l, oid) && l[oid.stripe].min <= op.pos
          && (op.full ==> forall p: nat :: Holds(l, oid, p) ==> p <= op.pos)
        else Holds(l, oid, op.pos))
  }

  /** What a full trim is promised, the object map provides. */
  lemma {:induction false} PromiseKept(l: seq<Stripe>, oid: Oid, o: LogObject, op: Op)
    requires WellFormed(l) && ObjectOk(l, oid, o) && Targeted(l, oid, op)
    ensures Kept(Some(o), op)
  {
  }

  lemma {:induction false} CallOnObject(l: seq<Stripe>, oid: Oid, o: LogObject, op: Op)
    requires WellFormed(l) && ObjectOk(l, oid, o) && Targeted(l, oid, op)
    ensures ObjectOk(l, oid, Admitted(o, op).1)
  {
    PromiseKept(l, oid, o, op);
    AdmittedTop(o, op);
    hide Holds, WellFormed;
  }

  lemma {:induction false} ObjectValid(l: seq<Stripe>, oid: Oid, o: LogObject, op: Op)
    requires WellFormed(l) && ObjectOk(l, oid, o) && Targeted(l, oid, op)
    ensures o.Valid() && Guarded(op) && Coherent(op)
  {
    hide WellFormed, Holds, LogObject.Valid;
  }

  lemma {:induction false} TargetCoherent(l: seq<Stripe>, oid: Oid, op: Op)
    requires WellFormed(l) && Targeted(l, oid, op)
    ensures Guarded(op) && Coherent(op)
  {
    hide WellFormed, Holds;
  }

  lemma {:induction false} StoredOk(l: seq<Stripe>, n: nat, st: Store, oid: Oid)
    requires WellFormed(l) && StoreOk(l, n, st) && oid in st
    ensures ObjectOk(l, oid, st[oid])
  {
    hide WellFormed, ObjectOk;
  }

  /** The reply to an admitted call depends on the addressed cell only. */
  lemma {:induction false} ReplyFrom(l: seq<Stripe>, n: nat, st: Store, oid: Oid, op: Op)
    requires WellFormed(l) && StoreOk(l, n, st) && Guarded(op) && Targeted(l, oid, op)
    ensures Apply(st, oid, op).0 ==
            (var g := Guard(if oid in st then Some(st[oid].epoch) else None, op);
             if g.Success? then Answer(CellAt(st, oid, op.pos), op) else Code(g))
  {
    hide StoreOk, ObjectOk, Targeted, WellFormed, Admitted, LogObject.Cell, LogObject.Valid, Kept, Answer;
    TargetCoherent(l, oid, op);
    if oid in st {
      StoredOk(l, n, st, oid);
      ObjectValid(l, oid, st[oid], op);
      PromiseKept(l, oid, st[oid], op);
      AdmittedMeans(st[oid], op, 0);
    }
  }

  /** The effect of a call on the store. */
  lemma {:induction false} CallOnStore(l: seq<Stripe>, n: nat, st: Store, oid: Oid, op: Op)
    requires WellFormed(l) && StoreOk(l, n, st) && Targeted(l, oid, op)
    ensures var (reply, st') := Apply(st, oid, op);
            && StoreOk(l, n, st') && st'.Keys == st.Keys
            && (forall o :: o in st ==> st'[o].epoch == st[o].epoch && (o != oid ==> st'[o] == st[o]))
            && (!reply.ret.Success? ==> st' == st)
            && (reply.ret.Success? ==> oid in st && 1 <= op.epoch && st[oid].epoch <= op.epoch)
  {
    hide ObjectOk, WellFormed, Holds, Owns;
    if oid in st {
      CallOnObject(l, oid, st[oid], op);
    }
  }

  lemma {:induction false} CallOnCells(l: seq<Stripe>, n: nat, st: Store, oid: Oid, op: Op, o: Oid, p: nat)
    requires WellFormed(l) && StoreOk(l, n, st) && Targeted(l, oid, op)
    requires Apply(st, oid, op).0.ret.Success?
    ensures CellAt(Apply(st, oid, op).1, o, p)
         == if o == oid then Next(CellAt(st, o, p), op, p) else CellAt(st, o, p)
  {
    PromiseKept(l, oid, st[oid], op);
    AdmittedMeans(st[oid], op, p);
    hide ObjectOk, WellFormed, Admitted;
  }

  /** A successful call and its event: the replayed history follows the store. */
  lemma {:induction false} CallOnLog(l: seq<Stripe>, n: nat, st: Store, hist: seq<Event>, oid: Oid, op: Op, ev: Event)
    requires WellFormed(l) && StoreOk(l, n, st) && LogOk(l, st, hist) && Targeted(l, oid, op)
    requires Apply(st, oid, op).0.ret.Success?
    requires ev.op == op && ev.oid == oid && ev.where == Touched(l, oid, op)
    ensures LogOk(l, Apply(st, oid, op).1, hist + [ev])
  {
    var st' := Apply(st, oid, op).1;
    forall o, p: nat | Holds(l, o, p) ensures CellAt(st', o, p) == Replay(hist + [ev], p) {
      CallOnCells(l, n, st, oid, op, o, p);
      ReplaySnoc(hist, ev, p);
      LocateIsHolds(l, p);
      hide Apply, CellAt, Replay, Locate, StoreOk;
      assert p in ev.where ==> o == oid;
    }
  }

  /** The same object map, seen from an earlier view: the positions that a call is about. */
  lemma {:induction false} TouchedLater(l: seq<Stripe>, m: seq<Stripe>, oid: Oid, op: Op)
    requires WellFormed(l) && WellFormed(m) && l <= m && Guarded(op) && oid.stripe < |l|
    ensures Touched(l, oid, op) == Touched(m, oid, op)
  {
    forall p: nat ensures Holds(l, oid, p) <==> Holds(m, oid, p) {
      PrefixKeeps(l, m, oid, p);
    }
  }

  lemma {:induction false} TargetedLater(l: seq<Stripe>, m: seq<Stripe>, oid: Oid, op: Op)
    requires WellFormed(l) && WellFormed(m) && l <= m && Targeted(l, oid, op)
    ensures Targeted(m, oid, op) && oid.stripe < |l|
  {
    forall p: nat ensures Holds(l, oid, p) <==> Holds(m, oid, p) {
      PrefixKeeps(l, m, oid, p);
    }
  }

  /** A new event keeps the history well formed. */
  lemma {:induction false} EventAdded(views: seq<View>, hist: seq<Event>, ev: Event)
    requires EventsOk(views, hist) && WritesOk(views, hist)
    requires EventOk(views, ev)
    requires ev.op.Write? ==> WriteOk(views, ev.op) && ev.op.pos in ev.where
    requires ev.op.Write? ==> forall i :: 0 <= i < |hist| ==> ev.op.pos !in hist[i].where
    ensures EventsOk(views, hist + [ev]) && WritesOk(views, hist + [ev])
  {
    hide EventOk, WriteOk, ObjectMap.Good;
  }

  /** The store and the history after a call that succeeds as `ev`. */
  function After(core: Core, ev: Event): Core {
    core.(store := Apply(core.store, ev.oid, ev.op).1, hist := core.hist + [ev])
  }

  lemma {:induction false} CallGrows(core: Core, ev: Event)
    requires |core.views| > 0 && StoreOk(Latest(core).Stripes(), |core.views|, core.store)
    requires EventOk(core.views, ev) && Targeted(Latest(core).Stripes(), ev.oid, ev.op)
    requires Apply(core.store, ev.oid, ev.op).0.ret.Success?
    ensures Grows(core, After(core, ev))
  {
    hide Apply, StoreOk, Targeted, View.Stripes, ObjectMap.Good;
    CallOnStore(Latest(core).Stripes(), |core.views|, core.store, ev.oid, ev.op);
    assert After(core, ev).hist[..|core.hist|] == core.hist;
  }

  /** A call aimed with the view of its epoch is aimed right in the latest view. */
  lemma {:induction false} AimedLater(core: Core, ev: Event)
    requires ViewsOk(core.views) && EventOk(core.views, ev)
    requires Targeted(core.views[ev.op.epoch - 1].Stripes(), ev.oid, ev.op)
    ensures Targeted(Latest(core).Stripes(), ev.oid, ev.op)
    ensures ev.where == Touched(Latest(core).Stripes(), ev.oid, ev.op)
  {
    hide Follows, ConfigOk, ObjectMap.Good, View.Stripes;
    var v := core.views[ev.op.epoch - 1];
    assert Extends(v, Latest(core));
    TargetedLater(v.Stripes(), Latest(core).Stripes(), ev.oid, ev.op);
    TouchedLater(v.Stripes(), Latest(core).Stripes(), ev.oid, ev.op);
  }

  /** A write succeeds only where nothing was done before. */
  lemma {:induction false} WriteIsFirst(core: Core, ev: Event)
    requires CoreOk(core) && ev.op.Write? && ev.where == Touched(Latest(core).Stripes(), ev.oid, ev.op)
    requires Targeted(Latest(core).Stripes(), ev.oid, ev.op) && Apply(core.store, ev.oid, ev.op).0.ret.Success?
    ensures ev.op.pos in ev.where
    ensures forall i :: 0 <= i < |core.hist| ==> ev.op.pos !in core.hist[i].where
  {
    hide Follows, Extends, ConfigOk, HandedOff, WritesOk, View.Stripes, ObjectMap.Good, ObjectOk, Replay, WellFormed, Holds;
    forall i | 0 <= i < |core.hist| ensures Aimed(core.hist[i]) {
      assert EventOk(core.views, core.hist[i]);
    }
    assert CellAt(core.store, ev.oid, ev.op.pos) == Unwritten;
    ReplayUntouched(core.hist, ev.op.pos);
  }

  /** A call in the view of its epoch that succeeds as `ev`. */
  lemma {:induction false} CallSucceeds(core: Core, ev: Event)
    requires CoreOk(core) && EventOk(core.views, ev)
    requires Targeted(core.views[ev.op.epoch - 1].Stripes(), ev.oid, ev.op)
    requires ev.op.Write? ==> WriteOk(core.views, ev.op)
    requires Apply(core.store, ev.oid, ev.op).0.ret.Success?
    ensures CoreOk(After(core, ev)) && Grows(core, After(core, ev))
  {
    hide Extends, View.Stripes, ObjectMap.Good, Apply, Targeted, Touched, EventOk, Follows, ConfigOk,
         LogOk, StoreOk, EventsOk, WritesOk, WriteOk, Grows, HandedOff;
    AimedLater(core, ev);
    if ev.op.Write? { WriteIsFirst(core, ev); }
    var m, n := Latest(core).Stripes(), |core.views|;
    CallOnStore(m, n, core.store, ev.oid, ev.op);
    CallOnLog(m, n, core.store, core.hist, ev.oid, ev.op, ev);
    EventAdded(core.views, core.hist, ev);
    CallGrows(core, ev);
    HandOffLasts(core, After(core, ev));
  }

  /** A call that fails, or a read, changes nothing. */
  lemma {:induction false} CallChangesNothing(st: Store, oid: Oid, op: Op)
    requires Guarded(op) && (op.Read? || !Apply(st, oid, op).0.ret.Success?)
    ensures Apply(st, oid, op).1 == st
  {
  }

  lemma {:induction false} CallKeeps(core: Core, e: nat, oid: Oid, op: Op, t: nat)
    requires CoreOk(core) && 1 <= e <= |core.views| && Guarded(op) && op.epoch == e
    requires Targeted(core.views[e - 1].Stripes(), oid, op) && (op.Write? ==> WriteOk(core.views, op))
    ensures var (reply, core') := CallObject(core, core.views[e - 1], oid, op, t);
            && CoreOk(core') && Grows(core, core') && core'.views == core.views
            && core'.hist == (if !op.Read? && reply.ret.Success?
                              then core.hist + [Event(op, oid, Touched(core.views[e - 1].Stripes(), oid, op), t)]
                              else core.hist)
  {
    hide Apply, Touched, CoreOk, View.Stripes, ObjectMap.Good, Targeted, WriteOk;
    if !op.Read? && Apply(core.store, oid, op).0.ret.Success? {
      CallSucceeds(core, Event(op, oid, Touched(core.views[e - 1].Stripes(), oid, op), t));
    } else {
      CallChangesNothing(core.store, oid, op);
      assert CallObject(core, core.views[e - 1], oid, op, t).1 == core;
    }
  }

  // ----- committing a view -----------------------------------------------------------------------

  lemma {:induction false} CommitStore(l: seq<Stripe>, m: seq<Stripe>, n: nat, st: Store)
    requires WellFormed(l) && WellFormed(m) && l <= m && StoreOk(l, n, st)
    ensures StoreOk(m, n + 1, st)
  {
    forall oid | oid in st ensures ObjectOk(m, oid, st[oid]) {
      assert ObjectOk(l, oid, st[oid]);
      forall p | p in st[oid].entries ensures Holds(m, oid, p) {
        PrefixKeeps(l, m, oid, p);
      }
    }
  }

  /** Positions that become mapped are positions that nothing was done to. */
  lemma {:induction false} CommitLog(core: Core, next: View)
    requires CoreOk(core) && Extends(Latest(core), next)
    ensures LogOk(next.Stripes(), core.store, core.hist)
  {
    var l, m := Latest(core).Stripes(), next.Stripes();
    forall oid, p: nat | Holds(m, oid, p) ensures CellAt(core.store, oid, p) == Replay(core.hist, p) {
      PrefixKeeps(l, m, oid, p);
      if !Holds(l, oid, p) {
        hide LogOk, Replay;
        assert oid !in core.store;
        NothingAbove(core, p);
        ReplayUntouched(core.hist, p);
      }
    }
  }

  lemma {:induction false} NothingAbove(core: Core, p: nat)
    requires CoreOk(core) && p >= Top(Latest(core).Stripes(), |Latest(core).Stripes()|)
    ensures forall j :: 0 <= j < |core.hist| ==> Aimed(core.hist[j]) && p !in core.hist[j].where
  {
    hide Follows, ConfigOk, LogOk, StoreOk, HandedOff, WritesOk, ObjectMap.Good;
    forall j | 0 <= j < |core.hist| ensures Aimed(core.hist[j]) && p !in core.hist[j].where {
      var ev := core.hist[j];
      assert EventOk(core.views, ev);
      var v := core.views[ev.op.epoch - 1];
      assert Extends(v, Latest(core));
      PrefixKeeps(v.Stripes(), Latest(core).Stripes(), ev.oid, p);
      LocateIsHolds(Latest(core).Stripes(), p);
    }
  }

  lemma {:induction false} CommitEvents(views: seq<View>, hist: seq<Event>, next: View)
    requires EventsOk(views, hist) && WritesOk(views, hist)
    ensures EventsOk(views + [next], hist) && WritesOk(views + [next], hist)
  {
    hide ObjectMap.Good, View.Stripes, Touched;
    forall j | 0 <= j < |hist| ensures EventOk(views + [next], hist[j]) {
      assert EventOk(views, hist[j]);
    }
  }

  /** What a proposer of a new sequencer has established when its proposal succeeds. */
  ghost predicate ReadyFor(core: Core, next: View)
    requires |core.views| > 0
  {
    next.config.Some? && next.config.value.epoch == |core.views| + 1 ==>
      && Quiet(core.hist, |core.views|, next.config.value.position)
      && SealedAbove(core.store, Latest(core).Stripes(), |core.views|, next.config.value.position)
  }

  lemma {:induction false} CommitHandOff(core: Core, next: View)
    requires |core.views| > 0 && HandedOff(core) && ReadyFor(core, next)
    ensures HandedOff(core.(views := core.views + [next]))
  {
    hide Quiet, SealedAbove, ObjectMap.Good, View.Stripes;
    var core' := core.(views := core.views + [next]);
    forall i: nat | NewConfig(core'.views, i) ensures HandOffAt(core', i) {
      if i < |core.views| {
        assert HandOffAt(core, i);
      }
    }
  }

  lemma {:induction false} CommitKeeps(core: Core, next: View)
    requires CoreOk(core) && Follows(Latest(core), next, |core.views| + 1) && ReadyFor(core, next)
    ensures var core' := core.(views := core.views + [next]); CoreOk(core') && Grows(core, core')
  {
    ViewsCommit(core.views, next);
    CommitStore(Latest(core).Stripes(), next.Stripes(), |core.views|, core.store);
    CommitLog(core, next);
    CommitEvents(core.views, core.hist, next);
    CommitHandOff(core, next);
    hide Extends, ConfigOk, Follows, StoreOk, LogOk, EventsOk, WritesOk, HandedOff, ObjectMap.Good, View.Stripes, ViewsOk;
    var core' := core.(views := core.views + [next]);
    assert Latest(core') == next;
  }
}
