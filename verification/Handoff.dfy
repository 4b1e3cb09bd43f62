/**
  What a client that runs `propose_sequencer` knows at each point (src/libzlog/view_manager.cc).

  It works in the view of epoch `e` with stripes `l`, from the last stripe down, and stops at the
  first stripe that is not empty; lower stripes are never sealed.
  */
module Handoff {
  import opened Common
  import opened Arithmetic
  import opened Stripes
  import opened PlainLists
  import opened ObjectMaps
  import opened Views
  import opened Cells
  import opened Ram
  import opened Protocol
  import opened History
  import opened CoreSteps

  /** All objects of the stripes above `k`, and the first `i` of stripe `k`, are sealed beyond `e`. */
  ghost predicate SealedFrom(store: Store, l: seq<Stripe>, e: nat, k: nat, i: nat) {
    forall oid :: Owns(l, oid) && (oid.stripe > k || (oid.stripe == k && oid.index < i)) ==>
      oid in store && store[oid].epoch > e
  }

  /** What epochs up to `e` did to the first `i` objects of stripe `k` is at most `max`. */
  ghost predicate Scanned(hist: seq<Event>, l: seq<Stripe>, e: nat, k: nat, i: nat, max: Option<nat>)
    requires WellFormed(l) && k < |l|
  {
    forall j, p :: (0 <= j < |hist| && Guarded(hist[j].op) && hist[j].op.epoch <= e && p in hist[j].where
                    && l[k].Has(p) && l[k].Home(p).index < i) ==> max.Some? && p <= max.value
  }

  /** `v` is the view of its epoch. */
  predicate Committed(views: seq<View>, v: VersionedView) {
    1 <= v.epoch <= |views| && v.view == views[v.epoch - 1]
  }

  ghost predicate ProposeOk(core: Core, pc: ProposePc) {
    match pc
    case QSeal(v, k, i) =>
      var l := v.view.Stripes();
      && Committed(core.views, v) && k < |l| && i <= l[k].width
      && SealedFrom(core.store, l, v.epoch, k, i)
      && Quiet(core.hist, v.epoch, Top(l, k + 1))
    case QMax(v, k, i, max) =>
      var l := v.view.Stripes();
      && Committed(core.views, v) && k < |l| && i <= l[k].width
      && SealedFrom(core.store, l, v.epoch, k, l[k].width)
      && Quiet(core.hist, v.epoch, Top(l, k + 1))
      && Scanned(core.hist, l, v.epoch, k, i, max)
      && (max.Some? ==> max.value >= l[k].min)
    case QCas(v, seed) =>
      && Committed(core.views, v)
      && Quiet(core.hist, v.epoch, seed)
      && SealedAbove(core.store, v.view.Stripes(), v.epoch, seed)
    case _ => true
  }

  // ----- stability: other threads cannot undo what the proposer knows -----------------------------

  lemma {:induction false} SealedFromAbove(store: Store, l: seq<Stripe>, e: nat, k: nat, i: nat)
    requires WellFormed(l) && k < |l| && SealedFrom(store, l, e, k, i)
    ensures SealedAbove(store, l, e, Top(l, k + 1))
  {
    forall oid, p: nat | Holds(l, oid, p) && p >= Top(l, k + 1) ensures oid in store && store[oid].epoch > e {
      if oid.stripe <= k {
        TopMono(l, oid.stripe + 1, k + 1);
        assert false;
      }
      assert Owns(l, oid);
    }
  }

  /** A call with an epoch up to `e` cannot succeed in a stripe that is sealed beyond `e`. */
  lemma {:induction false} SealedOut(core: Core, ev: Event, e: nat, k: nat, p: nat)
    requires ViewsOk(core.views) && Fits(core, ev) && ev.op.epoch <= e <= |core.views| && p in ev.where
    requires k < |core.views[e - 1].Stripes()|
    requires SealedFrom(core.store, core.views[e - 1].Stripes(), e, k, core.views[e - 1].Stripes()[k].width)
    ensures !core.views[e - 1].Stripes()[k].Has(p)
  {
    hide Follows, ConfigOk, View.Stripes, ObjectMap.Good, Remainder;
    var l := core.views[e - 1].Stripes();
    assert Extends(core.views[ev.op.epoch - 1], core.views[e - 1]);
    PrefixKeeps(core.views[ev.op.epoch - 1].Stripes(), l, ev.oid, p);
    assert Owns(l, ev.oid);
    if l[k].Has(p) { Disjoint(l, ev.oid.stripe, k, p); }
  }

  lemma {:induction false} ScannedLasts(a: Core, b: Core, e: nat, k: nat, i: nat, max: Option<nat>)
    requires ViewsOk(a.views) && Grows(a, b) && 1 <= e <= |a.views|
    requires var l := a.views[e - 1].Stripes();
             && k < |l| && i <= l[k].width && SealedFrom(a.store, l, e, k, l[k].width)
             && Scanned(a.hist, l, e, k, i, max)
    ensures Scanned(b.hist, a.views[e - 1].Stripes(), e, k, i, max)
  {
    hide ViewsOk, View.Stripes, ObjectMap.Good, Remainder, SealedFrom, Fits, WellFormed;
    var l := a.views[e - 1].Stripes();
    forall j, p | 0 <= j < |b.hist| && Guarded(b.hist[j].op) && b.hist[j].op.epoch <= e && p in b.hist[j].where
      && l[k].Has(p) && l[k].Home(p).index < i
      ensures max.Some? && p <= max.value
    {
      if j < |a.hist| {
        assert b.hist[j] == a.hist[j];
      } else {
        SealedOut(a, b.hist[j], e, k, p);
        assert false;
      }
    }
  }

  lemma {:induction false} SealedFromLasts(a: Core, b: Core, l: seq<Stripe>, e: nat, k: nat, i: nat)
    requires Grows(a, b) && SealedFrom(a.store, l, e, k, i)
    ensures SealedFrom(b.store, l, e, k, i)
  {
    hide Fits, Owns;
  }

  lemma {:induction false} ProposeLasts(a: Core, b: Core, pc: ProposePc)
    requires ViewsOk(a.views) && Grows(a, b) && ProposeOk(a, pc)
    ensures ProposeOk(b, pc)
  {
    hide ViewsOk, View.Stripes, ObjectMap.Good, SealedFrom, Quiet, Scanned, SealedAbove, Fits;
    match pc {
      case QSeal(v, k, i) =>
        var l := v.view.Stripes();
        SealedFromAbove(a.store, l, v.epoch, k, i);
        QuietLasts(a, b, v.epoch, Top(l, k + 1));
        SealedFromLasts(a, b, l, v.epoch, k, i);
      case QMax(v, k, i, max) =>
        var l := v.view.Stripes();
        SealedFromAbove(a.store, l, v.epoch, k, l[k].width);
        QuietLasts(a, b, v.epoch, Top(l, k + 1));
        SealedFromLasts(a, b, l, v.epoch, k, l[k].width);
        ScannedLasts(a, b, v.epoch, k, i, max);
      case QCas(v, seed) =>
        QuietLasts(a, b, v.epoch, seed);
      case _ =>
    }
  }

  // ----- progress --------------------------------------------------------------------------------

  /** Nothing was done to a position that a valid object reports above its highest one. */
  lemma {:induction false} TopCovers(o: LogObject, p: nat)
    requires o.Valid() && !o.Cell(p).Unwritten?
    ensures o.Top().Some? && p <= o.Top().value
  {
    assert p in o.entries ==> o.entries != map[];
  }

  lemma {:induction false} TopAboveMin(l: seq<Stripe>, oid: Oid, o: LogObject)
    requires WellFormed(l) && ObjectOk(l, oid, o) && o.Top().Some?
    ensures o.Top().value >= l[oid.stripe].min
  {
    if o.entries != map[] {
      var p :| p in o.entries;
      assert Holds(l, oid, p);
    }
  }

  /** An event leaves a mark on the object that holds its position. */
  lemma {:induction false} EventMarks(core: Core, j: nat, oid: Oid, p: nat)
    requires CoreOk(core) && j < |core.hist| && p in core.hist[j].where
    requires Holds(Latest(core).Stripes(), oid, p)
    ensures !CellAt(core.store, oid, p).Unwritten?
  {
    hide ViewsOk, ConfigOk, ObjectMap.Good, View.Stripes, HandedOff, WritesOk, StoreOk, CellAt, Replay, Holds;
    forall i | 0 <= i < |core.hist| ensures Aimed(core.hist[i]) {
      assert EventOk(core.views, core.hist[i]);
    }
    ReplayUntouched(core.hist, p);
  }

  /** Asking object `i` of stripe `k` for its highest position. */
  lemma {:induction false} ScanOne(core: Core, v: VersionedView, k: nat, i: nat, max: Option<nat>)
    requires CoreOk(core) && ProposeOk(core, QMax(v, k, i, max)) && i < v.view.Stripes()[k].width
    ensures Oid(k, i) in core.store
    ensures var top := core.store[Oid(k, i)].Top();
            && Scanned(core.hist, v.view.Stripes(), v.epoch, k, i + 1, Highest(max, top))
            && (Highest(max, top).Some? ==> Highest(max, top).value >= v.view.Stripes()[k].min)
  {
    hide ViewsOk, LogOk, StoreOk, EventsOk, HandedOff, WritesOk, View.Stripes, ObjectMap.Good, Remainder, Quiet;
    var l, oid := v.view.Stripes(), Oid(k, i);
    assert Owns(l, oid);
    ScannedObject(core, v, oid);
    hide SealedFrom, CoreOk;
    var o := core.store[oid];
    forall j, p | 0 <= j < |core.hist| && Guarded(core.hist[j].op) && core.hist[j].op.epoch <= v.epoch
      && p in core.hist[j].where && l[k].Has(p) && l[k].Home(p).index < i + 1
      ensures Highest(max, o.Top()).Some? && p <= Highest(max, o.Top()).value
    {
      if l[k].Home(p).index == i {
        FoundInObject(core, v, oid, j, p);
      }
    }
  }

  lemma {:induction false} ScannedObject(core: Core, v: VersionedView, oid: Oid)
    requires CoreOk(core) && Committed(core.views, v) && oid in core.store && Owns(v.view.Stripes(), oid)
    ensures core.store[oid].Top().Some? ==> core.store[oid].Top().value >= v.view.Stripes()[oid.stripe].min
  {
    hide LogOk, EventsOk, HandedOff, WritesOk, View.Stripes, ObjectMap.Good, Follows, Extends, ConfigOk;
    LatestKeeps(core, v);
    var o := core.store[oid];
    assert ObjectOk(Latest(core).Stripes(), oid, o);
    if o.Top().Some? { TopAboveMin(Latest(core).Stripes(), oid, o); }
  }

  lemma {:induction false} FoundInObject(core: Core, v: VersionedView, oid: Oid, j: nat, p: nat)
    requires CoreOk(core) && Committed(core.views, v) && Holds(v.view.Stripes(), oid, p)
    requires j < |core.hist| && p in core.hist[j].where
    ensures oid in core.store && core.store[oid].Top().Some? && p <= core.store[oid].Top().value
  {
    hide LogOk, EventsOk, HandedOff, WritesOk, StoreOk, View.Stripes, ObjectMap.Good, Follows, Extends, ConfigOk, Holds;
    LatestKeeps(core, v);
    PrefixKeeps(v.view.Stripes(), Latest(core).Stripes(), oid, p);
    EventMarks(core, j, oid, p);
    MarkedBelowTop(core, oid, p);
  }

  lemma {:induction false} MarkedBelowTop(core: Core, oid: Oid, p: nat)
    requires CoreOk(core) && !CellAt(core.store, oid, p).Unwritten?
    ensures oid in core.store && core.store[oid].Top().Some? && p <= core.store[oid].Top().value
  {
    hide Follows, Extends, ConfigOk, LogOk, EventsOk, HandedOff, WritesOk, View.Stripes, ObjectMap.Good;
    assert ObjectOk(Latest(core).Stripes(), oid, core.store[oid]);
    TopCovers(core.store[oid], p);
  }

  lemma {:induction false} LatestKeeps(core: Core, v: VersionedView)
    requires ViewsOk(core.views) && Committed(core.views, v)
    ensures v.view.Stripes() <= Latest(core).Stripes()
  {
    hide Follows, ConfigOk, View.Stripes, ObjectMap.Good;
    assert Extends(core.views[v.epoch - 1], Latest(core));
  }

  /** A stripe was scanned and something was found in it: the seed is one past the highest position. */
  lemma {:induction false} FoundSeed(core: Core, v: VersionedView, k: nat, max: nat)
    requires k < |v.view.Stripes()|
    requires ProposeOk(core, QMax(v, k, v.view.Stripes()[k].width, Some(max)))
    ensures ProposeOk(core, QCas(v, max + 1))
  {
    hide View.Stripes, ObjectMap.Good, Remainder;
    var l := v.view.Stripes();
    TopMono(l, k, k + 1);
    forall j, p | 0 <= j < |core.hist| && Guarded(core.hist[j].op) && core.hist[j].op.epoch <= v.epoch
      && p in core.hist[j].where
      ensures p < max + 1
    {
      assert p < Top(l, k + 1);
      if p >= l[k].min { assert l[k].Has(p) && l[k].Home(p).index < l[k].width; }
    }
    forall oid, p: nat | Holds(l, oid, p) && p >= max + 1 ensures oid in core.store && core.store[oid].epoch > v.epoch {
      if oid.stripe < k { Ordered(l, oid.stripe, k); assert false; }
      assert Owns(l, oid);
    }
  }

  /** A stripe was scanned and is empty: nothing was done from it on. */
  lemma {:induction false} FoundNothing(core: Core, v: VersionedView, k: nat)
    requires k < |v.view.Stripes()|
    requires ProposeOk(core, QMax(v, k, v.view.Stripes()[k].width, None))
    ensures k == 0 ==> ProposeOk(core, QCas(v, 0))
    ensures k > 0 ==> ProposeOk(core, QSeal(v, k - 1, 0))
  {
    hide View.Stripes, ObjectMap.Good, Remainder;
    var l := v.view.Stripes();
    TopMono(l, k, k + 1);
    forall j, p | 0 <= j < |core.hist| && Guarded(core.hist[j].op) && core.hist[j].op.epoch <= v.epoch
      && p in core.hist[j].where
      ensures p < Top(l, k)
    {
      assert p < Top(l, k + 1);
      assert l[k].Home(p).index < l[k].width;
    }
    if k == 0 {
      forall oid, p: nat | Holds(l, oid, p) && p >= 0 ensures oid in core.store && core.store[oid].epoch > v.epoch {
        assert Owns(l, oid);
      }
    }
  }

  /** At the start nothing is mapped above the last stripe, so nothing was done there. */
  lemma {:induction false} StartScan(core: Core, v: VersionedView)
    requires CoreOk(core) && Committed(core.views, v)
    ensures var l := v.view.Stripes();
            if |l| == 0 then ProposeOk(core, QCas(v, 0)) else ProposeOk(core, QSeal(v, |l| - 1, 0))
  {
    hide Follows, ConfigOk, LogOk, StoreOk, HandedOff, WritesOk, View.Stripes, ObjectMap.Good, Remainder;
    var l := v.view.Stripes();
    forall j, p | 0 <= j < |core.hist| && Guarded(core.hist[j].op) && core.hist[j].op.epoch <= v.epoch
      && p in core.hist[j].where
      ensures p < Top(l, |l|)
    {
      var ev := core.hist[j];
      assert EventOk(core.views, ev) && Extends(core.views[ev.op.epoch - 1], core.views[v.epoch - 1]);
      PrefixKeeps(core.views[ev.op.epoch - 1].Stripes(), l, ev.oid, p);
      LocateIsHolds(l, p);
    }
  }

  /** The proposal succeeds only in the latest view, where what was established is what is needed. */
  lemma {:induction false} SeedReady(core: Core, v: VersionedView, seed: nat, token: nat)
    requires CoreOk(core) && ProposeOk(core, QCas(v, seed)) && v.epoch == |core.views|
    ensures var next := v.view.WithSequencer(SequencerConfig(v.epoch + 1, token, seed));
            Follows(Latest(core), next, |core.views| + 1) && ReadyFor(core, next)
  {
    hide ViewsOk, LogOk, StoreOk, EventsOk, HandedOff, WritesOk, View.Stripes, ObjectMap.Good;
  }
}
