/** The log as a function of its history, and the shared part of the protocol's invariant. */
module History {
  import opened Common
  import opened Stripes
  import opened PlainLists
  import opened ObjectMaps
  import opened Views
  import opened Cells
  import opened Ram
  import opened Protocol

  // ----- replaying the history -------------------------------------------------------------------

  /** What position `p` holds after the events of `h`. */
  function Replay(h: seq<Event>, p: nat): Cell {
    if h == [] then Unwritten
    else
      var before, last := Replay(h[..|h| - 1], p), h[|h| - 1];
      if p in last.where && Guarded(last.op) then Next(before, last.op, p) else before
  }

  lemma {:induction false} ReplaySnoc(h: seq<Event>, ev: Event, p: nat)
    requires Guarded(ev.op)
    ensures Replay(h + [ev], p) == if p in ev.where then Next(Replay(h, p), ev.op, p) else Replay(h, p)
  {
    assert (h + [ev])[..|h|] == h;
  }

  /** An event is only about positions that its call changes. */
  ghost predicate Aimed(ev: Event) {
    && Guarded(ev.op) && !ev.op.Read?
    && forall p :: p in ev.where ==> p == ev.op.pos || (ev.op.Trim? && ev.op.limit && p <= ev.op.pos)
  }

  /** A position is unwritten exactly as long as no event was about it. */
  lemma {:induction false} ReplayUntouched(h: seq<Event>, p: nat)
    requires forall j :: 0 <= j < |h| ==> Aimed(h[j])
    ensures Replay(h, p) == Unwritten <==> forall j :: 0 <= j < |h| ==> p !in h[j].where
    decreases |h|
  {
    if h != [] {
      var n := |h| - 1;
      ReplayUntouched(h[..n], p);
      assert forall j :: 0 <= j < n ==> h[..n][j] == h[j];
      if forall j :: 0 <= j < n ==> p !in h[j].where {
      } else {
        var j :| 0 <= j < n && p in h[j].where;
        assert p in h[..n][j].where;
      }
    }
  }

  // ----- views -----------------------------------------------------------------------------------

  /** The optimistic history: each view follows its predecessor, and what that gives for all pairs. */
  ghost predicate ViewsOk(views: seq<View>) {
    && |views| > 0 && views[0].config.None?
    && (forall i, j :: 0 <= i && j == i + 1 < |views| ==> Follows(views[i], views[j], j + 1))
    && (forall i, j :: 0 <= i <= j < |views| ==> Extends(views[i], views[j]))
    && (forall i :: 0 <= i < |views| ==> ConfigOk(views, i))
  }

  /** Mappings only extend, the minimum valid position only grows, configurations only get newer. */
  ghost predicate Extends(v: View, w: View) {
    && v.Stripes() <= w.Stripes()
    && v.om.minValid <= w.om.minValid
    && (v.config.Some? ==> w.config.Some? && v.config.value.epoch <= w.config.value.epoch)
  }

  /** The configuration of view `i` was proposed with the view of its epoch and kept since. */
  ghost predicate ConfigOk(views: seq<View>, i: nat)
    requires i < |views|
  {
    views[i].config.Some? ==>
      && 1 <= views[i].config.value.epoch <= i + 1
      && forall j :: views[i].config.value.epoch - 1 <= j <= i ==> views[j].config == views[i].config
  }

  lemma {:induction false} ExtendsCommit(views: seq<View>, next: View)
    requires |views| > 0 && Extends(views[|views| - 1], next)
    requires forall i, j :: 0 <= i <= j < |views| ==> Extends(views[i], views[j])
    ensures forall i, j :: 0 <= i <= j < |views + [next]| ==> Extends((views + [next])[i], (views + [next])[j])
  {
    var n, views' := |views|, views + [next];
    forall i, j | 0 <= i <= j < |views'| ensures Extends(views'[i], views'[j]) {
      ExtendsTransitive(views[Min(i, n - 1)], views[n - 1], next);
    }
  }

  lemma {:induction false} ExtendsTransitive(u: View, v: View, w: View)
    ensures Extends(u, v) && Extends(v, w) ==> Extends(u, w)
    ensures Extends(w, w)
  {
    hide View.Stripes, ObjectMap.Good;
  }

  lemma {:induction false} ConfigCommit(views: seq<View>, next: View)
    requires |views| > 0 && forall i :: 0 <= i < |views| ==> ConfigOk(views, i)
    requires next.config == views[|views| - 1].config || (next.config.Some? && next.config.value.epoch == |views| + 1)
    ensures forall i :: 0 <= i < |views| + 1 ==> ConfigOk(views + [next], i)
  {
    hide ObjectMap.Good;
    var n, views' := |views|, views + [next];
    assert ConfigOk(views, n - 1);
    forall i | 0 <= i < n + 1 ensures ConfigOk(views', i) {
      if i < n { assert ConfigOk(views, i); }
    }
  }

  lemma {:induction false} FollowsIsExtends(views: seq<View>, next: View)
    requires |views| > 0 && ConfigOk(views, |views| - 1) && Follows(views[|views| - 1], next, |views| + 1)
    ensures Extends(views[|views| - 1], next)
    ensures next.config == views[|views| - 1].config || (next.config.Some? && next.config.value.epoch == |views| + 1)
  {
    FollowsExtends(views[|views| - 1], next, |views| + 1);
  }

  lemma {:induction false} ViewsCommit(views: seq<View>, next: View)
    requires ViewsOk(views) && Follows(views[|views| - 1], next, |views| + 1)
    ensures ViewsOk(views + [next]) && Extends(views[|views| - 1], next)
  {
    hide Extends, ConfigOk, Follows, ObjectMap.Good;
    FollowsIsExtends(views, next);
    ExtendsCommit(views, next);
    ConfigCommit(views, next);
  }

  /** Configurations with the same epoch are the same, and so is every configuration in between. */
  lemma {:induction false} SameConfig(views: seq<View>, i: nat, j: nat, k: nat)
    requires ViewsOk(views) && i <= k <= j < |views|
    requires views[i].config.Some? && views[j].config.Some?
    requires views[i].config.value.epoch == views[j].config.value.epoch
    ensures views[i].config == views[k].config == views[j].config
  {
    assert ConfigOk(views, j) && ConfigOk(views, i);
  }

  // ----- the shared state ------------------------------------------------------------------------

  function Latest(core: Core): View
    requires |core.views| > 0
  {
    core.views[|core.views| - 1]
  }

  /** Objects exist only for mapped stripes, and hold only their own positions. */
  ghost predicate ObjectOk(l: seq<Stripe>, oid: Oid, o: LogObject)
    requires WellFormed(l)
  {
    && Owns(l, oid)
    && o.Valid()
    && (forall p :: p in o.entries ==> Holds(l, oid, p))
    && (o.limit.Some? ==> o.limit.value >= l[oid.stripe].min)
  }

  /** The objects under the stripes `l` of the latest of `n` views. */
  ghost predicate StoreOk(l: seq<Stripe>, n: nat, store: Store)
    requires WellFormed(l)
  {
    forall oid :: oid in store ==> ObjectOk(l, oid, store[oid]) && store[oid].epoch <= n + 1
  }

  /** An event carries an epoch that exists, and is about positions of its object in that view. */
  ghost predicate EventOk(views: seq<View>, ev: Event) {
    && Guarded(ev.op) && !ev.op.Read?
    && 1 <= ev.op.epoch <= |views|
    && ev.where == Touched(views[ev.op.epoch - 1].Stripes(), ev.oid, ev.op)
  }

  ghost predicate EventsOk(views: seq<View>, hist: seq<Event>) {
    forall j :: 0 <= j < |hist| ==> EventOk(views, hist[j])
  }

  /** The store is the replay of the history. */
  ghost predicate LogOk(l: seq<Stripe>, store: Store, hist: seq<Event>)
    requires WellFormed(l)
  {
    forall oid, p: nat :: Holds(l, oid, p) ==> CellAt(store, oid, p) == Replay(hist, p)
  }

  /** No event with an epoch up to `e` is about a position at or above `bound`. */
  ghost predicate Quiet(hist: seq<Event>, e: nat, bound: nat) {
    forall j, p :: 0 <= j < |hist| && Guarded(hist[j].op) && hist[j].op.epoch <= e && p in hist[j].where ==> p < bound
  }

  /** Every object with a position at or above `bound` is sealed beyond epoch `e`. */
  ghost predicate SealedAbove(store: Store, l: seq<Stripe>, e: nat, bound: nat)
    requires WellFormed(l)
  {
    forall oid, p: nat :: Holds(l, oid, p) && p >= bound ==> oid in store && store[oid].epoch > e
  }

  /** The view at index `i` brought in a new sequencer. */
  predicate NewConfig(views: seq<View>, i: nat) {
    0 < i < |views| && views[i].config.Some? && views[i].config.value.epoch == i + 1
  }

  /**
    The hand-off: below the epoch of a new sequencer nobody consumes a position from its first one
    on, and nobody will, because those positions' objects are sealed.
    */
  ghost predicate HandedOff(core: Core) {
    forall i: nat :: NewConfig(core.views, i) ==> HandOffAt(core, i)
  }

  ghost predicate HandOffAt(core: Core, i: nat)
    requires NewConfig(core.views, i)
  {
    && Quiet(core.hist, i, core.views[i].config.value.position)
    && SealedAbove(core.store, core.views[i - 1].Stripes(), i, core.views[i].config.value.position)
  }

  /** Writes are made by the sequencer of their view, at or after its first position, and are first. */
  ghost predicate WritesOk(views: seq<View>, hist: seq<Event>) {
    && (forall j :: 0 <= j < |hist| && hist[j].op.Write? ==> WriteOk(views, hist[j].op) && hist[j].op.pos in hist[j].where)
    && (forall i, j :: 0 <= i < j < |hist| && hist[j].op.Write? ==> hist[j].op.pos !in hist[i].where)
  }

  ghost predicate WriteOk(views: seq<View>, op: Op) {
    && op.Write? && 1 <= op.epoch <= |views|
    && views[op.epoch - 1].config.Some? && views[op.epoch - 1].config.value.position <= op.pos
  }

  ghost predicate CoreOk(core: Core) {
    && ViewsOk(core.views)
    && StoreOk(Latest(core).Stripes(), |core.views|, core.store)
    && EventsOk(core.views, core.hist)
    && LogOk(Latest(core).Stripes(), core.store, core.hist)
    && HandedOff(core)
    && WritesOk(core.views, core.hist)
  }

  /**
    How the shared state moves: views are only added, objects only gain epochs, and an event can only
    be added by a call that its object admits.
    */
  ghost predicate Grows(a: Core, b: Core) {
    && a.views <= b.views
    && (forall oid :: oid in a.store ==> oid in b.store && a.store[oid].epoch <= b.store[oid].epoch)
    && (b.hist == a.hist || (|b.hist| == |a.hist| + 1 && a.hist == b.hist[..|a.hist|] && Fits(a, b.hist[|a.hist|])))
  }

  ghost predicate Fits(core: Core, ev: Event) {
    EventOk(core.views, ev) && ev.oid in core.store && core.store[ev.oid].epoch <= ev.op.epoch
  }

  /** Once the objects from `bound` on are sealed beyond `e`, quiet below `e` lasts. */
  lemma {:induction false} QuietLasts(a: Core, b: Core, e: nat, bound: nat)
    requires ViewsOk(a.views) && Grows(a, b) && 1 <= e <= |a.views|
    requires Quiet(a.hist, e, bound) && SealedAbove(a.store, a.views[e - 1].Stripes(), e, bound)
    ensures Quiet(b.hist, e, bound) && SealedAbove(b.store, a.views[e - 1].Stripes(), e, bound)
  {
    hide Follows, ConfigOk, View.Stripes, ObjectMap.Good;
    if b.hist != a.hist {
      var n := |a.hist|;
      var ev := b.hist[n];
      forall p | ev.op.epoch <= e && p in ev.where ensures p < bound {
        var l, m := a.views[ev.op.epoch - 1].Stripes(), a.views[e - 1].Stripes();
        assert Holds(l, ev.oid, p);
        assert Extends(a.views[ev.op.epoch - 1], a.views[e - 1]);
        PrefixKeeps(l, m, ev.oid, p);
      }
      forall j, p | 0 <= j < |b.hist| && Guarded(b.hist[j].op) && b.hist[j].op.epoch <= e && p in b.hist[j].where
        ensures p < bound
      {
        if j < n { assert b.hist[j] == a.hist[j]; }
      }
    }
  }
}
