/**
  Growing an object map: `ObjectMap::expand_mapping` and `advance_min_valid_position`
  (src/libzlog/object_map.cc), and the first map of a log (src/libzlog/view.cc).
  */
module Expansion {
  import opened Common
  import opened Arithmetic
  import opened Stripes
  import opened PlainLists
  import opened ObjectMaps

  /** The first run of a log: one stripe of the configured shape. */
  function FirstRun(options: Options): (m: MultiStripe)
    requires options.Valid()
    ensures m.Valid() && m.Fits() && m.Aligned()
  {
    TimesMono(0, options.slots, options.width);
    assert Times(1, Times(options.slots, options.width)) == Times(options.slots, options.width);
    MultiStripe(0, options.width, options.slots, 0, 1, Times(options.slots, options.width) - 1)
  }

  /** `View::create_initial`, with and without `create_initial_view_stripes`. */
  function InitialMap(options: Options, withStripes: bool): (om: ObjectMap)
    requires options.Valid()
    ensures om.Good() && om.minValid == 0
  {
    if withStripes then
      var first := [FirstRun(options)];
      IndexesAgree(first);
      ObjectMap(1, first, IndexById(first), 0)
    else ObjectMap(0, [], [], 0)
  }

  /** A new log maps its first stripe, or nothing yet. */
  lemma {:induction false} InitialPlain(options: Options, withStripes: bool)
    requires options.Valid()
    ensures InitialMap(options, withStripes).Plain()
         == if withStripes then [Stripe(0, options.width, 0, Times(options.slots, options.width) - 1)] else []
  {
    if withStripes {
      var m := FirstRun(options);
      assert Flatten([m]) == Flatten([m][..0]) + m.List();
      UnrollAt(0, options.width, m.Size(), 0, 1, 0);
    }
  }

  /** One iteration of the loop of `expand_mapping`: extend the last run, or create the first. */
  function AddStripe(om: ObjectMap, options: Options): ObjectMap
    requires om.Good() && options.Valid()
  {
    var n := |om.byPos| - 1;
    var runs := if n >= 0 then om.byPos[..n] + [om.byPos[n].Extend()] else [FirstRun(options)];
    ObjectMap(om.nextStripeId + 1, runs, IndexById(runs), om.minValid)
  }

  /** The width of the stripe that `AddStripe` adds, and its number of positions. */
  function NextShape(om: ObjectMap, options: Options): (nat, nat) {
    if om.byPos == [] then (options.width, Times(options.slots, options.width))
    else (om.byPos[|om.byPos| - 1].width, om.byPos[|om.byPos| - 1].Size())
  }

  lemma {:induction false} ExtendAppends(m: MultiStripe)
    requires m.Valid() && m.Fits() && m.Aligned()
    ensures m.Size() > 0
    ensures m.Extend().Valid() && m.Extend().Fits() && m.Extend().Aligned()
    ensures m.Extend().width == m.width && m.Extend().Size() == m.Size() && m.Extend().baseId == m.baseId
    ensures m.Extend().List()
         == m.List() + [Stripe(m.MaxStripeId() + 1, m.width, m.maxPos + 1, m.maxPos + m.Size())]
  {
    ListLaws(m);
  }

  lemma {:induction false} FirstRunIsOne(options: Options)
    requires options.Valid()
    ensures FirstRun(options).Size() > 0
    ensures FirstRun(options).List() == [Stripe(0, options.width, 0, FirstRun(options).Size() - 1)]
  {
    var m := FirstRun(options);
    SizePositive(m);
    assert m.List() == [Stripe(0, m.width, 0, m.Size() - 1)] + Unroll(1, m.width, m.Size(), m.Size(), 0);
  }

  /** Adding a stripe keeps the map good... */
  lemma {:induction false} AddStripeGood(om: ObjectMap, options: Options)
    requires om.Good() && options.Valid()
    ensures AddStripe(om, options).Good()
    ensures AddStripe(om, options).byPos != []
    ensures NextShape(AddStripe(om, options), options) == NextShape(om, options)
    ensures NextShape(om, options).1 > 0
  {
    hide MultiStripe.List, IndexById, Flatten;
    var n := |om.byPos| - 1;
    var runs := AddStripe(om, options).byPos;
    if n >= 0 {
      ExtendAppends(om.byPos[n]);
      ExtendedChain(om.byPos, om.byPos[n].Extend());
    } else {
      FirstRunIsOne(options);
      assert Chain(runs);
    }
    IndexesAgree(runs);
  }

  /** Only the end of the last run changes. */
  lemma {:induction false} ExtendedChain(ms: seq<MultiStripe>, e: MultiStripe)
    requires Chain(ms) && |ms| > 0 && e.Valid()
    requires e.baseId == ms[|ms| - 1].baseId && e.minPos == ms[|ms| - 1].minPos
    ensures Chain(ms[..|ms| - 1] + [e])
  {
    hide MultiStripe.Valid, MultiStripe.MaxStripeId;
  }

  /** Extending the last run by a stripe extends the plain list by that stripe. */
  lemma {:induction false} ExtendLast(ms: seq<MultiStripe>, e: MultiStripe, s: Stripe)
    requires AllValid(ms) && |ms| > 0 && e.Valid() && e.List() == ms[|ms| - 1].List() + [s]
    ensures AllValid(ms[..|ms| - 1] + [e]) && Flatten(ms[..|ms| - 1] + [e]) == Flatten(ms) + [s]
  {
    var n := |ms| - 1;
    assert (ms[..n] + [e])[..n] == ms[..n];
  }

  /** The stripe that `AddStripe` adds. */
  function NextStripe(om: ObjectMap, options: Options): Stripe
    requires om.Valid() && NextShape(om, options).1 > 0
  {
    var (width, size) := NextShape(om, options);
    Stripe(om.nextStripeId, width, Reach(om), Reach(om) + size - 1)
  }

  /** The number of positions mapped. */
  function Reach(om: ObjectMap): nat
    requires om.Valid()
  {
    Top(om.Plain(), |om.Plain()|)
  }

  /** ... and appends one stripe to the plain list. */
  lemma {:induction false} AddStripeAppends(om: ObjectMap, options: Options)
    requires om.Good() && options.Valid()
    ensures NextShape(om, options).1 > 0
    ensures AddStripe(om, options).Good()
    ensures AddStripe(om, options).Plain() == om.Plain() + [NextStripe(om, options)]
    ensures Reach(om) < Reach(AddStripe(om, options))
  {
    hide MultiStripe.List, MultiStripe.Valid, IndexById, Flatten;
    AddStripeGood(om, options);
    if om.byPos != [] {
      AppendToLast(om.byPos);
    } else {
      FirstRunAlone(options);
    }
  }

  lemma {:induction false} FirstRunAlone(options: Options)
    requires options.Valid()
    ensures AllValid([FirstRun(options)]) && FirstRun(options).Size() > 0 && Flatten([]) == []
    ensures Flatten([FirstRun(options)]) == [Stripe(0, options.width, 0, FirstRun(options).Size() - 1)]
  {
    FirstRunIsOne(options);
    var runs := [FirstRun(options)];
    assert runs[..0] == [];
    assert Flatten(runs) == Flatten([]) + FirstRun(options).List();
  }

  lemma {:induction false} AppendToLast(ms: seq<MultiStripe>)
    requires Chain(ms) && ms != [] && ms[|ms| - 1].Fits() && ms[|ms| - 1].Aligned()
    ensures ms[|ms| - 1].Size() > 0
    ensures var n, l := |ms| - 1, Flatten(ms);
            var runs := ms[..n] + [ms[n].Extend()];
            && AllValid(runs) && |l| == NextId(ms)
            && Flatten(runs) == l + [Stripe(|l|, ms[n].width, Top(l, |l|), Top(l, |l|) + ms[n].Size() - 1)]
  {
    var m := ms[|ms| - 1];
    ExtendAppends(m);
    ExtendLast(ms, m.Extend(), Stripe(m.MaxStripeId() + 1, m.width, m.maxPos + 1, m.maxPos + m.Size()));
    FlattenIsPlain(ms);
  }

  /** The loop of `expand_mapping`, from a map that does not map the target. */
  function Grow(om: ObjectMap, p: nat, options: Options): ObjectMap
    requires om.Good() && options.Valid() && Map(om, p).0.None?
    decreases p - Reach(om)
  {
    GrowTowards(om, p, options);
    var next := AddStripe(om, options);
    if Map(next, p).0.Some? then next else Grow(next, p, options)
  }

  lemma {:induction false} GrowTowards(om: ObjectMap, p: nat, options: Options)
    requires om.Good() && options.Valid()
    ensures AddStripe(om, options).Good() && Reach(om) < Reach(AddStripe(om, options))
    ensures Map(om, p).0.None? <==> Reach(om) <= p
    ensures Map(AddStripe(om, options), p).0.None? <==> Reach(AddStripe(om, options)) <= p
  {
    AddStripeAppends(om, options);
    MapIsHolds(om, p);
    MapIsHolds(AddStripe(om, options), p);
  }

  /** `expand_mapping`: nothing when the position is mapped already. */
  function Expand(om: ObjectMap, p: nat, options: Options): Option<ObjectMap>
    requires om.Good() && options.Valid()
  {
    if Map(om, p).0.Some? then None else Some(Grow(om, p, options))
  }

  /** What `expand_mapping` may return: more stripes of one shape, and no more of them than needed. */
  ghost predicate Expands(om: ObjectMap, grown: ObjectMap, p: nat, shape: (nat, nat))
    requires om.Good()
  {
    && grown.Good() && grown.minValid == om.minValid
    && om.Plain() <= grown.Plain() && |om.Plain()| < |grown.Plain()|
    && Map(grown, p).0.Some?
    && (forall n :: 0 <= n < |grown.Plain()| ==> Unmapped(grown.Plain()[..n], p))
    && (forall k :: |om.Plain()| <= k < |grown.Plain()| ==>
          grown.Plain()[k].width == shape.0 && grown.Plain()[k].max + 1 == grown.Plain()[k].min + shape.1)
  }

  ghost predicate Unmapped(l: seq<Stripe>, p: nat) {
    forall k :: 0 <= k < |l| ==> !l[k].Has(p)
  }

  lemma {:induction false} UnmappedPrefix(om: ObjectMap, p: nat, n: nat)
    requires om.Good() && Reach(om) <= p && n <= |om.Plain()|
    ensures Unmapped(om.Plain()[..n], p)
  {
    var l := om.Plain();
    FlattenIsPlain(om.byPos);
    forall k | 0 <= k < n ensures !l[k].Has(p) {
      TopMono(l, k + 1, |l|);
    }
  }

  /**
    Expansion is conservative and minimal: the result is good, has the old stripes as a prefix of
    its own (so no mapped position moves), maps the target, and no proper prefix of it does. The
    minimum valid position is untouched and all new stripes have the shape of the last one, or the
    configured shape in an empty map.
    */
  lemma {:induction false} GrowIsMinimal(om: ObjectMap, p: nat, options: Options)
    requires om.Good() && options.Valid() && Map(om, p).0.None?
    ensures Expands(om, Grow(om, p, options), p, NextShape(om, options))
    decreases p - Reach(om)
  {
    hide Map, Chain, IndexById, Flatten;
    AddStripeGood(om, options);
    AddStripeAppends(om, options);
    GrowTowards(om, p, options);
    var next := AddStripe(om, options);
    if Map(next, p).0.Some? {
      forall n | 0 <= n < |next.Plain()| ensures Unmapped(next.Plain()[..n], p) {
        assert next.Plain()[..n] == om.Plain()[..n];
        UnmappedPrefix(om, p, n);
      }
    } else {
      GrowIsMinimal(next, p, options);
    }
  }

  /** `expand_mapping` as the program runs it. */
  method ExpandMapping(om: ObjectMap, p: nat, options: Options) returns (r: Option<ObjectMap>)
    requires om.Good() && options.Valid()
    ensures r == Expand(om, p, options)
  {
    if Map(om, p).0.Some? {
      return None;
    }
    var curr := om;
    while true
      invariant curr.Good() && Map(curr, p).0.None? && Grow(curr, p, options) == Grow(om, p, options)
      decreases p - Reach(curr)
    {
      GrowTowards(curr, p, options);
      var next := OneMore(curr, options);
      if Map(next, p).0.Some? {
        return Some(next);
      }
      hide Map, AddStripe, ObjectMap.Good;
      curr := next;
    }
  }

  /** The body of that loop up to the test: the assertions of the program hold. */
  method OneMore(om: ObjectMap, options: Options) returns (next: ObjectMap)
    requires om.Good() && options.Valid()
    ensures next == AddStripe(om, options)
  {
    var runs := om.byPos;
    if runs != [] {
      var n := |runs| - 1;
      var stripe := runs[n].Extend();
      assert stripe.minPos == runs[n].minPos && stripe.MaxStripeId() == om.nextStripeId;
      runs := runs[..n] + [stripe];
    } else {
      assert om.nextStripeId == 0;
      runs := [FirstRun(options)];
    }
    var byId := BuildIndex(runs);
    next := ObjectMap(om.nextStripeId + 1, runs, byId, om.minValid);
  }
}
