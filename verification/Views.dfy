/** Log views (src/libzlog/view.h, view.cc) and sequencer configurations (src/libzlog/sequencer.h). */
module Views {
  import opened Common
  import opened Stripes
  import opened PlainLists
  import opened ObjectMaps
  import opened Expansion

  /** Object maps that `create_initial`, `expand_mapping` and `advance_min_valid_position` can build. */
  type GoodMap = om: ObjectMap | om.Good() witness ObjectMap(0, [], [], 0)

  /** Who may sequence, since which epoch, and the first position to hand out. */
  datatype SequencerConfig = SequencerConfig(epoch: nat, token: nat, position: nat)

  datatype View = View(om: GoodMap, config: Option<SequencerConfig>) {

    /** The stripes of the view, as a plain list. */
    function Stripes(): (l: seq<Stripe>)
      ensures WellFormed(l) && AllAligned(l)
    {
      FlattenAligned(om);
      om.Plain()
    }

    /** `View::expand_mapping`. */
    function ExpandMapping(p: nat, options: Options): Option<View>
      requires options.Valid()
    {
      if Map(om, p).0.Some? then None
      else
        GrowIsMinimal(om, p, options);
        Some(View(Grow(om, p, options), config))
    }

    /** `View::advance_min_valid_position`. */
    function AdvanceMinValid(p: nat): Option<View> {
      if p <= om.minValid then None
      else
        var om' := om.(minValid := p);
        assert om'.Good();
        Some(View(om', config))
    }

    /** `View::with_sequencer_config`. */
    function WithSequencer(c: SequencerConfig): View {
      View(om, Some(c))
    }
  }

  /** `View::create_initial`. */
  function Initial(options: Options, withStripes: bool): View
    requires options.Valid()
  {
    View(InitialMap(options, withStripes), None)
  }

  /** `map`, as "the object that holds the position". */
  lemma {:induction false} MapIs(v: View, p: nat)
    ensures Map(v.om, p).0.Some? <==> p < Top(v.Stripes(), |v.Stripes()|)
    ensures forall oid :: Map(v.om, p).0 == Some(oid) <==> Holds(v.Stripes(), oid, p)
    ensures |v.Stripes()| == v.om.nextStripeId
  {
    MapIsHolds(v.om, p);
  }

  lemma {:induction false} StripeIs(v: View, k: nat)
    requires k < v.om.nextStripeId
    ensures k < |v.Stripes()| && StripeById(v.om, k) == v.Stripes()[k]
  {
    LookupsAgree(v.om, 0);
  }

  /** A view that may follow `prev` as the view of `epoch`. */
  ghost predicate Follows(prev: View, next: View, epoch: nat) {
    || (next.config.Some? && next.config.value.epoch == epoch && next == prev.WithSequencer(next.config.value))
    || (exists p: nat, options: Options :: options.Valid() && prev.ExpandMapping(p, options) == Some(next))
    || (exists p: nat :: prev.AdvanceMinValid(p) == Some(next))
  }

  /** Mappings only extend, the minimum valid position only grows, a configuration is kept or new. */
  lemma {:induction false} FollowsExtends(prev: View, next: View, epoch: nat)
    requires Follows(prev, next, epoch)
    ensures prev.Stripes() <= next.Stripes()
    ensures prev.om.minValid <= next.om.minValid
    ensures next.config == prev.config || (next.config.Some? && next.config.value.epoch == epoch)
  {
    if p: nat, options: Options :| options.Valid() && prev.ExpandMapping(p, options) == Some(next) {
      GrowIsMinimal(prev.om, p, options);
    }
  }
}
