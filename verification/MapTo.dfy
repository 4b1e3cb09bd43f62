/**
  `ObjectMap::map_to` (src/libzlog/object_map.cc): the objects that hold positions up to a limit,
  one stripe per call, each flagged with whether the limit covers the whole object.
  */
module MapTo {
  import opened Common
  import opened Arithmetic
  import opened Stripes
  import opened PlainLists
  import opened ObjectMaps

  type Target = (Oid, bool)

  /** The first `n` objects of the stripe, as the loop of `map_to` decides them. */
  function Collect(s: Stripe, limit: nat, n: nat): seq<Target>
    requires s.Valid() && n <= s.width
  {
    if n == 0 then []
    else
      var i := n - 1;
      var rest := Collect(s, limit, i);
      if s.max - (s.width - 1) + i <= limit then rest + [(Oid(s.id, i), true)]
      else if s.min + i <= limit then rest + [(Oid(s.id, i), false)]
      else rest
  }

  /** One call of `map_to` for a stripe of a map that maps the limit. */
  function Targets(s: Stripe, limit: nat): seq<Target>
    requires s.Valid()
  {
    if s.min > limit then [] else Collect(s, limit, s.width)
  }

  /** What the caller relies on: every object with a position up to the limit, once, rightly flagged. */
  ghost predicate Exact(s: Stripe, limit: nat, ts: seq<Target>)
    requires s.Valid()
  {
    && (forall i, j :: 0 <= i < j < |ts| ==> ts[i].0 != ts[j].0)
    && (forall i :: 0 <= i < |ts| ==> ts[i].0.stripe == s.id && ts[i].0.index < s.width)
    && (forall i: nat, p: nat :: i < s.width && s.Has(p) && p <= limit && s.Home(p) == Oid(s.id, i) ==>
          exists f :: (Oid(s.id, i), f) in ts)
    && (forall t :: t in ts ==> exists p: nat :: s.Has(p) && p <= limit && s.Home(p) == t.0)
    && (forall t :: t in ts ==> (t.1 <==> forall p: nat :: s.Has(p) && s.Home(p) == t.0 ==> p <= limit))
  }

  /** In an aligned stripe object `i` starts at `min + i` and ends at `max - (width - 1) + i`. */
  lemma {:induction false} ObjectRange(s: Stripe, i: nat)
    requires s.Valid() && s.Aligned() && i < s.width
    ensures s.Has(s.min + i) && s.Home(s.min + i) == Oid(s.id, i)
    ensures s.max >= s.width - 1
    ensures var top := s.max - (s.width - 1) + i; s.Has(top) && s.Home(top) == Oid(s.id, i)
    ensures forall p: nat :: s.Has(p) && s.Home(p) == Oid(s.id, i) ==> s.min + i <= p <= s.max - (s.width - 1) + i
  {
    var slots := Rows(s);
    RowIsHeld(s, slots, i, 0);
    RowIsHeld(s, slots, i, slots - 1);
    forall p: nat | s.Has(p) && s.Home(p) == Oid(s.id, i)
      ensures s.min + i <= p <= s.max - (s.width - 1) + i
    {
      var j := HeldIsRow(s, slots, p);
      TimesMono(j, slots - 1, s.width);
    }
  }

  lemma {:induction false} CollectIs(s: Stripe, limit: nat, n: nat)
    requires s.Valid() && n <= s.width
    ensures var ts := Collect(s, limit, n);
            && (forall t :: t in ts ==> t.0.stripe == s.id && t.0.index < n)
            && (forall i, j :: 0 <= i < j < |ts| ==> ts[i].0.index < ts[j].0.index)
            && (forall t :: t in ts ==>
                  s.min + t.0.index <= limit && (t.1 <==> s.max - (s.width - 1) + t.0.index <= limit))
            && (forall i: nat :: i < n && s.min + i <= limit ==>
                  (Oid(s.id, i), s.max - (s.width - 1) + i <= limit) in ts)
    decreases n
  {
    if n > 0 {
      CollectIs(s, limit, n - 1);
      var ts, front := Collect(s, limit, n), Collect(s, limit, n - 1);
      forall i, j | 0 <= i < j < |ts| ensures ts[i].0.index < ts[j].0.index {
        assert ts[i] == front[i] && front[i] in front;
      }
    }
  }

  /** `map_to` is exact on an aligned stripe... */
  lemma {:induction false} AlignedIsExact(s: Stripe, limit: nat)
    requires s.Valid() && s.Aligned()
    ensures Exact(s, limit, Targets(s, limit))
  {
    var ts := Targets(s, limit);
    CollectIs(s, limit, s.width);
    forall i: nat, p: nat | i < s.width && s.Has(p) && p <= limit && s.Home(p) == Oid(s.id, i)
      ensures exists f :: (Oid(s.id, i), f) in ts
    {
      ObjectRange(s, i);
      assert (Oid(s.id, i), s.max - (s.width - 1) + i <= limit) in ts;
    }
    forall t | t in ts
      ensures exists p: nat :: s.Has(p) && p <= limit && s.Home(p) == t.0
      ensures t.1 <==> forall p: nat :: s.Has(p) && s.Home(p) == t.0 ==> p <= limit
    {
      var i := t.0.index;
      ObjectRange(s, i);
      var first := s.min + i;
      assert s.Has(first) && first <= limit && s.Home(first) == t.0;
      assert s.Home(s.max - (s.width - 1) + i) == t.0;
    }
  }

  /**
    ... and on no other: in a stripe that does not start at a multiple of its width, trimming up to
    the last row flags object 0 as covered although it holds a position above the limit, and
    trimming up to the first position misses the object that holds it.
    */
  lemma {:induction false} ExactIffAligned(s: Stripe)
    requires s.Valid()
    ensures s.Aligned() <==> forall limit: nat :: Exact(s, limit, Targets(s, limit))
    ensures !s.Aligned() ==>
              exists limit: nat, p: nat :: (Oid(s.id, 0), true) in Targets(s, limit)
                && s.Has(p) && s.Home(p) == Oid(s.id, 0) && p > limit
  {
    if s.Aligned() {
      forall limit: nat ensures Exact(s, limit, Targets(s, limit)) { AlignedIsExact(s, limit); }
    } else {
      var limit := s.max - (s.width - 1);
      CollectIs(s, limit, s.width);
      assert (Oid(s.id, 0), true) in Targets(s, limit);
      var p := MissedPosition(s);
      assert s.Home(p) == Oid(s.id, 0);
      assert !Exact(s, limit, Targets(s, limit));
    }
  }

  /** One stripe of two positions, then one of three that does not start at a multiple of three. */
  const UNALIGNED := [MultiStripe(0, 2, 1, 0, 1, 1), MultiStripe(1, 3, 1, 2, 1, 4)]

  lemma {:induction false} UnalignedChain()
    ensures Chain(UNALIGNED) && NextId(UNALIGNED) == 2 && !UNALIGNED[1].Aligned()
  {
    assert Remainder(2, 3) == 2;
  }

  /** The first stripe of a run is where the run starts. */
  lemma {:induction false} FirstOfRun(ms: seq<MultiStripe>, j: nat)
    requires Chain(ms) && j < |ms| && !ms[j].Aligned()
    ensures |Flatten(ms)| == NextId(ms) && ms[j].baseId < |Flatten(ms)|
    ensures Flatten(ms)[ms[j].baseId].Valid() && !Flatten(ms)[ms[j].baseId].Aligned()
  {
    hide Flatten, MultiStripe.List;
    FlattenIsPlain(ms);
    FlattenAt(ms, j, ms[j].baseId);
  }

  /** `ObjectMap::valid` admits maps with unaligned stripes. */
  lemma {:induction false} ValidAdmitsUnaligned()
    ensures var om := ObjectMap(2, UNALIGNED, IndexById(UNALIGNED), 0);
            om.Valid() && |om.Plain()| == 2 && om.Plain()[1].Valid() && !om.Plain()[1].Aligned()
  {
    hide Chain, NextId, MultiStripe.Aligned, Flatten, IndexById, Stripe.Aligned, Stripe.Valid;
    UnalignedChain();
    FirstOfRun(UNALIGNED, 1);
  }

  /** The position that object 0 of an unaligned stripe holds above its supposed last row. */
  lemma {:induction false} MissedPosition(s: Stripe) returns (p: nat)
    requires s.Valid() && !s.Aligned()
    ensures s.Has(p) && p > s.max - (s.width - 1) && s.Home(p) == Oid(s.id, 0)
  {
    var w := s.width;
    var limit := s.max - (w - 1);
    var slots := Rows(s);
    Shift(s.min, slots - 1, w);
    Split(limit, w);
    var q := Quotient(limit, w);
    p := Times(q + 1, w);
    Shift(0, q + 1, w);
  }

  // ----- the iterator ----------------------------------------------------------------------------

  /** `map_to(position, stripe_id, done)`; `next` and `done` are the updated in-out parameters. */
  method Next(om: ObjectMap, limit: nat, stripeId: nat)
    returns (objects: Option<seq<Target>>, next: nat, done: bool)
    requires om.Good()
    ensures om.nextStripeId == |om.Plain()|
    ensures forall k :: 0 <= k < |om.Plain()| ==> om.Plain()[k].Valid()
    ensures objects.None? <==> Map(om, limit).0.None?
    ensures done <==> objects.Some? && stripeId >= om.nextStripeId
    ensures objects.Some? && !done ==>
              stripeId < |om.Plain()| && objects.value == Targets(om.Plain()[stripeId], limit) && next == stripeId + 1
    ensures objects.None? || done ==> next == stripeId
  {
    LookupsAgree(om, limit);
    next, done := stripeId, false;
    if Map(om, limit).0.None? {
      return None, next, done;
    }
    if stripeId >= om.nextStripeId {
      return Some([]), next, true;
    }
    var stripe := StripeById(om, stripeId);
    next := stripeId + 1;
    var ts := StripeTargets(stripe, limit);
    objects := Some(ts);
  }

  /** The part of `map_to` that looks at one stripe. */
  method StripeTargets(stripe: Stripe, limit: nat) returns (ts: seq<Target>)
    requires stripe.Valid()
    ensures ts == Targets(stripe, limit)
  {
    ts := [];
    if stripe.min > limit {
      return;
    }
    for i := 0 to stripe.width
      invariant ts == Collect(stripe, limit, i)
    {
      if stripe.max - (stripe.width - 1) + i <= limit {
        ts := ts + [(Oid(stripe.id, i), true)];
      } else if stripe.min + i <= limit {
        ts := ts + [(Oid(stripe.id, i), false)];
      }
    }
  }

  /** All the targets of the first `n` stripes. */
  function TargetsOf(l: seq<Stripe>, limit: nat, n: nat): seq<Target>
    requires n <= |l| && forall k :: 0 <= k < |l| ==> l[k].Valid()
  {
    if n == 0 then [] else TargetsOf(l, limit, n - 1) + Targets(l[n - 1], limit)
  }

  /** Exactness over a whole list of stripes. */
  ghost predicate Enumerates(l: seq<Stripe>, limit: nat, n: nat, ts: seq<Target>)
    requires WellFormed(l)
  {
    && (forall i, j :: 0 <= i < j < |ts| ==> ts[i].0 != ts[j].0)
    && (forall t :: t in ts ==> t.0.stripe < n)
    && (forall oid, p: nat :: Holds(l, oid, p) && p <= limit && oid.stripe < n ==> exists f :: (oid, f) in ts)
    && (forall t :: t in ts ==> exists p: nat :: Holds(l, t.0, p) && p <= limit)
    && (forall t :: t in ts ==> (t.1 <==> forall p: nat :: Holds(l, t.0, p) ==> p <= limit))
  }

  /** An exact answer for one stripe, read as a statement about the list the stripe is in. */
  lemma {:induction false} ExactInList(l: seq<Stripe>, limit: nat, k: nat, ts: seq<Target>)
    requires WellFormed(l) && k < |l| && Exact(l[k], limit, ts)
    ensures forall oid, p: nat :: Holds(l, oid, p) && p <= limit && oid.stripe == k ==> exists f :: (oid, f) in ts
    ensures forall t :: t in ts ==> t.0.stripe == k
    ensures forall t :: t in ts ==> exists p: nat :: Holds(l, t.0, p) && p <= limit
    ensures forall t :: t in ts ==> (t.1 <==> forall p: nat :: Holds(l, t.0, p) ==> p <= limit)
  {
    var s := l[k];
    forall oid, p: nat | Holds(l, oid, p) && p <= limit && oid.stripe == k
      ensures exists f :: (oid, f) in ts
    {
      assert oid == Oid(s.id, oid.index) && s.Home(p) == oid;
    }
    forall t | t in ts
      ensures t.0.stripe == k
      ensures exists p: nat :: Holds(l, t.0, p) && p <= limit
      ensures t.1 <==> forall p: nat :: Holds(l, t.0, p) ==> p <= limit
    {
      assert forall p: nat :: Holds(l, t.0, p) <==> s.Has(p) && s.Home(p) == t.0;
      var p: nat :| s.Has(p) && p <= limit && s.Home(p) == t.0;
      assert Holds(l, t.0, p);
    }
  }

  lemma {:induction false} TargetsEnumerate(l: seq<Stripe>, limit: nat, n: nat)
    requires WellFormed(l) && AllAligned(l) && n <= |l|
    ensures Enumerates(l, limit, n, TargetsOf(l, limit, n))
    decreases n
  {
    if n > 0 {
      TargetsEnumerate(l, limit, n - 1);
      AlignedIsExact(l[n - 1], limit);
      var before, added := TargetsOf(l, limit, n - 1), Targets(l[n - 1], limit);
      ExactInList(l, limit, n - 1, added);
      forall oid, p: nat | Holds(l, oid, p) && p <= limit && oid.stripe < n
        ensures exists f :: (oid, f) in before + added
      {
        if oid.stripe < n - 1 {
          var f :| (oid, f) in before;
          assert (oid, f) in before + added;
        } else {
          var f :| (oid, f) in added;
          assert (oid, f) in before + added;
        }
      }
    }
  }

  /** Driving the iterator from stripe 0 until it is done, as TrimToOp does. */
  method Enumerate(om: ObjectMap, limit: nat) returns (all: Option<seq<Target>>)
    requires om.Good()
    ensures WellFormed(om.Plain())
    ensures all.None? <==> Map(om, limit).0.None?
    ensures all.Some? ==> Enumerates(om.Plain(), limit, |om.Plain()|, all.value)
  {
    ghost var l := om.Plain();
    FlattenAligned(om);
    var stripeId, acc := 0, [];
    while true
      invariant stripeId <= |l| && acc == TargetsOf(l, limit, stripeId)
      decreases |l| - stripeId
    {
      var objects, next, done := Next(om, limit, stripeId);
      if objects.None? {
        return None;
      }
      if done {
        break;
      }
      acc, stripeId := acc + objects.value, next;
    }
    TargetsEnumerate(l, limit, |l|);
    all := Some(acc);
  }
}
