/**
  The object map (src/libzlog/object_map.h, object_map.cc): an index of `MultiStripe`s by position
  and a second one by stripe id. Both are ordered maps in the program; here each is the sequence of
  its values in key order.
  */
module ObjectMaps {
  import opened Common
  import opened Arithmetic
  import opened Stripes
  import opened PlainLists

  /** `options.stripe_width` and `options.stripe_slots`. */
  datatype Options = Options(width: nat, slots: nat) {
    predicate Valid() {
      0 < width < TWO_32 && 0 < slots < TWO_32 && Times(slots, width) < TWO_32
    }
  }

  datatype ObjectMap = ObjectMap(
    nextStripeId: nat, byPos: seq<MultiStripe>, byId: seq<MultiStripe>, minValid: nat) {

    /** `ObjectMap::valid`. */
    predicate Valid() {
      && Chain(byPos)
      && byId == IndexById(byPos)
      && nextStripeId == NextId(byPos)
    }

    /** What `map` needs for its 32-bit product, and what `map_to` needs for its offsets. */
    predicate Good() {
      && Valid()
      && (forall i :: 0 <= i < |byPos| ==> byPos[i].Fits() && byPos[i].Aligned())
    }

    /** The stripes the map stands for. */
    function Plain(): seq<Stripe>
      requires Chain(byPos)
    {
      Flatten(byPos)
    }
  }

  predicate AllValid(ms: seq<MultiStripe>) {
    forall i :: 0 <= i < |ms| ==> ms[i].Valid()
  }

  /** The runs are adjacent, both in positions and in stripe ids, and start at 0. */
  predicate Chain(ms: seq<MultiStripe>) {
    && AllValid(ms)
    && (|ms| > 0 ==> ms[0].minPos == 0 && ms[0].baseId == 0)
    && (forall i, j :: 0 <= i && j == i + 1 < |ms| ==>
          ms[j].minPos == ms[i].maxPos + 1 && ms[j].baseId == ms[i].MaxStripeId() + 1)
  }

  function NextId(ms: seq<MultiStripe>): nat
    requires AllValid(ms)
  {
    if ms == [] then 0 else ms[|ms| - 1].MaxStripeId() + 1
  }

  function Flatten(ms: seq<MultiStripe>): seq<Stripe>
    requires AllValid(ms)
  {
    if ms == [] then [] else Flatten(ms[..|ms| - 1]) + ms[|ms| - 1].List()
  }

  // ----- the two indexes -------------------------------------------------------------------------

  /** `emplace` into the index by id: keep key order, and keep the old value of an existing key. */
  function Emplace(index: seq<MultiStripe>, m: MultiStripe): seq<MultiStripe> {
    if index == [] then [m]
    else
      var last := index[|index| - 1];
      if last.baseId < m.baseId then index + [m]
      else if last.baseId == m.baseId then index
      else Emplace(index[..|index| - 1], m) + [last]
  }

  function IndexById(byPos: seq<MultiStripe>): seq<MultiStripe> {
    if byPos == [] then [] else Emplace(IndexById(byPos[..|byPos| - 1]), byPos[|byPos| - 1])
  }

  /** The loop of the constructor. */
  method BuildIndex(byPos: seq<MultiStripe>) returns (byId: seq<MultiStripe>)
    ensures byId == IndexById(byPos)
    ensures Chain(byPos) ==> byId == byPos
  {
    byId := [];
    for i := 0 to |byPos|
      invariant byId == IndexById(byPos[..i])
    {
      byId := Emplace(byId, byPos[i]);
      assert byPos[..i + 1][..i] == byPos[..i];
    }
    assert byPos[..|byPos|] == byPos;
    if Chain(byPos) { IndexesAgree(byPos); }
  }

  /** On adjacent runs the two indexes hold the same values in the same order. */
  lemma {:induction false} IndexesAgree(byPos: seq<MultiStripe>)
    requires Chain(byPos)
    ensures IndexById(byPos) == byPos
    decreases |byPos|
  {
    if byPos != [] {
      IndexesAgree(byPos[..|byPos| - 1]);
    }
  }

  /** `prev(upper_bound(p))` by position: the last run starting at or below `p`, -1 if there is none. */
  function FloorPos(ms: seq<MultiStripe>, p: nat): (i: int)
    ensures -1 <= i < |ms|
    ensures i >= 0 ==> ms[i].minPos <= p
    ensures i + 1 < |ms| ==> p < ms[i + 1].minPos
  {
    if ms == [] then -1
    else if ms[|ms| - 1].minPos <= p then |ms| - 1
    else FloorPos(ms[..|ms| - 1], p)
  }

  /** `prev(upper_bound(id))` by stripe id. */
  function FloorId(ms: seq<MultiStripe>, id: nat): (i: int)
    ensures -1 <= i < |ms|
    ensures i >= 0 ==> ms[i].baseId <= id
    ensures i + 1 < |ms| ==> id < ms[i + 1].baseId
  {
    if ms == [] then -1
    else if ms[|ms| - 1].baseId <= id then |ms| - 1
    else FloorId(ms[..|ms| - 1], id)
  }

  // ----- lookups ---------------------------------------------------------------------------------

  /** The run and the stripe id that `map` and `map_stripe` compute for a position. */
  function FindRun(om: ObjectMap, p: nat): Option<(nat, nat)>
    requires om.Good()
  {
    if om.byPos == [] then None
    else
      var i := FloorPos(om.byPos, p);
      assert i >= 0;
      var m := om.byPos[i];
      if p <= m.maxPos then Some((i, m.InstanceOf(p)))
      else None
  }

  /** `ObjectMap::map`: the object, and whether it is in the last stripe. */
  function Map(om: ObjectMap, p: nat): (Option<Oid>, bool)
    requires om.Good()
  {
    match FindRun(om, p)
    case None => (None, false)
    case Some((i, id)) =>
      var m := om.byPos[i];
      (Some(Oid(id, Remainder(p, m.width))), i == |om.byPos| - 1 && id == m.MaxStripeId())
  }

  /** `ObjectMap::stripe_by_id`, through the index by id. */
  function StripeById(om: ObjectMap, id: nat): Stripe
    requires om.Valid() && id < om.nextStripeId
  {
    var i := FloorId(om.byId, id);
    FloorIdHolds(om, id);
    om.byId[i].StripeById(id)
  }

  lemma {:induction false} FloorIdHolds(om: ObjectMap, id: nat)
    requires om.Valid() && id < om.nextStripeId
    ensures om.byId == om.byPos && om.byPos != []
    ensures var i := FloorId(om.byId, id);
            0 <= i < |om.byId| && om.byId[i].Valid() && om.byId[i].baseId <= id <= om.byId[i].MaxStripeId()
  {
    IndexesAgree(om.byPos);
    var i := FloorId(om.byId, id);
    if i + 1 < |om.byId| {
      assert om.byPos[i + 1].baseId == om.byPos[i].MaxStripeId() + 1;
    }
  }

  /** `ObjectMap::map_stripe`. */
  function MapStripe(om: ObjectMap, p: nat): Option<Stripe>
    requires om.Good()
  {
    match FindRun(om, p)
    case None => None
    case Some((i, id)) =>
      FindRunInRange(om, p);
      Some(StripeById(om, id))
  }

  lemma {:induction false} FindRunInRange(om: ObjectMap, p: nat)
    requires om.Good() && FindRun(om, p).Some?
    ensures FindRun(om, p).value.1 < om.nextStripeId
  {
    FindRunIsPlain(om, p);
    FlattenIsPlain(om.byPos);
  }

  // ----- the map against the plain list ----------------------------------------------------------

  lemma {:induction false} FlattenIsPlain(ms: seq<MultiStripe>)
    requires Chain(ms)
    ensures |Flatten(ms)| == NextId(ms)
    ensures WellFormed(Flatten(ms))
    ensures ms != [] ==> Flatten(ms) != [] && Flatten(ms)[|Flatten(ms)| - 1].max == ms[|ms| - 1].maxPos
    decreases |ms|
  {
    if ms != [] {
      var n := |ms| - 1;
      FlattenIsPlain(ms[..n]);
      RunStripes(ms[n]);
      var l, front, run := Flatten(ms), Flatten(ms[..n]), ms[n].List();
      assert |front| == ms[n].baseId by { assert n > 0 ==> ms[n].baseId == ms[n - 1].MaxStripeId() + 1; }
      forall j, k | 0 <= j && k == j + 1 < |l| ensures l[k].min == l[j].max + 1 {
        if k == |front| {
          assert ms[n].minPos == ms[n - 1].maxPos + 1;
        } else if k > |front| {
          assert l[k] == run[k - |front|] && l[j] == run[j - |front|];
        }
      }
    }
  }

  /** Run `j` is the slice of the plain list that starts at its base id. */
  lemma {:induction false} FlattenSlice(ms: seq<MultiStripe>, j: nat, i: nat)
    requires Chain(ms) && j < |ms| && i < |ms[j].List()|
    ensures ms[j].baseId + i < |Flatten(ms)| && Flatten(ms)[ms[j].baseId + i] == ms[j].List()[i]
    decreases |ms|
  {
    hide WellFormed, MultiStripe.List, MultiStripe.Valid;
    var n := |ms| - 1;
    FlattenIsPlain(ms[..n]);
    if j < n {
      FlattenSlice(ms[..n], j, i);
    } else {
      assert n > 0 ==> ms[n].baseId == ms[n - 1].MaxStripeId() + 1;
    }
  }

  lemma {:induction false} FlattenAt(ms: seq<MultiStripe>, j: nat, k: nat)
    requires Chain(ms) && j < |ms| && ms[j].baseId <= k <= ms[j].MaxStripeId()
    ensures k < |Flatten(ms)| && Flatten(ms)[k] == ms[j].StripeById(k)
  {
    ListLaws(ms[j]);
    FlattenSlice(ms, j, k - ms[j].baseId);
  }

  lemma {:induction false} FlattenAligned(om: ObjectMap)
    requires om.Good()
    ensures WellFormed(om.Plain()) && AllAligned(om.Plain())
  {
    FlattenIsPlain(om.byPos);
    forall k | 0 <= k < |om.Plain()| ensures om.Plain()[k].Aligned() {
      FloorIdHolds(om, k);
      var i := FloorId(om.byId, k);
      FlattenAt(om.byPos, i, k);
      StripeByIdValid(om.byPos[i], k);
    }
  }

  /** The quotient that `map` computes is the index in the plain list. */
  lemma {:induction false} FindRunIsPlain(om: ObjectMap, p: nat)
    requires om.Good()
    ensures WellFormed(om.Plain())
    ensures FindRun(om, p).Some? <==> p < Top(om.Plain(), |om.Plain()|)
    ensures FindRun(om, p).Some? ==>
              var (i, id) := FindRun(om, p).value;
              && i < |om.byPos| && id < |om.Plain()| && om.byPos[i].baseId <= id <= om.byPos[i].MaxStripeId()
              && om.Plain()[id].Has(p) && om.Plain()[id].width == om.byPos[i].width
  {
    hide WellFormed, MultiStripe.List, IndexById, NextId;
    FlattenIsPlain(om.byPos);
    if om.byPos != [] {
      var i := FloorPos(om.byPos, p);
      var m := om.byPos[i];
      if i + 1 < |om.byPos| {
        assert om.byPos[i + 1].minPos == m.maxPos + 1;
        RunBelowTop(om.byPos, i);
      }
      if p <= m.maxPos {
        InstanceInRange(m, p);
        FlattenAt(om.byPos, i, m.InstanceOf(p));
        RunBelowTop(om.byPos, i);
      }
    }
  }

  lemma {:induction false} RunBelowTop(ms: seq<MultiStripe>, i: nat)
    requires Chain(ms) && i < |ms|
    ensures WellFormed(Flatten(ms)) && ms[i].maxPos < Top(Flatten(ms), |Flatten(ms)|)
  {
    FlattenIsPlain(ms);
    var k := ms[i].MaxStripeId();
    FlattenAt(ms, i, k);
    TopMono(Flatten(ms), k + 1, |Flatten(ms)|);
    ListLaws(ms[i]);
    RunStripes(ms[i]);
  }

  /**
    `map` finds the object that the plain list locates, `map_stripe` the stripe, and `last` is true
    exactly in the last stripe; `stripe_by_id` through the other index is the plain list's stripe.
    */
  lemma {:induction false} LookupsAgree(om: ObjectMap, p: nat)
    requires om.Good()
    ensures om.nextStripeId == |om.Plain()| && WellFormed(om.Plain())
    ensures Map(om, p).0 == Locate(om.Plain(), p)
    ensures Map(om, p).1 <==> om.Plain() != [] && om.Plain()[|om.Plain()| - 1].Has(p)
    ensures forall k: nat :: k < om.nextStripeId ==> StripeById(om, k) == om.Plain()[k]
    ensures MapStripe(om, p) == match Map(om, p).0 case None => None case Some(oid) =>
              (FindRunIsPlain(om, p); Some(om.Plain()[oid.stripe]))
  {
    hide WellFormed, MultiStripe.List, MultiStripe.Valid, IndexById, Flatten, FloorId, FloorPos, Locate;
    var l := om.Plain();
    FlattenIsPlain(om.byPos);
    FindRunIsPlain(om, p);
    LocateIsHolds(l, p);
    forall k: nat | k < om.nextStripeId ensures StripeById(om, k) == l[k] {
      ByIdIsPlain(om, k);
    }
    LastIsLast(om, p);
  }

  lemma {:induction false} ByIdIsPlain(om: ObjectMap, k: nat)
    requires om.Good() && k < om.nextStripeId
    ensures k < |om.Plain()| && StripeById(om, k) == om.Plain()[k]
  {
    hide MultiStripe.List, IndexById, Flatten;
    FloorIdHolds(om, k);
    FlattenAt(om.byPos, FloorId(om.byId, k), k);
  }

  /** The flag that `map` returns with the object. */
  lemma {:induction false} LastIsLast(om: ObjectMap, p: nat)
    requires om.Good()
    ensures Map(om, p).1 <==> om.Plain() != [] && om.Plain()[|om.Plain()| - 1].Has(p)
    ensures FindRun(om, p).Some? ==> FindRun(om, p).value.1 < |om.Plain()|
  {
    hide WellFormed, MultiStripe.List, IndexById, Flatten, FloorPos;
    var l := om.Plain();
    FlattenIsPlain(om.byPos);
    FindRunIsPlain(om, p);
    match FindRun(om, p) {
      case None =>
        if l != [] { InStripe(l, |l| - 1, p); }
      case Some((i, id)) =>
        if l[|l| - 1].Has(p) {
          Disjoint(l, id, |l| - 1, p);
          if i < |om.byPos| - 1 { RunsOrdered(om.byPos, i, |om.byPos| - 1); assert false; }
        }
    }
  }

  lemma {:induction false} RunsOrdered(ms: seq<MultiStripe>, i: nat, j: nat)
    requires Chain(ms) && i < j < |ms|
    ensures ms[i].MaxStripeId() < ms[j].baseId
    decreases j - i
  {
    assert ms[j].baseId == ms[j - 1].MaxStripeId() + 1;
    if i < j - 1 { RunsOrdered(ms, i, j - 1); }
  }

  /** The form the rest of the model uses: `map` answers exactly with the object that holds `p`. */
  lemma {:induction false} MapIsHolds(om: ObjectMap, p: nat)
    requires om.Good()
    ensures WellFormed(om.Plain()) && |om.Plain()| == om.nextStripeId
    ensures Map(om, p).0.Some? <==> p < Top(om.Plain(), |om.Plain()|)
    ensures forall oid :: Map(om, p).0 == Some(oid) <==> Holds(om.Plain(), oid, p)
  {
    LookupsAgree(om, p);
    LocateIsHolds(om.Plain(), p);
  }
}
