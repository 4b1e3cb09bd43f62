/**
  Stripes and their run-length form (src/libzlog/stripe.h, stripe.cc).

  A `Stripe` is a contiguous range of log positions spread over `width` objects. A log has an
  unbounded number of stripes, so the program keeps `MultiStripe`s: runs of adjacent stripes of one
  shape. `Unroll` is the plain list of stripes that a run stands for.
  */
module Stripes {
  import opened Common
  import opened Arithmetic

  /** An object is named by its stripe and its index in the stripe (see `Names`). */
  datatype Oid = Oid(stripe: nat, index: nat)

  datatype Stripe = Stripe(id: nat, width: nat, min: nat, max: nat) {

    /** The constructor's assertions. */
    predicate Valid() {
      && width > 0
      && (id > 0 <==> min > 0)
      && min + width - 1 <= max
      && Remainder(max - min + 1, width) == 0
    }

    predicate Has(p: nat) {
      min <= p <= max
    }

    /** `make_oid(stripe_id, width, position)`: the index is `position % width`. */
    function Home(p: nat): Oid
      requires width > 0
    {
      Oid(id, Remainder(p, width))
    }

    /** Object `i` starts at `min + i`, which is what `map_to` takes for granted. */
    predicate Aligned()
      requires width > 0
    {
      Remainder(min, width) == 0
    }
  }

  datatype MultiStripe = MultiStripe(
    baseId: nat, width: nat, slots: nat, minPos: nat, instances: nat, maxPos: nat) {

    /** Positions in one stripe instance, as a 64-bit product. */
    function Size(): nat {
      Times(slots, width)
    }

    /** The same product as `map` and `map_stripe` compute it: in 32 bits. */
    function Size32(): nat {
      Times(slots, width) % TWO_32
    }

    /** The constructor's assertions. */
    predicate Valid() {
      && 0 < width < TWO_32
      && 0 < slots < TWO_32
      && instances > 0
      && (baseId > 0 <==> minPos > 0)
      && maxPos + 1 == minPos + Times(instances, Size())
    }

    /** The 32-bit product is exact. */
    predicate Fits() {
      Size() < TWO_32
    }

    predicate Aligned()
      requires width > 0
    {
      Remainder(minPos, width) == 0
    }

    function MaxStripeId(): nat
      requires Valid()
    {
      baseId + instances - 1
    }

    function Extend(): (m: MultiStripe)
      requires Valid()
      ensures m.Valid() && m.MaxStripeId() == MaxStripeId() + 1
      ensures m.maxPos == maxPos + Size() && m.minPos == minPos
    {
      MultiStripe(baseId, width, slots, minPos, instances + 1, maxPos + Size())
    }

    function StripeById(k: nat): Stripe
      requires Valid() && baseId <= k <= MaxStripeId()
    {
      var first := minPos + Times(k - baseId, Size());
      SizePositive(this);
      Stripe(k, width, first, first + Size() - 1)
    }

    /** The stripe that `map` and `map_stripe` compute for a position, with the 32-bit product. */
    function InstanceOf(p: nat): (k: nat)
      requires Valid() && Fits() && minPos <= p <= maxPos
      ensures baseId <= k <= MaxStripeId()
    {
      InstanceInRange(this, p);
      baseId + Quotient(p - minPos, Size32())
    }

    /** The stripes this run stands for. */
    function List(): seq<Stripe>
      requires Valid()
    {
      SizePositive(this);
      Unroll(baseId, width, Size(), minPos, instances)
    }
  }

  lemma {:induction false} SizePositive(m: MultiStripe)
    requires m.width > 0 && m.slots > 0
    ensures m.Size() >= m.width > 0
  {
    TimesMono(0, m.slots, m.width);
  }

  /** `count` adjacent stripes of `size` positions each, laid out one after the other. */
  function Unroll(id: nat, width: nat, size: nat, min: nat, count: nat): seq<Stripe>
    requires size > 0
    decreases count
  {
    if count == 0 then []
    else [Stripe(id, width, min, min + size - 1)] + Unroll(id + 1, width, size, min + size, count - 1)
  }

  lemma {:induction false} UnrollAt(id: nat, width: nat, size: nat, min: nat, count: nat, i: nat)
    requires size > 0 && i < count
    ensures |Unroll(id, width, size, min, count)| == count
    ensures Unroll(id, width, size, min, count)[i]
         == Stripe(id + i, width, min + Times(i, size), min + Times(i, size) + size - 1)
    decreases count
  {
    if i > 0 {
      UnrollAt(id + 1, width, size, min + size, count - 1, i - 1);
    } else if count > 1 {
      UnrollAt(id + 1, width, size, min + size, count - 1, 0);
    }
  }

  /** Extending a run appends exactly one stripe to the list it stands for. */
  lemma {:induction false} UnrollExtend(id: nat, width: nat, size: nat, min: nat, count: nat)
    requires size > 0
    ensures Unroll(id, width, size, min, count + 1)
         == Unroll(id, width, size, min, count)
            + [Stripe(id + count, width, min + Times(count, size), min + Times(count, size) + size - 1)]
    decreases count
  {
    if count == 0 {
      assert Unroll(id + 1, width, size, min + size, 0) == [];
    } else {
      UnrollExtend(id + 1, width, size, min + size, count - 1);
    }
  }

  /** `stripe_by_id` is "index the list" and `extend` is "append one stripe". */
  lemma {:induction false} ListLaws(m: MultiStripe)
    requires m.Valid()
    ensures m.Size() > 0 && |m.List()| == m.instances
    ensures forall k :: m.baseId <= k <= m.MaxStripeId() ==> m.StripeById(k) == m.List()[k - m.baseId]
    ensures m.Extend().List()
         == m.List() + [Stripe(m.MaxStripeId() + 1, m.width, m.maxPos + 1, m.maxPos + m.Size())]
  {
    SizePositive(m);
    UnrollAt(m.baseId, m.width, m.Size(), m.minPos, m.instances, 0);
    forall k | m.baseId <= k <= m.MaxStripeId()
      ensures m.StripeById(k) == m.List()[k - m.baseId]
    {
      UnrollAt(m.baseId, m.width, m.Size(), m.minPos, m.instances, k - m.baseId);
    }
    UnrollExtend(m.baseId, m.width, m.Size(), m.minPos, m.instances);
  }

  lemma {:induction false} InstanceInRange(m: MultiStripe, p: nat)
    requires m.Valid() && m.Fits() && m.minPos <= p <= m.maxPos
    ensures m.Size32() == m.Size() > 0
    ensures Quotient(p - m.minPos, m.Size32()) < m.instances
    ensures m.StripeById(m.baseId + Quotient(p - m.minPos, m.Size32())).Has(p)
  {
    SizePositive(m);
    var d := Quotient(p - m.minPos, m.Size());
    Split(p - m.minPos, m.Size());
    if d >= m.instances { TimesMono(m.instances, d, m.Size()); assert false; }
  }

  /** Every stripe of a run meets the assertions of the `Stripe` constructor, and inherits alignment. */
  lemma {:induction false} StripeByIdValid(m: MultiStripe, k: nat)
    requires m.Valid() && m.baseId <= k <= m.MaxStripeId()
    ensures m.StripeById(k).Valid()
    ensures m.Aligned() ==> m.StripeById(k).Aligned()
  {
    var d, w := k - m.baseId, m.width;
    SizePositive(m);
    TimesMono(0, d, m.Size());
    Shift(0, m.slots, w);
    TimesAssoc(d, m.slots, w);
    Shift(m.minPos, Times(d, m.slots), w);
  }

  /** The stripes of a run are valid, adjacent and fill exactly the run's range. */
  lemma {:induction false} RunStripes(m: MultiStripe)
    requires m.Valid()
    ensures |m.List()| == m.instances
    ensures forall i :: 0 <= i < |m.List()| ==> m.List()[i].Valid() && m.List()[i].id == m.baseId + i
    ensures m.List()[0].min == m.minPos && m.List()[m.instances - 1].max == m.maxPos
    ensures forall i, j :: 0 <= i && j == i + 1 < |m.List()| ==> m.List()[j].min == m.List()[i].max + 1
  {
    ListLaws(m);
    var l := m.List();
    forall i | 0 <= i < |l|
      ensures l[i].Valid() && l[i].id == m.baseId + i
      ensures l[i].min == m.minPos + Times(i, m.Size()) && l[i].max + 1 == m.minPos + Times(i + 1, m.Size())
    {
      StripeByIdValid(m, m.baseId + i);
      assert l[i] == m.StripeById(m.baseId + i);
    }
  }

  /**
    Where the 32-bit product goes wrong. `create_initial` and `expand_mapping` compute a first
    stripe's last position in 32 bits, and the constructor compares it with the 64-bit product: it
    accepts every product up to and including 2^32. The 32-bit product used by `map` is exact, and
    non-zero, for all of those but 2^32 itself, where it is zero and `map` divides by it; a width
    of 65536 with 65536 slots is such a shape.
    */
  lemma {:induction false} ProductBoundary(width: nat, slots: nat)
    requires 0 < width < TWO_32 && 0 < slots < TWO_32
    ensures (Times(slots, width) + TWO_32 - 1) % TWO_32 == Times(slots, width) - 1 <==> Times(slots, width) <= TWO_32
    ensures Times(slots, width) <= TWO_32 ==>
              var last := (Times(slots, width) + TWO_32 - 1) % TWO_32;
              var m := MultiStripe(0, width, slots, 0, 1, last);
              m.Valid() && (m.Fits() <==> m.Size32() == m.Size()) && (!m.Fits() <==> m.Size32() == 0)
    ensures width == slots == 0x1_0000 ==> Times(slots, width) == TWO_32
  {
    var n := Times(slots, width);
    TimesMono(0, slots, width);
    assert n >= 1;
    assert Times(1, n) == n;
    TimesIsProduct(slots, width);
  }
}
