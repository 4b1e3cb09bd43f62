/**
  A range trim is as good as trimming its positions one at a time (doc/trim.txt): the same log, and the
  same first position for the next sequencer. Sequential runs on the in-memory backend.
  */
module RangeTrims {
  import opened Common
  import opened Stripes
  import opened PlainLists
  import opened ObjectMaps
  import opened MapTo
  import opened Cells
  import opened Ram
  import opened RamBackends
  import opened History
  import opened CoreSteps

  // ----- what the two ways of trimming do --------------------------------------------------------

  /** Some position below `n` is in the object. */
  ghost predicate Touches(l: seq<Stripe>, oid: Oid, n: nat)
    requires WellFormed(l)
  {
    exists p: nat :: p < n && Holds(l, oid, p)
  }

  function EpochAfter(o: Option<LogObject>, e: nat): nat {
    if o.Some? then o.value.epoch else e
  }

  function TopOf(o: Option<LogObject>): Option<nat> {
    if o.Some? then o.value.Top() else None
  }

  function CellOf(o: Option<LogObject>, p: nat): Cell {
    if o.Some? then o.value.Cell(p) else Unwritten
  }

  /** An object after a trim up to `limit`, created with epoch `e` if it did not exist. */
  ghost predicate Ranged(o: Option<LogObject>, o': Option<LogObject>, e: nat, limit: nat) {
    && o'.Some? && o'.value.Valid() && o'.value.epoch == EpochAfter(o, e)
    && (forall p: nat :: o'.value.Cell(p) == if p <= limit then Invalid else CellOf(o, p))
    && o'.value.Top() == Some(if TopOf(o).Some? then Max(TopOf(o).value, limit) else limit)
  }

  /** An object after its positions below `n` were trimmed one by one. */
  ghost predicate Pointed(l: seq<Stripe>, oid: Oid, o: Option<LogObject>, o': Option<LogObject>, e: nat, n: nat)
    requires WellFormed(l)
  {
    && o'.Some? && o'.value.Valid() && o'.value.epoch == EpochAfter(o, e)
    && (forall p: nat :: o'.value.Cell(p) == if p < n && Holds(l, oid, p) then Invalid else CellOf(o, p))
    && PointedTop(l, oid, TopOf(o), o'.value.Top(), n)
  }

  /** The highest position is the old one or one of the trimmed ones, whichever is higher. */
  ghost predicate PointedTop(l: seq<Stripe>, oid: Oid, top: Option<nat>, top': Option<nat>, n: nat)
    requires WellFormed(l)
  {
    && top'.Some?
    && (top.Some? ==> top.value <= top'.value)
    && (forall p: nat :: p < n && Holds(l, oid, p) ==> p <= top'.value)
    && (top' == top || (top'.value < n && Holds(l, oid, top'.value)))
  }

  ghost predicate RangeTrimmed(l: seq<Stripe>, st: Store, st': Store, e: nat, limit: nat)
    requires WellFormed(l)
  {
    forall oid :: if Touches(l, oid, limit + 1) then Ranged(Lookup(st, oid), Lookup(st', oid), e, limit)
                  else Lookup(st', oid) == Lookup(st, oid)
  }

  ghost predicate PointTrimmed(l: seq<Stripe>, st: Store, st': Store, e: nat, n: nat)
    requires WellFormed(l)
  {
    forall oid :: if Touches(l, oid, n) then Pointed(l, oid, Lookup(st, oid), Lookup(st', oid), e, n)
                  else Lookup(st', oid) == Lookup(st, oid)
  }

  // ----- the seed of the next sequencer ----------------------------------------------------------

  /** The highest position reported by the first `n` objects of stripe `k`; `seal_stripe`. */
  function StripeTop(st: Store, k: nat, n: nat): Option<nat> {
    if n == 0 then None
    else
      var rest, top := StripeTop(st, k, n - 1), TopOf(Lookup(st, Oid(k, n - 1)));
      if rest.None? then top else if top.None? then rest else Some(Max(rest.value, top.value))
  }

  /** The first position of the next sequencer: one past the top of the last stripe that has one. */
  function Seed(st: Store, l: seq<Stripe>, n: nat): nat
    requires n <= |l|
  {
    if n == 0 then 0
    else
      var top := StripeTop(st, n - 1, l[n - 1].width);
      if top.Some? then top.value + 1 else Seed(st, l, n - 1)
  }

  lemma {:induction false} StripeTopIs(st: Store, k: nat, n: nat)
    ensures StripeTop(st, k, n).None? <==> forall i: nat :: i < n ==> TopOf(Lookup(st, Oid(k, i))).None?
    ensures StripeTop(st, k, n).Some? ==>
              forall i: nat :: i < n && TopOf(Lookup(st, Oid(k, i))).Some? ==>
                TopOf(Lookup(st, Oid(k, i))).value <= StripeTop(st, k, n).value
    ensures StripeTop(st, k, n).Some? ==> exists i: nat :: i < n && TopOf(Lookup(st, Oid(k, i))) == StripeTop(st, k, n)
  {
    hide LogObject.Top;
    if n > 0 { StripeTopIs(st, k, n - 1); }
  }

  /** A bound that is attained is the top. */
  lemma {:induction false} StripeTopUnique(st: Store, k: nat, n: nat, i: nat, m: nat)
    requires i < n && TopOf(Lookup(st, Oid(k, i))) == Some(m)
    requires forall j: nat :: j < n && TopOf(Lookup(st, Oid(k, j))).Some? ==> TopOf(Lookup(st, Oid(k, j))).value <= m
    ensures StripeTop(st, k, n) == Some(m)
  {
    hide LogObject.Top, StripeTop;
    StripeTopIs(st, k, n);
  }

  lemma {:induction false} StripeTopSame(a: Store, b: Store, k: nat, n: nat)
    requires forall i: nat :: i < n ==> TopOf(Lookup(a, Oid(k, i))) == TopOf(Lookup(b, Oid(k, i)))
    ensures StripeTop(a, k, n) == StripeTop(b, k, n)
  {
    hide LogObject.Top;
    if n > 0 { StripeTopSame(a, b, k, n - 1); }
  }

  /** The stripe of the limit reports the limit or what it reported before, whichever is higher. */
  function Raised(top: Option<nat>, limit: nat): nat {
    if top.Some? then Max(top.value, limit) else limit
  }

  lemma {:induction false} RangedStripe(l: seq<Stripe>, st: Store, a: Store, e: nat, limit: nat, k: nat)
    requires WellFormed(l) && k < |l| && l[k].Has(limit) && RangeTrimmed(l, st, a, e, limit)
    ensures StripeTop(a, k, l[k].width) == Some(Raised(StripeTop(st, k, l[k].width), limit))
  {
    hide LogObject.Top, LogObject.Cell, LogObject.Valid, StripeTop, WellFormed, Touches, Holds;
    var w := l[k].width;
    var before := StripeTop(st, k, w);
    StripeTopIs(st, k, w);
    HomeInside(l, k, limit);
    HomeTouched(l, k, limit);
    var home := l[k].Home(limit);
    assert forall i: nat :: i < w && TopOf(Lookup(a, Oid(k, i))).Some? ==>
             TopOf(Lookup(a, Oid(k, i))).value <= Raised(before, limit);
    if before.Some? && before.value > limit {
      var i: nat :| i < w && TopOf(Lookup(st, Oid(k, i))) == before;
      assert TopOf(Lookup(a, Oid(k, i))) == before;
      StripeTopUnique(a, k, w, i, before.value);
    } else {
      assert TopOf(Lookup(st, home)).Some? ==> TopOf(Lookup(st, Oid(k, home.index))).value <= limit;
      StripeTopUnique(a, k, w, home.index, limit);
    }
  }

  lemma {:induction false} HomeInside(l: seq<Stripe>, k: nat, p: nat)
    requires WellFormed(l) && k < |l| && l[k].Has(p)
    ensures l[k].Home(p).stripe == k && l[k].Home(p).index < l[k].width && Holds(l, l[k].Home(p), p)
  {
  }

  lemma {:induction false} HomeTouched(l: seq<Stripe>, k: nat, p: nat)
    requires WellFormed(l) && k < |l| && l[k].Has(p)
    ensures Touches(l, l[k].Home(p), p + 1)
  {
    HomeInside(l, k, p);
  }

  lemma {:induction false} PointedStripe(l: seq<Stripe>, st: Store, b: Store, e: nat, limit: nat, k: nat)
    requires WellFormed(l) && k < |l| && l[k].Has(limit) && PointTrimmed(l, st, b, e, limit + 1)
    ensures StripeTop(b, k, l[k].width) == Some(Raised(StripeTop(st, k, l[k].width), limit))
  {
    hide LogObject.Top, LogObject.Cell, LogObject.Valid, StripeTop, WellFormed, Touches, Holds;
    var w := l[k].width;
    var before := StripeTop(st, k, w);
    StripeTopIs(st, k, w);
    HomeInside(l, k, limit);
    HomeTouched(l, k, limit);
    var home := l[k].Home(limit);
    assert forall i: nat :: i < w && TopOf(Lookup(b, Oid(k, i))).Some? ==>
             TopOf(Lookup(b, Oid(k, i))).value <= Raised(before, limit);
    if before.Some? && before.value > limit {
      var i: nat :| i < w && TopOf(Lookup(st, Oid(k, i))) == before;
      assert TopOf(Lookup(b, Oid(k, i))) == before;
      StripeTopUnique(b, k, w, i, before.value);
    } else {
      assert TopOf(Lookup(st, home)).Some? ==> TopOf(Lookup(st, Oid(k, home.index))).value <= limit;
      StripeTopUnique(b, k, w, home.index, limit);
    }
  }

  // ----- one call --------------------------------------------------------------------------------

  /** The object was created with epoch `e` if it was missing, and then trimmed by `op`; others are as before. */
  ghost predicate Trims(st: Store, st': Store, oid: Oid, op: Op)
    requires op.Trim?
  {
    && (forall o :: o != oid ==> Lookup(st', o) == Lookup(st, o))
    && oid in st' && TrimsObject(Lookup(st, oid), st'[oid], op)
  }

  ghost predicate TrimsObject(o: Option<LogObject>, o': LogObject, op: Op)
    requires op.Trim?
  {
    && o'.Valid() && o'.epoch == EpochAfter(o, op.epoch)
    && (forall p: nat :: o'.Cell(p) == Cells.Next(CellOf(o, p), op, p))
    && o'.Top() == NextTop(TopOf(o), op)
  }

  /** No object has seen a later epoch. */
  ghost predicate Current(st: Store, e: nat) {
    e > 0 && forall oid :: oid in st ==> st[oid].epoch <= e
  }

  /** What the promise behind a full trim gives for one object. */
  lemma {:induction false} TrimObject(l: seq<Stripe>, oid: Oid, o: LogObject, op: Op)
    requires op.Trim? && WellFormed(l) && ObjectOk(l, oid, o) && Targeted(l, oid, op)
    ensures Admitted(o, op).0 == Code(Success) && TrimsObject(Some(o), Admitted(o, op).1, op)
  {
    hide ObjectOk, Targeted, WellFormed, Admitted, LogObject.Cell, LogObject.Top, LogObject.Valid, Cells.Next, NextTop, Kept;
    ObjectValid(l, oid, o, op);
    PromiseKept(l, oid, o, op);
    AdmittedTop(o, op);
    forall p: nat ensures Admitted(o, op).0 == Code(Success) && Admitted(o, op).1.Cell(p) == Cells.Next(o.Cell(p), op, p) {
      AdmittedMeans(o, op, p);
    }
    AdmittedMeans(o, op, 0);
  }

  /** The effect of a trim that its object admits. */
  lemma {:induction false} TrimCall(l: seq<Stripe>, st: Store, oid: Oid, op: Op)
    requires op.Trim? && WellFormed(l) && StoreOk(l, op.epoch, st) && Targeted(l, oid, op)
    ensures var (reply, st') := Apply(st, oid, op);
            && StoreOk(l, op.epoch, st') && st'.Keys == st.Keys
            && (!reply.ret.Success? ==> st' == st)
            && (reply.ret.ENOENT? ==> oid !in st && op.epoch > 0)
            && (reply.ret.Success? ==> Trims(st, st', oid, op))
            && (op.epoch > 0 && (oid in st ==> st[oid].epoch <= op.epoch) ==> reply.ret.Success? || reply.ret.ENOENT?)
  {
    hide StoreOk, ObjectOk, WellFormed, Targeted, Admitted, TrimsObject, LogObject.Cell, LogObject.Top, LogObject.Valid;
    CallOnStore(l, op.epoch, st, oid, op);
    TargetCoherent(l, oid, op);
    if oid in st {
      StoredOk(l, op.epoch, st, oid);
      TrimObject(l, oid, st[oid], op);
    }
  }

  /** Creating a missing object. */
  lemma {:induction false} SealCall(l: seq<Stripe>, st: Store, oid: Oid, e: nat)
    requires WellFormed(l) && StoreOk(l, e, st) && Owns(l, oid) && oid !in st && e > 0
    ensures var (reply, st') := Apply(st, oid, Op.Seal(e, None));
            && reply == Code(Success) && StoreOk(l, e, st') && st' == st[oid := FRESH.(epoch := e)]
  {
    SealStore(l, e, st, oid, e);
  }

  /** A created object is still empty. */
  lemma {:induction false} CreatedThenTrimmed(st: Store, st1: Store, st2: Store, oid: Oid, op: Op)
    requires op.Trim? && oid !in st && st1 == st[oid := FRESH.(epoch := op.epoch)] && Trims(st1, st2, oid, op)
    ensures Trims(st, st2, oid, op)
  {
    hide Cells.Next, NextTop, LogObject.Valid;
  }

  // ----- TrimOp, one position after the other ----------------------------------------------------

  lemma {:induction false} PointTrimmedNext(l: seq<Stripe>, st: Store, mid: Store, st': Store, e: nat, p: nat, oid: Oid)
    requires WellFormed(l) && PointTrimmed(l, st, mid, e, p) && Holds(l, oid, p)
    requires Trims(mid, st', oid, Op.Trim(e, p, false, false))
    ensures PointTrimmed(l, st, st', e, p + 1)
  {
    hide Holds, WellFormed, LogObject.Cell, LogObject.Top, LogObject.Valid, PointTrimmed, Pointed;
    forall o ensures if Touches(l, o, p + 1) then Pointed(l, o, Lookup(st, o), Lookup(st', o), e, p + 1)
                     else Lookup(st', o) == Lookup(st, o)
    {
      if o == oid {
        PointedNext(l, st, mid, st', e, p, oid);
      } else {
        PointedOther(l, st, mid, e, p, oid, o);
      }
    }
    PointTrimmedIs(l, st, st', e, p + 1);
  }

  lemma {:induction false} PointTrimmedIs(l: seq<Stripe>, st: Store, st': Store, e: nat, n: nat)
    requires WellFormed(l)
    requires forall o :: if Touches(l, o, n) then Pointed(l, o, Lookup(st, o), Lookup(st', o), e, n)
                         else Lookup(st', o) == Lookup(st, o)
    ensures PointTrimmed(l, st, st', e, n)
  {
    hide Holds, WellFormed, Pointed, Touches;
  }

  lemma {:induction false} PointedNext(l: seq<Stripe>, st: Store, mid: Store, st': Store, e: nat, p: nat, oid: Oid)
    requires WellFormed(l) && PointTrimmed(l, st, mid, e, p) && Holds(l, oid, p)
    requires Trims(mid, st', oid, Op.Trim(e, p, false, false))
    ensures Touches(l, oid, p + 1) && Pointed(l, oid, Lookup(st, oid), Lookup(st', oid), e, p + 1)
  {
    hide Holds, WellFormed, LogObject.Cell, LogObject.Top, LogObject.Valid;
    assert if Touches(l, oid, p) then Pointed(l, oid, Lookup(st, oid), Lookup(mid, oid), e, p)
           else Lookup(mid, oid) == Lookup(st, oid);
  }

  lemma {:induction false} PointedOther(l: seq<Stripe>, st: Store, mid: Store, e: nat, p: nat, oid: Oid, o: Oid)
    requires WellFormed(l) && PointTrimmed(l, st, mid, e, p) && Holds(l, oid, p) && o != oid
    ensures if Touches(l, o, p + 1) then Pointed(l, o, Lookup(st, o), Lookup(mid, o), e, p + 1)
            else Lookup(mid, o) == Lookup(st, o)
  {
    LocateIsHolds(l, p);
    hide Holds, WellFormed, LogObject.Cell, LogObject.Top, LogObject.Valid, Locate;
    assert if Touches(l, o, p) then Pointed(l, o, Lookup(st, o), Lookup(mid, o), e, p) else Lookup(mid, o) == Lookup(st, o);
    assert forall q: nat :: q < p + 1 && Holds(l, o, q) ==> q < p;
  }

  /** TrimOp::run, undisturbed: create the object if it is missing, then trim. A newer epoch is reported. */
  method TrimOne<V>(b: RamBackend<V>, om: ObjectMap, ghost l: seq<Stripe>, e: nat, p: nat) returns (ret: Ret, oid: Oid)
    requires om.Good() && l == om.Plain() && Map(om, p).0.Some?
    requires WellFormed(l) && StoreOk(l, e, b.objects)
    modifies b`objects
    ensures StoreOk(l, e, b.objects) && Holds(l, oid, p)
    ensures ret.Success? ==> Trims(old(b.objects), b.objects, oid, Op.Trim(e, p, false, false))
    ensures Current(old(b.objects), e) ==> ret.Success?
  {
    MapIsHolds(om, p);
    oid := Map(om, p).0.value;
    hide ObjectMap.Good, StoreOk, Trims, Apply, Map, ObjectMap.Plain, WellFormed;
    ghost var op := Op.Trim(e, p, false, false);
    TrimCall(l, b.objects, oid, op);
    ret := b.Trim(oid, e, p, false, false);
    if ret == ENOENT {
      ghost var st := b.objects;
      SealCall(l, st, oid, e);
      ret := b.Seal(oid, e);
      ghost var st1 := b.objects;
      TrimCall(l, st1, oid, op);
      ret := b.Trim(oid, e, p, false, false);
      if ret == Success {
        CreatedThenTrimmed(st, st1, b.objects, oid, op);
      }
    }
  }

  /** Trimming 0, 1, ..., n - 1. */
  method TrimEach<V>(b: RamBackend<V>, om: ObjectMap, ghost l: seq<Stripe>, e: nat, n: nat) returns (ret: Ret)
    requires om.Good() && l == om.Plain() && (n > 0 ==> Map(om, n - 1).0.Some?)
    requires WellFormed(l) && StoreOk(l, e, b.objects)
    modifies b`objects
    ensures StoreOk(l, e, b.objects)
    ensures ret.Success? ==> PointTrimmed(l, old(b.objects), b.objects, e, n)
    ensures Current(old(b.objects), e) ==> ret.Success?
    decreases n
  {
    hide *;
    ghost var st := b.objects;
    ret := Success;
    if n == 0 {
      NothingTrimmed(l, st, e);
    } else {
      if n > 1 { BelowMapped(om, n - 2, n - 1); }
      ret := TrimEach(b, om, l, e, n - 1);
      if ret != Success {
        return;
      }
      ghost var mid := b.objects;
      if Current(st, e) { PointTrimmedCurrent(l, st, mid, e, n - 1); }
      var oid;
      ret, oid := TrimOne(b, om, l, e, n - 1);
      if ret == Success {
        PointTrimmedNext(l, st, mid, b.objects, e, n - 1, oid);
      }
    }
  }

  lemma {:induction false} PointTrimmedCurrent(l: seq<Stripe>, st: Store, st': Store, e: nat, n: nat)
    requires WellFormed(l) && PointTrimmed(l, st, st', e, n) && Current(st, e)
    ensures Current(st', e)
  {
    hide WellFormed, LogObject.Cell, LogObject.Top, LogObject.Valid, PointedTop, Touches;
    forall oid | oid in st' ensures st'[oid].epoch <= e {
      assert if Touches(l, oid, n) then Pointed(l, oid, Lookup(st, oid), Lookup(st', oid), e, n)
             else Lookup(st', oid) == Lookup(st, oid);
    }
  }

  lemma {:induction false} NothingTrimmed(l: seq<Stripe>, st: Store, e: nat)
    requires WellFormed(l)
    ensures PointTrimmed(l, st, st, e, 0)
  {
  }

  lemma {:induction false} BelowMapped(om: ObjectMap, p: nat, q: nat)
    requires om.Good() && Map(om, q).0.Some? && p <= q
    ensures Map(om, p).0.Some?
  {
    MapIsHolds(om, p);
    MapIsHolds(om, q);
  }

  // ----- TrimToOp --------------------------------------------------------------------------------

  /** An object on the way: untouched, created, or trimmed. */
  ghost predicate OnTheWay(o: Option<LogObject>, o': Option<LogObject>, e: nat, limit: nat) {
    o' == o || (o.None? && o' == Some(FRESH.(epoch := e))) || Ranged(o, o', e, limit)
  }

  ghost predicate Halfway(l: seq<Stripe>, st: Store, st': Store, e: nat, limit: nat)
    requires WellFormed(l)
  {
    forall oid :: if Touches(l, oid, limit + 1) then OnTheWay(Lookup(st, oid), Lookup(st', oid), e, limit)
                  else Lookup(st', oid) == Lookup(st, oid)
  }

  lemma {:induction false} RangedAgain(o: Option<LogObject>, m: Option<LogObject>, o': LogObject, e: nat, limit: nat, full: bool)
    requires OnTheWay(o, m, e, limit) && TrimsObject(m, o', Op.Trim(e, limit, true, full))
    ensures Ranged(o, Some(o'), e, limit)
  {
    hide LogObject.Valid;
    if o.None? && m == Some(FRESH.(epoch := e)) {
      assert m.value.Top() == None && forall p: nat :: m.value.Cell(p) == Unwritten;
    }
    hide LogObject.Cell, LogObject.Top;
  }

  lemma {:induction false} HalfwayNext(l: seq<Stripe>, st: Store, mid: Store, st': Store, e: nat, limit: nat, oid: Oid, full: bool)
    requires WellFormed(l) && Halfway(l, st, mid, e, limit) && Touches(l, oid, limit + 1)
    requires Trims(mid, st', oid, Op.Trim(e, limit, true, full))
    ensures Halfway(l, st, st', e, limit) && Ranged(Lookup(st, oid), Lookup(st', oid), e, limit)
    ensures forall o :: Ranged(Lookup(st, o), Lookup(mid, o), e, limit) ==> Ranged(Lookup(st, o), Lookup(st', o), e, limit)
  {
    hide WellFormed, Touches, Ranged, TrimsObject;
    assert OnTheWay(Lookup(st, oid), Lookup(mid, oid), e, limit);
    RangedAgain(Lookup(st, oid), Lookup(mid, oid), st'[oid], e, limit, full);
  }

  lemma {:induction false} HalfwayCreated(l: seq<Stripe>, st: Store, mid: Store, e: nat, limit: nat, oid: Oid)
    requires WellFormed(l) && Halfway(l, st, mid, e, limit) && Touches(l, oid, limit + 1) && oid !in mid
    ensures Halfway(l, st, mid[oid := FRESH.(epoch := e)], e, limit)
  {
    hide WellFormed, Touches, LogObject.Cell, LogObject.Top, LogObject.Valid;
    assert OnTheWay(Lookup(st, oid), Lookup(mid, oid), e, limit);
  }

  /** Every target was trimmed, so everything that holds a position of the range was. */
  lemma {:induction false} AllRanged(l: seq<Stripe>, st: Store, st': Store, e: nat, limit: nat, ts: seq<Target>)
    requires WellFormed(l) && Halfway(l, st, st', e, limit) && Enumerates(l, limit, |l|, ts)
    requires forall j :: 0 <= j < |ts| ==> Ranged(Lookup(st, ts[j].0), Lookup(st', ts[j].0), e, limit)
    ensures RangeTrimmed(l, st, st', e, limit)
  {
    hide WellFormed, Ranged;
    forall oid | Touches(l, oid, limit + 1) ensures Ranged(Lookup(st, oid), Lookup(st', oid), e, limit) {
      var p: nat :| p < limit + 1 && Holds(l, oid, p);
      var f :| (oid, f) in ts;
      var j :| 0 <= j < |ts| && ts[j] == (oid, f);
    }
  }

  lemma {:induction false} TargetIsTargeted(l: seq<Stripe>, limit: nat, ts: seq<Target>, i: nat, e: nat)
    requires WellFormed(l) && Enumerates(l, limit, |l|, ts) && i < |ts|
    ensures Targeted(l, ts[i].0, Op.Trim(e, limit, true, ts[i].1)) && Touches(l, ts[i].0, limit + 1) && Owns(l, ts[i].0)
  {
    assert ts[i] in ts;
    var p: nat :| Holds(l, ts[i].0, p) && p <= limit;
    assert p < limit + 1;
  }

  function ObjectsOf(ts: seq<Target>): set<Oid> {
    set t | t in ts :: t.0
  }

  lemma {:induction false} HalfwayCurrent(l: seq<Stripe>, st: Store, st': Store, e: nat, limit: nat)
    requires WellFormed(l) && Halfway(l, st, st', e, limit) && Current(st, e)
    ensures Current(st', e)
  {
    hide WellFormed, LogObject.Cell, LogObject.Top, LogObject.Valid, Touches;
    forall oid | oid in st' ensures st'[oid].epoch <= e {
      assert if Touches(l, oid, limit + 1) then OnTheWay(Lookup(st, oid), Lookup(st', oid), e, limit)
             else Lookup(st', oid) == Lookup(st, oid);
    }
  }

  /** One target: trim it, or create it and ask for a restart. */
  method TrimTarget<V>(b: RamBackend<V>, ghost l: seq<Stripe>, ghost st: Store, ts: seq<Target>, i: nat, e: nat, limit: nat)
    returns (ret: Ret)
    requires WellFormed(l) && StoreOk(l, e, b.objects) && Halfway(l, st, b.objects, e, limit)
    requires Enumerates(l, limit, |l|, ts) && i < |ts|
    modifies b`objects
    ensures StoreOk(l, e, b.objects) && Halfway(l, st, b.objects, e, limit)
    ensures Current(st, e) ==> ret.Success? || ret.ENOENT?
    ensures ret.ENOENT? ==> ts[i].0 !in old(b.objects) && b.objects.Keys == old(b.objects).Keys + {ts[i].0}
    ensures ret.Success? ==>
              && b.objects.Keys == old(b.objects).Keys
              && Ranged(Lookup(st, ts[i].0), Lookup(b.objects, ts[i].0), e, limit)
              && forall o :: Ranged(Lookup(st, o), Lookup(old(b.objects), o), e, limit) ==>
                             Ranged(Lookup(st, o), Lookup(b.objects, o), e, limit)
  {
    hide StoreOk, Trims, Apply, WellFormed, Targeted, Halfway, Touches, Ranged, Enumerates, Lookup;
    var (oid, full) := ts[i];
    ghost var mid := b.objects;
    TargetIsTargeted(l, limit, ts, i, e);
    if Current(st, e) { HalfwayCurrent(l, st, mid, e, limit); }
    TrimCall(l, mid, oid, Op.Trim(e, limit, true, full));
    ret := b.Trim(oid, e, limit, true, full);
    if ret == ENOENT {
      SealCall(l, mid, oid, e);
      HalfwayCreated(l, st, mid, e, limit, oid);
      var sealed := b.Seal(oid, e);
    } else if ret == Success {
      HalfwayNext(l, st, mid, b.objects, e, limit, oid, full);
    }
  }

  /** The loop of TrimToOp::run, undisturbed: the scan starts again whenever it had to create an object. */
  method TrimTargets<V>(b: RamBackend<V>, ghost l: seq<Stripe>, ts: seq<Target>, e: nat, limit: nat) returns (ret: Ret)
    requires WellFormed(l) && StoreOk(l, e, b.objects) && Enumerates(l, limit, |l|, ts)
    modifies b`objects
    ensures StoreOk(l, e, b.objects)
    ensures ret.Success? ==> RangeTrimmed(l, old(b.objects), b.objects, e, limit)
    ensures Current(old(b.objects), e) ==> ret.Success?
  {
    hide StoreOk, Halfway, Ranged, WellFormed, Enumerates, Lookup, RangeTrimmed, Current;
    ghost var st := b.objects;
    HalfwayStart(l, st, e, limit);
    var restart, i := true, 0;
    while restart || i < |ts|
      invariant i <= |ts| && StoreOk(l, e, b.objects) && Halfway(l, st, b.objects, e, limit)
      invariant !restart ==> forall j :: 0 <= j < i ==> Ranged(Lookup(st, ts[j].0), Lookup(b.objects, ts[j].0), e, limit)
      decreases ObjectsOf(ts) - b.objects.Keys, restart, |ts| - i
    {
      if restart {
        restart, i := false, 0;
      } else {
        ret := TrimTarget(b, l, st, ts, i, e, limit);
        if ret == ENOENT {
          assert ts[i] in ts && ts[i].0 in ObjectsOf(ts);
          restart := true;
        } else if ret != Success {
          return;
        } else {
          i := i + 1;
        }
      }
    }
    AllRanged(l, st, b.objects, e, limit, ts);
    ret := Success;
  }

  /** TrimToOp::run, undisturbed. */
  method TrimTo<V>(b: RamBackend<V>, om: ObjectMap, e: nat, limit: nat) returns (ret: Ret)
    requires om.Good() && Map(om, limit).0.Some?
    requires WellFormed(om.Plain()) && StoreOk(om.Plain(), e, b.objects)
    modifies b`objects
    ensures StoreOk(om.Plain(), e, b.objects)
    ensures ret.Success? ==> RangeTrimmed(om.Plain(), old(b.objects), b.objects, e, limit)
    ensures Current(old(b.objects), e) ==> ret.Success?
  {
    ghost var l := om.Plain();
    hide *;
    var all := Enumerate(om, limit);
    ret := TrimTargets(b, l, all.value, e, limit);
  }

  lemma {:induction false} HalfwayStart(l: seq<Stripe>, st: Store, e: nat, limit: nat)
    requires WellFormed(l)
    ensures Halfway(l, st, st, e, limit)
  {
  }

  // ----- propose_sequencer, undisturbed ----------------------------------------------------------

  /** Sealing an object changes neither its cells nor its highest position. */
  ghost predicate SameContents(st: Store, st': Store) {
    && (forall oid :: TopOf(Lookup(st', oid)) == TopOf(Lookup(st, oid)))
    && (forall oid, p: nat :: CellAt(st', oid, p) == CellAt(st, oid, p))
  }

  lemma {:induction false} SealSame(st: Store, mid: Store, oid: Oid, e: nat)
    requires SameContents(st, mid) && e > 0
    ensures var (reply, st') := Apply(mid, oid, Op.Seal(e, None));
            (reply.ret.Success? || reply.ret.ESPIPE?) && SameContents(st, st') && oid in st' && mid.Keys <= st'.Keys
  {
  }

  /** seal_stripe: seal every object of the stripe, then ask each for its highest position. */
  method SealStripe<V>(b: RamBackend<V>, stripe: Stripe, e: nat) returns (top: Option<nat>)
    requires e > 0
    modifies b`objects
    ensures SameContents(old(b.objects), b.objects)
    ensures top == StripeTop(old(b.objects), stripe.id, stripe.width)
  {
    ghost var st := b.objects;
    hide Apply, LogObject.Top, LogObject.Cell;
    var i := 0;
    while i < stripe.width
      invariant i <= stripe.width && SameContents(st, b.objects)
      invariant forall j: nat :: j < i ==> Oid(stripe.id, j) in b.objects
    {
      SealSame(st, b.objects, Oid(stripe.id, i), e);
      var ret := b.Seal(Oid(stripe.id, i), e);
      i := i + 1;
    }
    ghost var sealed := b.objects;
    i, top := 0, None;
    while i < stripe.width
      invariant i <= stripe.width && b.objects == sealed && top == StripeTop(st, stripe.id, i)
    {
      MaxPosOf(b.objects, Oid(stripe.id, i));
      var ret, max := b.MaxPos(Oid(stripe.id, i));
      if max.Some? {
        top := Some(if top.Some? then Max(top.value, max.value) else max.value);
      }
      i := i + 1;
    }
  }

  lemma {:induction false} MaxPosOf(st: Store, oid: Oid)
    requires oid in st
    ensures Apply(st, oid, Op.MaxPos).0 == Reply(Success, [], TopOf(Lookup(st, oid)))
  {
  }

  /** The scan of propose_sequencer, from the last stripe down to the first that is not empty. */
  method FindSeed<V>(b: RamBackend<V>, om: ObjectMap, ghost l: seq<Stripe>, e: nat) returns (seed: nat)
    requires om.Good() && l == om.Plain()
    modifies b`objects
    ensures SameContents(old(b.objects), b.objects)
    ensures seed == Seed(old(b.objects), l, |l|)
  {
    hide ObjectMap.Plain, LogObject.Top, LogObject.Cell, StripeTop, Chain, IndexById, NextId, StripeById, MapStripe, Map, Locate;
    ghost var st := b.objects;
    LookupsAgree(om, 0);
    var k: nat, top: Option<nat> := om.nextStripeId, None;
    while k > 0 && top.None?
      invariant k <= |l| && SameContents(st, b.objects)
      invariant Seed(st, l, |l|) == if top.Some? then top.value + 1 else Seed(st, l, k)
    {
      k := k - 1;
      ghost var mid := b.objects;
      top := SealStripe(b, StripeById(om, k), e + 1);
      StripeTopSame(mid, st, k, l[k].width);
    }
    seed := if top.Some? then top.value + 1 else 0;
  }
}
