/**
  After a range trim and after trimming the same positions one at a time, nobody can tell the
  difference, now or later: every sequence of calls gets the same replies, and whenever a sequencer is
  proposed it starts at the same position.
  */
module TrimEquivalence {
  import opened Common
  import opened Stripes
  import opened PlainLists
  import opened Cells
  import opened Ram
  import opened History
  import opened CoreSteps
  import opened RangeTrims

  // ----- the relation ----------------------------------------------------------------------------

  /** From stripe `k` on, which is not empty, the stripes report the same highest positions. */
  ghost predicate SameTops(l: seq<Stripe>, a: Store, b: Store, k: nat) {
    && k < |l| && StripeTop(a, k, l[k].width).Some?
    && forall j :: k <= j < |l| ==> StripeTop(a, j, l[j].width) == StripeTop(b, j, l[j].width)
  }

  /** The same objects with the same epochs. */
  ghost predicate SameEpochs(a: Store, b: Store) {
    forall oid :: (oid in a <==> oid in b) && (oid in a ==> a[oid].epoch == b[oid].epoch)
  }

  /** The same content at every position, in the object that holds it. */
  ghost predicate SameCells(l: seq<Stripe>, a: Store, b: Store)
    requires WellFormed(l)
  {
    forall oid, p: nat :: Holds(l, oid, p) ==> CellAt(a, oid, p) == CellAt(b, oid, p)
  }

  /** Stores that nobody can tell apart; epochs up to `n + 1` are in use. */
  ghost predicate Twins(l: seq<Stripe>, n: nat, a: Store, b: Store, k: nat)
    requires WellFormed(l)
  {
    StoreOk(l, n, a) && StoreOk(l, n, b) && SameEpochs(a, b) && SameCells(l, a, b) && SameTops(l, a, b, k)
  }

  /** The scan for the first position of a sequencer stops at stripe `k` or above. */
  lemma {:induction false} SameSeed(l: seq<Stripe>, a: Store, b: Store, k: nat, n: nat)
    requires SameTops(l, a, b, k) && k < n <= |l|
    ensures Seed(a, l, n) == Seed(b, l, n)
    decreases n
  {
    hide StripeTop;
    if n - 1 > k { SameSeed(l, a, b, k, n - 1); }
  }

  // ----- further calls ---------------------------------------------------------------------------

  /** Calls as clients make them: to the object of the position, or to seal an object. */
  ghost predicate Fair(l: seq<Stripe>, n: nat, oid: Oid, op: Op)
    requires WellFormed(l)
  {
    if op.Seal? then Owns(l, oid) && op.epoch <= n + 1 else Guarded(op) && Targeted(l, oid, op)
  }

  lemma {:induction false} SameReply(l: seq<Stripe>, n: nat, a: Store, b: Store, oid: Oid, op: Op)
    requires WellFormed(l) && StoreOk(l, n, a) && StoreOk(l, n, b) && SameEpochs(a, b) && SameCells(l, a, b)
    requires Guarded(op) && Targeted(l, oid, op)
    ensures Apply(a, oid, op).0 == Apply(b, oid, op).0
  {
    hide StoreOk, WellFormed, Apply, CellAt, Holds;
    ReplyFrom(l, n, a, oid, op);
    ReplyFrom(l, n, b, oid, op);
  }

  /** What a successful call does to the highest position of its object. */
  lemma {:induction false} CallTop(l: seq<Stripe>, n: nat, st: Store, oid: Oid, op: Op)
    requires WellFormed(l) && StoreOk(l, n, st) && Guarded(op) && Targeted(l, oid, op) && Apply(st, oid, op).0.ret.Success?
    ensures var st' := Apply(st, oid, op).1;
            oid in st && oid in st' && st'[oid].Top() == NextTop(st[oid].Top(), op)
  {
    hide StoreOk, ObjectOk, Targeted, WellFormed, Admitted, LogObject.Cell, LogObject.Valid, LogObject.Top, Kept, NextTop;
    CallOnStore(l, n, st, oid, op);
    TargetCoherent(l, oid, op);
    StoredOk(l, n, st, oid);
    ObjectValid(l, oid, st[oid], op);
    PromiseKept(l, oid, st[oid], op);
    AdmittedTop(st[oid], op);
  }

  /** Raising the highest position of one object raises that of its stripe. */
  lemma {:induction false} StripeTopRaised(st: Store, st': Store, k: nat, n: nat, i: nat, p: nat)
    requires i < n && forall j: nat :: j < n && j != i ==> TopOf(Lookup(st', Oid(k, j))) == TopOf(Lookup(st, Oid(k, j)))
    requires TopOf(Lookup(st', Oid(k, i))) == Some(Raised(TopOf(Lookup(st, Oid(k, i))), p))
    ensures StripeTop(st', k, n) == Some(Raised(StripeTop(st, k, n), p))
  {
    hide LogObject.Top, StripeTop, Lookup, TopOf;
    StripeTopIs(st, k, n);
    var before := StripeTop(st, k, n);
    if before.Some? && before.value > p {
      var j: nat :| j < n && TopOf(Lookup(st, Oid(k, j))) == before;
      StripeTopUnique(st', k, n, j, before.value);
    } else {
      StripeTopUnique(st', k, n, i, p);
    }
  }

  /** The object of a call is one of its stripe's. */
  lemma {:induction false} TargetOwned(l: seq<Stripe>, oid: Oid, op: Op)
    requires WellFormed(l) && Targeted(l, oid, op)
    ensures oid.stripe < |l| && oid.index < l[oid.stripe].width
  {
  }

  /** A call raises the top of its own stripe only. */
  lemma {:induction false} CallStripe(l: seq<Stripe>, n: nat, st: Store, oid: Oid, op: Op, k: nat)
    requires WellFormed(l) && k < |l| && StoreOk(l, n, st) && Guarded(op) && Targeted(l, oid, op)
    requires !op.Read? && Apply(st, oid, op).0.ret.Success?
    ensures StripeTop(Apply(st, oid, op).1, k, l[k].width)
         == if k == oid.stripe then Some(Raised(StripeTop(st, k, l[k].width), op.pos)) else StripeTop(st, k, l[k].width)
  {
    hide StoreOk, Targeted, WellFormed, Apply, LogObject.Top, StripeTop;
    CallOnStore(l, n, st, oid, op);
    CallTop(l, n, st, oid, op);
    TargetOwned(l, oid, op);
    var st' := Apply(st, oid, op).1;
    if k == oid.stripe {
      StripeTopRaised(st, st', k, l[k].width, oid.index, op.pos);
    } else {
      StripeTopSame(st', st, k, l[k].width);
    }
  }

  lemma {:induction false} CallKeepsTops(l: seq<Stripe>, n: nat, a: Store, b: Store, oid: Oid, op: Op, k: nat)
    requires WellFormed(l) && Twins(l, n, a, b, k) && Guarded(op) && Targeted(l, oid, op) && !op.Read?
    requires Apply(a, oid, op).0.ret.Success? && Apply(b, oid, op).0.ret.Success?
    ensures SameTops(l, Apply(a, oid, op).1, Apply(b, oid, op).1, k)
  {
    hide StoreOk, Targeted, WellFormed, Apply, StripeTop, SameCells, SameEpochs;
    CallStripe(l, n, a, oid, op, k);
    forall j | k <= j < |l|
      ensures StripeTop(Apply(a, oid, op).1, j, l[j].width) == StripeTop(Apply(b, oid, op).1, j, l[j].width)
    {
      CallStripe(l, n, a, oid, op, j);
      CallStripe(l, n, b, oid, op, j);
    }
  }

  lemma {:induction false} CallKeepsCells(l: seq<Stripe>, n: nat, a: Store, b: Store, oid: Oid, op: Op)
    requires WellFormed(l) && StoreOk(l, n, a) && StoreOk(l, n, b) && SameCells(l, a, b) && SameEpochs(a, b)
    requires Guarded(op) && Targeted(l, oid, op)
    requires Apply(a, oid, op).0.ret.Success? && Apply(b, oid, op).0.ret.Success?
    ensures SameCells(l, Apply(a, oid, op).1, Apply(b, oid, op).1) && SameEpochs(Apply(a, oid, op).1, Apply(b, oid, op).1)
  {
    hide StoreOk, Targeted, WellFormed, Apply, CellAt, Holds, Cells.Next;
    CallOnStore(l, n, a, oid, op);
    CallOnStore(l, n, b, oid, op);
    forall o, p: nat | Holds(l, o, p) ensures CellAt(Apply(a, oid, op).1, o, p) == CellAt(Apply(b, oid, op).1, o, p) {
      CallOnCells(l, n, a, oid, op, o, p);
      CallOnCells(l, n, b, oid, op, o, p);
    }
  }

  lemma {:induction false} TwinsCall(l: seq<Stripe>, n: nat, a: Store, b: Store, oid: Oid, op: Op, k: nat)
    requires WellFormed(l) && Twins(l, n, a, b, k) && Guarded(op) && Targeted(l, oid, op)
    ensures Apply(a, oid, op).0 == Apply(b, oid, op).0
    ensures Twins(l, n, Apply(a, oid, op).1, Apply(b, oid, op).1, k)
  {
    hide StoreOk, Targeted, WellFormed, Apply, SameCells, SameEpochs, SameTops;
    SameReply(l, n, a, b, oid, op);
    CallOnStore(l, n, a, oid, op);
    CallOnStore(l, n, b, oid, op);
    if op.Read? || !Apply(a, oid, op).0.ret.Success? {
      CallChangesNothing(a, oid, op);
      CallChangesNothing(b, oid, op);
    } else {
      CallKeepsCells(l, n, a, b, oid, op);
      CallKeepsTops(l, n, a, b, oid, op, k);
    }
  }

  lemma {:induction false} SealReplies(a: Store, b: Store, oid: Oid, op: Op)
    requires op.Seal? && SameEpochs(a, b)
    ensures Apply(a, oid, op).0 == Apply(b, oid, op).0 && SameEpochs(Apply(a, oid, op).1, Apply(b, oid, op).1)
  {
  }

  /** Sealing changes no content. */
  lemma {:induction false} SealContents(st: Store, oid: Oid, op: Op)
    requires op.Seal?
    ensures SameContents(st, Apply(st, oid, op).1)
  {
  }

  lemma {:induction false} SealStoreOk(l: seq<Stripe>, n: nat, st: Store, oid: Oid, op: Op)
    requires WellFormed(l) && StoreOk(l, n, st) && op.Seal? && Owns(l, oid) && op.epoch <= n + 1
    ensures StoreOk(l, n, Apply(st, oid, op).1)
  {
    hide WellFormed, Holds;
  }

  lemma {:induction false} ContentsTops(l: seq<Stripe>, a: Store, b: Store, a': Store, b': Store, k: nat)
    requires SameTops(l, a, b, k) && SameContents(a, a') && SameContents(b, b')
    ensures SameTops(l, a', b', k)
  {
    hide StripeTop, LogObject.Top, CellAt;
    forall j | k <= j < |l| ensures StripeTop(a', j, l[j].width) == StripeTop(a, j, l[j].width)
                            ensures StripeTop(b', j, l[j].width) == StripeTop(b, j, l[j].width)
    {
      StripeTopSame(a', a, j, l[j].width);
      StripeTopSame(b', b, j, l[j].width);
    }
  }

  lemma {:induction false} ContentsCells(l: seq<Stripe>, a: Store, b: Store, a': Store, b': Store)
    requires WellFormed(l) && SameCells(l, a, b) && SameContents(a, a') && SameContents(b, b')
    ensures SameCells(l, a', b')
  {
    hide WellFormed, Holds, CellAt, LogObject.Top;
  }

  lemma {:induction false} TwinsSeal(l: seq<Stripe>, n: nat, a: Store, b: Store, oid: Oid, op: Op, k: nat)
    requires WellFormed(l) && Twins(l, n, a, b, k) && op.Seal? && Owns(l, oid) && op.epoch <= n + 1
    ensures Apply(a, oid, op).0 == Apply(b, oid, op).0
    ensures Twins(l, n, Apply(a, oid, op).1, Apply(b, oid, op).1, k)
  {
    hide StoreOk, WellFormed, Apply, SameEpochs, SameTops, SameCells, SameContents;
    SealReplies(a, b, oid, op);
    SealContents(a, oid, op);
    SealContents(b, oid, op);
    SealStoreOk(l, n, a, oid, op);
    SealStoreOk(l, n, b, oid, op);
    ContentsTops(l, a, b, Apply(a, oid, op).1, Apply(b, oid, op).1, k);
    ContentsCells(l, a, b, Apply(a, oid, op).1, Apply(b, oid, op).1);
  }

  /** The replies to a sequence of calls, and the store they lead to. */
  function Answers(st: Store, calls: seq<(Oid, Op)>): (seq<Reply>, Store)
    decreases |calls|
  {
    if calls == [] then ([], st)
    else
      var (reply, st1) := Apply(st, calls[0].0, calls[0].1);
      var (replies, st2) := Answers(st1, calls[1..]);
      ([reply] + replies, st2)
  }

  ghost predicate AllFair(l: seq<Stripe>, n: nat, calls: seq<(Oid, Op)>)
    requires WellFormed(l)
  {
    forall i :: 0 <= i < |calls| ==> Fair(l, n, calls[i].0, calls[i].1)
  }

  /** No sequence of calls tells twins apart. */
  lemma {:induction false} TwinsAnswer(l: seq<Stripe>, n: nat, a: Store, b: Store, calls: seq<(Oid, Op)>, k: nat)
    requires WellFormed(l) && Twins(l, n, a, b, k) && AllFair(l, n, calls)
    ensures Answers(a, calls).0 == Answers(b, calls).0
    ensures Twins(l, n, Answers(a, calls).1, Answers(b, calls).1, k)
    decreases |calls|
  {
    hide WellFormed, Twins, Apply, Targeted, Owns;
    if calls != [] {
      var oid, op := calls[0].0, calls[0].1;
      assert Fair(l, n, oid, op);
      if op.Seal? { TwinsSeal(l, n, a, b, oid, op, k); } else { TwinsCall(l, n, a, b, oid, op, k); }
      TwinsAnswer(l, n, Apply(a, oid, op).1, Apply(b, oid, op).1, calls[1..], k);
    }
  }

  // ----- the two ways of trimming ----------------------------------------------------------------

  /** Stripes above the limit are not touched. */
  lemma {:induction false} AboveUntouched(l: seq<Stripe>, k: nat, limit: nat, oid: Oid)
    requires WellFormed(l) && k < |l| && limit < l[k].min && oid.stripe == k
    ensures !Touches(l, oid, limit + 1)
  {
  }

  /** What either way does to an object. */
  lemma {:induction false} BothWays(l: seq<Stripe>, st: Store, a: Store, b: Store, e: nat, limit: nat, oid: Oid)
    requires WellFormed(l) && RangeTrimmed(l, st, a, e, limit) && PointTrimmed(l, st, b, e, limit + 1)
    ensures if Touches(l, oid, limit + 1)
            then && Ranged(Lookup(st, oid), Lookup(a, oid), e, limit)
                 && Pointed(l, oid, Lookup(st, oid), Lookup(b, oid), e, limit + 1)
            else Lookup(a, oid) == Lookup(st, oid) == Lookup(b, oid)
  {
    hide WellFormed, Touches, Ranged, Pointed;
  }

  lemma {:induction false} TrimmedSame(l: seq<Stripe>, st: Store, a: Store, b: Store, e: nat, limit: nat)
    requires WellFormed(l) && RangeTrimmed(l, st, a, e, limit) && PointTrimmed(l, st, b, e, limit + 1)
    ensures SameEpochs(a, b) && SameCells(l, a, b)
  {
    hide WellFormed, Touches, RangeTrimmed, PointTrimmed, LogObject.Cell, LogObject.Top, LogObject.Valid, PointedTop, Holds;
    forall oid ensures (oid in a <==> oid in b) && (oid in a ==> a[oid].epoch == b[oid].epoch)
               ensures forall p: nat :: Holds(l, oid, p) ==> CellAt(a, oid, p) == CellAt(b, oid, p)
    {
      BothWays(l, st, a, b, e, limit, oid);
    }
  }

  lemma {:induction false} TrimmedTops(l: seq<Stripe>, st: Store, a: Store, b: Store, e: nat, limit: nat, k: nat)
    requires WellFormed(l) && k < |l| && l[k].Has(limit)
    requires RangeTrimmed(l, st, a, e, limit) && PointTrimmed(l, st, b, e, limit + 1)
    ensures SameTops(l, a, b, k)
  {
    hide StripeTop, RangeTrimmed, PointTrimmed, WellFormed, Touches, Ranged, Pointed, LogObject.Top;
    RangedStripe(l, st, a, e, limit, k);
    PointedStripe(l, st, b, e, limit, k);
    forall j | k < j < |l| ensures StripeTop(a, j, l[j].width) == StripeTop(b, j, l[j].width) {
      Ordered(l, k, j);
      forall i: nat | i < l[j].width ensures TopOf(Lookup(a, Oid(j, i))) == TopOf(Lookup(b, Oid(j, i))) {
        AboveUntouched(l, j, limit, Oid(j, i));
        BothWays(l, st, a, b, e, limit, Oid(j, i));
      }
      StripeTopSame(a, b, j, l[j].width);
    }
  }

  /**
    The equivalence: a range trim and single trims of the same positions lead to stores that answer
    every further sequence of reads, writes, fills, trims, range trims and seals alike, and that give
    the next sequencer the same first position before and after any such sequence.
    */
  lemma {:induction false} RangeTrimIsSingleTrims(l: seq<Stripe>, n: nat, st: Store, a: Store, b: Store, e: nat, limit: nat)
    requires WellFormed(l) && limit < Top(l, |l|) && StoreOk(l, n, a) && StoreOk(l, n, b)
    requires RangeTrimmed(l, st, a, e, limit) && PointTrimmed(l, st, b, e, limit + 1)
    ensures forall calls :: AllFair(l, n, calls) ==>
              && Answers(a, calls).0 == Answers(b, calls).0
              && Seed(Answers(a, calls).1, l, |l|) == Seed(Answers(b, calls).1, l, |l|)
    ensures Seed(a, l, |l|) == Seed(b, l, |l|)
  {
    hide WellFormed, StoreOk, RangeTrimmed, PointTrimmed, Answers, Seed, SameTops, SameCells, SameEpochs, AllFair;
    var k := Covers(l, |l|, limit);
    TrimmedSame(l, st, a, b, e, limit);
    TrimmedTops(l, st, a, b, e, limit, k);
    assert Twins(l, n, a, b, k);
    SameSeed(l, a, b, k, |l|);
    forall calls | AllFair(l, n, calls)
      ensures && Answers(a, calls).0 == Answers(b, calls).0
              && Seed(Answers(a, calls).1, l, |l|) == Seed(Answers(b, calls).1, l, |l|)
    {
      TwinsAnswer(l, n, a, b, calls, k);
      SameSeed(l, Answers(a, calls).1, Answers(b, calls).1, k, |l|);
    }
  }
}
