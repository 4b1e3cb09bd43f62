/**
  The plain list of stripes: what an object map means. Stripe `k` of the list has id `k`, the ranges
  are adjacent and start at 0, so the list partitions a prefix of the log's positions.
  */
module PlainLists {
  import opened Common
  import opened Arithmetic
  import opened Stripes

  predicate WellFormed(l: seq<Stripe>) {
    && (forall k :: 0 <= k < |l| ==> l[k].Valid() && l[k].id == k)
    && (|l| > 0 ==> l[0].min == 0)
    && (forall j, k :: 0 <= j && k == j + 1 < |l| ==> l[k].min == l[j].max + 1)
  }

  predicate AllAligned(l: seq<Stripe>)
    requires WellFormed(l)
  {
    forall k :: 0 <= k < |l| ==> l[k].Aligned()
  }

  /** The number of positions in the first `k` stripes. */
  function Top(l: seq<Stripe>, k: nat): nat
    requires k <= |l|
  {
    if k == 0 then 0 else l[k - 1].max + 1
  }

  /** The reference meaning of a map: scan the list for the stripe that has the position. */
  function Locate(l: seq<Stripe>, p: nat): Option<Oid>
    requires forall k :: 0 <= k < |l| ==> l[k].width > 0
  {
    if l == [] then None
    else if l[0].Has(p) then Some(l[0].Home(p))
    else Locate(l[1..], p)
  }

  /** The object `oid` is where position `p` lives. */
  predicate Holds(l: seq<Stripe>, oid: Oid, p: nat)
    requires WellFormed(l)
  {
    && oid.stripe < |l|
    && l[oid.stripe].Has(p)
    && Remainder(p, l[oid.stripe].width) == oid.index
  }

  /** The objects of a list. */
  predicate Owns(l: seq<Stripe>, oid: Oid) {
    oid.stripe < |l| && oid.index < l[oid.stripe].width
  }

  lemma {:induction false} Ordered(l: seq<Stripe>, j: nat, k: nat)
    requires WellFormed(l) && j < k < |l|
    ensures l[j].max < l[k].min
    decreases k - j
  {
    assert l[k].min == l[k - 1].max + 1;
    if j < k - 1 {
      Ordered(l, j, k - 1);
      assert l[k - 1].Valid();
    }
  }

  lemma {:induction false} TopMono(l: seq<Stripe>, j: nat, k: nat)
    requires WellFormed(l) && j <= k <= |l|
    ensures Top(l, j) <= Top(l, k)
    ensures j < k ==> Top(l, j) == l[j].min && Top(l, j) < Top(l, k)
  {
    if j < k {
      if j < k - 1 { Ordered(l, j, k - 1); }
      assert l[j].Valid() && l[k - 1].Valid();
    }
  }

  /** The stripes cover every position below the top... */
  lemma {:induction false} Covers(l: seq<Stripe>, n: nat, p: nat) returns (k: nat)
    requires WellFormed(l) && n <= |l| && p < Top(l, n)
    ensures k < n && l[k].Has(p)
    decreases n
  {
    if l[n - 1].Has(p) {
      k := n - 1;
    } else {
      assert n - 1 > 0 ==> l[n - 1].min == l[n - 2].max + 1;
      k := Covers(l, n - 1, p);
    }
  }

  /** ... and no position is in two of them. */
  lemma {:induction false} Disjoint(l: seq<Stripe>, j: nat, k: nat, p: nat)
    requires WellFormed(l) && j < |l| && k < |l| && l[j].Has(p) && l[k].Has(p)
    ensures j == k
  {
    if j < k { Ordered(l, j, k); } else if k < j { Ordered(l, k, j); }
  }

  lemma {:induction false} InStripe(l: seq<Stripe>, k: nat, p: nat)
    requires WellFormed(l) && k < |l|
    ensures l[k].Has(p) <==> Top(l, k) <= p < Top(l, k + 1)
  {
    TopMono(l, k, k + 1);
  }

  lemma {:induction false} LocateFirst(l: seq<Stripe>, k: nat, p: nat)
    requires forall i :: 0 <= i < |l| ==> l[i].width > 0
    requires k <= |l| && forall i :: 0 <= i < k ==> !l[i].Has(p)
    ensures k < |l| && l[k].Has(p) ==> Locate(l, p) == Some(l[k].Home(p))
    ensures k == |l| ==> Locate(l, p) == None
    decreases |l|
  {
    if l == [] {
    } else if k > 0 {
      assert forall i :: 0 <= i < k - 1 ==> l[1..][i] == l[i + 1];
      LocateFirst(l[1..], k - 1, p);
    }
  }

  /** A position is located exactly when it is below the top, at the one object that holds it. */
  lemma {:induction false} LocateIsHolds(l: seq<Stripe>, p: nat)
    requires WellFormed(l)
    ensures Locate(l, p).Some? <==> p < Top(l, |l|)
    ensures forall oid :: Holds(l, oid, p) <==> Locate(l, p) == Some(oid)
  {
    if p < Top(l, |l|) {
      var k := Covers(l, |l|, p);
      forall i | 0 <= i < k ensures !l[i].Has(p) { Ordered(l, i, k); }
      LocateFirst(l, k, p);
      forall oid | Holds(l, oid, p) ensures oid.stripe == k { Disjoint(l, oid.stripe, k, p); }
    } else {
      forall i | 0 <= i < |l| ensures !l[i].Has(p) {
        TopMono(l, i + 1, |l|);
      }
      LocateFirst(l, |l|, p);
    }
  }

  /** Appending stripes moves no position that was already mapped and gives no old object a new one. */
  lemma {:induction false} PrefixKeeps(l: seq<Stripe>, m: seq<Stripe>, oid: Oid, p: nat)
    requires WellFormed(l) && WellFormed(m) && l <= m
    ensures Holds(l, oid, p) ==> Holds(m, oid, p)
    ensures Holds(m, oid, p) && (oid.stripe < |l| || p < Top(l, |l|)) ==> Holds(l, oid, p)
    ensures Top(l, |l|) <= Top(m, |m|)
  {
    TopMono(m, |l|, |m|);
    if Holds(m, oid, p) && p < Top(l, |l|) && oid.stripe >= |l| {
      TopMono(m, |l|, oid.stripe);
      InStripe(m, oid.stripe, p);
      assert false;
    }
  }

  /** Row `j` of object `i`, counting from the stripe's first position. */
  function Row(s: Stripe, i: nat, j: nat): nat {
    s.min + i + Times(j, s.width)
  }

  lemma {:induction false} OffsetIsIndex(s: Stripe, i: nat)
    requires s.Valid() && s.Aligned() && i < s.width
    ensures Remainder(s.min + i, s.width) == i
  {
    Split(s.min, s.width);
    Shift(i, Quotient(s.min, s.width), s.width);
  }

  lemma {:induction false} RowIsHeld(s: Stripe, slots: nat, i: nat, j: nat)
    requires s.Valid() && s.Aligned() && s.max + 1 == s.min + Times(slots, s.width)
    requires i < s.width && j < slots
    ensures s.Has(Row(s, i, j)) && s.Home(Row(s, i, j)) == Oid(s.id, i)
  {
    TimesMono(j, slots, s.width);
    Shift(s.min + i, j, s.width);
    OffsetIsIndex(s, i);
  }

  lemma {:induction false} HeldIsRow(s: Stripe, slots: nat, p: nat) returns (j: nat)
    requires s.Valid() && s.Aligned() && s.max + 1 == s.min + Times(slots, s.width)
    requires s.Has(p)
    ensures j < slots && p == Row(s, Remainder(p, s.width), j)
  {
    var w := s.width;
    var d := p - s.min;
    j := Quotient(d, w);
    Split(d, w);
    if j >= slots { TimesMono(slots, j, w); assert false; }
    Split(s.min, w);
    Shift(d, Quotient(s.min, w), w);
  }

  /** A valid stripe is a whole number of rows. */
  lemma {:induction false} Rows(s: Stripe) returns (slots: nat)
    requires s.Valid()
    ensures slots > 0 && s.max + 1 == s.min + Times(slots, s.width)
  {
    slots := Quotient(s.max - s.min + 1, s.width);
    Split(s.max - s.min + 1, s.width);
  }

  /** In an aligned stripe of `slots` rows object `i` holds exactly its `slots` rows. */
  lemma {:induction false} ObjectPositions(s: Stripe, slots: nat, i: nat)
    requires s.Valid() && s.Aligned() && s.max + 1 == s.min + Times(slots, s.width) && i < s.width
    ensures forall p :: s.Has(p) && s.Home(p) == Oid(s.id, i)
                        <==> exists j: nat :: j < slots && p == Row(s, i, j)
    ensures forall j: nat, k: nat :: j < k < slots ==> Row(s, i, j) < Row(s, i, k)
  {
    forall p | s.Has(p) && s.Home(p) == Oid(s.id, i)
      ensures exists j: nat :: j < slots && p == Row(s, i, j)
    {
      var j := HeldIsRow(s, slots, p);
    }
    forall j: nat | j < slots ensures s.Has(Row(s, i, j)) && s.Home(Row(s, i, j)) == Oid(s.id, i) {
      RowIsHeld(s, slots, i, j);
    }
    forall j: nat, k: nat | j < k < slots ensures Row(s, i, j) < Row(s, i, k) {
      TimesMono(j, k, s.width);
    }
  }
}
