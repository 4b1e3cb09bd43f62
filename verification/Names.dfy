/**
  Printed names. Objects are called "<stripe>.<index>" (src/libzlog/stripe.cc) and log entries are
  kept under keys with twenty digits (`u64tostr`, src/storage/ceph/cls_zlog.h). The rest of the model
  speaks of `Oid`s and of positions; the lemmas here say that nothing is lost by that.
  */
module Names {
  import opened Stripes

  function Digit(d: nat): char
    requires d < 10
  {
    "0123456789"[d]
  }

  /** Decimal printing of an unsigned integer. */
  function Decimal(n: nat): (s: string)
    ensures |s| > 0
    ensures forall i :: 0 <= i < |s| ==> s[i] in "0123456789"
  {
    if n < 10 then [Digit(n)] else Decimal(n / 10) + [Digit(n % 10)]
  }

  function ObjectName(oid: Oid): string {
    Decimal(oid.stripe) + "." + Decimal(oid.index)
  }

  lemma {:induction false} DigitInjective(a: nat, b: nat)
    requires a < 10 && b < 10 && Digit(a) == Digit(b)
    ensures a == b
  {
    assert forall i, j :: 0 <= i < j < 10 ==> "0123456789"[i] != "0123456789"[j];
  }

  lemma {:induction false} DecimalInjective(a: nat, b: nat)
    requires Decimal(a) == Decimal(b)
    ensures a == b
    decreases a
  {
    var s, t := Decimal(a), Decimal(b);
    assert s[|s| - 1] == Digit(a % 10) && t[|t| - 1] == Digit(b % 10);
    DigitInjective(a % 10, b % 10);
    if a >= 10 && b >= 10 {
      assert s[..|s| - 1] == Decimal(a / 10) && t[..|t| - 1] == Decimal(b / 10);
      DecimalInjective(a / 10, b / 10);
    } else if a >= 10 {
      assert |s| > 1;
    } else if b >= 10 {
      assert |t| > 1;
    }
  }

  /** Two objects have the same printed name only if they are the same object. */
  lemma {:induction false} ObjectNameInjective(a: Oid, b: Oid)
    requires ObjectName(a) == ObjectName(b)
    ensures a == b
  {
    var s, t := Decimal(a.stripe), Decimal(b.stripe);
    var n := ObjectName(a);
    assert n[|s|] == '.' && n[|t|] == '.';
    assert |s| == |t|;
    assert n[..|s|] == s && n[..|t|] == t;
    assert n[|s| + 1..] == Decimal(a.index) && n[|t| + 1..] == Decimal(b.index);
    DecimalInjective(a.stripe, b.stripe);
    DecimalInjective(a.index, b.index);
  }

  /** The last `k` decimal digits, with leading zeros: `setw(k)` with `setfill('0')`. */
  function Padded(n: nat, k: nat): (s: string)
    ensures |s| == k
  {
    if k == 0 then "" else Padded(n / 10, k - 1) + [Digit(n % 10)]
  }

  function Power10(k: nat): nat {
    if k == 0 then 1 else 10 * Power10(k - 1)
  }

  /** The order in which the storage system lists keys of one length. */
  predicate Before(s: string, t: string)
    requires |s| == |t|
  {
    s != [] && (s[0] < t[0] || (s[0] == t[0] && Before(s[1..], t[1..])))
  }

  lemma {:induction false} BeforeSnoc(s: string, t: string, c: char, d: char)
    requires |s| == |t|
    ensures Before(s + [c], t + [d]) <==> Before(s, t) || (s == t && c < d)
    decreases |s|
  {
    if s != [] {
      assert (s + [c])[1..] == s[1..] + [c] && (t + [d])[1..] == t[1..] + [d];
      BeforeSnoc(s[1..], t[1..], c, d);
      assert s == t <==> s[0] == t[0] && s[1..] == t[1..];
    }
  }

  lemma {:induction false} DigitOrder(a: nat, b: nat)
    requires a < 10 && b < 10
    ensures Digit(a) < Digit(b) <==> a < b
  {
    assert forall i, j :: 0 <= i < j < 10 ==> "0123456789"[i] < "0123456789"[j];
  }

  /** Keys of positions that fit the width are listed in the order of the positions, and are distinct. */
  lemma {:induction false} KeysOrdered(a: nat, b: nat, k: nat)
    requires a < Power10(k) && b < Power10(k)
    ensures Before(Padded(a, k), Padded(b, k)) <==> a < b
    ensures Padded(a, k) == Padded(b, k) ==> a == b
    decreases k
  {
    if k > 0 {
      KeysOrdered(a / 10, b / 10, k - 1);
      BeforeSnoc(Padded(a / 10, k - 1), Padded(b / 10, k - 1), Digit(a % 10), Digit(b % 10));
      DigitOrder(a % 10, b % 10);
      DigitOrder(b % 10, a % 10);
      if Padded(a, k) == Padded(b, k) {
        assert Padded(a, k)[..k - 1] == Padded(a / 10, k - 1) && Padded(b, k)[..k - 1] == Padded(b / 10, k - 1);
        DigitInjective(a % 10, b % 10);
      }
    }
  }
}
