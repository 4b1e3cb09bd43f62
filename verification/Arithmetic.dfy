/**
  Products, quotients and remainders by repeated addition and subtraction. They are the machine
  operations on unsigned integers (`MachineOperations`), in a form whose laws are all linear.
  */
module Arithmetic {

  /** `a` copies of `b`. */
  function Times(a: nat, b: nat): nat
    decreases a
  {
    if a == 0 then 0 else Times(a - 1, b) + b
  }

  function Quotient(n: nat, d: nat): nat
    requires d > 0
    decreases n
  {
    if n < d then 0 else Quotient(n - d, d) + 1
  }

  function Remainder(n: nat, d: nat): (r: nat)
    requires d > 0
    ensures r < d
    decreases n
  {
    if n < d then n else Remainder(n - d, d)
  }

  lemma {:induction false} TimesIsProduct(a: nat, b: nat)
    ensures Times(a, b) == a * b
    decreases a
  {
    if a > 0 {
      TimesIsProduct(a - 1, b);
      assert a * b == (a - 1) * b + b;
    }
  }

  lemma {:induction false} MachineOperations(a: nat, b: nat)
    ensures Times(a, b) == a * b
    ensures b > 0 ==> Quotient(a, b) == a / b && Remainder(a, b) == a % b
  {
    TimesIsProduct(a, b);
    if b > 0 {
      Split(a, b);
      TimesIsProduct(Quotient(a, b), b);
      EuclidUnique(a, b, Quotient(a, b), Remainder(a, b));
    }
  }

  lemma {:induction false} EuclidUnique(n: nat, d: nat, q: nat, r: nat)
    requires d > 0 && r < d && n == q * d + r
    ensures q == n / d && r == n % d
  {
    var k := n / d;
    assert n == k * d + n % d;
    TimesIsProduct(q, d);
    TimesIsProduct(k, d);
    if q < k { TimesMono(q, k, d); } else if k < q { TimesMono(k, q, d); }
  }

  lemma {:induction false} TimesMono(a: nat, b: nat, w: nat)
    requires a <= b
    ensures Times(a, w) <= Times(b, w)
    ensures a < b ==> Times(a, w) + w <= Times(b, w)
    decreases b
  {
    if a < b {
      TimesMono(a, b - 1, w);
    }
  }

  lemma {:induction false} TimesAdd(a: nat, b: nat, w: nat)
    ensures Times(a + b, w) == Times(a, w) + Times(b, w)
    decreases b
  {
    if b > 0 {
      TimesAdd(a, b - 1, w);
    }
  }

  lemma {:induction false} TimesAssoc(a: nat, b: nat, w: nat)
    ensures Times(a, Times(b, w)) == Times(Times(a, b), w)
    decreases a
  {
    if a > 0 {
      TimesAssoc(a - 1, b, w);
      TimesAdd(Times(a - 1, b), b, w);
    }
  }

  lemma {:induction false} Split(n: nat, w: nat)
    requires w > 0
    ensures n == Times(Quotient(n, w), w) + Remainder(n, w)
    decreases n
  {
    if n >= w {
      Split(n - w, w);
    }
  }

  /** Adding a multiple of the divisor does not change the remainder. */
  lemma {:induction false} Shift(n: nat, k: nat, w: nat)
    requires w > 0
    ensures Remainder(n + Times(k, w), w) == Remainder(n, w)
    ensures Quotient(n + Times(k, w), w) == Quotient(n, w) + k
    decreases k
  {
    if k > 0 {
      Shift(n, k - 1, w);
      assert n + Times(k, w) - w == n + Times(k - 1, w);
    }
  }
}
