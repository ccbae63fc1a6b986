/** Quotients and remainders of natural numbers. */
module Arithmetic {

  const WORD64 := 0x1_0000_0000_0000_0000

  function Power256(k: nat): (p: nat)
    ensures p > 0
  {
    if k == 0 then 1 else 256 * Power256(k - 1)
  }

  lemma DivisionBounds(a: nat, d: nat)
    requires d > 0
    ensures a / d * d <= a < (a / d + 1) * d
    ensures a == a / d * d + a % d
  {
  }

  lemma MulStep(a: nat, b: nat, d: nat)
    requires a < b
    ensures a * d + d <= b * d
  {
    assert (a + 1) * d <= b * d;
  }

  // Products, quotients and remainders as terms that can be hidden: the
  // solver then meets one product at a time.

  function Times(a: nat, b: nat): nat { a * b }

  function Quotient(a: nat, d: nat): nat
    requires d > 0
  {
    a / d
  }

  function Remainder(a: nat, d: nat): nat
    requires d > 0
  {
    a % d
  }

  lemma Division(a: nat, d: nat)
    requires d > 0
    ensures a == Times(Quotient(a, d), d) + Remainder(a, d) && Remainder(a, d) < d
  {
  }

  lemma TimesStep(a: nat, b: nat, d: nat)
    requires a < b
    ensures Times(a, d) + d <= Times(b, d)
  {
    MulStep(a, b, d);
  }

  lemma TimesUnique(q: nat, r: nat, d: nat, q': nat, r': nat)
    requires r < d && r' < d && Times(q, d) + r == Times(q', d) + r'
    ensures q == q' && r == r'
  {
    hide Times;
    if q < q' {
      TimesStep(q, q', d);
    } else if q' < q {
      TimesStep(q', q, d);
    }
  }

  lemma QuotientUnique(q: nat, r: nat, d: nat, q': nat, r': nat)
    requires r < d && r' < d && q * d + r == q' * d + r'
    ensures q == q' && r == r'
  {
    TimesUnique(q, r, d, q', r');
  }

  lemma DivModTimes(a: nat, d: nat, q: nat, r: nat)
    requires r < d && a == Times(q, d) + r
    ensures Quotient(a, d) == q && Remainder(a, d) == r
  {
    hide Times, Quotient, Remainder;
    Division(a, d);
    TimesUnique(Quotient(a, d), Remainder(a, d), d, q, r);
  }

  /** Quotient and remainder are the only ones that fit. */
  lemma DivModUnique(a: nat, d: nat, q: nat, r: nat)
    requires r < d && a == q * d + r
    ensures a / d == q && a % d == r
  {
    DivModTimes(a, d, q, r);
  }

  lemma RemainderOf(q: nat, m: nat, c: nat)
    requires c < m
    ensures (q * m + c) % m == c && (q * m + c) / m == q
  {
    DivModUnique(q * m + c, m, q, c);
  }

  /** A number written in two steps, by `a` and then by `b`. */
  lemma TwoLevels(v: nat, a: nat, b: nat, q: nat, r: nat, x: nat, y: nat)
    requires v == Times(q, a) + r && q == Times(x, b) + y && r < a && y < b
    ensures a * b > 0 && y * a + r < a * b && v == x * (a * b) + (y * a + r)
  {
    MulStep(y, b, a);
    Regroup(x, b, y, a);
  }

  lemma DivideTwice(v: nat, a: nat, b: nat)
    requires a > 0 && b > 0
    ensures a * b > 0 && v / a / b == v / (a * b)
    ensures v % (a * b) == v / a % b * a + v % a
  {
    DivideTwiceHidden(v, a, b);
  }

  lemma DivideTwiceHidden(v: nat, a: nat, b: nat)
    requires a > 0 && b > 0
    ensures a * b > 0 && Quotient(Quotient(v, a), b) == Quotient(v, a * b)
    ensures Remainder(v, a * b) == Times(Remainder(Quotient(v, a), b), a) + Remainder(v, a)
  {
    hide Times, Quotient, Remainder;
    Division(v, a);
    Division(Quotient(v, a), b);
    var q, r := Quotient(v, a), Remainder(v, a);
    var x, y := Quotient(q, b), Remainder(q, b);
    TwoLevels(v, a, b, q, r, x, y);
    FromTimes(v, a * b, x, y * a + r);
    TimesIs(y, a);
  }

  lemma TimesIs(a: nat, b: nat)
    ensures Times(a, b) == a * b
  {
  }

  lemma FromTimes(a: nat, d: nat, q: nat, r: nat)
    requires r < d && a == q * d + r
    ensures Quotient(a, d) == q && Remainder(a, d) == r
  {
    DivModTimes(a, d, q, r);
  }

  lemma Regroup(x: nat, b: nat, y: nat, a: nat)
    ensures (x * b + y) * a == x * (a * b) + y * a
  {
    assert (x * b + y) * a == x * b * a + y * a;
    assert x * b * a == x * (a * b);
  }
}
