// Remainders and powers of two.

module Modular {

  function Pow2(p: nat): (r: nat)
    ensures r > 0
  {
    if p == 0 then 1 else 2 * Pow2(p - 1)
  }

  lemma {:induction false} Pow2Add(p: nat, q: nat)
    ensures Pow2(p + q) == Pow2(p) * Pow2(q)
    decreases p
  {
    if p > 0 {
      Pow2Add(p - 1, q);
      TimesTwo(Pow2(p - 1), Pow2(q));
    }
  }

  lemma TimesTwo(a: nat, b: nat)
    ensures 2 * a * b == 2 * (a * b)
  {
  }

  lemma {:induction false} Pow2Mono(p: nat, q: nat)
    requires p <= q
    ensures Pow2(p) <= Pow2(q)
    decreases q
  {
    if p < q { Pow2Mono(p, q - 1); }
  }

  lemma {:induction false} AtLeastOnce(m: nat, c: nat)
    requires c >= 1
    ensures m * c >= m
    decreases c
  {
    if c > 1 {
      AtLeastOnce(m, c - 1);
      Distribute(m, c - 1, 1);
    }
  }

  lemma MulLess(m: nat, a: int, b: int)
    requires a < b
    ensures m * a + m <= m * b
  {
    Distribute(m, a, b - a);
    AtLeastOnce(m, b - a);
  }

  // Quotient and remainder are unique.
  lemma DivModUnique(x: nat, m: nat, q: nat, r: nat)
    requires m > 0 && x == m * q + r && r < m
    ensures x / m == q && x % m == r
  {
    var q', r' := x / m, x % m;
    assert x == m * q' + r';
    if q < q' { MulLess(m, q, q'); }
    if q' < q { MulLess(m, q', q); }
  }

  lemma DivMod(x: nat, m: nat)
    requires m > 0
    ensures x == m * (x / m) + x % m && x % m < m && x / m >= 0
  {
  }

  lemma Distribute(m: nat, a: int, b: int)
    ensures m * (a + b) == m * a + m * b
  {
  }

  lemma ModMultiple(r: nat, q: nat, m: nat)
    requires m > 0
    ensures m * q >= 0 && (m * q + r) % m == r % m
  {
    DivMod(r, m);
    Distribute(m, q, r / m);
    DivModUnique(m * q + r, m, q + r / m, r % m);
  }

  lemma SmallMod(a: nat, m: nat)
    requires a < m
    ensures a % m == a
  {
    DivModUnique(a, m, 0, a);
  }

  lemma ModAdd(x: nat, q: nat, m: nat)
    requires m > 0
    ensures (x % m + q) % m == (x + q) % m
  {
    DivMod(x, m);
    ModMultiple(x % m + q, x / m, m);
  }

  lemma MulPositive(a: nat, b: nat)
    requires a > 0 && b > 0
    ensures a * b > 0
  {
  }

  lemma Associate(a: nat, b: nat, c: nat)
    ensures a * b * c == a * (b * c)
  {
  }

  // A remainder modulo a multiple of m has the same remainder modulo m.
  lemma ModMod(a: nat, m: nat, c: nat)
    requires m > 0 && c > 0
    ensures m * c > 0 && a % (m * c) % m == a % m
  {
    MulPositive(m, c);
    DivMod(a, m * c);
    Associate(m, c, a / (m * c));
    ModMultiple(a % (m * c), c * (a / (m * c)), m);
  }

  function Quotient(a: nat, b: nat): nat
    requires b > 0
  {
    a / b
  }

  lemma DivLess(a: nat, b: nat, c: nat)
    requires b > 0 && a < b * c
    ensures Quotient(a, b) < c
  {
    DivMod(a, b);
    if a / b >= c {
      if a / b > c { MulLess(b, c, a / b); }
    }
  }

  // Congruent numbers differ by a multiple.
  lemma SameMod(a: nat, b: nat, m: nat)
    requires m > 0 && a % m == (a + b) % m
    ensures b % m == 0
  {
    DivMod(a, m);
    DivMod(a + b, m);
    var x, y := a / m, (a + b) / m;
    if y < x { MulLess(m, y, x); }
    Distribute(m, x, y - x);
    ModMultiple(0, y - x, m);
  }

  predicate Odd(x: nat) { x % 2 == 1 }

  lemma OddTimes(d: nat, q: nat)
    requires Odd(d) && Odd(q)
    ensures Odd(d * q)
  {
    var a, b := d / 2, q / 2;
    assert d == 2 * a + 1 && q == 2 * b + 1;
    assert d * q == 2 * (a * q + b) + 1 by {
      assert d * q == (2 * a) * q + q;
      TimesTwo(a, q);
    }
  }

  lemma EvenPart(d: nat, q: nat, m: nat)
    requires m > 0 && Odd(q) && d * q % (2 * m) == 0
    ensures d % 2 == 0 && (d / 2) * q % m == 0
  {
    var c := d * q / (2 * m);
    DivMod(d * q, 2 * m);
    TimesTwo(m, c);
    if Odd(d) { OddTimes(d, q); }
    TimesTwo(d / 2, q);
    assert (d / 2) * q == m * c;
    ModMultiple(0, c, m);
  }

  // An odd number times d is a multiple of a power of two only if d is.
  lemma {:induction false} OddFactor(d: nat, q: nat, p: nat)
    requires Odd(q) && d * q % Pow2(p) == 0
    ensures d % Pow2(p) == 0
    decreases p
  {
    hide Odd;
    if p > 0 {
      var m := Pow2(p - 1);
      EvenPart(d, q, m);
      OddFactor(d / 2, q, p - 1);
      DivMod(d / 2, m);
      TimesTwo(m, d / 2 / m);
      ModMultiple(0, d / 2 / m, 2 * m);
    }
  }
}
