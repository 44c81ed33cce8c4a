/** Multiplication and floor division written as recursive functions, with the
    facts the other modules need about them. Being recursive, they keep the
    solver's arithmetic linear; TimesIsProduct and QuotIsDiv tie them to `*`
    and `/`. */
module Arith {

  /** a * b, by repeated addition. */
  function Times(a: nat, b: nat): nat {
    if a == 0 then 0 else Times(a - 1, b) + b
  }

  lemma {:induction false} TimesIsProduct(a: nat, b: nat)
    ensures Times(a, b) == a * b
  {
    if a > 0 {
      TimesIsProduct(a - 1, b);
    }
  }

  lemma TimesCommutes(a: nat, b: nat)
    ensures Times(a, b) == Times(b, a)
  {
    TimesIsProduct(a, b);
    TimesIsProduct(b, a);
  }

  lemma {:induction false} TimesMonotone(a1: nat, a2: nat, b: nat)
    requires a1 <= a2
    ensures Times(a1, b) <= Times(a2, b)
    ensures a1 < a2 ==> Times(a1, b) + b <= Times(a2, b)
  {
    if a1 < a2 {
      TimesMonotone(a1, a2 - 1, b);
    }
  }

  /** Times is strictly increasing in its first argument, read backwards. */
  lemma {:induction false} TimesMonotoneInverse(a1: nat, a2: nat, b: nat)
    requires Times(a1, b) < Times(a2, b)
    ensures a1 < a2
  {
    if a1 > 0 && a2 > 0 {
      TimesMonotoneInverse(a1 - 1, a2 - 1, b);
    }
  }

  /** Every position below Times(h, w) lies in exactly one block i < h of w, at
      offset j < w. */
  lemma {:induction false} TimesSplit(k: nat, h: nat, w: nat) returns (i: nat, j: nat)
    requires k < Times(h, w)
    ensures i < h && j < w && k == Times(i, w) + j
  {
    if k < Times(h - 1, w) {
      i, j := TimesSplit(k, h - 1, w);
    } else {
      i, j := h - 1, k - Times(h - 1, w);
    }
  }

  lemma TimesRows(h: nat, w: nat)
    ensures forall i :: 0 <= i < h ==> Times(i, w) + w <= Times(h, w)
  {
    forall i | 0 <= i < h ensures Times(i, w) + w <= Times(h, w) {
      TimesMonotone(i, h, w);
    }
  }

  /** p / g, by repeated subtraction. */
  function Quot(p: nat, g: nat): nat
    requires g > 0
  {
    if p < g then 0 else Quot(p - g, g) + 1
  }

  /** The quotient q is the largest with Times(q, g) <= p. Kept out of Quot's
      own contract so that every quotient in a proof does not drag in a
      product. */
  lemma {:induction false} QuotBounds(p: nat, g: nat)
    requires g > 0
    ensures Times(Quot(p, g), g) <= p < Times(Quot(p, g), g) + g
  {
    if p >= g {
      QuotBounds(p - g, g);
    }
  }

  /** p % g. */
  function Rem(p: nat, g: nat): (r: nat)
    requires g > 0
    ensures r < g && p == Times(Quot(p, g), g) + r
  {
    QuotBounds(p, g);
    p - Times(Quot(p, g), g)
  }

  /** The quotient is the only q with Times(q, g) <= p < Times(q, g) + g. */
  lemma QuotUnique(p: nat, g: nat, q: nat)
    requires g > 0 && Times(q, g) <= p < Times(q, g) + g
    ensures Quot(p, g) == q
  {
    var d := Quot(p, g);
    QuotBounds(p, g);
    TimesMonotoneInverse(d, q + 1, g);
    TimesMonotoneInverse(q, d + 1, g);
  }

  lemma QuotIsDiv(p: nat, g: nat)
    requires g > 0
    ensures Quot(p, g) == p / g && Rem(p, g) == p % g
  {
    var q := p / g;
    DivMod(p, g);
    TimesIsProduct(q, g);
    QuotUnique(p, g, q);
  }

  lemma QuotMonotone(p1: nat, p2: nat, g: nat)
    requires g > 0 && p1 <= p2
    ensures Quot(p1, g) <= Quot(p2, g)
  {
    QuotBounds(p1, g);
    QuotBounds(p2, g);
    TimesMonotoneInverse(Quot(p1, g), Quot(p2, g) + 1, g);
  }

  /** Adding at least g to the dividend raises the quotient. */
  lemma QuotStep(p1: nat, p2: nat, g: nat)
    requires g > 0 && p1 + g <= p2
    ensures Quot(p1, g) < Quot(p2, g)
  {
    var q1, q2 := Quot(p1, g), Quot(p2, g);
    QuotBounds(p1, g);
    QuotBounds(p2, g);
    TimesMonotoneInverse(q1, q2, g);
  }

  lemma QuotOfTimes(q: nat, g: nat)
    requires g > 0
    ensures Quot(Times(q, g), g) == q && Rem(Times(q, g), g) == 0
  {
    QuotUnique(Times(q, g), g, q);
  }

  lemma MulMonotone(x: int, y: int, d: nat)
    requires x <= y
    ensures d * x <= d * y
  {
    assert d * y - d * x == d * (y - x);
  }

  lemma DivMod(a: nat, d: nat)
    requires d > 0
    ensures a == d * (a / d) + a % d && 0 <= a % d < d
  {}

  lemma DivMonotone(a: nat, b: nat, d: nat)
    requires a <= b && d > 0
    ensures a / d <= b / d
  {
    DivMod(a, d);
    DivMod(b, d);
    if a / d > b / d {
      MulMonotone(b / d + 1, a / d, d);
    }
  }

  lemma DivExact(c: nat, d: nat)
    requires d > 0
    ensures (d * c) / d == c
  {
    var q := (d * c) / d;
    DivMod(d * c, d);
    if q < c {
      MulMonotone(q + 1, c, d);
    } else if q > c {
      MulMonotone(c + 1, q, d);
    }
  }

  lemma DivBelow(a: nat, c: nat, d: nat)
    requires d > 0 && a < d * c
    ensures a / d < c
  {
    DivMod(a, d);
    if a / d >= c {
      MulMonotone(c, a / d, d);
    }
  }
}
