/** The few facts about products and quotients that the other modules need. */
module Arithmetic {
  import opened Common

  lemma {:induction false} MultipleAtLeast(d: nat, w: nat)
    requires d > 0
    ensures d * w >= w
  {
    if d > 1 {
      MultipleAtLeast(d - 1, w);
      assert d * w == (d - 1) * w + w;
    }
  }

  lemma MultipleWithin(d: int, w: nat)
    requires w > 0
    ensures w > d * w > -(w as int) <==> d == 0
  {
    if d > 0 {
      MultipleAtLeast(d, w);
    } else if d < 0 {
      MultipleAtLeast(-d, w);
      assert d * w == -((-d) * w);
    }
  }

  lemma CeilingDivision(x: nat, w: nat, p: nat)
    requires w > 0 && p * w - w < x <= p * w
    ensures p == (x + w - 1) / w
  {
    var q := (x + w - 1) / w;
    assert (q - p) * w == q * w - p * w;
    MultipleWithin(q - p, w);
  }

  predicate IsMultiple(t: nat, w: NonZeroU32) {
    t % w == 0
  }

  /** Around `p * w` only `p * w` itself is a multiple of `w`. */
  lemma MultiplesNear(t: nat, w: NonZeroU32, p: nat)
    ensures p * w - w < t <= p * w ==> (IsMultiple(t, w) <==> t == p * w)
  {
    var q, r := t / w, t % w;
    assert t == q * w + r;
    assert (p - q) * w == p * w - q * w;
    MultipleWithin(p - q, w);
    MultipleWithin(p - q - 1, w);
    assert (p - q - 1) * w == (p - q) * w - w;
  }

  lemma SmallMultiple(e: int, d: nat)
    requires d > 0
    ensures 2 * d > e * d > -(d as int) ==> e == 0 || e == 1
  {
    if e < 0 {
      MultipleAtLeast(-e, d);
      assert e * d == -((-e) * d);
    } else if e > 1 {
      MultipleAtLeast(e - 1, d);
      assert e * d == (e - 1) * d + d;
    }
  }

  lemma FloorParts(a: nat, b: nat, c: nat, x: nat, y: nat, z: nat, d: nat)
    requires x < d && y < d && z < d && a * d + x + b * d + y == c * d + z
    ensures a + b <= c <= a + b + 1
  {
    var e := c - a - b;
    assert e * d == c * d - a * d - b * d;
    SmallMultiple(e, d);
  }

  /** Rounding down twice loses at most one more than rounding down once. */
  lemma FloorAdd(x: nat, y: nat, d: nat)
    requires d > 0
    ensures x / d + y / d <= (x + y) / d <= x / d + y / d + 1
  {
    FloorParts(x / d, y / d, (x + y) / d, x % d, y % d, (x + y) % d, d);
  }

  /** Product and quotient by recursion, so that proofs that only pass them along stay linear. */
  function Times(a: nat, b: nat): nat {
    if b == 0 then 0 else Times(a, b - 1) + a
  }

  function Quotient(x: nat, d: nat): nat
    requires d > 0
    decreases x
  {
    if x < d then 0 else Quotient(x - d, d) + 1
  }

  lemma {:induction false} TimesIsProduct(a: nat, b: nat)
    ensures Times(a, b) == a * b
  {
    if b > 0 {
      TimesIsProduct(a, b - 1);
      assert a * b == a * (b - 1) + a;
    }
  }

  lemma {:induction false} QuotientIsDivision(x: nat, d: nat)
    requires d > 0
    ensures Quotient(x, d) == x / d
    decreases x
  {
    if x >= d {
      QuotientIsDivision(x - d, d);
      FloorAddWhole(x - d, d);
    }
  }

  lemma FloorAddWhole(x: nat, d: nat)
    requires d > 0
    ensures (x + d) / d == x / d + 1
  {
    var e := (x + d) / d - x / d - 1;
    assert e * d == (x + d) / d * d - x / d * d - d;
    MultipleWithin(e, d);
  }

  /** `part` of `whole`, in proportion, of `size`, rounded down. */
  function Scale(size: nat, part: nat, whole: nat): nat
    requires whole > 0
  {
    Quotient(Times(size, part), whole)
  }

  lemma ScaleIsRoundedProportion(size: nat, part: nat, whole: nat)
    requires whole > 0
    ensures Scale(size, part, whole) == size * part / whole
  {
    TimesIsProduct(size, part);
    QuotientIsDivision(Times(size, part), whole);
  }

  lemma {:induction false} TimesAdd(a: nat, b: nat, c: nat)
    ensures Times(a, b + c) == Times(a, b) + Times(a, c)
  {
    if c > 0 {
      TimesAdd(a, b, c - 1);
    }
  }

  /** Bounds within `m` multiples and within one multiple add up. */
  lemma AddBounds(w: nat, p: nat, q: nat, m: nat, x: nat, y: nat)
    requires p * w - w <= x <= p * w && Times(w, q) - Times(w, m) <= y <= Times(w, q)
    ensures Times(w, p + q) - Times(w, m + 1) <= x + y <= Times(w, p + q)
  {
    TimesIsProduct(w, p);
    TimesAdd(w, p, q);
  }

  lemma ScaleAdd(size: nat, a: nat, b: nat, whole: nat)
    requires whole > 0
    ensures Scale(size, a, whole) + Scale(size, b, whole) <= Scale(size, a + b, whole)
         <= Scale(size, a, whole) + Scale(size, b, whole) + 1
  {
    TimesAdd(size, a, b);
    var x, y := Times(size, a), Times(size, b);
    QuotientIsDivision(x, whole);
    QuotientIsDivision(y, whole);
    QuotientIsDivision(x + y, whole);
    FloorAdd(x, y, whole);
  }

  lemma ScaleNone(size: nat, whole: nat)
    requires whole > 0
    ensures Scale(size, 0, whole) == 0
  {
  }

  lemma {:induction false} QuotientOfMultiple(size: nat, whole: nat)
    requires whole > 0
    ensures Quotient(Times(whole, size), whole) == size
  {
    if size > 0 {
      QuotientOfMultiple(size - 1, whole);
    }
  }

  lemma ScaleWhole(size: nat, whole: nat)
    requires whole > 0
    ensures Scale(size, whole, whole) == size
  {
    TimesIsProduct(size, whole);
    TimesIsProduct(whole, size);
    QuotientOfMultiple(size, whole);
  }
}
