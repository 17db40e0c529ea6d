/** Powers of two: rounding up by smearing bits, and masking instead of dividing. Words
    are the numbers below a power of two, with the wrap-around written out. */
module Bits {
  function Pow2(n: nat): (p: nat)
    ensures p > 0
  {
    if n == 0 then 1 else 2 * Pow2(n - 1)
  }

  ghost predicate IsPowerOf2(c: nat) {
    c == 1 || (c > 1 && c % 2 == 0 && IsPowerOf2(c / 2))
  }

  /** Number of bits without leading zeros. */
  function Len(v: nat): nat {
    if v == 0 then 0 else 1 + Len(v / 2)
  }

  /** Bitwise and. */
  function And(a: nat, b: nat): nat {
    if a == 0 || b == 0 then 0 else (if a % 2 == 1 && b % 2 == 1 then 1 else 0) + 2 * And(a / 2, b / 2)
  }

  /** Bitwise or. */
  function Or(a: nat, b: nat): nat {
    if a == 0 then b else if b == 0 then a
    else (if a % 2 == 1 || b % 2 == 1 then 1 else 0) + 2 * Or(a / 2, b / 2)
  }

  /** Shifting right. */
  function Shift(v: nat, n: nat): nat {
    if n == 0 then v else Shift(v / 2, n - 1)
  }

  // ----- rounding up -----

  /** The least power of two that is not below `val`; zero and the words above the largest
      power of two wrap to zero. */
  method PowerOf2CeilU32(val: nat) returns (r: nat)
    requires val < Pow2(32)
    ensures 1 <= val <= Pow2(31) ==> IsPowerOf2(r) && r >= val && forall p: nat :: IsPowerOf2(p) && p >= val ==> r <= p
    ensures val == 0 || val > Pow2(31) ==> r == 0
  {
    hide Or;
    hide Shift;
    hide Pow2;
    hide TopOnes;
    hide IsPowerOf2;
    r := if val == 0 then Pow2(32) - 1 else val - 1;
    ghost var x := r;
    Powers();
    Smears(r);
    r := Or(r, Shift(r, 1));
    r := Or(r, Shift(r, 2));
    r := Or(r, Shift(r, 4));
    r := Or(r, Shift(r, 8));
    r := Or(r, Shift(r, 16));
    assert r == Smear(x, 5);
    hide Smear;
    LenBound(x, 32);
    Rounded(val, x, r, 5, 32);
    r := if r + 1 == Pow2(32) then 0 else r + 1;
  }

  method PowerOf2CeilU64(val: nat) returns (r: nat)
    requires val < Pow2(64)
    ensures 1 <= val <= Pow2(63) ==> IsPowerOf2(r) && r >= val && forall p: nat :: IsPowerOf2(p) && p >= val ==> r <= p
    ensures val == 0 || val > Pow2(63) ==> r == 0
  {
    hide Or;
    hide Shift;
    hide Pow2;
    hide TopOnes;
    hide IsPowerOf2;
    r := if val == 0 then Pow2(64) - 1 else val - 1;
    ghost var x := r;
    Powers();
    Smears(r);
    r := Or(r, Shift(r, 1));
    r := Or(r, Shift(r, 2));
    r := Or(r, Shift(r, 4));
    r := Or(r, Shift(r, 8));
    r := Or(r, Shift(r, 16));
    r := Or(r, Shift(r, 32));
    assert r == Smear(x, 6);
    hide Smear;
    LenBound(x, 64);
    Rounded(val, x, r, 6, 64);
    r := if r + 1 == Pow2(64) then 0 else r + 1;
  }

  /** The word after shifting and or-ing by 1, 2, 4, and so on, `steps` times. */
  function Smear(x: nat, steps: nat): nat {
    if steps == 0 then x else var v := Smear(x, steps - 1); Or(v, Shift(v, Pow2(steps - 1)))
  }

  lemma Powers()
    ensures Pow2(0) == 1 && Pow2(1) == 2 && Pow2(2) == 4 && Pow2(3) == 8 && Pow2(4) == 16 && Pow2(5) == 32 && Pow2(6) == 64
  {
    assert Pow2(1) == 2 * Pow2(0) && Pow2(2) == 2 * Pow2(1) && Pow2(3) == 2 * Pow2(2);
    assert Pow2(4) == 2 * Pow2(3) && Pow2(5) == 2 * Pow2(4) && Pow2(6) == 2 * Pow2(5);
  }

  /** The steps written out. */
  lemma Smears(x: nat)
    ensures
      var v1 := Or(x, Shift(x, 1));
      var v2 := Or(v1, Shift(v1, 2));
      var v3 := Or(v2, Shift(v2, 4));
      var v4 := Or(v3, Shift(v3, 8));
      var v5 := Or(v4, Shift(v4, 16));
      Smear(x, 5) == v5 && Smear(x, 6) == Or(v5, Shift(v5, 32))
  {
    hide Or;
    hide Shift;
    Powers();
    hide Pow2;
    assert Smear(x, 0) == x;
    assert Smear(x, 1) == Or(x, Shift(x, 1));
    assert Smear(x, 2) == Or(Smear(x, 1), Shift(Smear(x, 1), 2));
    assert Smear(x, 3) == Or(Smear(x, 2), Shift(Smear(x, 2), 4));
    assert Smear(x, 4) == Or(Smear(x, 3), Shift(Smear(x, 3), 8));
    assert Smear(x, 5) == Or(Smear(x, 4), Shift(Smear(x, 4), 16));
    assert Smear(x, 6) == Or(Smear(x, 5), Shift(Smear(x, 5), 32));
  }

  ghost predicate Ones(v: nat) { v + 1 == Pow2(Len(v)) }

  /** The highest `n` bits, or all there are, are ones. */
  ghost predicate TopOnes(v: nat, n: nat) {
    Ones(v) || (Len(v) > n && TopOnes(v / 2, n))
  }

  lemma {:induction false} LenPow(v: nat)
    ensures v < Pow2(Len(v)) && (v > 0 ==> Pow2(Len(v) - 1) <= v)
    decreases v
  {
    if v > 0 { LenPow(v / 2); }
  }

  lemma {:induction false} PowMonotonic(m: nat, n: nat)
    ensures m <= n ==> Pow2(m) <= Pow2(n)
    ensures m < n ==> Pow2(m) < Pow2(n)
  {
    if n > 0 && m < n { PowMonotonic(m, n - 1); }
  }

  lemma LenBound(v: nat, n: nat)
    ensures v < Pow2(n) <==> Len(v) <= n
  {
    LenPow(v);
    PowMonotonic(Len(v), n);
    if Len(v) > n { PowMonotonic(n, Len(v) - 1); }
  }

  lemma {:induction false} OrLen(a: nat, b: nat)
    requires Len(b) <= Len(a)
    ensures Len(Or(a, b)) == Len(a)
    decreases a
  {
    if a > 0 && b > 0 {
      OrLen(a / 2, b / 2);
      assert Or(a, b) / 2 == Or(a / 2, b / 2);
    }
  }

  lemma {:induction false} ShiftLen(v: nat, n: nat)
    ensures Len(Shift(v, n)) == if Len(v) >= n then Len(v) - n else 0
    ensures Shift(v / 2, n) == Shift(v, n) / 2
    decreases n
  {
    if n > 0 { ShiftLen(v / 2, n - 1); }
  }

  /** A bit among the highest `n` ones. */
  lemma {:induction false} BitOfTop(v: nat, n: nat, i: nat)
    requires TopOnes(v, n) && i < Len(v) <= i + n
    ensures Shift(v, i) % 2 == 1
    decreases v
  {
    if Ones(v) {
      OnesBit(v, i);
    } else {
      assert i > 0;
      BitOfTop(v / 2, n, i - 1);
    }
  }

  lemma {:induction false} OnesBit(v: nat, i: nat)
    requires Ones(v) && i < Len(v)
    ensures Shift(v, i) % 2 == 1 && v % 2 == 1 && Ones(v / 2)
    decreases v
  {
    if i > 0 {
      OnesBit(v / 2, i - 1);
    }
  }

  /** Or-ing the ones into the bits below them doubles their number. */
  lemma {:induction false} SmearStep(v: nat, n: nat)
    requires n > 0 && TopOnes(v, n)
    ensures TopOnes(Or(v, Shift(v, n)), 2 * n) && Len(Or(v, Shift(v, n))) == Len(v)
    decreases v
  {
    var s := Shift(v, n);
    var o := Or(v, s);
    ShiftLen(v, n);
    OrLen(v, s);
    if Ones(v) {
      OrOnes(v, s);
    } else if Len(v) > n {
      SmearStep(v / 2, n);
      assert o / 2 == Or(v / 2, s / 2) by { OrHalf(v, s); }
      assert o / 2 == Or(v / 2, Shift(v / 2, n));
      if Len(v) <= 2 * n {
        BitOfTop(v, n, n);
        assert o % 2 == 1 by { OrHalf(v, s); }
        ShortTop(o / 2, 2 * n);
        assert o == 2 * (o / 2) + 1;
      }
    }
  }

  lemma ShortTop(v: nat, n: nat)
    requires TopOnes(v, n) && Len(v) <= n
    ensures Ones(v)
  {
  }

  lemma OrHalf(a: nat, b: nat)
    ensures Or(a, b) / 2 == Or(a / 2, b / 2)
    ensures Or(a, b) % 2 == if a % 2 == 1 || b % 2 == 1 then 1 else 0
  {
  }

  lemma {:induction false} OrOnes(v: nat, s: nat)
    requires Ones(v) && Len(s) <= Len(v)
    ensures Or(v, s) == v
    decreases v
  {
    if v > 0 && s > 0 {
      OnesBit(v, 0);
      OrOnes(v / 2, s / 2);
    }
  }

  lemma {:induction false} FirstTop(v: nat)
    ensures TopOnes(v, 1)
    decreases v
  {
    if v > 1 { FirstTop(v / 2); } else { assert v + 1 == Pow2(Len(v)); }
  }

  lemma {:induction false} SmearTop(x: nat, steps: nat)
    ensures TopOnes(Smear(x, steps), Pow2(steps)) && Len(Smear(x, steps)) == Len(x)
    decreases steps
  {
    hide Or;
    hide Shift;
    if steps == 0 {
      FirstTop(x);
    } else {
      SmearTop(x, steps - 1);
      SmearStep(Smear(x, steps - 1), Pow2(steps - 1));
    }
  }

  /** The smeared word plus one, before it wraps. */
  lemma Rounded(val: nat, x: nat, r: nat, steps: nat, width: nat)
    requires r == Smear(x, steps) && width == Pow2(steps) && Len(x) <= width
    requires x == if val == 0 then Pow2(width) - 1 else val - 1
    ensures 1 <= val <= Pow2(width - 1) ==>
      IsPowerOf2(r + 1) && val <= r + 1 < Pow2(width) && forall p: nat :: IsPowerOf2(p) && p >= val ==> r + 1 <= p
    ensures val == 0 || val > Pow2(width - 1) ==> r + 1 == Pow2(width)
  {
    hide Smear;
    SmearTop(x, steps);
    ShortTop(r, width);
    hide TopOnes;
    LenPow(x);
    LenBound(x, width - 1);
    if 1 <= val <= Pow2(width - 1) {
      PowMonotonic(Len(x), width);
      PowIsPower(Len(x));
      forall p: nat | IsPowerOf2(p) && p >= val ensures r + 1 <= p { PowerAbove(p, x); }
    }
  }

  lemma {:induction false} PowIsPower(n: nat)
    ensures IsPowerOf2(Pow2(n))
  {
    if n > 0 { PowIsPower(n - 1); }
  }

  /** A power of two above a number is at least the next one. */
  lemma {:induction false} PowerAbove(p: nat, x: nat)
    requires IsPowerOf2(p) && p > x
    ensures p >= Pow2(Len(x))
    decreases p
  {
    if x > 0 { PowerAbove(p / 2, x / 2); }
  }

  // ----- masks -----

  /** Masking with one less than a power of two is the remainder. */
  lemma {:induction false} MaskIsMod(h: nat, c: nat)
    requires IsPowerOf2(c)
    ensures And(h, c - 1) == h % c
    decreases c
  {
    if c > 1 {
      var d := c / 2;
      MaskIsMod(h / 2, d);
      assert c == 2 * d;
      assert (c - 1) / 2 == d - 1 && (c - 1) % 2 == 1;
      assert And(h, c - 1) == h % 2 + 2 * And(h / 2, d - 1);
      ModSplit(h, d);
    }
  }

  lemma ModSplit(h: nat, d: nat)
    requires d > 0
    ensures h % (2 * d) == h % 2 + 2 * (h / 2 % d)
  {
    var q, r := h / 2 / d, h / 2 % d;
    assert h / 2 == q * d + r;
    assert h == q * (2 * d) + (2 * r + h % 2);
    Remainder(h, 2 * d, q, 2 * r + h % 2);
  }

  lemma Remainder(h: nat, c: nat, q: nat, r: nat)
    requires r < c && h == q * c + r
    ensures h % c == r
  {
    var d := h / c - q;
    assert d * c == r - h % c;
    assert d < 1 && d > -1;
  }

  /** The test on bits, which zero passes too since zero minus one wraps. */
  predicate PassesTest(val: nat) {
    val == 0 || And(val, val - 1) == 0
  }

  lemma {:induction false} TestIsExact(val: nat)
    ensures PassesTest(val) <==> val == 0 || IsPowerOf2(val)
    decreases val
  {
    if val > 1 {
      TestIsExact(val / 2);
      if val % 2 == 0 {
        assert (val - 1) / 2 == val / 2 - 1;
      } else {
        assert And(val, val - 1) == 2 * And(val / 2, val / 2);
        AndSelf(val / 2);
      }
    }
  }

  lemma {:induction false} AndSelf(v: nat)
    ensures And(v, v) == v
  {
    if v > 0 { AndSelf(v / 2); }
  }

  // ----- growing -----

  const MIN_CAPACITY := 8
  const CAPACITY_SCALE_FACTOR := 2

  function GrowCapacity(capacity: nat): (c: nat)
    ensures c > capacity
  {
    if capacity < MIN_CAPACITY then MIN_CAPACITY else capacity * CAPACITY_SCALE_FACTOR
  }

  function Grown(times: nat): nat {
    if times == 0 then 0 else GrowCapacity(Grown(times - 1))
  }

  /** A table that grows from nothing always has a power of two as its capacity. */
  lemma {:induction false} GrownIsPower(times: nat)
    requires times > 0
    ensures IsPowerOf2(Grown(times)) && Grown(times) >= MIN_CAPACITY
  {
    if times == 1 {
      assert Grown(0) == 0;
      assert IsPowerOf2(2) && IsPowerOf2(4) && IsPowerOf2(8);
    } else {
      GrownIsPower(times - 1);
      GrowKeepsPower(Grown(times - 1));
    }
  }

  lemma GrowKeepsPower(c: nat)
    requires c == 0 || (c >= MIN_CAPACITY && IsPowerOf2(c))
    ensures GrowCapacity(c) >= MIN_CAPACITY && IsPowerOf2(GrowCapacity(c))
  {
    assert IsPowerOf2(2) && IsPowerOf2(4) && IsPowerOf2(8);
  }
}
