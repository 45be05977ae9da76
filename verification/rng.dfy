/** The generator's integer draws: 53 random bits, scaled in double precision and truncated. */
module Rng {
  import opened Basics

  const TWO_26: nat := 0x400_0000
  const TWO_52: nat := 0x10_0000_0000_0000
  const TWO_53: nat := 0x20_0000_0000_0000

  /** The 53 bits uniform() takes from two 32-bit generator words; its value is this over 2^53. */
  function Mantissa(a: nat, b: nat): (u: nat)
    requires a < TWO_32 && b < TWO_32
    ensures u < TWO_53
  {
    a / 32 * TWO_26 + b / 64
  }

  predicate IsDraw(u: nat) {
    u < TWO_53
  }

  type Draw = u: nat | IsDraw(u)

  /** Every draw comes from some pair of words, and from pairs that differ in their dropped low
      bits only: 2^11 pairs for each draw, so equally likely words make equally likely draws. */
  lemma DrawIsTwoWords(u: Draw) returns (a: nat, b: nat)
    ensures a < TWO_32 && b < TWO_32 && Mantissa(a, b) == u
    ensures forall c: nat, d: nat | c < TWO_32 && d < TWO_32 ::
              Mantissa(c, d) == u <==> 0 <= c - a < 32 && 0 <= d - b < 64
  {
    assert IsDraw(u);
    a, b := u / TWO_26 * 32, u % TWO_26 * 64;
    QuotientBelow(u, TWO_26, 0x800_0000);
    forall c: nat, d: nat | c < TWO_32 && d < TWO_32
      ensures Mantissa(c, d) == u <==> 0 <= c - a < 32 && 0 <= d - b < 64
    {
      TwoDigits(c / 32, d / 64, u);
    }
  }

  lemma TwoDigits(x: nat, y: nat, u: nat)
    requires y < TWO_26
    ensures x * TWO_26 + y == u <==> x == u / TWO_26 && y == u % TWO_26
  {}

  // ----- double-precision rounding, in units of 2^-53 ---------------------------------------------

  /** The spacing of doubles around `x`. */
  function Unit(x: nat): (u: nat)
    ensures u > 0
  {
    if x < TWO_53 then 1 else 2 * Unit(x / 2)
  }

  /** `x` rounded to the nearest double, ties to even. */
  function Rounded(x: nat): nat {
    var u := Unit(x);
    var q := x / u;
    var rem := x % u;
    if 2 * rem < u || (2 * rem == u && q % 2 == 0) then q * u else (q + 1) * u
  }

  lemma {:induction false} UnitIsFine(x: nat)
    ensures Unit(x) == 1 || TWO_52 * Unit(x) <= x
  {
    if x >= TWO_53 {
      UnitIsFine(x / 2);
    }
  }

  function Pow2(e: nat): (p: nat)
    ensures p > 0
  {
    if e == 0 then 1 else 2 * Pow2(e - 1)
  }

  lemma {:induction false} UnitDivides(x: nat, e: nat) returns (c: nat)
    requires x < TWO_53 * Pow2(e)
    ensures Unit(x) * c == Pow2(e)
  {
    if x < TWO_53 {
      c := Pow2(e);
    } else {
      c := UnitDivides(x / 2, e - 1);
      Twice(Unit(x / 2), c);
    }
  }

  lemma Twice(a: nat, b: nat)
    ensures 2 * a * b == 2 * (a * b)
  {}

  lemma QuotientBelow(x: nat, u: nat, m: nat)
    requires u > 0 && x < m * u
    ensures x / u < m
  {}

  lemma MulMonotone(a: nat, b: nat, c: nat)
    requires a <= b
    ensures a * c <= b * c
  {}

  /** The nearest double of a number that stays `n` units below n * 2^53 is below it too. */
  lemma RoundsBelow(x: nat, n: nat)
    requires 0 < n <= TWO_32 && x + n <= n * TWO_53
    ensures Rounded(x) < n * TWO_53
  {
    hide Unit;
    var u := Unit(x);
    UnitIsFine(x);
    if u == 1 {
      assert x / u == x && x % u == 0;
    } else {
      assert Pow2(32) == TWO_32 by { PowerOf32(); }
      MulMonotone(n, TWO_32, TWO_53);
      var c := UnitDivides(x, 32);
      var m := n * 0x20_0000 * c;
      assert m * u == n * TWO_53 by { Regroup(n, c, u); }
      QuotientBelow(x, u, m);
      var q := x / u;
      if q == m - 1 {
        assert x % u == x - q * u;
        assert (m - 1) * u == m * u - u by { Less(m, u); }
        assert u < 2 * n;
      } else {
        MulMonotone(q + 1, m - 1, u);
        assert (m - 1) * u == m * u - u by { Less(m, u); }
        MulMonotone(q, q + 1, u);
      }
    }
  }

  lemma PowerOf32()
    ensures Pow2(32) == TWO_32
  {
    assert Pow2(8) == 256;
    assert Pow2(16) == 65536;
    assert Pow2(24) == 0x100_0000;
  }

  lemma Regroup(n: nat, c: nat, u: nat)
    requires u * c == TWO_32
    ensures n * 0x20_0000 * c * u == n * TWO_53
  {}

  lemma Less(m: nat, u: nat)
    requires m > 0
    ensures (m - 1) * u == m * u - u
  {}

  // ----- uniform_int ------------------------------------------------------------------------------------

  /** uniform() * n, truncated. */
  function Scaled(u: nat, n: nat): nat {
    Rounded(u * n) / TWO_53
  }

  /** The scaled draw never reaches `n`: the product cannot round up to it. */
  lemma ScaledBelow(u: nat, n: nat)
    requires IsDraw(u) && n <= TWO_32
    ensures n > 0 ==> Scaled(u, n) < n
    ensures n == 0 ==> Scaled(u, n) == 0
  {
    if n > 0 {
      MulMonotone(u, TWO_53 - 1, n);
      RoundsBelow(u * n, n);
      QuotientBelow(Rounded(u * n), TWO_53, n);
    } else {
      assert u * n == 0;
    }
  }

  /** uniform_int(lo, hi) in 32-bit arithmetic, where the span of the full range wraps to 0. */
  function UniformInt(lo: nat, hi: nat, u: nat): nat
    requires lo <= hi < TWO_32
  {
    (lo + Scaled(u, (hi - lo + 1) % TWO_32)) % TWO_32
  }

  lemma UniformIntInRange(lo: nat, hi: nat, u: nat)
    requires lo <= hi < TWO_32 && IsDraw(u)
    ensures lo <= UniformInt(lo, hi, u) <= hi
    ensures hi - lo == TWO_32 - 1 ==> UniformInt(lo, hi, u) == lo
  {
    hide Scaled;
    ScaledBelow(u, (hi - lo + 1) % TWO_32);
  }

  /** The spacing leaves exactly the 53 bits of a double's significand. */
  lemma {:induction false} UnitIsSpacing(x: nat)
    ensures x < TWO_53 * Unit(x) && (Unit(x) == 1 || TWO_52 * Unit(x) <= x)
  {
    if x >= TWO_53 {
      UnitIsSpacing(x / 2);
    }
  }

  /** A double is a multiple of the spacing, no farther from the exact value than half of it, and in
      a tie an even multiple. */
  lemma RoundedIsNear(x: nat)
    ensures 2 * Rounded(x) <= 2 * x + Unit(x) && 2 * x <= 2 * Rounded(x) + Unit(x)
    ensures exists q: nat :: Rounded(x) == q * Unit(x) && (2 * (x % Unit(x)) == Unit(x) ==> q % 2 == 0)
  {
    hide Unit;
    var u := Unit(x);
    var q, rem := x / u, x % u;
    assert x == q * u + rem;
    assert (q + 1) * u == q * u + u;
    var r := if 2 * rem < u || (2 * rem == u && q % 2 == 0) then q else q + 1;
    assert Rounded(x) == r * u;
  }

  /** Rounding does not fall below a multiple of 2^53. */
  lemma RoundsAbove(x: nat, v: nat)
    requires v * TWO_53 <= x < TWO_53 * TWO_32
    ensures v * TWO_53 <= Rounded(x)
  {
    hide Unit;
    assert Pow2(32) == TWO_32 by { PowerOf32(); }
    var u := Unit(x);
    var c := UnitDivides(x, 32);
    Regroup(v, c, u);
    var m := v * 0x20_0000 * c;
    if x / u < m {
      QuotientAbove(x, u, m);
    }
    MulMonotone(m, x / u, u);
    MulMonotone(x / u, x / u + 1, u);
  }

  lemma QuotientAbove(x: nat, u: nat, m: nat)
    requires u > 0 && m * u <= x
    ensures m <= x / u
  {
    var q := x / u;
    assert x == q * u + x % u;
    assert (q + 1) * u == q * u + u;
    MulMonotoneIf(q + 1, m, u);
  }

  lemma MulMonotoneIf(a: nat, b: nat, c: nat)
    ensures a <= b ==> a * c <= b * c
  {}

  /** The draw is where it belongs in the range: the exact product truncated, or one more where
      rounding carries it up. */
  lemma UniformIntIsNear(lo: nat, hi: nat, u: nat)
    requires lo <= hi < TWO_32 && hi - lo < TWO_32 - 1 && IsDraw(u)
    ensures var exact := lo + u * (hi - lo + 1) / TWO_53;
            exact <= UniformInt(lo, hi, u) <= exact + 1
  {
    hide Scaled;
    UniformIntInRange(lo, hi, u);
    ScaledIsNear(u, hi - lo + 1);
    ScaledBelow(u, hi - lo + 1);
  }

  lemma ScaledIsNear(u: nat, n: nat)
    requires IsDraw(u) && 0 < n < TWO_32
    ensures u * n / TWO_53 <= Scaled(u, n) <= u * n / TWO_53 + 1
  {
    hide Rounded, Unit;
    var x := u * n;
    MulMonotone(u, TWO_53 - 1, n);
    MulMonotone(n, TWO_32 - 1, TWO_53);
    var v := x / TWO_53;
    assert v * TWO_53 <= x < (v + 1) * TWO_53;
    QuotientBelow(x, TWO_53, n);
    RoundsAbove(x, v);
    QuotientAbove(Rounded(x), TWO_53, v);
    if v + 1 < n {
      NearAbove(x, n, v + 1);
      QuotientBelow(Rounded(x), TWO_53, v + 2);
    } else {
      ScaledBelow(u, n);
    }
  }

  /** Every value of the range is drawn for some generator state, unless the range is the full
      32 bits, where only its lower end is. */
  lemma EveryValueDrawn(lo: nat, hi: nat, v: nat) returns (u: nat)
    requires lo <= v <= hi < TWO_32 && hi - lo < TWO_32 - 1
    ensures IsDraw(u) && UniformInt(lo, hi, u) == v
  {
    hide Scaled;
    u := DrawFor(hi - lo + 1, v - lo);
    ScalesTo(u, hi - lo + 1, v - lo);
  }

  lemma DrawFor(n: nat, d: nat) returns (u: nat)
    requires d < n <= TWO_32
    ensures IsDraw(u) && d * TWO_53 <= u * n <= d * TWO_53 + n - 1
  {
    u := (d * TWO_53 + n - 1) / n;
    CeilingTimes(d * TWO_53, n);
    MulMonotone(d, n - 1, TWO_53);
    QuotientBelow(d * TWO_53 + n - 1, n, TWO_53);
  }

  lemma ScalesTo(u: nat, n: nat, d: nat)
    requires d < n <= TWO_32 && d * TWO_53 <= u * n <= d * TWO_53 + n - 1
    ensures Scaled(u, n) == d
  {
    hide Rounded, Unit;
    MulMonotone(d, TWO_32 - 1, TWO_53);
    NearAbove(u * n, n, d);
    RoundsAbove(u * n, d);
    QuotientAbove(Rounded(u * n), TWO_53, d);
    QuotientBelow(Rounded(u * n), TWO_53, d + 1);
  }

  lemma NearAbove(x: nat, n: nat, d: nat)
    requires d < n <= TWO_32 && x <= d * TWO_53 + n - 1
    ensures Rounded(x) < (d + 1) * TWO_53
  {
    hide Rounded, Unit;
    RoundedIsNear(x);
    UnitIsFine(x);
    MulMonotone(d, n - 1, TWO_53);
    assert Unit(x) <= 2 * n;
  }

  lemma CeilingTimes(x: nat, n: nat)
    requires n > 0
    ensures x <= (x + n - 1) / n * n <= x + n - 1
  {}
}
