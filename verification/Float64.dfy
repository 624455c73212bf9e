/** IEEE 754 double precision, as far as the rest of the model leans on it: where rounding is
    invisible, and the first numbers where it is not. */
module Float64 {

  // ---- integers held in a double -------------------------------------------

  const TWO_53: int := 0x20_0000_0000_0000
  const MAX_INT64: int := 0x7FFF_FFFF_FFFF_FFFF

  /** The distance between neighbouring doubles at n, for integers. */
  function Spacing(n: nat): (u: nat)
    ensures u >= 1
  {
    if n < TWO_53 then 1 else 2 * Spacing(n / 2)
  }

  /** The quotient rounded to the nearest integer, ties to the even one. */
  function HalfEven(num: nat, den: nat): nat
    requires den > 0
  {
    var q, r := num / den, num % den;
    if 2 * r < den || (2 * r == den && q % 2 == 0) then q else q + 1
  }

  /** No integer is nearer, and of two that are equally near it is the even one. */
  lemma HalfEvenNearest(num: nat, den: nat)
    requires den > 0
    ensures var off: int := HalfEven(num, den) * den - num;
            && -(den as int) <= 2 * off <= den
            && (2 * off == den || 2 * off == -(den as int) ==> HalfEven(num, den) % 2 == 0)
  {
    var q := num / den;
    assert (q + 1) * den == q * den + den && num == q * den + num % den;
  }

  /** float64(n): the nearest double. */
  function Rounded(n: nat): nat { HalfEven(n, Spacing(n)) * Spacing(n) }

  /** Every integer up to 2^53 is a double. */
  lemma RoundedExact(n: nat)
    requires n <= TWO_53
    ensures Rounded(n) == n
  {
    assert n == TWO_53 ==> Spacing(n) == 2 * Spacing(TWO_53 / 2);
  }

  lemma RoundedPositive(n: nat)
    requires n > 0
    ensures Rounded(n) > 0
  {
    if n < TWO_53 {
      RoundedExact(n);
    } else {
      SpacingBelow(n);
      HalfEvenPositive(n, Spacing(n));
    }
  }

  lemma HalfEvenPositive(num: nat, den: nat)
    requires 0 < den <= num
    ensures HalfEven(num, den) > 0 && HalfEven(num, den) * den > 0
  {
    assert num / den >= 1;
  }

  lemma {:induction false} SpacingBelow(n: nat)
    requires n >= 1
    ensures Spacing(n) <= n
  {
    if n >= TWO_53 {
      SpacingBelow(n / 2);
    }
  }

  /** The largest int64 is not a double; the nearest one no longer fits an int64. */
  lemma RoundedMaxInt64()
    ensures Rounded(MAX_INT64) == MAX_INT64 + 1
  {
    assert Spacing(MAX_INT64) == 1024 by {
      assert PowTwo(9) == 512 && PowTwo(10) == 1024 by {
        assert PowTwo(5) == 32;
      }
      SpacingAt(MAX_INT64, 10);
    }
  }

  function PowTwo(k: nat): (p: nat)
    ensures p >= 1
  {
    if k == 0 then 1 else 2 * PowTwo(k - 1)
  }

  lemma {:induction false} SpacingAt(n: nat, k: nat)
    requires k > 0 ==> n >= TWO_53 * PowTwo(k - 1)
    requires n < TWO_53 * PowTwo(k)
    ensures Spacing(n) == PowTwo(k)
  {
    if k > 0 {
      SpacingAt(n / 2, k - 1);
    }
  }

  /** amd64 converts every float that does not fit to the smallest int64. */
  function Amd64(x: real): int { -MAX_INT64 - 1 }

  lemma Amd64IsSmallest(x: real)
    ensures Amd64(x) == -0x8000_0000_0000_0000
  {
  }

  // ---- six decimals in a double --------------------------------------------

  /** 2^32 in micro-units: how far six decimals survive. */
  const SIX_DECIMALS: int := 0x1_0000_0000 * 1_000_000

  function Abs(x: real): real { if x < 0.0 then -x else x }

  /** math.Round: halves away from zero. */
  function RoundAway(x: real): int { if x < 0.0 then -((-x + 0.5).Floor) else (x + 0.5).Floor }

  /** No integer is nearer, and of two that are equally near it is the one farther from zero. */
  lemma RoundAwayNearest(x: real)
    ensures var off := RoundAway(x) as real - x;
            -0.5 <= off <= 0.5 && (off == 0.5 ==> x > 0.0) && (off == -0.5 ==> x < 0.0)
  {
  }

  /** What the standard asks of correct rounding: half a unit in the last place, which is 2^-22
      below 2^32 and a quarter below 2^52. */
  ghost predicate Nearest(near: real -> real) {
    && (forall x {:trigger near(x)} :: Abs(x) <= 4_294_967_296.0 ==> Abs(near(x) - x) * 4_194_304.0 <= 1.0)
    && (forall x {:trigger near(x)} :: Abs(x) < 4_503_599_627_370_496.0 ==> Abs(near(x) - x) <= 0.25)
  }

  /** formatFloat's math.Round(f*1e6) of the double nearest to m micro-units. */
  function Reread(near: real -> real, m: int): int {
    RoundAway(near(near(m as real / 1_000_000.0) * 1_000_000.0))
  }

  /** Below 2^32 reading a six-decimal number and rounding it to six decimals again gives the same
      number, whatever the rounding does to the division, the parsing and the product. */
  lemma MicroSurvives(near: real -> real, m: int)
    requires Nearest(near) && -SIX_DECIMALS <= m <= SIX_DECIMALS
    ensures Reread(near, m) == m
  {
    var x := m as real / 1_000_000.0;
    InRange(m, x);
    NearTwice(near, x, m as real);
    RoundsBack(near(near(x) * 1_000_000.0), m);
  }

  lemma InRange(m: int, x: real)
    requires -SIX_DECIMALS <= m <= SIX_DECIMALS && x == m as real / 1_000_000.0
    ensures Abs(x) <= 4_294_967_296.0 && x * 1_000_000.0 == m as real && Abs(m as real) <= SIX_DECIMALS as real
  {
  }

  lemma NearTwice(near: real -> real, x: real, m: real)
    requires Nearest(near) && Abs(x) <= 4_294_967_296.0 && x * 1_000_000.0 == m && Abs(m) <= SIX_DECIMALS as real
    ensures Abs(near(near(x) * 1_000_000.0) - m) < 0.5
  {
    Near32(near, x);
    var f := near(x);
    var p := f * 1_000_000.0;
    Scaled(x, f, m, p);
    Near52(near, p);
    Within(near(p), p, m);
  }

  lemma Near32(near: real -> real, x: real)
    requires Nearest(near) && Abs(x) <= 4_294_967_296.0
    ensures Abs(near(x) - x) * 4_194_304.0 <= 1.0
  {
  }

  lemma Near52(near: real -> real, p: real)
    requires Nearest(near) && Abs(p) < 4_503_599_627_370_496.0
    ensures Abs(near(p) - p) <= 0.25
  {
  }

  lemma Within(q: real, p: real, m: real)
    requires Abs(q - p) <= 0.25 && Abs(p - m) <= 0.24
    ensures Abs(q - m) < 0.5
  {
  }

  lemma Scaled(x: real, f: real, m: real, p: real)
    requires x * 1_000_000.0 == m && p == f * 1_000_000.0 && Abs(m) <= SIX_DECIMALS as real
    requires Abs(f - x) * 4_194_304.0 <= 1.0
    ensures Abs(p - m) <= 0.24 && Abs(p) < 4_503_599_627_370_496.0
  {
    assert p - m == (f - x) * 1_000_000.0;
  }

  lemma RoundsBack(p: real, m: int)
    requires Abs(p - m as real) < 0.5
    ensures RoundAway(p) == m
  {
  }

  /** So no two of them share a double: the shortest text that reads back as a double holding one
      is that number's own spelling. */
  lemma SixDecimalsDistinct(near: real -> real, m: int, n: int)
    requires Nearest(near) && -SIX_DECIMALS <= m <= SIX_DECIMALS && -SIX_DECIMALS <= n <= SIX_DECIMALS
    requires near(m as real / 1_000_000.0) == near(n as real / 1_000_000.0)
    ensures m == n
  {
    MicroSurvives(near, m);
    MicroSurvives(near, n);
  }

  /** The same reading in exact integers for numbers from 2^32 to 2^33, whose doubles are 2^-20
      apart, and whose products with a million lie from 2^51 to 2^53 and are half apart below 2^52. */
  function RereadAbove(m: nat): nat {
    var double := HalfEven(m * 0x10_0000, 1_000_000);
    var halves := HalfEven(double * 2_000_000, 0x10_0000);
    (halves + 1) / 2
  }

  /** Just above 2^32 the range ends: 4294967296.000011 is read as ...012, so what formatFloat
      prints is no longer stable, and a value can keep drifting, a millionth with every reading. */
  lemma SixDecimalsDrift()
    ensures RereadAbove(SIX_DECIMALS + 11) == SIX_DECIMALS + 12
    ensures RereadAbove(4_500_819_459_834_932) == 4_500_819_459_834_933
    ensures RereadAbove(4_500_819_459_834_933) == 4_500_819_459_834_934
  {
  }
}
