/** How values are read and written: what a spelling is worth, how it is rounded, what is listed. */
module Written {
  import opened Text
  import opened Decimal
  import opened Domains

  // ---- what a spelling is worth --------------------------------------------

  /** The magnitude mant / 10^scale. */
  function Magnitude(mant: nat, scale: int): real {
    if scale >= 0 then mant as real / Pow10(scale) as real else mant as real * Pow10(-scale) as real
  }

  /** n is the whole number nearest to x, the larger of two that are equally near. */
  predicate NearestUp(n: int, x: real) { n as real - 0.5 <= x < n as real + 0.5 }

  lemma HalfUpNearest(a: nat, b: nat)
    requires b > 0
    ensures NearestUp(HalfUp(a, b), a as real / b as real)
  {
    var n := HalfUp(a, b);
    assert n * (2 * b) <= 2 * a + b < (n + 1) * (2 * b);
    QuotientBetween(a as real, b as real, n as real - 0.5, n as real + 0.5);
  }

  lemma QuotientBetween(a: real, b: real, lo: real, hi: real)
    requires b > 0.0 && lo * b <= a < hi * b
    ensures lo <= a / b < hi
  {
    var q := a / b;
    assert q * b == a;
    if q < lo {
      TimesMore(q, lo, b);
    } else if hi < q {
      TimesMore(hi, q, b);
    }
  }

  lemma TimesMore(x: real, y: real, b: real)
    requires b > 0.0 && x < y
    ensures x * b < y * b
  {
  }

  lemma RoundScaledNearest(mant: nat, scale: int)
    ensures NearestUp(RoundScaled(mant, scale), Magnitude(mant, scale))
  {
    if scale > 0 {
      HalfUpNearest(mant, Pow10(scale));
    } else {
      assert Magnitude(mant, scale) == (mant * Pow10(-scale)) as real by {
        assert (mant * Pow10(-scale)) as real == mant as real * Pow10(-scale) as real;
        assert Pow10(0) == 1;
      }
    }
  }

  lemma MillionthQuotient(m: real, p: real)
    requires p > 0.0
    ensures m / p == m / (p * 1_000_000.0) * 1_000_000.0
  {
    var x := m / (p * 1_000_000.0);
    assert x * (p * 1_000_000.0) == m;
    assert x * 1_000_000.0 * p == m;
  }

  lemma MillionfoldProduct(m: real, p: real)
    ensures m * (p * 1_000_000.0) == m * p * 1_000_000.0
  {
  }

  lemma SixMore(k: nat)
    ensures Pow10(k + 6) as real == Pow10(k) as real * 1_000_000.0
  {
    PowSplit(k, 6);
    Pow10Six();
  }

  lemma MillionFewPlaces(mant: nat, scale: nat)
    requires scale < 6
    ensures Magnitude(mant, scale - 6) == Magnitude(mant, scale) * 1_000_000.0
  {
    Pow10Six();
    PowSplit(scale, 6 - scale);
    assert 1_000_000.0 == Pow10(scale) as real * Pow10(6 - scale) as real;
    WholePart(mant as real, Pow10(scale) as real, Pow10(6 - scale) as real);
  }

  lemma MillionManyPlaces(mant: nat, scale: nat)
    requires scale >= 6
    ensures Magnitude(mant, scale - 6) == Magnitude(mant, scale) * 1_000_000.0
  {
    SixMore(scale - 6);
    MillionthQuotient(mant as real, Pow10(scale - 6) as real);
  }

  lemma MillionBeforePoint(mant: nat, scale: int)
    requires scale < 0
    ensures Magnitude(mant, scale - 6) == Magnitude(mant, scale) * 1_000_000.0
  {
    SixMore(-scale);
    MillionfoldProduct(mant as real, Pow10(-scale) as real);
  }

  /** Six places less in the scale are a factor of a million. */
  lemma MillionTimes(mant: nat, scale: int)
    ensures Magnitude(mant, scale - 6) == Magnitude(mant, scale) * 1_000_000.0
  {
    if scale >= 6 {
      MillionManyPlaces(mant, scale);
    } else if scale >= 0 {
      MillionFewPlaces(mant, scale);
    } else {
      MillionBeforePoint(mant, scale);
    }
  }

  lemma WholePart(m: real, p: real, q: real)
    requires p > 0.0
    ensures m / p * (p * q) == m * q
  {
    assert m / p * p == m;
    assert m / p * (p * q) == m / p * p * q;
  }

  function SignOf(neg: bool, plus: bool): string { if neg then "-" else if plus then "+" else "" }

  /** Any signed decimal is worth its digits, moved by the point. */
  lemma ParsesAs(neg: bool, plus: bool, whole: string, frac: string)
    requires AllDigits(whole) && AllDigits(frac) && whole != "" && !(neg && plus)
    ensures AllDigits(whole + frac)
    ensures ParseDec(SignOf(neg, plus) + Body(whole, frac)) == Some(Dec(neg, Value(whole + frac), |frac|))
  {
    ParseBody(neg, whole, frac);
    BodyStarts(whole, frac);
    SignedBody(neg, plus, Body(whole, frac));
  }

  /** And with an exponent: the point moves back by it. */
  lemma ParsesWithExponent(neg: bool, plus: bool, head: string, e: char, tail: string, n: nat, places: nat, k: int)
    requires head != "" && IsDigit(head[0]) && NoExponent(head) && !(neg && plus) && (e == 'e' || e == 'E')
    requires ParseMantissa(head) == Some((n, places)) && Atoi(tail) == Some(k)
    ensures ParseDec(SignOf(neg, plus) + (head + [e] + tail)) == Some(Dec(neg, n, places - k))
  {
    var all := head + [e] + tail;
    assert all[0] == head[0];
    ParseExponent(neg, head, e, tail, all, n, places, k);
    SignedBody(neg, plus, all);
  }

  lemma BodyStarts(whole: string, frac: string)
    requires AllDigits(whole) && AllDigits(frac) && whole != ""
    ensures Body(whole, frac) != "" && IsDigit(Body(whole, frac)[0])
  {
    assert Body(whole, frac)[0] == whole[0];
  }

  lemma SignedBody(neg: bool, plus: bool, body: string)
    requires body != "" && IsDigit(body[0]) && !(neg && plus)
    ensures ParseDec(SignOf(neg, plus) + body) == ParseUnsigned(neg, body)
  {
    var s := SignOf(neg, plus) + body;
    if neg || plus {
      assert s[1..] == body;
    } else {
      assert s == body;
    }
  }

  lemma UnsignedSplits(neg: bool, all: string)
    ensures var e := Find(all, 'e', 'E');
            ParseUnsigned(neg, all)
            == Placed(neg, ParseMantissa(all[..e]), if e == |all| then Some(0) else Atoi(all[e + 1..]))
  {
  }

  lemma UnsignedIs(neg: bool, all: string, head: string, tail: string)
    requires Find(all, 'e', 'E') < |all|
    requires head == all[..Find(all, 'e', 'E')] && tail == all[Find(all, 'e', 'E') + 1..]
    ensures ParseUnsigned(neg, all) == Placed(neg, ParseMantissa(head), Atoi(tail))
  {
    UnsignedSplits(neg, all);
  }

  lemma PlacedIs(neg: bool, mantissa: Option<(nat, nat)>, exponent: Option<int>, n: nat, places: nat, k: int)
    requires mantissa == Some((n, places)) && exponent == Some(k)
    ensures Placed(neg, mantissa, exponent) == Some(Dec(neg, n, places - k))
  {
  }

  lemma PlacedAt(neg: bool, all: string, head: string, tail: string, n: nat, places: nat, k: int)
    requires Find(all, 'e', 'E') < |all|
    requires head == all[..Find(all, 'e', 'E')] && tail == all[Find(all, 'e', 'E') + 1..]
    requires ParseMantissa(head) == Some((n, places)) && Atoi(tail) == Some(k)
    ensures ParseUnsigned(neg, all) == Some(Dec(neg, n, places - k))
  {
    UnsignedIs(neg, all, head, tail);
    PlacedIs(neg, ParseMantissa(head), Atoi(tail), n, places, k);
  }

  predicate NoExponent(s: string) { forall i :: 0 <= i < |s| ==> s[i] != 'e' && s[i] != 'E' }

  lemma ExponentAt(head: string, e: char, tail: string, all: string)
    requires all == head + [e] + tail && (e == 'e' || e == 'E') && NoExponent(head)
    ensures Find(all, 'e', 'E') == |head| < |all| && all[..|head|] == head && all[|head| + 1..] == tail
  {
    assert all[|head|] == e;
    forall i | 0 <= i < |head| ensures all[i] != 'e' && all[i] != 'E' {
      assert all[i] == head[i];
    }
    FindExponent(all, |head|);
  }

  lemma ParseExponent(neg: bool, head: string, e: char, tail: string, all: string, n: nat, places: nat, k: int)
    requires all == head + [e] + tail && (e == 'e' || e == 'E') && NoExponent(head)
    requires ParseMantissa(head) == Some((n, places)) && Atoi(tail) == Some(k)
    ensures ParseUnsigned(neg, all) == Some(Dec(neg, n, places - k))
  {
    ExponentAt(head, e, tail, all);
    PlacedAt(neg, all, head, tail, n, places, k);
  }

  lemma FindExponent(s: string, i: nat)
    requires i < |s| && (s[i] == 'e' || s[i] == 'E') && forall k :: 0 <= k < i ==> s[k] != 'e' && s[k] != 'E'
    ensures Find(s, 'e', 'E') == i
  {
  }

  // ---- how it is written ---------------------------------------------------

  lemma NearestInt(dec: Dec, n: nat)
    requires NearestUp(n, Magnitude(dec.mant, dec.scale))
    ensures RoundInt(dec) == if dec.neg then 0 - n else n
  {
    RoundScaledNearest(dec.mant, dec.scale);
    OneNearest(n, RoundScaled(dec.mant, dec.scale), Magnitude(dec.mant, dec.scale));
  }

  lemma NearestMicro(dec: Dec, n: nat)
    requires NearestUp(n, Magnitude(dec.mant, dec.scale) * 1_000_000.0)
    ensures Micro(dec) == n
  {
    RoundScaledNearest(dec.mant, dec.scale - 6);
    MillionTimes(dec.mant, dec.scale);
    OneNearest(n, Micro(dec), Magnitude(dec.mant, dec.scale - 6));
  }

  /** An integer knob is written as the nearest integer, halves away from zero; a decimal knob as the
      nearest number of millionths. */
  lemma WritesNearest(d: Domain, raw: string, dec: Dec, n: nat)
    requires ParseDec(Trim(raw)) == Some(dec)
    ensures d.kind == KnobInt && NearestUp(n, Magnitude(dec.mant, dec.scale)) ==>
              d.Normalize(raw) == Itoa(if dec.neg then 0 - n else n)
    ensures d.kind == KnobFloat && NearestUp(n, Magnitude(dec.mant, dec.scale) * 1_000_000.0) ==>
              d.Normalize(raw) == FormatMicro(dec.neg, n)
  {
    if d.kind == KnobInt && NearestUp(n, Magnitude(dec.mant, dec.scale)) {
      NearestInt(dec, n);
    } else if d.kind == KnobFloat && NearestUp(n, Magnitude(dec.mant, dec.scale) * 1_000_000.0) {
      NearestMicro(dec, n);
    }
  }

  lemma OneNearest(n: int, m: int, x: real)
    requires NearestUp(n, x) && NearestUp(m, x)
    ensures n == m
  {
  }

  /** A switch is written true or false for the six words, in any case, a mode in lower case, and a text or
      anything that is not a number is only trimmed. */
  lemma WritesWords(d: Domain, raw: string)
    requires d.kind == KnobBool || d.kind == KnobEnum || d.kind == KnobText || ParseDec(Trim(raw)).None?
    ensures var v, l := Trim(raw), ToLower(Trim(raw));
            d.Normalize(raw) ==
              if d.kind == KnobEnum then l
              else if d.kind == KnobBool && l in ["true", "yes", "on"] then "true"
              else if d.kind == KnobBool && l in ["false", "no", "off"] then "false"
              else v
  {
  }

  lemma {:induction false} NoTrailingZero(s: string)
    ensures var r := DropTrailingZeros(s);
            && (r != [] ==> r[|r| - 1] != '0')
            && (forall i :: |r| <= i < |s| ==> s[i] == '0')
  {
    if s != [] && s[|s| - 1] == '0' {
      NoTrailingZero(s[..|s| - 1]);
    }
  }

  /** A decimal is written without a trailing zero, and without a point when nothing follows it. */
  lemma WrittenShort(neg: bool, n: nat)
    ensures var s := FormatMicro(neg, n);
            && (n % 1_000_000 == 0 ==> s == (if neg then "-" else "") + Digits(n / 1_000_000))
            && (n % 1_000_000 != 0 ==> s[|s| - 1] != '0' && s[|s| - 1] != '.')
  {
    var low := n % 1_000_000;
    if low != 0 {
      var frac := FractionDigits(low);
      NoTrailingZero(Padded(low, 6));
      assert FormatMicro(neg, n)[|FormatMicro(neg, n)| - 1] == frac[|frac| - 1];
    }
  }

  // ---- what is listed ------------------------------------------------------

  /** The step of a domain that names none. */
  function StepOf(d: Domain): int { if d.step > 0 then d.step else if d.kind == KnobInt then 1_000_000 else 50_000 }

  lemma RoundUnitsNearest(v: int)
    ensures var n := RoundUnits(v);
            && -500_000 <= v - n * 1_000_000 <= 500_000
            && (v - n * 1_000_000 == 500_000 ==> v < 0) && (v - n * 1_000_000 == -500_000 ==> v > 0)
  {
  }

  /** The candidates of a numeric domain: from min in steps up to max, at most 64 of them, an integer
      rounded to whole units. */
  lemma CandidatesAre(d: Domain, i: nat)
    requires d.kind == KnobInt || d.kind == KnobFloat
    ensures var v := d.min + i * StepOf(d);
            && (i < |d.Candidates()| <==> i < 64 && v <= d.max)
            && (i < |d.Candidates()| ==>
                  d.Candidates()[i] == if d.kind == KnobInt then Itoa(RoundUnits(v))
                                       else FormatMicro(v < 0, if v < 0 then 0 - v else v))
  {
    if i < 64 {
      GridMember(d, i);
    }
  }

  /** A wider window stretches a token budget by its multiple of 16384, up to four, and nothing else. */
  lemma StretchIs(key: string, d: Domain, window: int)
    ensures var scaled := ScaleDomain(key, d, window);
            var k := if window < 32768 then 1 else if window < 49152 then 2 else if window < 65536 then 3 else 4;
            scaled == if d.kind == KnobInt && key in ["max_tokens", "memory_tokens", "repo_map_tokens"]
                      then d.(max := d.max * k, step := if d.step > 0 then d.step * k else d.step) else d
  {
  }
}
