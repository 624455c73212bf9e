/** Decimal printing and parsing: strconv.Itoa, Atoi, ParseFloat and formatFloat,
    over exact decimals instead of binary floating point. */
module Decimal {
  import opened Text
  import opened Float64

  function Pow10(n: nat): (r: nat)
    ensures r > 0
  {
    if n == 0 then 1 else 10 * Pow10(n - 1)
  }

  predicate IsDigit(c: char) { '0' <= c <= '9' }

  predicate AllDigits(s: string) { forall i :: 0 <= i < |s| ==> IsDigit(s[i]) }

  function DigitChar(d: nat): (c: char)
    requires d < 10
    ensures IsDigit(c)
  {
    ('0' as int + d) as char
  }

  function DigitValue(c: char): (d: nat)
    requires IsDigit(c)
    ensures d < 10 && DigitChar(d) == c
  {
    c as int - '0' as int
  }

  function Value(s: string): nat
    requires AllDigits(s)
  {
    if s == [] then 0 else Value(s[..|s| - 1]) * 10 + DigitValue(s[|s| - 1])
  }

  function Digits(n: nat): (s: string)
    ensures |s| > 0 && AllDigits(s)
    ensures n > 0 ==> s[0] != '0'
  {
    if n < 10 then [DigitChar(n)] else Digits(n / 10) + [DigitChar(n % 10)]
  }

  /** A spelling Digits itself would produce: no superfluous leading zero. */
  predicate Canonical(s: string) {
    AllDigits(s) && s != [] && (s[0] == '0' ==> |s| == 1)
  }

  lemma {:induction false} ValueOfDigits(n: nat)
    ensures Value(Digits(n)) == n && Canonical(Digits(n))
  {
    var s := Digits(n);
    if n >= 10 {
      ValueOfDigits(n / 10);
      assert s[..|s| - 1] == Digits(n / 10);
    } else {
      assert s[..|s| - 1] == [];
    }
  }

  lemma {:induction false} DigitsOfValue(s: string)
    requires Canonical(s)
    ensures Digits(Value(s)) == s
    ensures Value(s) == 0 ==> s == "0"
  {
    var front := s[..|s| - 1];
    if |s| == 1 {
      assert front == [];
      assert s == [s[0]];
    } else {
      DigitsOfValue(front);
      assert Value(front) > 0;
      assert s == front + [s[|s| - 1]];
    }
  }

  lemma Shift(a: int, p: int, b: int, d: int)
    ensures (a * p + b) * 10 + d == a * (10 * p) + (b * 10 + d)
  {
  }

  lemma {:induction false} ValueConcat(a: string, b: string)
    requires AllDigits(a) && AllDigits(b)
    ensures AllDigits(a + b)
    ensures Value(a + b) == Value(a) * Pow10(|b|) + Value(b)
    decreases |b|
  {
    if b == [] {
      assert a + b == a;
    } else {
      var b' := b[..|b| - 1];
      ValueConcat(a, b');
      assert (a + b)[..|a + b| - 1] == a + b';
      Shift(Value(a), Pow10(|b'|), Value(b'), DigitValue(b[|b| - 1]));
    }
  }

  // ---- integers -----------------------------------------------------------


  function Itoa(n: int): string {
    if n < 0 then "-" + Digits(-n) else Digits(n)
  }

  /** strconv.Atoi: optional sign, at least one digit, and the value must fit an int64. */
  function Atoi(s: string): Option<int> {
    var signed := s != [] && (s[0] == '-' || s[0] == '+');
    var body := if signed then s[1..] else s;
    if body == [] || !AllDigits(body) then None
    else
      var n: int := Value(body);
      var n := if signed && s[0] == '-' then 0 - n else n;
      if -MAX_INT64 - 1 <= n <= MAX_INT64 then Some(n) else None
  }

  lemma DigitsStart(n: nat)
    ensures IsDigit(Digits(n)[0]) && Trimmed(Digits(n)) && Trimmed("-" + Digits(n))
    ensures ("-" + Digits(n))[1..] == Digits(n)
  {
    var s := Digits(n);
    assert IsDigit(s[0]) && IsDigit(s[|s| - 1]);
  }

  lemma AtoiItoa(n: int)
    ensures Trimmed(Itoa(n))
    ensures Atoi(Itoa(n)) == if -MAX_INT64 - 1 <= n <= MAX_INT64 then Some(n) else None
  {
    var m := if n < 0 then -n else n;
    ValueOfDigits(m);
    DigitsStart(m);
  }

  // ---- decimals -----------------------------------------------------------

  /** An exact decimal: (-1)^neg * mant / 10^scale. The sign is kept apart because
      ParseFloat("-0") and ParseFloat("0") render differently. */
  datatype Dec = Dec(neg: bool, mant: nat, scale: int)

  /** The first position holding one of two characters, or the length. */
  function Find(s: string, c: char, d: char): (i: nat)
    ensures i <= |s|
    ensures i < |s| ==> s[i] == c || s[i] == d
    ensures forall k :: 0 <= k < i ==> s[k] != c && s[k] != d
  {
    if s == [] || s[0] == c || s[0] == d then 0 else 1 + Find(s[1..], c, d)
  }

  /** The digits of a decimal: whole part and optional fraction, not both empty. */
  function ParseMantissa(number: string): Option<(nat, nat)> {
    var dot := Find(number, '.', '.');
    var whole := number[..dot];
    var frac := if dot == |number| then "" else number[dot + 1..];
    if AllDigits(whole + frac) && whole + frac != "" then Some((Value(whole + frac), |frac|)) else None
  }

  /** strconv.ParseFloat on the decimal spellings: sign, digits, point, exponent. */
  function ParseDec(s: string): Option<Dec> {
    var signed := s != [] && (s[0] == '-' || s[0] == '+');
    ParseUnsigned(signed && s[0] == '-', if signed then s[1..] else s)
  }

  function ParseUnsigned(neg: bool, body: string): Option<Dec> {
    var e := Find(body, 'e', 'E');
    Placed(neg, ParseMantissa(body[..e]), if e == |body| then Some(0) else Atoi(body[e + 1..]))
  }

  /** Digits with the point moved by the exponent, if both were read. */
  function Placed(neg: bool, mantissa: Option<(nat, nat)>, exponent: Option<int>): Option<Dec> {
    if mantissa.None? || exponent.None? then None
    else Some(Dec(neg, mantissa.value.0, mantissa.value.1 - exponent.value))
  }

  function HalfUp(a: nat, b: nat): nat
    requires b > 0
  {
    (2 * a + b) / (2 * b)
  }

  /** mant / 10^scale rounded to an integer, halves away from zero. */
  function RoundScaled(mant: nat, scale: int): nat {
    if scale <= 0 then mant * Pow10(-scale)
    else HalfUp(mant, Pow10(scale))
  }

  /** The magnitude in micro-units, math.Round(f*1e6). */
  function Micro(d: Dec): nat { RoundScaled(d.mant, d.scale - 6) }

  /** int(math.Round(f)). */
  function RoundInt(d: Dec): int {
    var n: int := RoundScaled(d.mant, d.scale);
    if d.neg then -n else n
  }

  /** Exactly k decimal digits of n, zero padded. */
  function Padded(n: nat, k: nat): (s: string)
    ensures |s| == k && AllDigits(s)
  {
    if k == 0 then "" else Padded(n / 10, k - 1) + [DigitChar(n % 10)]
  }

  function DropTrailingZeros(s: string): (r: string)
    ensures r <= s
  {
    if s != [] && s[|s| - 1] == '0' then DropTrailingZeros(s[..|s| - 1]) else s
  }

  /** formatFloat of a micro-unit magnitude: shortest decimal, no trailing zeros. */
  function FormatMicro(neg: bool, n: nat): string {
    (if neg then "-" else "") + Digits(n / 1_000_000)
    + (if n % 1_000_000 == 0 then "" else "." + DropTrailingZeros(Padded(n % 1_000_000, 6)))
  }

  lemma {:induction false} PaddedValue(n: nat, k: nat)
    requires n < Pow10(k)
    ensures Value(Padded(n, k)) == n
  {
    if k > 0 {
      PaddedValue(n / 10, k - 1);
      assert Padded(n, k)[..k - 1] == Padded(n / 10, k - 1);
    }
  }

  lemma {:induction false} DropTrailingZerosValue(s: string)
    requires AllDigits(s)
    ensures AllDigits(DropTrailingZeros(s))
    ensures Value(s) == Value(DropTrailingZeros(s)) * Pow10(|s| - |DropTrailingZeros(s)|)
    ensures DropTrailingZeros(s) == [] ==> Value(s) == 0
  {
    if s != [] && s[|s| - 1] == '0' {
      var t := s[..|s| - 1];
      DropTrailingZerosValue(t);
      assert DigitValue(s[|s| - 1]) == 0;
      var r := DropTrailingZeros(t);
      Shift(Value(r), Pow10(|t| - |r|), 0, 0);
      assert |s| - |r| == (|t| - |r|) + 1;
    }
  }

  lemma Pow10Six()
    ensures Pow10(6) == 1_000_000
  {
    assert Pow10(3) == 1000;
    assert Pow10(6) == 1000 * Pow10(3);
  }

  lemma {:induction false} PowSplit(a: nat, b: nat)
    ensures Pow10(a + b) == Pow10(a) * Pow10(b)
  {
    if b > 0 {
      PowSplit(a, b - 1);
    }
  }

  lemma Regroup(w: int, p: int, f: int, q: int)
    ensures (w * p + f) * q == w * (p * q) + f * q
  {
  }

  function Spelling(neg: bool, whole: string, frac: string): string {
    (if neg then "-" else "") + Body(whole, frac)
  }

  function Body(whole: string, frac: string): string {
    whole + (if frac == "" then "" else "." + frac)
  }

  lemma GlueMicro(whole: string, frac: string)
    requires AllDigits(whole) && AllDigits(frac) && |frac| <= 6
    ensures AllDigits(whole + frac)
    ensures Value(whole + frac) * Pow10(6 - |frac|) == Value(whole) * 1_000_000 + Value(frac) * Pow10(6 - |frac|)
  {
    ValueConcat(whole, frac);
    PowSplit(|frac|, 6 - |frac|);
    Pow10Six();
    Regroup(Value(whole), Pow10(|frac|), Value(frac), Pow10(6 - |frac|));
  }

  lemma FractionDigits(low: nat) returns (frac: string)
    requires low < 1_000_000
    ensures frac == if low == 0 then "" else DropTrailingZeros(Padded(low, 6))
    ensures low != 0 ==> frac != ""
    ensures AllDigits(frac) && |frac| <= 6 && Value(frac) * Pow10(6 - |frac|) == low
  {
    Pow10Six();
    PaddedValue(low, 6);
    DropTrailingZerosValue(Padded(low, 6));
    frac := if low == 0 then "" else DropTrailingZeros(Padded(low, 6));
  }

  /** The two digit strings formatFloat prints, and the number they spell together. */
  lemma FormatMicroParts(neg: bool, n: nat)
    returns (whole: string, frac: string)
    ensures AllDigits(whole) && AllDigits(frac) && whole != "" && |frac| <= 6
    ensures FormatMicro(neg, n) == Spelling(neg, whole, frac)
    ensures AllDigits(whole + frac) && Value(whole + frac) * Pow10(6 - |frac|) == n
  {
    var high, low := n / 1_000_000, n % 1_000_000;
    whole := Digits(high);
    ValueOfDigits(high);
    frac := FractionDigits(low);
    GlueMicro(whole, frac);
    FormatIsSpelling(neg, high, low, frac);
  }

  lemma FormatIsSpelling(neg: bool, high: nat, low: nat, frac: string)
    requires low < 1_000_000
    requires frac == if low == 0 then "" else DropTrailingZeros(Padded(low, 6))
    requires low != 0 ==> frac != ""
    ensures FormatMicro(neg, high * 1_000_000 + low) == Spelling(neg, Digits(high), frac)
  {
  }

  lemma FindAt(s: string, c: char, i: nat)
    requires i <= |s|
    requires forall k :: 0 <= k < i ==> s[k] != c
    requires i < |s| ==> s[i] == c
    ensures Find(s, c, c) == i
  {
  }

  lemma FindNone(s: string, c: char, d: char)
    requires forall k :: 0 <= k < |s| ==> s[k] != c && s[k] != d
    ensures Find(s, c, d) == |s|
  {
  }

  lemma MantissaOfBody(whole: string, frac: string)
    requires AllDigits(whole) && AllDigits(frac) && whole != ""
    ensures AllDigits(whole + frac)
    ensures ParseMantissa(Body(whole, frac)) == Some((Value(whole + frac), |frac|))
  {
    var body := Body(whole, frac);
    BodyAt(whole, frac);
    FindAt(body, '.', |whole|);
    assert body[..|whole|] == whole;
    assert frac != "" ==> body[|whole| + 1..] == frac;
  }

  /** Where the point of a spelling is. */
  lemma BodyAt(whole: string, frac: string)
    requires AllDigits(whole) && AllDigits(frac)
    ensures var body := Body(whole, frac);
            && |whole| <= |body| && (|whole| < |body| <==> frac != "")
            && (forall k :: 0 <= k < |body| ==> body[k] == '.' || IsDigit(body[k]))
            && (forall k :: 0 <= k < |whole| ==> body[k] != '.')
            && (|whole| < |body| ==> body[|whole|] == '.')
  {
  }

  lemma ParseBody(neg: bool, whole: string, frac: string)
    requires AllDigits(whole) && AllDigits(frac) && whole != ""
    ensures AllDigits(whole + frac)
    ensures ParseUnsigned(neg, Body(whole, frac)) == Some(Dec(neg, Value(whole + frac), |frac|))
  {
    var body := Body(whole, frac);
    BodyAt(whole, frac);
    FindNone(body, 'e', 'E');
    assert body[..|body|] == body;
    MantissaOfBody(whole, frac);
  }

  lemma SignSplit(neg: bool, body: string)
    requires body != "" && IsDigit(body[0]) && IsDigit(body[|body| - 1])
    ensures Trimmed((if neg then "-" else "") + body)
    ensures ParseDec((if neg then "-" else "") + body) == ParseUnsigned(neg, body)
  {
    var s := (if neg then "-" else "") + body;
    assert s[|s| - 1] == body[|body| - 1];
    if neg {
      assert s[0] == '-';
      assert s[1..] == body;
    } else {
      assert s == body;
    }
  }

  lemma ParseSpelling(neg: bool, whole: string, frac: string)
    requires AllDigits(whole) && AllDigits(frac) && whole != ""
    ensures AllDigits(whole + frac)
    ensures ParseDec(Spelling(neg, whole, frac)) == Some(Dec(neg, Value(whole + frac), |frac|))
    ensures Trimmed(Spelling(neg, whole, frac))
  {
    ParseBody(neg, whole, frac);
    SignSplit(neg, Body(whole, frac));
  }

  /** Printing a micro-unit number and parsing it back recovers it exactly, sign included. */
  lemma ParseFormatMicro(neg: bool, n: nat)
    ensures Trimmed(FormatMicro(neg, n))
    ensures ParseDec(FormatMicro(neg, n)).Some?
    ensures var d := ParseDec(FormatMicro(neg, n)).value;
            d.neg == neg && Micro(d) == n && 0 <= d.scale <= 6 && d.mant * Pow10(6 - d.scale) == n
  {
    var whole, frac := FormatMicroParts(neg, n);
    ParseSpelling(neg, whole, frac);
  }

  /** An integer spelling read as a float rounds back to the integer. */
  lemma ParseItoa(n: int)
    ensures Trimmed(Itoa(n))
    ensures ParseDec(Itoa(n)).Some? && RoundInt(ParseDec(Itoa(n)).value) == n
  {
    var m := if n < 0 then -n else n;
    ValueOfDigits(m);
    ParseSpelling(n < 0, Digits(m), "");
    assert Itoa(n) == Spelling(n < 0, Digits(m), "");
    assert Digits(m) + "" == Digits(m);
    assert Pow10(0) == 1;
  }

  lemma ItoaInjective(a: int, b: int)
    requires Itoa(a) == Itoa(b)
    ensures a == b
  {
    ParseItoa(a);
    ParseItoa(b);
  }
}
