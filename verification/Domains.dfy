/** pkg/autoresearch/surface.go and scale.go: the values a knob may take.
    Bounds and steps are whole micro-units, the resolution formatFloat keeps. */
module Domains {
  import opened Text
  import opened Decimal
  import opened Float64

  const MAX_PROMPT_LEN: nat := 8000
  const MAX_CANDIDATES: nat := 64
  const UNIT: int := 1_000_000

  datatype Kind = KnobFloat | KnobInt | KnobEnum | KnobBool | KnobText

  datatype Domain = Domain(kind: Kind, min: int, max: int, step: int, values: seq<string>, maxLen: int) {

    function EffectiveStep(): (s: int)
      ensures s > 0
    {
      if step > 0 then step else if kind == KnobInt then UNIT else 50_000
    }

    /** How one grid point is written in YAML. */
    function Render(v: int): string {
      if kind == KnobInt then Itoa(RoundUnits(v)) else FormatMicro(v < 0, if v < 0 then -v else v)
    }

    /** How many grid points Candidates enumerates. */
    function GridCount(): (n: nat)
      ensures n <= MAX_CANDIDATES
    {
      CountSteps(min, max, EffectiveStep())
    }

    function Point(i: nat): string { Render(min + i * EffectiveStep()) }

    function Grid(): (g: seq<string>)
      ensures |g| == GridCount()
      ensures forall i :: 0 <= i < |g| ==> g[i] == Point(i)
    {
      seq(GridCount(), i requires 0 <= i => Point(i))
    }

    /** The enumeration of the domain; a text domain has none. */
    function Candidates(): seq<string> {
      match kind
      case KnobEnum => values
      case KnobBool => values
      case KnobInt => Grid()
      case KnobFloat => Grid()
      case KnobText => []
    }

    /** Membership. The 1e-9 slack is below one micro-unit, so it only shows for a
        decimal finer than the grid. */
    predicate Allows(value: string) {
      match kind
      case KnobEnum => value in values
      case KnobBool => value in values
      case KnobInt => AllowsInt(min, max, Trim(value))
      case KnobFloat => AllowsFloat(min, max, Trim(value))
      case KnobText =>
        var v := Trim(value);
        v != "" && ByteLength(v) <= if maxLen <= 0 then MAX_PROMPT_LEN else maxLen
    }

    /** A raw YAML scalar written the way the domain writes it. */
    function Normalize(raw: string): string {
      var v := Trim(raw);
      match kind
      case KnobInt => NormalizeInt(v)
      case KnobFloat => NormalizeFloat(v)
      case KnobBool => NormalizeBool(v)
      case KnobEnum => ToLower(v)
      case KnobText => v
    }
  }

  predicate AllowsInt(min: int, max: int, v: string) {
    var n := Atoi(v);
    n.Some? && min <= n.value * UNIT <= max
  }

  predicate AllowsFloat(min: int, max: int, v: string) {
    var d := ParseDec(v);
    d.Some? && AtLeast(d.value, min * 1000 - 1) && AtMost(d.value, max * 1000 + 1)
  }

  function NormalizeInt(v: string): string {
    var d := ParseDec(v);
    if d.Some? then Itoa(RoundInt(d.value)) else v
  }

  function NormalizeFloat(v: string): string {
    var d := ParseDec(v);
    if d.Some? then FormatMicro(d.value.neg, Micro(d.value)) else v
  }

  function NormalizeBool(v: string): string {
    var l := ToLower(v);
    if l == "true" || l == "yes" || l == "on" then "true"
    else if l == "false" || l == "no" || l == "off" then "false"
    else v
  }

  /** Grid points lo, lo + s, ... that do not pass hi, capped. */
  function CountSteps(lo: int, hi: int, s: int): (n: nat)
    requires s > 0
    ensures n <= MAX_CANDIDATES
  {
    if lo > hi then 0
    else
      var steps := (hi - lo) / s + 1;
      if steps < MAX_CANDIDATES then steps else MAX_CANDIDATES
  }

  /** len() of a string: its UTF-8 size. */
  function ByteLength(s: string): nat {
    if s == [] then 0
    else
      var n := s[0] as int;
      (if n < 0x80 then 1 else if n < 0x800 then 2 else if n < 0x1_0000 then 3 else 4) + ByteLength(s[1..])
  }

  /** math.Round of a micro-unit number to whole units, halves away from zero. */
  function RoundUnits(v: int): int {
    if v < 0 then -((-v + UNIT / 2) / UNIT) else (v + UNIT / 2) / UNIT
  }

  /** mant / 10^scale in nano-units against a bound, cross-multiplied. */
  function Nano(d: Dec): int {
    var n := d.mant * Pow10(if d.scale < 0 then 9 - d.scale else 9);
    if d.neg then -n else n
  }

  predicate AtLeast(d: Dec, bound: int) {
    Nano(d) >= bound * Pow10(if d.scale < 0 then 0 else d.scale)
  }

  predicate AtMost(d: Dec, bound: int) {
    Nano(d) <= bound * Pow10(if d.scale < 0 then 0 else d.scale)
  }

  /** Candidates as the source computes it: walk the grid until it leaves the range
      or the cap is reached. */
  method EnumerateGrid(d: Domain) returns (out: seq<string>)
    requires d.kind == KnobInt || d.kind == KnobFloat
    ensures out == d.Candidates()
  {
    out := [];
    var i := 0;
    while i < MAX_CANDIDATES
      invariant 0 <= i <= d.GridCount()
      invariant out == d.Grid()[..i]
    {
      var v := d.min + i * d.EffectiveStep();
      GridMember(d, i);
      if v > d.max {
        break;
      }
      assert d.Grid()[..i + 1] == d.Grid()[..i] + [d.Point(i)];
      out := out + [d.Render(v)];
      i := i + 1;
    }
    assert d.Grid()[..d.GridCount()] == d.Grid();
  }

  lemma DivBounds(a: int, s: int, k: int)
    requires s > 0
    ensures a / s >= k <==> a >= k * s
  {
    var q := a / s;
    assert q * s <= a < (q + 1) * s;
    if q >= k { assert q * s >= k * s; } else { assert (q + 1) * s <= k * s; }
  }

  lemma GridMember(d: Domain, i: nat)
    requires i < MAX_CANDIDATES
    ensures i < d.GridCount() <==> d.min + i * d.EffectiveStep() <= d.max
  {
    var s := d.EffectiveStep();
    DivBounds(d.max - d.min, s, i);
    NonNegative(i, s);
  }

  lemma NonNegative(i: nat, s: nat)
    ensures i * s >= 0
  {
  }

  // ---- normal forms -------------------------------------------------------

  lemma KnownWords()
    ensures Trimmed("true") && Trimmed("false")
    ensures ToLower("true") == "true" && ToLower("false") == "false"
  {
    assert ToLower("true") == "true";
    assert ToLower("false") == "false";
  }

  lemma IntFixed(v: string)
    ensures var w := NormalizeInt(v); NormalizeInt(w) == w && (Trimmed(v) ==> Trimmed(w))
  {
    if ParseDec(v).Some? {
      ParseItoa(RoundInt(ParseDec(v).value));
    }
  }

  lemma FloatFixed(v: string)
    ensures var w := NormalizeFloat(v); NormalizeFloat(w) == w && (Trimmed(v) ==> Trimmed(w))
  {
    if ParseDec(v).Some? {
      ParseFormatMicro(ParseDec(v).value.neg, Micro(ParseDec(v).value));
    }
  }

  lemma BoolFixed(v: string)
    ensures var w := NormalizeBool(v); NormalizeBool(w) == w && (Trimmed(v) ==> Trimmed(w))
  {
    KnownWords();
  }

  /** A number that keeps its six decimals in a double: up to 2^32, by Float64.MicroSurvives. */
  predicate Steady(v: string) {
    ParseDec(v).Some? ==> Micro(ParseDec(v).value) <= SIX_DECIMALS
  }

  /** Normalizing twice is normalizing once, for every kind and every raw text; a float must be no
      larger than 2^32, above which a double loses the last of the six decimals. */
  lemma NormalizeIdempotent(d: Domain, raw: string)
    requires d.kind == KnobFloat ==> Steady(Trim(raw))
    ensures d.Normalize(d.Normalize(raw)) == d.Normalize(raw)
  {
    var v := Trim(raw);
    TrimIsTrimmed(raw);
    TrimIsTrimmed(d.Normalize(raw));
    match d.kind {
      case KnobInt => IntFixed(v);
      case KnobFloat => FloatFixed(v);
      case KnobBool => BoolFixed(v);
      case KnobEnum => LowerIdempotent(v);
      case KnobText =>
    }
  }

  /** A domain whose candidates are spelled in normal form: an integer domain on whole
      units, or an enumeration listing distinct normalized values. */
  ghost predicate WellGridded(d: Domain) {
    && (d.kind == KnobFloat ==> -SIX_DECIMALS <= d.min && d.max <= SIX_DECIMALS)
    && (d.kind == KnobInt ==> d.min % UNIT == 0 && d.EffectiveStep() % UNIT == 0
                              && -MAX_INT64 <= d.min && d.max <= MAX_INT64)
    && (d.kind == KnobEnum || d.kind == KnobBool ==>
          && (forall v :: v in d.values ==> d.Normalize(v) == v)
          && (forall i, j :: 0 <= i < j < |d.values| ==> d.values[i] != d.values[j]))
  }

  lemma FormatMicroInjective(a: int, b: int)
    requires FormatMicro(a < 0, if a < 0 then -a else a) == FormatMicro(b < 0, if b < 0 then -b else b)
    ensures a == b
  {
    ParseFormatMicro(a < 0, if a < 0 then -a else a);
    ParseFormatMicro(b < 0, if b < 0 then -b else b);
  }

  /** Moving up a whole-unit grid moves the rounded value by exactly the whole units. */
  lemma RoundWhole(v: int)
    requires v % UNIT == 0
    ensures RoundUnits(v) * UNIT == v
  {
  }

  lemma GridWhole(min: int, step: int, i: nat)
    requires min % UNIT == 0 && step % UNIT == 0
    ensures (min + i * step) % UNIT == 0
  {
    var a, b := min / UNIT, step / UNIT;
    assert min == UNIT * a && step == UNIT * b;
    assert i * step == UNIT * (i * b) by { assert i * (UNIT * b) == UNIT * (i * b); }
    assert min + i * step == UNIT * (a + i * b);
  }

  /** One grid point of a coherent domain is in range and in normal form. */
  lemma GridPoint(d: Domain, i: nat)
    requires WellGridded(d) && (d.kind == KnobInt || d.kind == KnobFloat)
    requires i < d.GridCount()
    ensures var c := d.Point(i); d.Allows(c) && d.Normalize(c) == c
  {
    var v := GridValue(d, i);
    if d.kind == KnobInt { IntPoint(d, v); } else { FloatPoint(d, v); }
  }

  lemma GridValue(d: Domain, i: nat) returns (v: int)
    requires WellGridded(d) && i < d.GridCount()
    ensures d.Point(i) == d.Render(v) && d.min <= v <= d.max
    ensures d.kind == KnobInt ==> v % UNIT == 0
  {
    v := d.min + i * d.EffectiveStep();
    GridMember(d, i);
    NonNegative(i, d.EffectiveStep());
    if d.kind == KnobInt {
      GridWhole(d.min, d.EffectiveStep(), i);
    }
  }

  lemma IntPoint(d: Domain, v: int)
    requires WellGridded(d) && d.kind == KnobInt && d.min <= v <= d.max && v % UNIT == 0
    ensures d.Allows(d.Render(v)) && d.Normalize(d.Render(v)) == d.Render(v)
  {
    IntSpelling(d.min, d.max, v);
    TrimIsTrimmed(d.Render(v));
  }

  lemma IntSpelling(lo: int, hi: int, v: int)
    requires -MAX_INT64 <= lo <= v <= hi <= MAX_INT64 && v % UNIT == 0
    ensures var c := Itoa(RoundUnits(v)); Trimmed(c) && AllowsInt(lo, hi, c) && NormalizeInt(c) == c
  {
    RoundWhole(v);
    AtoiItoa(RoundUnits(v));
    ParseItoa(RoundUnits(v));
  }

  lemma FloatPoint(d: Domain, v: int)
    requires d.kind == KnobFloat && d.min <= v <= d.max
    ensures d.Allows(d.Render(v)) && d.Normalize(d.Render(v)) == d.Render(v)
  {
    var m := if v < 0 then -v else v;
    var c, dec := Spelled(v < 0, m);
    DecAllowed(d.min, d.max, v, c, dec);
    FormatFixed(v < 0, m);
    TrimIsTrimmed(c);
  }

  /** What formatFloat writes and ParseFloat reads back. */
  lemma Spelled(neg: bool, n: nat) returns (c: string, dec: Dec)
    ensures c == FormatMicro(neg, n) && Trimmed(c) && ParseDec(c) == Some(dec)
    ensures dec.neg == neg && 0 <= dec.scale <= 6 && dec.mant * Pow10(6 - dec.scale) == n
  {
    ParseFormatMicro(neg, n);
    c := FormatMicro(neg, n);
    dec := ParseDec(c).value;
  }

  lemma FormatFixed(neg: bool, m: nat)
    ensures NormalizeFloat(FormatMicro(neg, m)) == FormatMicro(neg, m)
  {
    ParseFormatMicro(neg, m);
  }

  lemma DecAllowed(lo: int, hi: int, v: int, c: string, dec: Dec)
    requires ParseDec(c) == Some(dec) && lo <= v <= hi
    requires 0 <= dec.scale <= 6 && dec.neg == (v < 0)
    requires dec.mant * Pow10(6 - dec.scale) == if v < 0 then -v else v
    ensures AllowsFloat(lo, hi, c)
  {
    NanoOfSpelling(v, dec);
    InRange(lo, hi, v, dec);
  }

  lemma InRange(lo: int, hi: int, v: int, d: Dec)
    requires lo <= v <= hi && d.scale >= 0 && Nano(d) == v * 1000 * Pow10(d.scale)
    ensures AtLeast(d, lo * 1000 - 1) && AtMost(d, hi * 1000 + 1)
  {
    var p := Pow10(d.scale);
    assert v * 1000 * p >= (lo * 1000 - 1) * p;
    assert v * 1000 * p <= (hi * 1000 + 1) * p;
  }

  lemma NanoOfSpelling(v: int, d: Dec)
    requires 0 <= d.scale <= 6 && d.neg == (v < 0)
    requires d.mant * Pow10(6 - d.scale) == if v < 0 then -v else v
    ensures Nano(d) == v * 1000 * Pow10(d.scale)
  {
    PowSplit(6 - d.scale, d.scale);
    PowSplit(6, 3);
    assert Pow10(3) == 1000;
    var m, p, q := d.mant, Pow10(6 - d.scale), Pow10(d.scale);
    assert m * (p * q * 1000) == (m * p) * 1000 * q;
  }

  lemma CancelFactor(a: int, b: int, p: int)
    requires p > 0 && a * p <= b * p
    ensures a <= b
  {
  }

  lemma NanoWithin(lo: int, hi: int, v: int, p: nat)
    requires p > 0 && (lo * 1000 - 1) * p <= v * 1000 * p <= (hi * 1000 + 1) * p
    ensures lo <= v <= hi
  {
    CancelFactor(v * 1000, hi * 1000 + 1, p);
    CancelFactor(lo * 1000 - 1, v * 1000, p);
  }

  lemma SpellingWithin(lo: int, hi: int, v: int, c: string, dec: Dec)
    requires ParseDec(c) == Some(dec) && AllowsFloat(lo, hi, c)
    requires 0 <= dec.scale <= 6 && dec.neg == (v < 0)
    requires dec.mant * Pow10(6 - dec.scale) == if v < 0 then -v else v
    ensures lo <= v <= hi
  {
    NanoOfSpelling(v, dec);
    NanoWithin(lo, hi, v, Pow10(dec.scale));
  }

  /** Whatever a coherent float domain lets through keeps its six decimals. */
  lemma AllowedIsSteady(d: Domain, raw: string)
    requires WellGridded(d) && d.kind == KnobFloat && d.Allows(d.Normalize(raw))
    ensures Steady(Trim(raw))
  {
    AllowedText(d.min, d.max, Trim(raw));
  }

  lemma AllowedText(lo: int, hi: int, v: string)
    requires -SIX_DECIMALS <= lo && hi <= SIX_DECIMALS
    requires AllowsFloat(lo, hi, Trim(NormalizeFloat(v)))
    ensures Steady(v)
  {
    var parsed := ParseDec(v);
    if parsed.Some? && Micro(parsed.value) > 0 {
      var neg := parsed.value.neg;
      var n: int := Micro(parsed.value);
      var c, dec := Spelled(neg, n);
      TrimIsTrimmed(c);
      SpellingWithin(lo, hi, if neg then -n else n, c, dec);
    }
  }

  lemma GridDistinct(d: Domain, i: nat, j: nat)
    requires WellGridded(d) && (d.kind == KnobInt || d.kind == KnobFloat)
    requires i < j < d.GridCount()
    ensures d.Point(i) != d.Point(j)
  {
    var s := d.EffectiveStep();
    var v, w := d.min + i * s, d.min + j * s;
    assert w - v == (j - i) * s && (j - i) * s > 0;
    if d.Render(v) == d.Render(w) {
      if d.kind == KnobInt {
        GridWhole(d.min, s, i);
        GridWhole(d.min, s, j);
        RoundWhole(v);
        RoundWhole(w);
        ItoaInjective(RoundUnits(v), RoundUnits(w));
      } else {
        FormatMicroInjective(v, w);
      }
      assert false;
    }
  }

  lemma GridAllowed(d: Domain)
    requires WellGridded(d) && (d.kind == KnobInt || d.kind == KnobFloat)
    ensures forall c :: c in d.Grid() ==> d.Allows(c) && d.Normalize(c) == c
  {
    forall c | c in d.Grid() ensures d.Allows(c) && d.Normalize(c) == c {
      var i :| 0 <= i < |d.Grid()| && d.Grid()[i] == c;
      assert c == d.Point(i);
      GridPoint(d, i);
    }
  }

  lemma GridAllDistinct(d: Domain)
    requires WellGridded(d) && (d.kind == KnobInt || d.kind == KnobFloat)
    ensures forall i, j :: 0 <= i < j < |d.Grid()| ==> d.Grid()[i] != d.Grid()[j]
  {
    forall i, j | 0 <= i < j < |d.Grid()|
      ensures d.Grid()[i] != d.Grid()[j]
    {
      GridDistinct(d, i, j);
    }
  }

  lemma ListCoherent(d: Domain)
    requires WellGridded(d) && (d.kind == KnobEnum || d.kind == KnobBool)
    ensures forall c :: c in d.values ==> d.Allows(c) && d.Normalize(c) == c
  {
  }

  /** Every candidate of a coherent domain is allowed, is its own normal form, and
      appears once: a deterministic proposal is never refused by Apply. */
  lemma CandidatesCoherent(d: Domain)
    requires WellGridded(d)
    ensures forall c :: c in d.Candidates() ==> d.Allows(c) && d.Normalize(c) == c
    ensures forall i, j :: 0 <= i < j < |d.Candidates()| ==> d.Candidates()[i] != d.Candidates()[j]
  {
    match d.kind {
      case KnobEnum => ListCoherent(d);
      case KnobBool => ListCoherent(d);
      case KnobInt => GridAllowed(d); GridAllDistinct(d);
      case KnobFloat => GridAllowed(d); GridAllDistinct(d);
      case KnobText =>
    }
  }

  // ---- scale.go -----------------------------------------------------------

  const BASELINE_WINDOW: int := 16384
  const MAX_DOMAIN_SCALE: int := 4
  const SCALABLE_TOKEN_KNOBS: set<string> := {"max_tokens", "memory_tokens", "repo_map_tokens"}

  /** The stretch factor for a context window: 1 unless the knob is a token budget. */
  function Stretch(key: string, kind: Kind, window: int): (m: int)
    ensures 1 <= m <= MAX_DOMAIN_SCALE
  {
    if window <= 0 || kind != KnobInt || key !in SCALABLE_TOKEN_KNOBS then 1
    else
      var mult := window / BASELINE_WINDOW;
      if mult <= 1 then 1 else if mult > MAX_DOMAIN_SCALE then MAX_DOMAIN_SCALE else mult
  }

  function ScaleDomain(key: string, d: Domain, window: int): Domain {
    var mult := Stretch(key, d.kind, window);
    if mult == 1 then d
    else d.(max := d.max * mult, step := if d.step > 0 then d.step * mult else d.step)
  }

  /** A wider window never shrinks the range: the floor stays, everything allowed stays
      allowed, the ceiling is at most four times the original. */
  lemma ScaleWidens(key: string, d: Domain, w0: int, w1: int)
    requires d.max >= 0 && w0 <= w1
    ensures var a, b := ScaleDomain(key, d, w0), ScaleDomain(key, d, w1);
            && a.kind == b.kind == d.kind && a.min == b.min == d.min
            && d.max <= a.max <= b.max <= MAX_DOMAIN_SCALE * d.max
            && (forall v :: d.Allows(v) ==> a.Allows(v))
            && (forall v :: a.Allows(v) ==> b.Allows(v))
  {
    var m0, m1 := Stretch(key, d.kind, w0), Stretch(key, d.kind, w1);
    assert m0 <= m1;
    assert d.max <= d.max * m0 <= d.max * m1 <= d.max * 4;
  }

  /** Scaling keeps the sweep about as long: never fewer candidates, and at most
      ceil(min/step) more. */
  lemma ScaleKeepsCount(key: string, d: Domain, window: int)
    requires d.kind == KnobInt && d.step > 0 && 0 <= d.min <= d.max
    ensures var scaled := ScaleDomain(key, d, window);
            d.GridCount() <= scaled.GridCount() <= d.GridCount() + (d.min + d.step - 1) / d.step
  {
    ScaledCount(d.min, d.max, d.step, Stretch(key, d.kind, window));
  }

  lemma ScaledCount(lo: int, hi: int, s: int, m: int)
    requires s > 0 && 0 <= lo <= hi && m >= 1 && s * m > 0
    ensures CountSteps(lo, hi, s) <= CountSteps(lo, hi * m, s * m) <= CountSteps(lo, hi, s) + (lo + s - 1) / s
  {
    assert hi * m >= hi;
    ScaledSteps(hi, lo, s, m);
    DivBounds(lo + s - 1, s, 0);
  }

  lemma ScaledSteps(hi: int, lo: int, s: int, m: int)
    requires s > 0 && 0 <= lo <= hi && m >= 1 && s * m > 0
    ensures (hi - lo) / s <= (hi * m - lo) / (s * m) <= (hi - lo) / s + (lo + s - 1) / s
  {
    var q, extra := (hi - lo) / s, (lo + s - 1) / s;
    DivBounds(hi - lo, s, q);
    DivBounds(hi - lo, s, q + 1);
    DivBounds(lo + s - 1, s, extra + 1);
    ScaledLower(hi, lo, s, m, q);
    DivBounds(hi * m - lo, s * m, q);
    ScaledUpper(hi, lo, s, m, q, extra);
    DivBounds(hi * m - lo, s * m, q + extra + 1);
  }

  lemma ScaledLower(hi: int, lo: int, s: int, m: int, q: int)
    requires hi - lo >= q * s && m >= 1 && lo >= 0
    ensures hi * m - lo >= q * (s * m)
  {
    assert (hi - lo) * m >= (q * s) * m;
    assert (hi - lo) * m == hi * m - lo * m;
    assert (q * s) * m == q * (s * m);
    assert lo * m >= lo;
  }

  lemma ScaledUpper(hi: int, lo: int, s: int, m: int, q: int, extra: int)
    requires hi - lo < (q + 1) * s && lo + s - 1 < (extra + 1) * s && m >= 1 && lo >= 0
    ensures hi * m - lo < (q + extra + 1) * (s * m)
  {
    assert lo <= extra * s;
    assert hi < (q + 1) * s + extra * s == (q + extra + 1) * s;
    assert hi * m < (q + extra + 1) * s * m;
    assert (q + extra + 1) * s * m == (q + extra + 1) * (s * m);
  }
}
