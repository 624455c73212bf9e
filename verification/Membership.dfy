/** Which values a domain lets through, from both sides, and what Apply therefore refuses. */
module Membership {
  import opened Text
  import opened Decimal
  import opened Float64
  import opened Domains
  import opened YamlEdit
  import opened Disk
  import opened Surface

  /** A number written in digits, with an optional sign. */
  predicate Spells(t: string, n: int) {
    var signed := t != "" && (t[0] == '-' || t[0] == '+');
    var digits := if signed then t[1..] else t;
    digits != "" && AllDigits(digits) && n == if signed && t[0] == '-' then 0 - Value(digits) else Value(digits)
  }

  predicate IsInt64(n: int) { -MAX_INT64 - 1 <= n <= MAX_INT64 }

  /** The real number a decimal stands for. */
  function DecReal(d: Dec): real {
    var m := (if d.neg then 0 - d.mant else d.mant) as real;
    if d.scale >= 0 then m / Pow10(d.scale) as real else m * Pow10(-d.scale) as real
  }

  function TextLimit(d: Domain): int { if d.maxLen <= 0 then 8000 else d.maxLen }

  /** What the values of a domain are, kind by kind. */
  ghost predicate InBounds(d: Domain, v: string) {
    match d.kind
    case KnobInt => exists n: int :: Spells(Trim(v), n) && IsInt64(n) && d.min <= n * 1_000_000 <= d.max
    case KnobFloat =>
      && ParseDec(Trim(v)).Some?
      && var x := DecReal(ParseDec(Trim(v)).value) * 1_000_000_000.0;
         (d.min * 1000 - 1) as real <= x <= (d.max * 1000 + 1) as real
    case KnobEnum => exists i :: 0 <= i < |d.values| && d.values[i] == v
    case KnobBool => exists i :: 0 <= i < |d.values| && d.values[i] == v
    case KnobText => Trim(v) != "" && ByteLength(Trim(v)) <= TextLimit(d)
  }

  lemma AtoiSpells(t: string, n: int)
    ensures Atoi(t) == Some(n) <==> Spells(t, n) && IsInt64(n)
  {
  }

  lemma Billion()
    ensures Pow10(9) == 1_000_000_000
  {
    PowSplit(6, 3);
    assert Pow10(3) == 1000;
    assert Pow10(6) == 1_000_000;
  }

  lemma NanoReal(d: Dec)
    ensures Nano(d) as real == DecReal(d) * 1_000_000_000.0 * Pow10(if d.scale < 0 then 0 else d.scale) as real
  {
    var m: int := if d.neg then 0 - d.mant else d.mant;
    Billion();
    if d.scale < 0 {
      NanoLarge(d, m, Pow10(-d.scale));
    } else {
      assert Nano(d) == m * 1_000_000_000;
      RealQuotient(m as real, Pow10(d.scale) as real);
    }
  }

  lemma NanoLarge(d: Dec, m: int, p: nat)
    requires d.scale < 0 && m == (if d.neg then 0 - d.mant else d.mant) && p == Pow10(-d.scale)
    ensures Nano(d) as real == m as real * p as real * 1_000_000_000.0
  {
    Billion();
    PowSplit(9, -d.scale);
    assert Nano(d) == m * (1_000_000_000 * p);
    RealProduct(m, 1_000_000_000, p);
  }

  lemma RealProduct(m: int, a: int, p: int)
    ensures (m * (a * p)) as real == m as real * p as real * a as real
  {
    assert m * (a * p) == m * p * a;
    assert (m * p) as real == m as real * p as real;
  }

  lemma RealQuotient(m: real, p: real)
    requires p > 0.0
    ensures m / p * 1_000_000_000.0 * p == m * 1_000_000_000.0
  {
    assert m / p * p == m;
  }

  lemma ScaleBoth(x: real, bound: int, p: nat, nano: int)
    requires p > 0 && nano as real == x * p as real
    ensures nano >= bound * p <==> x >= bound as real
    ensures nano <= bound * p <==> x <= bound as real
  {
    assert (bound * p) as real == bound as real * p as real;
    if x >= bound as real {
      assert (x - bound as real) * p as real >= 0.0;
    } else {
      assert (bound as real - x) * p as real > 0.0;
    }
    if x <= bound as real {
      assert (bound as real - x) * p as real >= 0.0;
    } else {
      assert (x - bound as real) * p as real > 0.0;
    }
  }

  lemma BetweenReal(d: Dec, lo: int, hi: int)
    ensures AtLeast(d, lo) && AtMost(d, hi) <==>
            lo as real <= DecReal(d) * 1_000_000_000.0 <= hi as real
  {
    NanoReal(d);
    var p := Pow10(if d.scale < 0 then 0 else d.scale);
    ScaleBoth(DecReal(d) * 1_000_000_000.0, lo, p, Nano(d));
    ScaleBoth(DecReal(d) * 1_000_000_000.0, hi, p, Nano(d));
  }

  lemma IntAllowsIff(d: Domain, v: string)
    requires d.kind == KnobInt
    ensures d.Allows(v) <==> InBounds(d, v)
  {
    var t := Trim(v);
    if d.Allows(v) {
      AtoiSpells(t, Atoi(t).value);
    }
    if InBounds(d, v) {
      var n: int :| Spells(t, n) && IsInt64(n) && d.min <= n * 1_000_000 <= d.max;
      AtoiSpells(t, n);
    }
  }

  lemma FloatAllowsIff(d: Domain, v: string)
    requires d.kind == KnobFloat
    ensures d.Allows(v) <==> InBounds(d, v)
  {
    var dec := ParseDec(Trim(v));
    if dec.Some? {
      BetweenReal(dec.value, d.min * 1000 - 1, d.max * 1000 + 1);
    }
  }

  /** Membership, exactly: an integer spelled out, of 64 bits and in the range; a decimal in the range
      to a thousandth of a millionth; a value on the list; a text that is neither blank nor longer
      than its limit in UTF-8 bytes. */
  lemma AllowsIff(d: Domain, v: string)
    ensures d.Allows(v) <==> InBounds(d, v)
  {
    match d.kind {
      case KnobInt => IntAllowsIff(d, v);
      case KnobFloat => FloatAllowsIff(d, v);
      case KnobEnum =>
      case KnobBool =>
      case KnobText =>
    }
  }

  /** On the numbers themselves. */
  lemma NumbersAllowedIff(d: Domain, n: int)
    ensures d.kind == KnobInt && IsInt64(n) ==> (d.Allows(Itoa(n)) <==> d.min <= n * 1_000_000 <= d.max)
    ensures d.kind == KnobFloat ==> (d.Allows(FormatMicro(n < 0, if n < 0 then -n else n)) <==> d.min <= n <= d.max)
  {
    if d.kind == KnobInt {
      AtoiItoa(n);
      TrimIsTrimmed(Itoa(n));
    } else if d.kind == KnobFloat {
      var c, dec := Spelled(n < 0, if n < 0 then -n else n);
      TrimIsTrimmed(c);
      if d.min <= n <= d.max {
        DecAllowed(d.min, d.max, n, c, dec);
      }
      if d.Allows(c) {
        SpellingWithin(d.min, d.max, n, c, dec);
      }
    }
  }

  // ---- the size of a text --------------------------------------------------

  lemma {:induction false} ByteLengthConcat(a: string, b: string)
    ensures ByteLength(a + b) == ByteLength(a) + ByteLength(b)
  {
    if a == [] {
      assert a + b == b;
    } else {
      assert (a + b)[1..] == a[1..] + b;
      ByteLengthConcat(a[1..], b);
    }
  }

  /** The sizes of section 3 of RFC 3629, one character at a time. */
  lemma ByteLengthOne(c: char)
    ensures var n := c as int;
            ByteLength([c]) == if n <= 0x7F then 1 else if n <= 0x7FF then 2 else if n <= 0xFFFF then 3 else 4
  {
    assert [c][1..] == [];
  }

  lemma {:induction false} ByteLengthAscii(v: string)
    requires forall i :: 0 <= i < |v| ==> v[i] as int <= 0x7F
    ensures ByteLength(v) == |v|
  {
    if v != [] {
      ByteLengthOne(v[0]);
      ByteLengthConcat([v[0]], v[1..]);
      assert v == [v[0]] + v[1..];
      ByteLengthAscii(v[1..]);
    }
  }

  // ---- what Apply refuses --------------------------------------------------

  /** Apply writes exactly when the knob is on the surface, its field is on the allow-list, the new
      value is in its bounds, its file parses and the write itself succeeds. */
  lemma AppliedIff(knobs: seq<Knob>, disk: Files, c: Change, fault: Option<string>)
    ensures Apply(knobs, disk, c, fault).Written? <==>
            && Lookup(knobs, c.knobID).Some?
            && var k := knobs[Lookup(knobs, c.knobID).value];
               MayWrite(k) && InBounds(k.domain, k.domain.Normalize(c.after)) && Load(disk, k.file).Some? && fault.None?
  {
    if Lookup(knobs, c.knobID).Some? {
      var d := knobs[Lookup(knobs, c.knobID).value].domain;
      AllowsIff(d, d.Normalize(c.after));
    }
  }

  function TagOf(kind: Kind): string {
    match kind
    case KnobInt => "!!int"
    case KnobFloat => "!!float"
    case KnobBool => "!!bool"
    case KnobEnum => "!!str"
    case KnobText => "!!str"
  }

  /** The node a value is written as: tagged by kind, a text of several lines as a literal block. */
  function NodeFor(kind: Kind, v: string): Node {
    var text := kind == KnobEnum || kind == KnobText;
    Scalar(TagOf(kind), v, if text && '\n' in v then LiteralStyle else PlainStyle)
  }

  lemma EditLeaves(root: seq<Entry>, k: Knob, v: string)
    requires k.source == Agent ==> k.field != "spec"
    ensures MapValue(Target(EditFor(root, k, v), k.source == Agent), k.field) == Some(NodeFor(k.domain.kind, v))
  {
    var nested, node := k.source == Agent, ScalarNode(v, k.domain.kind);
    EditTarget(root, nested, k.field, node);
    PutGet(Target(root, nested), k.field, node);
  }

  lemma AppliedShape(knobs: seq<Knob>, disk: Files, c: Change, fault: Option<string>) returns (at: nat, k: Knob)
    requires Apply(knobs, disk, c, fault).Written?
    ensures Lookup(knobs, c.knobID) == Some(at) && k == knobs[at] && Load(disk, k.file).Some?
    ensures var v, r := k.domain.Normalize(c.after), Apply(knobs, disk, c, fault);
            && r.knobs == knobs[at := k.(value := v, inFile := true)]
            && r.disk == disk[k.file := Document(EditFor(Load(disk, k.file).value, k, v))]
  {
    at := Lookup(knobs, c.knobID).value;
    k := knobs[at];
  }

  /** The new value v stands at the place of knob `at`; every other file and every other knob is as it was. */
  ghost predicate LeftBehind(knobs: seq<Knob>, disk: Files, at: nat, v: string, knobs': seq<Knob>, disk': Files)
    requires at < |knobs|
  {
    var k := knobs[at];
    && knobs' == knobs[at := k.(value := v, inFile := true)]
    && k.file in disk' && disk' == disk[k.file := disk'[k.file]]
    && Load(disk', k.file).Some?
    && MapValue(Target(Load(disk', k.file).value, k.source == Agent), k.field) == Some(NodeFor(k.domain.kind, v))
  }

  lemma EditLeavesBehind(knobs: seq<Knob>, disk: Files, at: nat, v: string)
    requires at < |knobs| && Load(disk, knobs[at].file).Some?
    requires knobs[at].source == Agent ==> knobs[at].field != "spec"
    ensures var k := knobs[at];
            LeftBehind(knobs, disk, at, v, knobs[at := k.(value := v, inFile := true)],
                       disk[k.file := Document(EditFor(Load(disk, k.file).value, k, v))])
  {
    EditLeaves(Load(disk, knobs[at].file).value, knobs[at], v);
  }

  /** What a written change leaves behind. */
  lemma AppliedWrites(knobs: seq<Knob>, disk: Files, c: Change, fault: Option<string>, at: nat)
    requires Apply(knobs, disk, c, fault).Written? && Lookup(knobs, c.knobID) == Some(at)
    requires knobs[at].source == Agent ==> knobs[at].field != "spec"
    ensures var r := Apply(knobs, disk, c, fault);
            LeftBehind(knobs, disk, at, knobs[at].domain.Normalize(c.after), r.knobs, r.disk)
  {
    var i, k := AppliedShape(knobs, disk, c, fault);
    EditLeavesBehind(knobs, disk, at, k.domain.Normalize(c.after));
  }

  /** A long answer of the model is not even proposed. */
  lemma LongPromptRefused(knobs: seq<Knob>, disk: Files, c: Change, fault: Option<string>)
    requires Lookup(knobs, c.knobID).Some? && knobs[Lookup(knobs, c.knobID).value].domain.kind == KnobText
    requires var d := knobs[Lookup(knobs, c.knobID).value].domain; ByteLength(Trim(c.after)) > TextLimit(d)
    ensures Apply(knobs, disk, c, fault).Refused?
  {
    TrimIsTrimmed(c.after);
    AppliedIff(knobs, disk, c, fault);
  }

  lemma NineThousand()
    ensures Itoa(9999) == "9999"
  {
    assert Digits(9) == "9";
    assert Digits(99) == Digits(9) + "9";
    assert Digits(999) == Digits(99) + "9";
    assert Digits(9999) == Digits(999) + "9";
  }

  lemma NumbersNormal(d: Domain, n: int)
    requires d.kind == KnobInt
    ensures d.Normalize(Itoa(n)) == Itoa(n)
  {
    ParseItoa(n);
    TrimIsTrimmed(Itoa(n));
  }
}
