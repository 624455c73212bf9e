/** pkg/autoresearch/journal.go, clipRaw: truncating text to a number of bytes. */
module Clip {

  type Byte = b: int | 0 <= b < 256 witness 0

  // ---- UTF-8, section 4 of RFC 3629 ----------------------------------------

  predicate Tail(b: Byte) { 0x80 <= b <= 0xBF }

  predicate Tails(s: seq<Byte>, from: nat, to: nat)
    requires from <= to
  {
    to <= |s| && forall i :: from <= i < to ==> Tail(s[i])
  }

  /** The length of the UTF8-char at the front, 0 if there is none. */
  function CharLen(s: seq<Byte>): (k: nat)
    ensures k <= 4 && k <= |s|
    ensures forall i :: 1 <= i < k ==> Tail(s[i])
    ensures k > 0 ==> !Tail(s[0])
  {
    if s == [] then 0
    else if s[0] <= 0x7F then 1
    else if 0xC2 <= s[0] <= 0xDF && Tails(s, 1, 2) then 2
    else if s[0] == 0xE0 && Tails(s, 1, 3) && 0xA0 <= s[1] then 3
    else if (0xE1 <= s[0] <= 0xEC || 0xEE <= s[0] <= 0xEF) && Tails(s, 1, 3) then 3
    else if s[0] == 0xED && Tails(s, 1, 3) && s[1] <= 0x9F then 3
    else if s[0] == 0xF0 && Tails(s, 1, 4) && 0x90 <= s[1] then 4
    else if 0xF1 <= s[0] <= 0xF3 && Tails(s, 1, 4) then 4
    else if s[0] == 0xF4 && Tails(s, 1, 4) && s[1] <= 0x8F then 4
    else 0
  }

  /** UTF8-octets: a run of whole characters. */
  predicate Valid(s: seq<Byte>) {
    s == [] || (CharLen(s) > 0 && Valid(s[CharLen(s)..]))
  }

  /** utf8.RuneStart: anything but a continuation byte. */
  predicate RuneStart(b: Byte) { !Tail(b) }

  lemma CharLenPrefix(s: seq<Byte>, more: seq<Byte>)
    requires CharLen(s) > 0
    ensures CharLen(s + more) == CharLen(s)
  {
  }

  lemma {:induction false} ValidConcat(a: seq<Byte>, b: seq<Byte>)
    requires Valid(a) && Valid(b)
    ensures Valid(a + b)
  {
    if a == [] {
      assert a + b == b;
    } else {
      CharLenPrefix(a, b);
      ValidConcat(a[CharLen(a)..], b);
      assert (a + b)[CharLen(a)..] == a[CharLen(a)..] + b;
    }
  }

  lemma CharLenTake(s: seq<Byte>, n: nat)
    requires CharLen(s) <= n <= |s|
    ensures CharLen(s[..n]) == CharLen(s)
  {
  }

  /** Cutting well-formed text just before a rune start, or at its end, leaves well-formed text. */
  lemma {:induction false} CutKeepsValid(s: seq<Byte>, cut: nat)
    requires Valid(s) && cut <= |s| && (cut < |s| ==> RuneStart(s[cut]))
    ensures Valid(s[..cut])
  {
    var k := CharLen(s);
    if cut > 0 {
      assert k <= cut;
      CharLenTake(s, cut);
      CutKeepsValid(s[k..], cut - k);
      assert s[..cut][k..] == s[k..][..cut - k];
    }
  }

  /** Well-formed text has a rune start in every four consecutive places. */
  lemma {:induction false} StartNearby(s: seq<Byte>, i: nat) returns (j: nat)
    requires Valid(s) && i < |s|
    ensures i - 3 <= j <= i && RuneStart(s[j])
  {
    var k := CharLen(s);
    if i < k {
      j := 0;
    } else {
      j := StartNearby(s[k..], i - k);
      j := j + k;
    }
  }

  // ---- trimming ------------------------------------------------------------

  /** The length of the white-space character at the front, 0 if there is none. */
  function SpaceLead(s: seq<Byte>): (k: nat)
    ensures k <= |s| && k <= 3
  {
    if |s| >= 1 && (9 <= s[0] <= 13 || s[0] == 32) then 1
    else if |s| >= 2 && s[0] == 0xC2 && (s[1] == 0x85 || s[1] == 0xA0) then 2
    else if |s| >= 3 && Space3(s[0], s[1], s[2]) then 3
    else 0
  }

  /** The three-byte white-space characters: U+1680, U+2000 to U+200A, U+2028, U+2029, U+202F,
      U+205F and U+3000. */
  predicate Space3(a: Byte, b: Byte, c: Byte) {
    || (a == 0xE1 && b == 0x9A && c == 0x80)
    || (a == 0xE2 && b == 0x80 && (0x80 <= c <= 0x8A || c == 0xA8 || c == 0xA9 || c == 0xAF))
    || (a == 0xE2 && b == 0x81 && c == 0x9F)
    || (a == 0xE3 && b == 0x80 && c == 0x80)
  }

  /** The length of the white-space character at the end. */
  function SpaceTrail(s: seq<Byte>): (k: nat)
    ensures k <= |s| && k <= 3
  {
    var n := |s|;
    if n >= 1 && (9 <= s[n - 1] <= 13 || s[n - 1] == 32) then 1
    else if n >= 2 && s[n - 2] == 0xC2 && (s[n - 1] == 0x85 || s[n - 1] == 0xA0) then 2
    else if n >= 3 && Space3(s[n - 3], s[n - 2], s[n - 1]) then 3
    else 0
  }

  function TrimFront(s: seq<Byte>): (t: seq<Byte>)
    ensures |t| <= |s| && SpaceLead(t) == 0
  {
    if SpaceLead(s) == 0 then s else TrimFront(s[SpaceLead(s)..])
  }

  function TrimBack(s: seq<Byte>): (t: seq<Byte>)
    ensures t <= s && SpaceTrail(t) == 0
  {
    if SpaceTrail(s) == 0 then s else TrimBack(s[..|s| - SpaceTrail(s)])
  }

  /** strings.TrimSpace, on any bytes at all. */
  function TrimSpace(s: seq<Byte>): (t: seq<Byte>)
    ensures |t| <= |s| && SpaceTrail(t) == 0
  {
    TrimBack(TrimFront(s))
  }

  predicate Trimmed(s: seq<Byte>) { SpaceLead(s) == 0 && SpaceTrail(s) == 0 }

  lemma TrimSpaceTrims(s: seq<Byte>)
    ensures Trimmed(TrimSpace(s)) && (Trimmed(s) ==> TrimSpace(s) == s)
  {
    var t := TrimFront(s);
    var u := TrimBack(t);
    assert u == t[..|u|];
    assert SpaceLead(u) == 0;
  }

  lemma {:induction false} TrimFrontValid(s: seq<Byte>)
    requires Valid(s)
    ensures Valid(TrimFront(s))
    decreases |s|
  {
    if SpaceLead(s) > 0 {
      assert CharLen(s) == SpaceLead(s);
      TrimFrontValid(s[SpaceLead(s)..]);
    }
  }

  lemma {:induction false} TrimBackValid(s: seq<Byte>)
    requires Valid(s)
    ensures Valid(TrimBack(s))
    decreases |s|
  {
    var k := SpaceTrail(s);
    if k > 0 {
      assert RuneStart(s[|s| - k]);
      CutKeepsValid(s, |s| - k);
      TrimBackValid(s[..|s| - k]);
    }
  }

  // ---- clipRaw -------------------------------------------------------------

  /** Three bytes in UTF-8. */
  function Ellipsis(): seq<Byte> { [0xE2, 0x80, 0xA6] }

  /** The last rune start at or before a place. */
  function CutAt(s: seq<Byte>, cut: nat): (c: nat)
    requires cut < |s|
    ensures c <= cut && (c > 0 ==> RuneStart(s[c])) && forall i :: c < i <= cut ==> !RuneStart(s[i])
  {
    if cut > 0 && !RuneStart(s[cut]) then CutAt(s, cut - 1) else cut
  }

  function ClipRaw(s: seq<Byte>, n: int): seq<Byte> {
    var t := TrimSpace(s);
    if |t| <= n then t
    else if n <= 3 then []
    else t[..CutAt(t, n - 3)] + Ellipsis()
  }

  /** clipRaw as the source writes it. */
  method Clipped(s: seq<Byte>, n: int) returns (r: seq<Byte>)
    ensures r == ClipRaw(s, n)
  {
    var t := TrimSpace(s);
    if |t| <= n {
      return t;
    }
    if n <= |Ellipsis()| {
      return [];
    }
    var cut := n - |Ellipsis()|;
    while cut > 0 && !RuneStart(t[cut])
      invariant 0 <= cut < |t| && CutAt(t, cut) == CutAt(t, n - 3)
    {
      cut := cut - 1;
    }
    r := t[..cut] + Ellipsis();
  }

  /** The cap it is written to enforce, on any bytes: never more than n of them; and the result
      is the trimmed text itself when that fits, else nothing or a prefix of it and the
      ellipsis. */
  lemma ClipBounded(s: seq<Byte>, n: int)
    ensures |ClipRaw(s, n)| <= if n < 0 then 0 else n
    ensures var t := TrimSpace(s);
            && (|t| <= n ==> ClipRaw(s, n) == t)
            && (|t| > n && n <= 3 ==> ClipRaw(s, n) == [])
            && (|t| > n > 3 ==> exists cut :: 0 <= cut <= n - 3 && ClipRaw(s, n) == t[..cut] + Ellipsis())
  {
    var t := TrimSpace(s);
    if |t| > n > 3 {
      var cut := CutAt(t, n - 3);
      assert ClipRaw(s, n) == t[..cut] + Ellipsis();
    }
  }

  /** On well-formed text the result is well-formed, and within three bytes of the cap: no rune
      is split and no more is dropped than the rune the cap falls into. */
  lemma ClipValid(s: seq<Byte>, n: int)
    requires Valid(s)
    ensures Valid(ClipRaw(s, n))
    ensures |TrimSpace(s)| > n > 3 ==> |ClipRaw(s, n)| >= n - 3
  {
    TrimFrontValid(s);
    TrimBackValid(TrimFront(s));
    var t := TrimSpace(s);
    if |t| > n > 3 {
      var cut := CutAt(t, n - 3);
      if cut == 0 {
        assert t[..0] == [];
      } else {
        CutKeepsValid(t, cut);
      }
      EllipsisValid();
      ValidConcat(t[..cut], Ellipsis());
      var near := StartNearby(t, n - 3);
      assert cut >= near;
    }
  }

  lemma EllipsisValid()
    ensures Valid(Ellipsis())
  {
    assert CharLen(Ellipsis()) == 3;
    assert Ellipsis()[3..] == [];
  }

  /** An ellipsis closes a text for good: nothing is trimmed off either end of it again. */
  lemma EllipsisTrimmed(t: seq<Byte>, cut: nat)
    requires SpaceLead(t) == 0 && cut <= |t|
    ensures Trimmed(t[..cut] + Ellipsis())
  {
    var r := t[..cut] + Ellipsis();
    assert r[|r| - 1] == 0xA6 && r[|r| - 2] == 0x80 && r[|r| - 3] == 0xE2;
    assert forall i :: 0 <= i < cut ==> r[i] == t[i];
  }

  /** Clipping twice is clipping once, on any bytes. */
  lemma ClipIdempotent(s: seq<Byte>, n: int)
    ensures ClipRaw(ClipRaw(s, n), n) == ClipRaw(s, n)
  {
    var t := TrimSpace(s);
    TrimSpaceTrims(s);
    ClipBounded(s, n);
    if |t| <= n {
      TrimSpaceTrims(t);
    } else if n > 3 {
      EllipsisTrimmed(t, CutAt(t, n - 3));
      TrimSpaceTrims(ClipRaw(s, n));
    } else {
      TrimSpaceTrims([]);
    }
  }
}
