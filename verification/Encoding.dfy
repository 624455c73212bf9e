/** UTF-8 as section 3 of RFC 3629 encodes it, against what Clip recognises byte by byte. */
module Encoding {
  import opened Text
  import opened Clip

  /** The code points that have an encoding: everything but the surrogates. */
  predicate Scalar(n: int) { 0 <= n < 0xD800 || 0xE000 <= n <= 0x10FFFF }

  function Encode(n: int): seq<Byte>
    requires Scalar(n)
  {
    if n < 0x80 then [n]
    else if n < 0x800 then [0xC0 + n / 64, 0x80 + n % 64]
    else if n < 0x1_0000 then [0xE0 + n / 4096, 0x80 + n / 64 % 64, 0x80 + n % 64]
    else [0xF0 + n / 262144, 0x80 + n / 4096 % 64, 0x80 + n / 64 % 64, 0x80 + n % 64]
  }

  /** Every encoded character is recognised with its length, whatever follows it. */
  lemma EncodedIsChar(n: int, rest: seq<Byte>)
    requires Scalar(n)
    ensures CharLen(Encode(n) + rest) == |Encode(n)|
  {
    var s := Encode(n) + rest;
    assert forall i :: 0 <= i < |Encode(n)| ==> s[i] == Encode(n)[i];
  }

  /** And nothing else is. */
  lemma CharIsEncoded(s: seq<Byte>) returns (n: int)
    requires CharLen(s) > 0
    ensures Scalar(n) && s[..CharLen(s)] == Encode(n)
  {
    var k := CharLen(s);
    if k == 1 {
      n := s[0];
    } else if k == 2 {
      n := TwoBytes(s[0], s[1]);
    } else if k == 3 {
      n := ThreeBytes(s[0], s[1], s[2]);
    } else {
      n := FourBytes(s[0], s[1], s[2], s[3]);
    }
    assert s[..k] == Encode(n);
  }

  lemma TwoBytes(a: Byte, b: Byte) returns (n: int)
    requires 0xC2 <= a <= 0xDF && Tail(b)
    ensures Scalar(n) && Encode(n) == [a, b]
  {
    n := (a - 0xC0) * 64 + (b - 0x80);
  }

  lemma ThreeBytes(a: Byte, b: Byte, c: Byte) returns (n: int)
    requires 0xE0 <= a <= 0xEF && Tail(b) && Tail(c) && (a == 0xE0 ==> 0xA0 <= b) && (a == 0xED ==> b <= 0x9F)
    ensures Scalar(n) && Encode(n) == [a, b, c]
  {
    var high := (a - 0xE0) * 64 + (b - 0x80);
    n := high * 64 + (c - 0x80);
    assert n / 64 == high && n % 64 == c - 0x80 && n / 4096 == high / 64;
  }

  lemma FourBytes(a: Byte, b: Byte, c: Byte, d: Byte) returns (n: int)
    requires 0xF0 <= a <= 0xF4 && Tail(b) && Tail(c) && Tail(d)
    requires (a == 0xF0 ==> 0x90 <= b) && (a == 0xF4 ==> b <= 0x8F)
    ensures Scalar(n) && Encode(n) == [a, b, c, d]
  {
    var top := (a - 0xF0) * 64 + (b - 0x80);
    var high := top * 64 + (c - 0x80);
    n := high * 64 + (d - 0x80);
    assert n / 64 == high && n % 64 == d - 0x80;
    assert n / 4096 == high / 64 == top && n / 262144 == top / 64;
  }

  /** A whole text. */
  function EncodeAll(text: seq<int>): seq<Byte>
    requires forall i :: 0 <= i < |text| ==> Scalar(text[i])
  {
    if text == [] then [] else Encode(text[0]) + EncodeAll(text[1..])
  }

  lemma {:induction false} EncodedIsValid(text: seq<int>)
    requires forall i :: 0 <= i < |text| ==> Scalar(text[i])
    ensures Valid(EncodeAll(text))
  {
    if text != [] {
      EncodedIsValid(text[1..]);
      var first, rest := Encode(text[0]), EncodeAll(text[1..]);
      EncodedIsChar(text[0], rest);
      assert (first + rest)[|first|..] == rest;
    }
  }

  /** Well-formed text is exactly what encodes a sequence of code points. */
  lemma {:induction false} ValidIsEncoded(s: seq<Byte>) returns (text: seq<int>)
    requires Valid(s)
    ensures (forall i :: 0 <= i < |text| ==> Scalar(text[i])) && s == EncodeAll(text)
  {
    if s == [] {
      text := [];
    } else {
      var n := CharIsEncoded(s);
      var rest := ValidIsEncoded(s[CharLen(s)..]);
      text := [n] + rest;
      assert text[1..] == rest;
      assert s == s[..CharLen(s)] + s[CharLen(s)..];
    }
  }

  // ---- white space ---------------------------------------------------------

  lemma OneByteSpace(n: int, s: seq<Byte>)
    requires 0 <= n < 0x80 && |s| > 0 && s[0] == n
    ensures SpaceLead(s) == if IsSpace(n as char) then 1 else 0
  {
  }

  lemma TwoByteSpace(n: int, s: seq<Byte>)
    requires 0x80 <= n < 0x800 && |s| > 1 && s[0] == 0xC0 + n / 64 && s[1] == 0x80 + n % 64
    ensures SpaceLead(s) == if IsSpace(n as char) then 2 else 0
  {
  }

  lemma ThreeByteSpace(n: int, s: seq<Byte>)
    requires 0x800 <= n < 0x1_0000 && Scalar(n) && |s| > 2
    requires s[0] == 0xE0 + n / 4096 && s[1] == 0x80 + n / 64 % 64 && s[2] == 0x80 + n % 64
    ensures SpaceLead(s) == if IsSpace(n as char) then 3 else 0
  {
    SpaceThree(n, s[0], s[1], s[2]);
  }

  lemma SpaceThree(n: int, a: Byte, b: Byte, c: Byte)
    requires 0x800 <= n < 0x1_0000 && Scalar(n)
    requires a == 0xE0 + n / 4096 && b == 0x80 + n / 64 % 64 && c == 0x80 + n % 64
    ensures Space3(a, b, c) <==> IsSpace(n as char)
  {
    assert n == (a - 0xE0) * 4096 + (b - 0x80) * 64 + (c - 0x80);
  }

  /** Trimming bytes from the front takes exactly the white-space characters of strings, */
  lemma SpaceLeads(n: int, rest: seq<Byte>)
    requires Scalar(n)
    ensures SpaceLead(Encode(n) + rest) == if IsSpace(n as char) then |Encode(n)| else 0
  {
    var s := Encode(n) + rest;
    assert forall i :: 0 <= i < |Encode(n)| ==> s[i] == Encode(n)[i];
    if n < 0x80 {
      OneByteSpace(n, s);
    } else if n < 0x800 {
      TwoByteSpace(n, s);
    } else if n < 0x1_0000 {
      ThreeByteSpace(n, s);
    }
  }

  /** and so does trimming from the end. */
  lemma SpaceTrails(head: seq<Byte>, n: int)
    requires Scalar(n)
    ensures SpaceTrail(head + Encode(n)) == if IsSpace(n as char) then |Encode(n)| else 0
  {
    var s, e := head + Encode(n), Encode(n);
    assert forall i :: 0 <= i < |e| ==> s[|head| + i] == e[i];
    if 0x800 <= n < 0x1_0000 {
      assert s[|s| - 3] == e[0] && s[|s| - 2] == e[1] && s[|s| - 1] == e[2];
      SpaceThree(n, e[0], e[1], e[2]);
    } else if n >= 0x1_0000 {
      assert s[|s| - 3] == e[1] && s[|s| - 2] == e[2] && s[|s| - 1] == e[3];
    } else if n >= 0x80 {
      assert s[|s| - 2] == e[0] && s[|s| - 1] == e[1];
    }
  }
}
