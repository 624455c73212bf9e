/** Strings as the harness sees them: trimming, lower-casing and ordering. */
module Text {

  datatype Option<+T> = None | Some(value: T)

  /** Unicode White_Space, the set strings.TrimSpace removes. */
  predicate IsSpace(c: char) {
    var n := c as int;
    || 9 <= n <= 13 || n == 32 || n == 0x85 || n == 0xA0 || n == 0x1680
    || 0x2000 <= n <= 0x200A || n == 0x2028 || n == 0x2029 || n == 0x202F
    || n == 0x205F || n == 0x3000
  }

  function TrimLeft(s: string): string {
    if s != [] && IsSpace(s[0]) then TrimLeft(s[1..]) else s
  }

  function TrimRight(s: string): string {
    if s != [] && IsSpace(s[|s| - 1]) then TrimRight(s[..|s| - 1]) else s
  }

  function Trim(s: string): string {
    TrimRight(TrimLeft(s))
  }

  predicate Trimmed(s: string) {
    s == [] || (!IsSpace(s[0]) && !IsSpace(s[|s| - 1]))
  }

  lemma {:induction false} TrimRightKeepsHead(s: string)
    ensures TrimRight(s) <= s
    ensures s != [] && !IsSpace(s[0]) ==> TrimRight(s) != []
    ensures TrimRight(s) != [] ==> !IsSpace(TrimRight(s)[|TrimRight(s)| - 1])
  {
    if s != [] && IsSpace(s[|s| - 1]) {
      TrimRightKeepsHead(s[..|s| - 1]);
    }
  }

  lemma {:induction false} TrimLeftStartsSolid(s: string)
    ensures TrimLeft(s) != [] ==> !IsSpace(TrimLeft(s)[0])
  {
    if s != [] && IsSpace(s[0]) {
      TrimLeftStartsSolid(s[1..]);
    }
  }

  /** A trimmed string is a fixed point of trimming, and trimming always yields one. */
  lemma TrimIsTrimmed(s: string)
    ensures Trimmed(Trim(s))
    ensures Trimmed(s) ==> Trim(s) == s
    ensures Trim(Trim(s)) == Trim(s)
  {
    TrimLeftStartsSolid(s);
    TrimRightKeepsHead(TrimLeft(s));
    var t := Trim(s);
    assert t != [] ==> t[0] == TrimLeft(s)[0];
    assert Trimmed(t);
    assert TrimLeft(t) == t && TrimRight(t) == t;
  }

  /** ASCII lower-casing of one character. */
  function LowerChar(c: char): char {
    if 'A' <= c <= 'Z' then (c as int + 32) as char else c
  }

  function ToLower(s: string): (r: string)
    ensures |r| == |s|
    ensures forall i :: 0 <= i < |s| ==> r[i] == LowerChar(s[i])
  {
    if s == [] then [] else [LowerChar(s[0])] + ToLower(s[1..])
  }

  lemma LowerIdempotent(s: string)
    ensures ToLower(ToLower(s)) == ToLower(s)
    ensures Trimmed(s) ==> Trimmed(ToLower(s))
  {
  }

  /** Byte-wise string order, strict. */
  predicate Less(a: string, b: string) {
    if b == [] then false
    else if a == [] then true
    else if a[0] != b[0] then a[0] < b[0]
    else Less(a[1..], b[1..])
  }

  lemma {:induction false} LessTotal(a: string, b: string)
    ensures a == b || Less(a, b) || Less(b, a)
    ensures !(Less(a, b) && Less(b, a))
    ensures !Less(a, a)
  {
    if a != [] {
      LessTotal(a[1..], a[1..]);
    }
    if a != [] && b != [] && a[0] == b[0] {
      LessTotal(a[1..], b[1..]);
      assert a == [a[0]] + a[1..] && b == [b[0]] + b[1..];
    }
  }

  lemma {:induction false} LessTransitive(a: string, b: string, c: string)
    requires Less(a, b) && Less(b, c)
    ensures Less(a, c)
  {
    if a != [] && a[0] == b[0] == c[0] {
      LessTransitive(a[1..], b[1..], c[1..]);
    }
  }

  predicate HasSuffix(s: string, suffix: string) {
    |suffix| <= |s| && s[|s| - |suffix|..] == suffix
  }

  lemma SuffixIff(s: string, suffix: string)
    ensures HasSuffix(s, suffix) <==> exists p: string :: s == p + suffix
  {
    if HasSuffix(s, suffix) {
      assert s == s[..|s| - |suffix|] + suffix;
    }
  }

  // ---- what the string functions do ----------------------------------------

  predicate Blank(s: string) { forall i :: 0 <= i < |s| ==> IsSpace(s[i]) }

  lemma {:induction false} TrimLeftCuts(s: string)
    ensures exists n: nat :: n <= |s| && TrimLeft(s) == s[n..] && Blank(s[..n])
  {
    if s != [] && IsSpace(s[0]) {
      TrimLeftCuts(s[1..]);
      var n: nat :| n <= |s| - 1 && TrimLeft(s[1..]) == s[1..][n..] && Blank(s[1..][..n]);
      assert s[n + 1..] == s[1..][n..] && s[..n + 1] == [s[0]] + s[1..][..n];
    } else {
      assert s[0..] == s && Blank(s[..0]);
    }
  }

  lemma {:induction false} TrimRightCuts(s: string)
    ensures exists n: nat :: n <= |s| && TrimRight(s) == s[..n] && Blank(s[n..])
  {
    if s != [] && IsSpace(s[|s| - 1]) {
      var front := s[..|s| - 1];
      TrimRightCuts(front);
      var n: nat :| n <= |front| && TrimRight(front) == front[..n] && Blank(front[n..]);
      assert s[..n] == front[..n] && s[n..] == front[n..] + [s[|s| - 1]];
    } else {
      assert s[..|s|] == s && Blank(s[|s|..]);
    }
  }

  /** Trimming cuts white space off both ends and nothing else; that no more of it is left at either end
      is TrimIsTrimmed. */
  lemma TrimCuts(s: string) returns (i: nat, j: nat)
    ensures i <= j <= |s| && Trim(s) == s[i..j] && Blank(s[..i]) && Blank(s[j..])
  {
    TrimLeftCuts(s);
    i :| i <= |s| && TrimLeft(s) == s[i..] && Blank(s[..i]);
    TrimRightCuts(s[i..]);
    var n: nat :| n <= |s[i..]| && TrimRight(s[i..]) == s[i..][..n] && Blank(s[i..][n..]);
    j := i + n;
    assert s[i..][..n] == s[i..j] && s[i..][n..] == s[j..];
  }

  /** The white space of the Unicode standard: six controls, two blanks and seventeen others. */
  const SPACES: string := "\t\U{B}\U{C}\n\r \U{85}\U{A0}\U{1680}\U{2028}\U{2029}\U{202F}\U{205F}\U{3000}"

  lemma SpaceIff(c: char)
    ensures IsSpace(c) <==> c in SPACES || 0x2000 <= c as int <= 0x200A
  {
    assert forall i :: 0 <= i < |SPACES| ==> IsSpace(SPACES[i]);
    assert SPACES[0] == '\t' && SPACES[1] == '\U{B}' && SPACES[2] == '\U{C}' && SPACES[3] == '\n' && SPACES[4] == '\r'
           && SPACES[5] == ' ' && SPACES[6] == '\U{85}' && SPACES[7] == '\U{A0}' && SPACES[8] == '\U{1680}'
           && SPACES[9] == '\U{2028}' && SPACES[10] == '\U{2029}' && SPACES[11] == '\U{202F}'
           && SPACES[12] == '\U{205F}' && SPACES[13] == '\U{3000}';
  }

  const UPPER: string := "ABCDEFGHIJKLMNOPQRSTUVWXYZ"
  const LOWER: string := "abcdefghijklmnopqrstuvwxyz"

  /** The twenty-six letters get their small form, and every other character stays. */
  lemma LowerLetters(i: nat, c: char)
    requires i < 26
    ensures LowerChar(UPPER[i]) == LOWER[i] && (!('A' <= c <= 'Z') ==> LowerChar(c) == c)
  {
  }
}
