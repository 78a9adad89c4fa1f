/** The JavaScript string operations the client relies on: `trim`,
    `toLowerCase` (ASCII letters only, see README), `length` and the default
    `Array.prototype.sort` comparison, which both work on UTF-16 code units. */
module JsText {

  /** ECMAScript WhiteSpace and LineTerminator code points: what `trim`
      strips (U+0009 to U+000D, space, U+00A0, U+1680, U+2000 to U+200A,
      U+2028, U+2029, U+202F, U+205F, U+3000 and U+FEFF). */
  const WhiteSpaceChars: set<char> := {'\U{9}', '\U{A}', '\U{B}', '\U{C}', '\U{D}', '\U{20}', '\U{A0}', '\U{1680}', '\U{2000}', '\U{2001}', '\U{2002}', '\U{2003}', '\U{2004}', '\U{2005}', '\U{2006}', '\U{2007}', '\U{2008}', '\U{2009}', '\U{200A}', '\U{2028}', '\U{2029}', '\U{202F}', '\U{205F}', '\U{3000}', '\U{FEFF}'}

  predicate IsWhiteSpace(c: char) {
    c in WhiteSpaceChars
  }

  /** The number of white-space characters `s` starts with. */
  function LeadingSpaces(s: string): (n: nat)
    ensures n <= |s|
    ensures forall k | 0 <= k < n :: IsWhiteSpace(s[k])
    ensures n < |s| ==> !IsWhiteSpace(s[n])
  {
    if s != [] && IsWhiteSpace(s[0]) then
      var n := 1 + LeadingSpaces(s[1..]);
      assert forall k | 1 <= k < n :: s[k] == s[1..][k - 1];
      n
    else 0
  }

  /** Where the text of `s[lo..hi]` ends once trailing white space is cut. */
  function TextEnd(s: string, lo: nat, hi: nat): (m: nat)
    requires lo <= hi <= |s|
    ensures lo <= m <= hi
    ensures forall k | m <= k < hi :: IsWhiteSpace(s[k])
    ensures m > lo ==> !IsWhiteSpace(s[m - 1])
    decreases hi
  {
    if hi > lo && IsWhiteSpace(s[hi - 1]) then TextEnd(s, lo, hi - 1) else hi
  }

  /** `s.trim()`: the middle of `s` between its leading and trailing white
      space; empty exactly when `s` is all white space. */
  function Trim(s: string): (r: string)
    ensures r != [] ==> !IsWhiteSpace(r[0]) && !IsWhiteSpace(r[|r| - 1])
    ensures r == [] <==> forall k | 0 <= k < |s| :: IsWhiteSpace(s[k])
    ensures exists i {:trigger s[..i]} | 0 <= i <= |s| - |r| ::
      && r == s[i..i + |r|]
      && (forall k | 0 <= k < i :: IsWhiteSpace(s[k]))
      && (forall k | i + |r| <= k < |s| :: IsWhiteSpace(s[k]))
  {
    var i := LeadingSpaces(s);
    var j := TextEnd(s, i, |s|);
    assert s[..i] == s[..i];
    s[i..j]
  }

  /** Trimming twice is trimming once. */
  lemma TrimIdempotent(s: string)
    ensures Trim(Trim(s)) == Trim(s)
  {
    var r := Trim(s);
    if r != [] {
      assert LeadingSpaces(r) == 0;
      assert TextEnd(r, 0, |r|) == |r|;
    }
  }

  /** `s.toLowerCase()` on the ASCII letters. */
  function ToLowerAscii(s: string): (r: string)
    ensures |r| == |s|
  {
    seq(|s|, i requires 0 <= i < |s| => if 'A' <= s[i] <= 'Z' then (s[i] as int + 32) as char else s[i])
  }

  /** The UTF-16 code units of one code point. */
  function CodeUnits(c: char): (u: seq<int>)
    ensures 1 <= |u| <= 2
  {
    var n := c as int;
    if n < 0x1_0000 then [n]
    else [0xD800 + (n - 0x1_0000) / 0x400, 0xDC00 + (n - 0x1_0000) % 0x400]
  }

  /** The code units of a string: what JavaScript stores, indexes and
      compares. */
  function Utf16(s: string): (u: seq<int>)
    ensures |u| >= |s|
  {
    if s == [] then [] else CodeUnits(s[0]) + Utf16(s[1..])
  }

  /** `s.length`. */
  function Utf16Length(s: string): nat {
    |Utf16(s)|
  }

  /** Two strings' encodings begin with the same code units only when the
      strings begin with the same code point; the rest then agrees too. */
  lemma CodeUnitsPrefix(a: char, b: char, x: seq<int>, y: seq<int>)
    requires CodeUnits(a) + x == CodeUnits(b) + y
    ensures a == b && x == y
  {
    var ua, ub := CodeUnits(a), CodeUnits(b);
    var na, nb := a as int, b as int;
    assert ua[0] == (ua + x)[0] == (ub + y)[0] == ub[0];
    if na >= 0x1_0000 && nb >= 0x1_0000 {
      assert ua[1] == (ua + x)[1] == (ub + y)[1] == ub[1];
      assert na == 0x1_0000 + (ua[0] - 0xD800) * 0x400 + (ua[1] - 0xDC00);
      assert nb == 0x1_0000 + (ub[0] - 0xD800) * 0x400 + (ub[1] - 0xDC00);
    }
    assert x == (ua + x)[|ua|..] == (ub + y)[|ub|..] == y;
  }

  /** Different strings have different code units. */
  lemma {:induction false} Utf16Injective(a: string, b: string)
    requires Utf16(a) == Utf16(b)
    ensures a == b
  {
    if a != [] && b != [] {
      CodeUnitsPrefix(a[0], b[0], Utf16(a[1..]), Utf16(b[1..]));
      Utf16Injective(a[1..], b[1..]);
      assert a == [a[0]] + a[1..] && b == [b[0]] + b[1..];
    }
  }

  /** Lexicographic order of code-unit sequences: JavaScript's `<` on
      strings. */
  predicate Less(a: seq<int>, b: seq<int>) {
    if a == [] then b != []
    else if b == [] then false
    else if a[0] != b[0] then a[0] < b[0]
    else Less(a[1..], b[1..])
  }

  lemma {:induction false} LessAsymmetric(a: seq<int>, b: seq<int>)
    requires Less(a, b)
    ensures !Less(b, a)
  {
    if a != [] && b != [] && a[0] == b[0] {
      LessAsymmetric(a[1..], b[1..]);
    }
  }

  lemma {:induction false} LessTrichotomous(a: seq<int>, b: seq<int>)
    ensures Less(a, b) || Less(b, a) || a == b
  {
    if a != [] && b != [] && a[0] == b[0] {
      LessTrichotomous(a[1..], b[1..]);
      if a[1..] == b[1..] {
        assert a == [a[0]] + a[1..] && b == [b[0]] + b[1..];
      }
    }
  }

  /** `x < y` on strings. */
  predicate StringLess(x: string, y: string) {
    Less(Utf16(x), Utf16(y))
  }

  /** Strings neither of which is below the other are equal. */
  lemma StringLessTotal(x: string, y: string)
    ensures StringLess(x, y) || StringLess(y, x) || x == y
  {
    LessTrichotomous(Utf16(x), Utf16(y));
    if Utf16(x) == Utf16(y) {
      Utf16Injective(x, y);
    }
  }
}
