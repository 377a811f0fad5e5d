/** The JavaScript string primitives the login page relies on: `length` (UTF-16
    code units), `trim()` and `toUpperCase()` (ASCII letters only in this model). */
module JsString {

  /** The characters `String.prototype.trim` strips: ECMAScript WhiteSpace
      (tab, vertical tab, form feed, the BOM and every space separator) and
      LineTerminator (LF, CR, LS, PS). */
  predicate IsWhiteSpace(c: char) {
    c == '\t' || c == '\n' || c == '\U{000B}' || c == '\U{000C}' || c == '\r'
    || c == ' ' || c == '\U{00A0}' || c == '\U{1680}'
    || ('\U{2000}' <= c <= '\U{200A}')
    || c == '\U{2028}' || c == '\U{2029}' || c == '\U{202F}' || c == '\U{205F}'
    || c == '\U{3000}' || c == '\U{FEFF}'
  }

  /** Empty or made of white space only. */
  predicate IsBlank(s: string) {
    forall i :: 0 <= i < |s| ==> IsWhiteSpace(s[i])
  }

  /** Number of white-space characters at the front of `s`. */
  function LeadingWhiteSpace(s: string): (n: nat)
    ensures n <= |s|
    ensures forall i :: 0 <= i < n ==> IsWhiteSpace(s[i])
    ensures n < |s| ==> !IsWhiteSpace(s[n])
  {
    if s == [] || !IsWhiteSpace(s[0]) then 0 else 1 + LeadingWhiteSpace(s[1..])
  }

  /** Number of white-space characters at the back of `s`. */
  function TrailingWhiteSpace(s: string): (n: nat)
    ensures n <= |s|
    ensures forall i :: |s| - n <= i < |s| ==> IsWhiteSpace(s[i])
    ensures n < |s| ==> !IsWhiteSpace(s[|s| - 1 - n])
  {
    if s == [] || !IsWhiteSpace(s[|s| - 1]) then 0 else 1 + TrailingWhiteSpace(s[..|s| - 1])
  }

  /** `s.trim()`: white space removed from both ends. */
  function Trim(s: string): (r: string)
    ensures r == [] <==> IsBlank(s)
  {
    var k := LeadingWhiteSpace(s);
    var rest := s[k..];
    var r := rest[..|rest| - TrailingWhiteSpace(rest)];
    assert r != [] ==> r[0] == s[k];
    r
  }

  /** What `trim()` keeps neither starts nor ends with white space. */
  lemma TrimEdges(s: string)
    ensures var r := Trim(s); r != [] ==> !IsWhiteSpace(r[0]) && !IsWhiteSpace(r[|r| - 1])
  {
  }

  /** `trim()` removes nothing but white space: the trimmed string is the
      slice of the input starting after its leading white space, and every
      character of the input outside that slice is white space. */
  lemma TrimRemovesOnlyWhiteSpace(s: string)
    ensures var r, k := Trim(s), LeadingWhiteSpace(s);
      && k + |r| <= |s|
      && (forall i :: 0 <= i < |r| ==> r[i] == s[k + i])
      && (forall i :: 0 <= i < |s| && !(k <= i < k + |r|) ==> IsWhiteSpace(s[i]))
  {
  }

  /** UTF-16 code units of one character: two for a character outside the
      Basic Multilingual Plane (a surrogate pair), one otherwise. */
  function CodeUnits(c: char): nat {
    if c as int < 0x1_0000 then 1 else 2
  }

  /** `s.length`, counted in UTF-16 code units as JavaScript does. */
  function Length(s: string): (n: nat)
    ensures |s| <= n <= 2 * |s|
    ensures n == 0 <==> s == []
  {
    if s == [] then 0 else CodeUnits(s[0]) + Length(s[1..])
  }

  /** Characters inside the Basic Multilingual Plane count once in `length`. */
  lemma {:induction false} LengthOfBmpString(s: string)
    requires forall i :: 0 <= i < |s| ==> s[i] as int < 0x1_0000
    ensures Length(s) == |s|
  {
    if s != [] {
      LengthOfBmpString(s[1..]);
    }
  }

  predicate IsLowerAscii(c: char) {
    'a' <= c <= 'z'
  }

  /** Upper-casing of one character, ASCII letters only. */
  function UpperChar(c: char): char {
    if IsLowerAscii(c) then (c as int - 32) as char else c
  }

  /** `s.toUpperCase()` restricted to ASCII: character by character, so the
      JavaScript length is preserved and no lower-case ASCII letter remains. */
  function ToUpperCase(s: string): (r: string)
    ensures |r| == |s| && Length(r) == Length(s)
    ensures forall i :: 0 <= i < |s| ==> r[i] == UpperChar(s[i])
    ensures forall i :: 0 <= i < |r| ==> !IsLowerAscii(r[i])
  {
    if s == [] then []
    else
      var r := [UpperChar(s[0])] + ToUpperCase(s[1..]);
      assert r[1..] == ToUpperCase(s[1..]);
      r
  }

  /** Upper-casing twice is upper-casing once. */
  lemma ToUpperCaseIdempotent(s: string)
    ensures ToUpperCase(ToUpperCase(s)) == ToUpperCase(s)
  {
  }
}
