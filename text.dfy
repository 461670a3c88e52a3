/**
  Whitespace and trimming, as JavaScript's `String.prototype.trim` and the
  regular-expression class `\s` see them.

  Both use the same character set: the ECMAScript WhiteSpace characters
  (tab, vertical tab, form feed, space, no-break space, the byte order mark
  and the Unicode space separators) together with the LineTerminator
  characters (line feed, carriage return, line and paragraph separator).
 */
module Text {

  /** `c` is whitespace for `trim()` and for `\s`; `\S` is its negation. */
  predicate IsSpace(c: char) {
    || c == '\t' || c == '\n' || c == '\U{000B}' || c == '\U{000C}' || c == '\r'
    || c == ' ' || c == '\U{00A0}' || c == '\U{1680}'
    || ('\U{2000}' <= c <= '\U{200A}')
    || c == '\U{2028}' || c == '\U{2029}' || c == '\U{202F}' || c == '\U{205F}'
    || c == '\U{3000}' || c == '\U{FEFF}'
  }

  /** Every character of `s` is whitespace (vacuously so for the empty string). */
  predicate AllSpace(s: string) {
    forall i | 0 <= i < |s| :: IsSpace(s[i])
  }

  /** `s` without its leading whitespace: no longer than `s`, and not
      starting with whitespace. */
  function TrimStart(s: string): (r: string)
    ensures |r| <= |s|
    ensures r == [] || !IsSpace(r[0])
  {
    if s != [] && IsSpace(s[0]) then TrimStart(s[1..]) else s
  }

  /** What `TrimStart` drops is a prefix of whitespace: the result is the
      suffix of `s` after it. */
  lemma {:induction false} TrimStartDropsSpacePrefix(s: string)
    ensures TrimStart(s) == s[|s| - |TrimStart(s)|..]
    ensures AllSpace(s[..|s| - |TrimStart(s)|])
  {
    if s != [] && IsSpace(s[0]) {
      TrimStartDropsSpacePrefix(s[1..]);
      var k := |s| - |TrimStart(s)|;
      assert s[1..][..k - 1] == s[1..k];
    }
  }

  /** `s` without its trailing whitespace: no longer than `s`, and not ending
      with whitespace. */
  function TrimEnd(s: string): (r: string)
    ensures |r| <= |s|
    ensures r == [] || !IsSpace(r[|r| - 1])
  {
    if s != [] && IsSpace(s[|s| - 1]) then TrimEnd(s[..|s| - 1]) else s
  }

  /** What `TrimEnd` drops is a suffix of whitespace: the result is the prefix
      of `s` before it. */
  lemma {:induction false} TrimEndDropsSpaceSuffix(s: string)
    ensures TrimEnd(s) == s[..|TrimEnd(s)|]
    ensures AllSpace(s[|TrimEnd(s)|..])
  {
    if s != [] && IsSpace(s[|s| - 1]) {
      TrimEndDropsSpaceSuffix(s[..|s| - 1]);
    }
  }

  /** `s.trim()`: leading and trailing whitespace dropped; the result neither
      starts nor ends with whitespace. */
  function Trim(s: string): (r: string)
    ensures |r| <= |s|
    ensures r == [] || (!IsSpace(r[0]) && !IsSpace(r[|r| - 1]))
  {
    var front := TrimStart(s);
    TrimEndDropsSpaceSuffix(front);
    TrimEnd(front)
  }

  /** `trim()` yields the empty string exactly when every character is whitespace. */
  lemma TrimEmptyIffAllSpace(s: string)
    ensures Trim(s) == [] <==> AllSpace(s)
  {
    var front := TrimStart(s);
    var r := TrimEnd(front);
    TrimStartDropsSpacePrefix(s);
    TrimEndDropsSpaceSuffix(front);
    assert s == s[..|s| - |front|] + front;
    if r == [] {
      assert front[|r|..] == front;
    } else {
      assert r[0] == front[0];
    }
  }

  /** JavaScript's `!s.trim()`: the trimmed string is empty, i.e. falsy. */
  function IsBlank(s: string): (b: bool)
    ensures b <==> AllSpace(s)
  {
    TrimEmptyIffAllSpace(s);
    Trim(s) == []
  }
}
