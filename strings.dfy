/**
  The Python `str` methods the backend applies to request fields:
  `strip()`, `lower()` and `capitalize()`.
 */
module Strings {

  /**
    Python's `str.isspace()` for one character: the ASCII whitespace and
    separator controls, NEL, NO-BREAK SPACE and the Unicode space separators.
   */
  predicate IsSpace(c: char) {
    c == ' ' || ('\t' <= c <= '\r') || ('\U{1C}' <= c <= '\U{1F}')
    || c == '\U{85}' || c == '\U{A0}' || c == '\U{1680}'
    || ('\U{2000}' <= c <= '\U{200A}') || c == '\U{2028}' || c == '\U{2029}'
    || c == '\U{202F}' || c == '\U{205F}' || c == '\U{3000}'
  }

  /**
    The ASCII whitespace characters count as space; letters and digits never do,
    and every space is an ASCII control or blank, or lies between NEL and the
    ideographic space.
   */
  lemma SpaceCharacters(c: char)
    ensures c in " \t\n\r\U{0B}\U{0C}" ==> IsSpace(c)
    ensures IsSpace(c) ==> c as int <= 0x20 || 0x85 <= c as int <= 0x3000
    ensures 'a' <= c <= 'z' || 'A' <= c <= 'Z' || '0' <= c <= '9' ==> !IsSpace(c)
  {
  }

  ghost predicate AllSpace(s: string) {
    forall k :: 0 <= k < |s| ==> IsSpace(s[k])
  }

  /** The number of whitespace characters at the start of `s`. */
  function LeadingSpace(s: string): (n: nat)
    ensures n <= |s|
    ensures AllSpace(s[..n])
    ensures n < |s| ==> !IsSpace(s[n])
  {
    if |s| == 0 || !IsSpace(s[0]) then 0
    else
      var n := 1 + LeadingSpace(s[1..]);
      assert s[..n] == [s[0]] + s[1..][..n - 1];
      n
  }

  /** The number of whitespace characters at the end of `s`. */
  function TrailingSpace(s: string): (n: nat)
    ensures n <= |s|
    ensures AllSpace(s[|s| - n..])
    ensures n < |s| ==> !IsSpace(s[|s| - 1 - n])
  {
    if |s| == 0 || !IsSpace(s[|s| - 1]) then 0
    else
      var n := 1 + TrailingSpace(s[..|s| - 1]);
      assert s[|s| - n..] == s[..|s| - 1][|s| - n..] + [s[|s| - 1]];
      n
  }

  /**
    Python's `s.strip()`: the slice of `s` left after dropping the whitespace
    run at its start and the one at its end; the result neither starts nor
    ends with whitespace, and it is empty exactly when `s` is all whitespace.
   */
  function Strip(s: string): (r: string)
    ensures LeadingSpace(s) + |r| <= |s|
    ensures r == s[LeadingSpace(s)..LeadingSpace(s) + |r|]
    ensures AllSpace(s[LeadingSpace(s) + |r|..])
    ensures r != [] ==> !IsSpace(r[0]) && !IsSpace(r[|r| - 1])
    ensures r == [] <==> AllSpace(s)
  {
    var i := LeadingSpace(s);
    var rest := s[i..];
    var j := TrailingSpace(rest);
    var r := rest[..|rest| - j];
    assert s[i + |r|..] == rest[|rest| - j..];
    assert r == [] ==> AllSpace(s) by {
      if r == [] {
        AllSpaceJoin(s, i);
      }
    }
    r
  }

  lemma AllSpaceJoin(s: string, i: nat)
    requires i <= |s|
    requires AllSpace(s[..i]) && AllSpace(s[i..])
    ensures AllSpace(s)
  {
    forall k | 0 <= k < |s| ensures IsSpace(s[k]) {
      if k < i { assert s[k] == s[..i][k]; } else { assert s[k] == s[i..][k - i]; }
    }
  }

  /** Python's `str.lower()` on one character; only ASCII letters are mapped. */
  function LowerChar(c: char): char {
    if 'A' <= c <= 'Z' then (c as int + 32) as char else c
  }

  /** Python's `str.upper()` on one character; only ASCII letters are mapped. */
  function UpperChar(c: char): char {
    if 'a' <= c <= 'z' then (c as int - 32) as char else c
  }

  /** Python's `s.lower()`, character by character. */
  function Lower(s: string): (r: string)
    ensures |r| == |s|
    ensures forall k :: 0 <= k < |s| ==> r[k] == LowerChar(s[k])
    ensures forall k :: 0 <= k < |r| ==> !('A' <= r[k] <= 'Z')
  {
    seq(|s|, k requires 0 <= k < |s| => LowerChar(s[k]))
  }

  /** Python's `s.capitalize()`: the first character upper case, the rest lower case. */
  function Capitalize(s: string): (r: string)
    ensures |r| == |s|
    ensures s != [] ==> r[0] == UpperChar(s[0]) && r[1..] == Lower(s[1..])
    ensures s != [] && NoCapitals(s[1..]) ==> r == [UpperChar(s[0])] + s[1..]
  {
    if s == [] then [] else
      if NoCapitals(s[1..]) then LowerOfLower(s[1..]); [UpperChar(s[0])] + Lower(s[1..])
      else [UpperChar(s[0])] + Lower(s[1..])
  }

  predicate NoCapitals(s: string) {
    forall k :: 0 <= k < |s| ==> !('A' <= s[k] <= 'Z')
  }

  /** Lower-casing leaves a word without ASCII capitals as it is. */
  lemma LowerOfLower(s: string)
    requires NoCapitals(s)
    ensures Lower(s) == s
  {
  }
}
