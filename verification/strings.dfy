/** The string operations the cleaners rely on: Python's `str.isspace`, `str.strip`,
    `str.lower`, the regular expression `^\s*$`, and the two sets of null spellings. */
module Strings {

  /** A character Python's `str.isspace()` accepts; `\s` in a `str` regex matches the same set. */
  predicate IsSpace(c: char) {
    ('\t' <= c <= '\r') || c == ' ' || ('\U{1C}' <= c <= '\U{1F}') ||
    c == '\U{85}' || c == '\U{A0}' || c == '\U{1680}' || ('\U{2000}' <= c <= '\U{200A}') ||
    c == '\U{2028}' || c == '\U{2029}' || c == '\U{202F}' || c == '\U{205F}' || c == '\U{3000}'
  }

  /** The string matches `^\s*$`: it is empty or made only of whitespace. */
  predicate IsBlank(s: string) {
    forall i | 0 <= i < |s| :: IsSpace(s[i])
  }

  /** How many whitespace characters `s` starts with. */
  function LeadingSpaces(s: string): (n: nat)
    ensures n <= |s| && forall k | 0 <= k < n :: IsSpace(s[k])
    ensures n < |s| ==> !IsSpace(s[n])
  {
    if |s| > 0 && IsSpace(s[0]) then 1 + LeadingSpaces(s[1..]) else 0
  }

  /** How many whitespace characters `s` ends with. */
  function TrailingSpaces(s: string): (n: nat)
    ensures n <= |s| && forall k | |s| - n <= k < |s| :: IsSpace(s[k])
    ensures n < |s| ==> !IsSpace(s[|s| - n - 1])
  {
    if |s| > 0 && IsSpace(s[|s| - 1]) then 1 + TrailingSpaces(s[..|s| - 1]) else 0
  }

  /** `s.strip()`: the slice of `s` left once the leading and the trailing whitespace is cut. */
  function Strip(s: string): (r: string)
    ensures exists i, j :: 0 <= i <= j <= |s| && r == s[i..j] && IsBlank(s[..i]) && IsBlank(s[j..])
    ensures r == [] || (!IsSpace(r[0]) && !IsSpace(r[|r| - 1]))
  {
    var i := LeadingSpaces(s);
    var t := s[i..];
    var m := TrailingSpaces(t);
    var j := |s| - m;
    assert IsBlank(s[..i]);
    assert IsBlank(s[j..]) by {
      assert forall k | 0 <= k < m :: s[j..][k] == t[|t| - m + k];
    }
    assert t[..|t| - m] == s[i..j];
    t[..|t| - m]
  }

  /** A string is blank exactly when stripping it leaves nothing. */
  lemma StripEmptyIffBlank(s: string)
    ensures Strip(s) == [] <==> IsBlank(s)
  {
    var i := LeadingSpaces(s);
    assert IsBlank(s) ==> i == |s| by {
      if IsBlank(s) && i < |s| {
        assert false;
      }
    }
  }

  /** Stripping a second time changes nothing. */
  lemma StripIdempotent(s: string)
    ensures Strip(Strip(s)) == Strip(s)
  {
    StripUnpadded(Strip(s));
  }

  /** A string with no whitespace at either end is its own `strip()`. */
  lemma StripUnpadded(s: string)
    requires s == [] || (!IsSpace(s[0]) && !IsSpace(s[|s| - 1]))
    ensures Strip(s) == s
  {
  }

  /** `c.lower()` on the ASCII letters; every other character is left as it is. */
  function LowerChar(c: char): (r: char)
    ensures 'A' <= c <= 'Z' ==> 'a' <= r <= 'z'
    ensures !('A' <= c <= 'Z') ==> r == c
  {
    if 'A' <= c <= 'Z' then (c as int + 32) as char else c
  }

  /** `s.lower()`, folding the ASCII letters. */
  function Lower(s: string): (r: string)
    ensures |r| == |s|
    ensures forall i | 0 <= i < |s| :: r[i] == LowerChar(s[i])
  {
    seq(|s|, i requires 0 <= i < |s| => LowerChar(s[i]))
  }

  /** The exact, case-sensitive tokens that `replace({"NA": nan, "N/A": nan, "na": nan, "NaN": nan})` nulls. */
  const NullTokens: set<string> := {"NA", "N/A", "na", "NaN"}

  /** The lower-cased aliases the current cleaner's transform nulls in text columns. */
  const NullAliases: set<string> := {"na", "n/a", "nan"}

  /** `v.strip().lower() in {"na", "n/a", "nan"}`. */
  predicate IsNullAlias(s: string) {
    Lower(Strip(s)) in NullAliases
  }

  /** Trimming does not change whether a string is whitespace-only. */
  lemma StripKeepsBlank(s: string)
    ensures IsBlank(Strip(s)) <==> IsBlank(s)
  {
    var t := Strip(s);
    StripEmptyIffBlank(s);
    if t != [] {
      assert !IsSpace(t[0]);
    }
  }

  /** Trimming does not change whether a string is a null alias. */
  lemma StripKeepsAlias(s: string)
    ensures IsNullAlias(Strip(s)) <==> IsNullAlias(s)
  {
    StripIdempotent(s);
  }
}
