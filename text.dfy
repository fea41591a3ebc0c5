/**
 * Character classes and the whitespace trimming of Python's `str.strip()`,
 * as main.py uses them on file names and on the language model's output.
 */
module Text {

  /** Python's `str.isspace()`, which is also what `\s` matches in a `str` pattern. */
  predicate IsSpace(c: char)
  {
    c == ' ' || ('\t' <= c <= '\r') || ('\U{1C}' <= c <= '\U{1F}')
    || c == '\U{85}' || c == '\U{A0}' || c == '\U{1680}'
    || ('\U{2000}' <= c <= '\U{200A}') || c == '\U{2028}' || c == '\U{2029}'
    || c == '\U{202F}' || c == '\U{205F}' || c == '\U{3000}'
  }

  /** An ASCII decimal digit (`\d` restricted to ASCII). */
  predicate IsDigit(c: char)
  {
    '0' <= c <= '9'
  }

  predicate AllSpace(s: string)
  {
    forall i :: 0 <= i < |s| ==> IsSpace(s[i])
  }

  predicate AllDigits(s: string)
  {
    forall i :: 0 <= i < |s| ==> IsDigit(s[i])
  }

  /** Python's `s.strip()`: what lies between the leading and the trailing whitespace. */
  function Strip(s: string): string
  {
    var lo := SpaceRunFrom(s, 0);
    var hi := |s| - SpaceRunBefore(s, |s|);
    if lo < hi then s[lo..hi] else []
  }

  /** `Strip(s)` is the infix of `s` left once the whitespace at both ends is cut off. */
  lemma StripIsInfix(s: string)
    ensures var r := Strip(s);
      exists lo :: (0 <= lo && lo + |r| <= |s|
        && r == s[lo..lo + |r|] && AllSpace(s[..lo]) && AllSpace(s[lo + |r|..])
        && (r == [] || (!IsSpace(r[0]) && !IsSpace(r[|r| - 1]))))
  {
    var lo := SpaceRunFrom(s, 0);
    var hi := |s| - SpaceRunBefore(s, |s|);
    var r := Strip(s);
    if lo < hi {
      assert r == s[lo..hi];
      assert r[0] == s[lo] && r[|r| - 1] == s[hi - 1];
      assert forall i :: 0 <= i < |s[hi..]| ==> s[hi..][i] == s[hi + i];
      assert AllSpace(s[lo + |r|..]);
    } else {
      assert lo == |s| && r == [];
      assert AllSpace(s[lo + |r|..]);
    }
    assert forall i :: 0 <= i < lo ==> s[..lo][i] == s[i];
    assert AllSpace(s[..lo]);
    assert 0 <= lo && lo + |r| <= |s| && r == s[lo..lo + |r|];
  }

  /** A string that starts and ends with something other than whitespace is already stripped. */
  lemma StripOfStripped(s: string)
    requires s != [] && !IsSpace(s[0]) && !IsSpace(s[|s| - 1])
    ensures Strip(s) == s
  {
    assert SpaceRunFrom(s, 0) == 0 && SpaceRunBefore(s, |s|) == 0;
    assert s[0..|s|] == s;
  }

  /** Stripping a string that is already stripped changes nothing. */
  lemma StripIdempotent(s: string)
    ensures Strip(Strip(s)) == Strip(s)
  {
    StripIsInfix(s);
    if Strip(s) != [] {
      StripOfStripped(Strip(s));
    }
  }

  /** Length of the longest prefix of `s` made of ASCII digits. */
  function DigitRun(s: string): (n: nat)
    ensures n <= |s| && AllDigits(s[..n])
    ensures n == |s| || !IsDigit(s[n])
  {
    var n := DigitRunFrom(s, 0);
    assert forall i :: 0 <= i < n ==> s[..n][i] == s[i];
    n
  }

  /** Length of the longest run of ASCII digits in `s` starting at position `i`. */
  function DigitRunFrom(s: string, i: nat): (n: nat)
    requires i <= |s|
    ensures i + n <= |s|
    ensures forall j :: i <= j < i + n ==> IsDigit(s[j])
    ensures i + n == |s| || !IsDigit(s[i + n])
    decreases |s| - i
  {
    if i < |s| && IsDigit(s[i]) then 1 + DigitRunFrom(s, i + 1) else 0
  }

  /** The digit run ends at the first character that is not a digit. */
  lemma DigitRunStopsAt(s: string, n: nat)
    requires n < |s| && AllDigits(s[..n]) && !IsDigit(s[n])
    ensures DigitRun(s) == n
  {
  }

  /** Length of the longest run of whitespace in `s` starting at position `i`. */
  function SpaceRunFrom(s: string, i: nat): (n: nat)
    requires i <= |s|
    ensures i + n <= |s|
    ensures forall j :: i <= j < i + n ==> IsSpace(s[j])
    ensures i + n == |s| || !IsSpace(s[i + n])
    decreases |s| - i
  {
    if i < |s| && IsSpace(s[i]) then 1 + SpaceRunFrom(s, i + 1) else 0
  }

  /** Length of the longest run of whitespace in `s` ending just before position `j`. */
  function SpaceRunBefore(s: string, j: nat): (n: nat)
    requires j <= |s|
    ensures n <= j
    ensures forall i :: j - n <= i < j ==> IsSpace(s[i])
    ensures n == j || !IsSpace(s[j - n - 1])
  {
    if j > 0 && IsSpace(s[j - 1]) then 1 + SpaceRunBefore(s, j - 1) else 0
  }

  /** Length of the longest run without a newline in `s` starting at position `i`:
      what `.+` can consume from there. */
  function LineRunFrom(s: string, i: nat): (n: nat)
    requires i <= |s|
    ensures i + n <= |s|
    ensures forall j :: i <= j < i + n ==> s[j] != '\n'
    ensures i + n == |s| || s[i + n] == '\n'
    decreases |s| - i
  {
    if i < |s| && s[i] != '\n' then 1 + LineRunFrom(s, i + 1) else 0
  }

  /** The decimal value of a string of ASCII digits, as Python's `int()` reads it
      (leading zeros do not matter). */
  function DecimalValue(s: string): (v: nat)
    requires AllDigits(s)
  {
    if s == [] then 0 else 10 * DecimalValue(s[..|s| - 1]) + (s[|s| - 1] as int - '0' as int)
  }
}
