/**
  The string operations the normalizer chains together: Python's `str.strip()`,
  `str.upper()` and the regular expression `\d+` used with `fullmatch`, all
  restricted to ASCII.
 */
module Text {

  /** The ASCII characters Python's `str.isspace` accepts, which `strip()` removes:
      tab, line feed, vertical tab, form feed, carriage return, the four
      information separators 0x1C-0x1F, and the space. */
  predicate IsSpace(c: char) {
    ('\t' <= c <= '\r') || (28 <= c as int <= 32)
  }

  predicate IsDigit(c: char) {
    '0' <= c <= '9'
  }

  /** `str.upper()` on one character: a-z become A-Z, everything else is kept. */
  function UpperChar(c: char): char {
    if 'a' <= c <= 'z' then (c as int - 32) as char else c
  }

  /** A string with no leading and no trailing whitespace. */
  predicate Trimmed(s: string) {
    |s| == 0 || (!IsSpace(s[0]) && !IsSpace(s[|s| - 1]))
  }

  /** A string whose every character is whitespace. */
  predicate AllSpace(s: string) {
    forall i :: 0 <= i < |s| ==> IsSpace(s[i])
  }

  /** A string `str.upper()` leaves unchanged: no lower-case ASCII letter. */
  predicate IsUpper(s: string) {
    forall i :: 0 <= i < |s| ==> !('a' <= s[i] <= 'z')
  }

  /** Whether `re.fullmatch(r"\d+", s)` succeeds: at least one character, all digits. */
  predicate AllDigits(s: string) {
    |s| > 0 && forall i :: 0 <= i < |s| ==> IsDigit(s[i])
  }

  /** Drops the leading whitespace of `s`. */
  function StripLeft(s: string): (r: string)
    ensures |r| <= |s|
    ensures |r| == 0 || !IsSpace(r[0])
  {
    if |s| > 0 && IsSpace(s[0]) then StripLeft(s[1..]) else s
  }

  /** Drops the trailing whitespace of `s`. */
  function StripRight(s: string): (r: string)
    ensures |r| <= |s|
    ensures |r| == 0 || !IsSpace(r[|r| - 1])
  {
    if |s| > 0 && IsSpace(s[|s| - 1]) then StripRight(s[..|s| - 1]) else s
  }

  /** `str.strip()`: both ends of whitespace dropped. */
  function Strip(s: string): (r: string)
    ensures |r| <= |s|
  {
    StripRight(StripLeft(s))
  }

  /** `StripLeft` removes a whitespace-only prefix and nothing else. */
  lemma {:induction false} StripLeftDropsSpacePrefix(s: string)
    ensures var r := StripLeft(s);
      r == s[|s| - |r|..] && AllSpace(s[..|s| - |r|])
  {
    if |s| > 0 && IsSpace(s[0]) {
      StripLeftDropsSpacePrefix(s[1..]);
    }
  }

  /** `StripRight` removes a whitespace-only suffix and nothing else. */
  lemma {:induction false} StripRightDropsSpaceSuffix(s: string)
    ensures var r := StripRight(s);
      r == s[..|r|] && AllSpace(s[|r|..])
  {
    if |s| > 0 && IsSpace(s[|s| - 1]) {
      StripRightDropsSpaceSuffix(s[..|s| - 1]);
    }
  }

  /**
    `strip()` returns a trimmed string: the middle part of `s` left between a
    whitespace-only prefix and a whitespace-only suffix.
   */
  lemma {:induction false} StripIsTrimmedMiddle(s: string)
    ensures Trimmed(Strip(s))
    ensures exists i, j :: 0 <= i <= j <= |s| && Strip(s) == s[i..j] && AllSpace(s[..i]) && AllSpace(s[j..])
  {
    var l := StripLeft(s);
    var r := StripRight(l);
    StripLeftDropsSpacePrefix(s);
    StripRightDropsSpaceSuffix(l);
    assert r == s[|s| - |l|..|s| - |l| + |r|];
    assert s[..|s| - |l| + |r|][..|s| - |l|] == s[..|s| - |l|];
    assert s[|s| - |l| + |r|..] == l[|r|..];
    if |r| > 0 {
      assert r[0] == l[0];
    }
  }

  /** `str.upper()`: every character upper-cased on its own, the length kept. */
  function Upper(s: string): (r: string)
    ensures |r| == |s|
  {
    seq(|s|, i requires 0 <= i < |s| => UpperChar(s[i]))
  }

  /**
    `upper()` on one character changes exactly the lower-case letters, leaves
    none behind, and a second application changes nothing.
   */
  lemma UpperCharIdempotent(c: char)
    ensures !('a' <= UpperChar(c) <= 'z')
    ensures UpperChar(c) == c <==> !('a' <= c <= 'z')
    ensures UpperChar(UpperChar(c)) == UpperChar(c)
  {
  }

  /** Upper-casing never turns whitespace into non-whitespace or back. */
  lemma UpperCharKeepsSpace(c: char)
    ensures IsSpace(UpperChar(c)) == IsSpace(c)
  {
  }

  /** The result of `upper()` has no lower-case letter left, so `upper()` is idempotent. */
  lemma UpperIsUpper(s: string)
    ensures IsUpper(Upper(s))
    ensures Upper(Upper(s)) == Upper(s)
  {
  }

  /** A string with no lower-case ASCII letter is its own upper-case. */
  lemma UpperOfUpper(s: string)
    requires IsUpper(s)
    ensures Upper(s) == s
  {
  }

  /** Stripping a string that is already trimmed changes nothing. */
  lemma {:induction false} StripTrimmed(s: string)
    requires Trimmed(s)
    ensures Strip(s) == s
  {
    assert StripLeft(s) == s;
    assert StripRight(s) == s;
  }

  /** `strip()` is idempotent. */
  lemma {:induction false} StripIdempotent(s: string)
    ensures Strip(Strip(s)) == Strip(s)
  {
    StripIsTrimmedMiddle(s);
    StripTrimmed(Strip(s));
  }

  /** Upper-casing keeps a trimmed string trimmed. */
  lemma UpperKeepsTrimmed(s: string)
    requires Trimmed(s)
    ensures Trimmed(Upper(s))
  {
    if |s| > 0 {
      UpperCharKeepsSpace(s[0]);
      UpperCharKeepsSpace(s[|s| - 1]);
    }
  }

  /** The chain `strip().upper()` is idempotent: its output is trimmed and upper-case. */
  lemma {:induction false} StripUpperIdempotent(s: string)
    ensures Trimmed(Upper(Strip(s))) && IsUpper(Upper(Strip(s)))
    ensures Upper(Strip(Upper(Strip(s)))) == Upper(Strip(s))
  {
    var u := Upper(Strip(s));
    StripIsTrimmedMiddle(s);
    UpperKeepsTrimmed(Strip(s));
    UpperIsUpper(Strip(s));
    StripTrimmed(u);
  }

  /** No digit-only string has a space or a letter, upper- or lower-case, in it. */
  lemma DigitsHaveNoLetters(s: string, i: int)
    requires 0 <= i < |s|
    ensures AllDigits(s) ==> !IsSpace(s[i]) && !('A' <= s[i] <= 'Z') && !('a' <= s[i] <= 'z')
  {
  }
}
