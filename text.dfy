/**
 * Python string primitives that the kiosk's input handling relies on:
 * `str.isspace` and `str.strip()`, ASCII `str.isdigit`, and the slice `s[:-1]`.
 */
module Text {

  /** Python's `str.isspace()` for one character: the ASCII controls TAB..CR and
      FS..US, the space, NEL, NO-BREAK SPACE and the Unicode space separators. */
  predicate IsSpace(c: char)
  {
    ('\t' <= c <= '\r') || ('\U{1C}' <= c <= '\U{1F}') || c == ' ' ||
    c == '\U{85}' || c == '\U{A0}' || c == '\U{1680}' ||
    ('\U{2000}' <= c <= '\U{200A}') || c == '\U{2028}' || c == '\U{2029}' ||
    c == '\U{202F}' || c == '\U{205F}' || c == '\U{3000}'
  }

  predicate NoSpace(s: string)
  {
    forall i :: 0 <= i < |s| ==> !IsSpace(s[i])
  }

  predicate IsAsciiDigit(c: char)
  {
    '0' <= c <= '9'
  }

  predicate AllDigits(s: string)
  {
    forall i :: 0 <= i < |s| ==> IsAsciiDigit(s[i])
  }

  /** `k.isdigit()` on a key label: non-empty and made of decimal digits. */
  predicate IsDigitString(s: string)
  {
    |s| > 0 && AllDigits(s)
  }

  /** Python's `s[:-1]`: all but the last character; the empty string stays empty. */
  function DropLast(s: string): (r: string)
    ensures s == [] ==> r == []
    ensures s != [] ==> r + [s[|s| - 1]] == s
  {
    if s == [] then [] else s[..|s| - 1]
  }

  /** The number of whitespace characters at the start of `s`. */
  function LeadingSpaces(s: string): (n: nat)
    ensures n <= |s|
    ensures forall i :: 0 <= i < n ==> IsSpace(s[i])
    ensures n < |s| ==> !IsSpace(s[n])
  {
    if s != [] && IsSpace(s[0]) then 1 + LeadingSpaces(s[1..]) else 0
  }

  /** The number of whitespace characters at the end of `s`. */
  function TrailingSpaces(s: string): (n: nat)
    ensures n <= |s|
    ensures forall i :: |s| - n <= i < |s| ==> IsSpace(s[i])
    ensures n < |s| ==> !IsSpace(s[|s| - n - 1])
  {
    if s != [] && IsSpace(s[|s| - 1]) then 1 + TrailingSpaces(s[..|s| - 1]) else 0
  }

  /** `s.strip()`: `s` without the whitespace at either end; what remains
      neither starts nor ends with whitespace, and everything removed is
      whitespace. */
  function Strip(s: string): (r: string)
    ensures LeadingSpaces(s) + |r| <= |s|
    ensures r == s[LeadingSpaces(s)..LeadingSpaces(s) + |r|]
    ensures forall i :: LeadingSpaces(s) + |r| <= i < |s| ==> IsSpace(s[i])
    ensures r != [] ==> !IsSpace(r[0]) && !IsSpace(r[|r| - 1])
  {
    var t := s[LeadingSpaces(s)..];
    t[..|t| - TrailingSpaces(t)]
  }

  /** Text without whitespace is left unchanged by `strip()`. */
  lemma StripNoSpace(s: string)
    requires NoSpace(s)
    ensures Strip(s) == s
  {
  }

  /** Stripping twice is stripping once. */
  lemma StripIdempotent(s: string)
    ensures Strip(Strip(s)) == Strip(s)
  {
  }

  /** A string of ASCII digits contains no whitespace. */
  lemma DigitsHaveNoSpace(s: string)
    requires AllDigits(s)
    ensures NoSpace(s)
  {
  }

  /** Python's `s.count(c)` for a single character `c`. */
  function CountOf(c: char, s: seq<char>): (n: nat)
    ensures n <= |s|
  {
    if s == [] then 0 else CountOf(c, s[..|s| - 1]) + (if s[|s| - 1] == c then 1 else 0)
  }

  /** A row whose first `n` glyphs are `c` and whose others are a different
      glyph `d` holds exactly `n` copies of `c`. */
  lemma {:induction false} CountOfPrefix(c: char, d: char, s: seq<char>, n: nat)
    requires c != d && n <= |s|
    requires forall i :: 0 <= i < |s| ==> s[i] == if i < n then c else d
    ensures CountOf(c, s) == n
    decreases |s|
  {
    if s != [] {
      if n == |s| {
        CountOfPrefix(c, d, s[..|s| - 1], n - 1);
      } else {
        CountOfPrefix(c, d, s[..|s| - 1], n);
      }
    }
  }
}
