/**
 * The two input validators of the kiosk wizard.
 *
 * `is_valid_email` is `re.match(r"[^@]+@[^@]+\.[^@]+", e)`: the pattern must
 * match a PREFIX of `e` (re.match anchors at the start only), so trailing text
 * is allowed.  `is_valid_phone` is `re.match(r"^\d{10}$", p)`, where Python's
 * `$` also matches just before a final newline.
 */
module Validators {
  import opened Text

  /** Index of the first `c` in `s` at or after `from`; `|s|` when there is none. */
  function IndexOf(s: string, c: char, from: nat): (r: nat)
    requires from <= |s|
    ensures from <= r <= |s|
    ensures r < |s| ==> s[r] == c
    ensures forall j :: from <= j < r ==> s[j] != c
    decreases |s| - from
  {
    if from == |s| then from
    else if s[from] == c then from
    else IndexOf(s, c, from + 1)
  }

  /** The email check as the kiosk computes it: there is a first '@' with at
      least one character before it, and between that '@' and the next one (or
      the end) there is a '.' with at least one character on each side. */
  predicate IsValidEmail(e: string)
  {
    var at := IndexOf(e, '@', 0);
    0 < at < |e| &&
    var next := IndexOf(e, '@', at + 1);
    exists k :: at + 1 < k < next - 1 && e[k] == '.'
  }

  /** `s` splits as `s[..i]`, '@', `s[i+1..k]`, '.', `s[k+1..]`, with every
      part non-empty and free of '@'. */
  ghost predicate ShapeAt(s: string, i: nat, k: nat)
  {
    0 < i && i + 1 < k && k + 1 < |s| && s[i] == '@' && s[k] == '.' &&
    '@' !in s[..i] && '@' !in s[i + 1..k] && '@' !in s[k + 1..]
  }

  /** `s` as a whole matches `[^@]+@[^@]+\.[^@]+`. */
  ghost predicate EmailShape(s: string)
  {
    exists i: nat, k: nat :: ShapeAt(s, i, k)
  }

  /** `re.match` of the email pattern: some prefix of `e` has the shape. */
  ghost predicate EmailMatchesAtStart(e: string)
  {
    exists m :: 0 <= m <= |e| && EmailShape(e[..m])
  }

  /** The computed check finds a prefix of the required shape. */
  lemma ValidEmailMatches(e: string)
    requires IsValidEmail(e)
    ensures EmailMatchesAtStart(e)
  {
    var at := IndexOf(e, '@', 0);
    var next := IndexOf(e, '@', at + 1);
    var k :| at + 1 < k < next - 1 && e[k] == '.';
    var s := e[..k + 2];
    assert s[..at] == e[..at];
    assert s[at + 1..k] == e[at + 1..k];
    assert s[k + 1..] == [e[k + 1]];
    assert ShapeAt(s, at, k);
  }

  /** A prefix of the required shape makes the computed check succeed. */
  lemma MatchIsValidEmail(e: string)
    requires EmailMatchesAtStart(e)
    ensures IsValidEmail(e)
  {
    var m :| 0 <= m <= |e| && EmailShape(e[..m]);
    var s := e[..m];
    var i: nat, k: nat :| ShapeAt(s, i, k);
    assert forall j :: 0 <= j < i ==> e[j] == s[..i][j];
    var at := IndexOf(e, '@', 0);
    assert at == i;
    assert forall j :: i + 1 <= j < k ==> e[j] == s[i + 1..k][j - i - 1];
    assert e[k + 1] == s[k + 1..][0];
    var next := IndexOf(e, '@', at + 1);
    assert next > k + 1;
    assert at + 1 < k < next - 1 && e[k] == '.';
  }

  /** The computed check is exactly the start-anchored regular-expression match. */
  lemma EmailValidIffMatch(e: string)
    ensures IsValidEmail(e) <==> EmailMatchesAtStart(e)
  {
    if IsValidEmail(e) {
      ValidEmailMatches(e);
    }
    if EmailMatchesAtStart(e) {
      MatchIsValidEmail(e);
    }
  }

  /** The check is not anchored at the end: text after a valid address keeps it valid. */
  lemma EmailAllowsTrailingText(e: string, t: string)
    requires IsValidEmail(e)
    ensures IsValidEmail(e + t)
  {
    ValidEmailMatches(e);
    var m :| 0 <= m <= |e| && EmailShape(e[..m]);
    assert (e + t)[..m] == e[..m];
    MatchIsValidEmail(e + t);
  }

  /** `local@host.domain` is accepted whenever the three parts are non-empty and
      free of '@'. */
  lemma AddressIsValidEmail(local: string, host: string, domain: string)
    requires local != [] && '@' !in local
    requires host != [] && '@' !in host
    requires domain != [] && '@' !in domain
    ensures IsValidEmail(local + "@" + host + "." + domain)
  {
    var s := local + "@" + host + "." + domain;
    var i, k := |local|, |local| + 1 + |host|;
    assert s[..i] == local;
    assert s[i + 1..k] == host;
    assert s[k + 1..] == domain;
    assert ShapeAt(s[..|s|], i, k);
    MatchIsValidEmail(s);
  }

  /** `^\d{10}$`, with Python's `$` matching at the end or before one final
      newline (digits are the ASCII ones the keypad produces). */
  predicate IsValidPhone(p: string)
  {
    (|p| == 10 && AllDigits(p)) || (|p| == 11 && AllDigits(p[..10]) && p[10] == '\n')
  }

  /** On text that does not end in whitespace (as after `strip()`), the phone
      check accepts exactly the strings of ten digits. */
  lemma PhoneValidIffTenDigits(p: string)
    requires p == [] || !IsSpace(p[|p| - 1])
    ensures IsValidPhone(p) <==> |p| == 10 && AllDigits(p)
  {
  }

  /** The check is not end-anchored: text after an address, even a second
      '@', is accepted. */
  lemma EmailTrailingExamples()
    ensures IsValidEmail("a@b.c") && IsValidEmail("a@b.c@x") && IsValidEmail("a@b.c d")
  {
    AddressIsValidEmail("a", "b", "c");
    assert "a" + "@" + "b" + "." + "c" == "a@b.c";
    EmailAllowsTrailingText("a@b.c", "@x");
    assert "a@b.c" + "@x" == "a@b.c@x";
    EmailAllowsTrailingText("a@b.c", " d");
    assert "a@b.c" + " d" == "a@b.c d";
  }

  /** An empty name, host or domain, a missing dot, or a doubled '@' is rejected. */
  lemma EmailRejectedExamples()
    ensures !IsValidEmail("@b.c") && !IsValidEmail("a@.c") && !IsValidEmail("a@b.")
    ensures !IsValidEmail("a@bc") && !IsValidEmail("a@@b.c")
  {
    assert IndexOf("a@.c", '@', 0) == 1;
    assert IndexOf("a@b.", '@', 0) == 1;
    assert IndexOf("a@bc", '@', 0) == 1;
    assert IndexOf("a@@b.c", '@', 0) == 1;
    assert IndexOf("a@@b.c", '@', 2) == 2;
  }

  /** Edge cases of the phone check: a final newline is tolerated by `$`;
      nine or eleven digits are not accepted. */
  lemma PhoneExamples()
    ensures IsValidPhone("0123456789") && IsValidPhone("0123456789\n")
    ensures !IsValidPhone("012345678") && !IsValidPhone("01234567890") && !IsValidPhone("012345678a")
  {
    assert !IsAsciiDigit("012345678a"[9]);
  }
}
