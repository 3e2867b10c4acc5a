/**
 * The two on-screen keypads of the kiosk and what one key press does to the
 * text being typed.  A key is identified by its label, as the kiosk's key
 * handlers receive it; the labels are exactly the ones laid out on screen.
 */
module Keypads {
  import opened Text
  import opened Validators

  /** The phone field holds at most this many characters. */
  const MaxPhoneDigits := 10

  /** The labels of the phone keypad, row by row. */
  const PhoneKeyRows: seq<seq<string>> :=
    [["1", "2", "3"], ["4", "5", "6"], ["7", "8", "9"], ["Back", "0", "Del"]]

  /** The provider shortcut keys of the email keyboard. */
  const Providers: seq<string> := ["gmail", "yahoo", "outlook"]

  /** The labels of the email keyboard, row by row: one key per character of
      four character rows, then the provider shortcuts, then Backspace. */
  const EmailKeyRows: seq<seq<string>> :=
    [["q", "w", "e", "r", "t", "y", "u", "i", "o", "p"],
     ["a", "s", "d", "f", "g", "h", "j", "k", "l"],
     ["z", "x", "c", "v", "b", "n", "m", "@", "."],
     ["1", "2", "3", "4", "5", "6", "7", "8", "9", "0"],
     Providers,
     ["Backspace"]]

  predicate IsPhoneKey(k: string)
  {
    exists row :: 0 <= row < |PhoneKeyRows| && k in PhoneKeyRows[row]
  }

  predicate IsEmailKey(k: string)
  {
    exists row :: 0 <= row < |EmailKeyRows| && k in EmailKeyRows[row]
  }

  /** The phone keys are Back, Del and the ten single digits. */
  lemma PhoneKeysAreDigitsBackDel(k: string)
    ensures IsPhoneKey(k) <==> k == "Back" || k == "Del" || (|k| == 1 && IsAsciiDigit(k[0]))
  {
    if |k| == 1 && IsAsciiDigit(k[0]) {
      var c := k[0];
      assert k == [c];
      if c == '1' || c == '2' || c == '3' {
        assert k in PhoneKeyRows[0];
      } else if c == '4' || c == '5' || c == '6' {
        assert k in PhoneKeyRows[1];
      } else if c == '7' || c == '8' || c == '9' {
        assert k in PhoneKeyRows[2];
      } else {
        assert k in PhoneKeyRows[3];
      }
    }
    if k == "Back" || k == "Del" {
      assert k in PhoneKeyRows[3];
    }
  }

  /** The email keys are Backspace, the providers, and the single lower-case
      letters, ASCII digits, '@' and '.'. */
  lemma EmailKeysAreExactly(k: string)
    ensures IsEmailKey(k) <==>
              (k == "Backspace" || k in Providers ||
               (|k| == 1 && ('a' <= k[0] <= 'z' || IsAsciiDigit(k[0]) || k[0] == '@' || k[0] == '.')))
  {
    if |k| == 1 {
      var c := k[0];
      assert k == [c];
      if c in "qwertyuiop" {
        assert k in EmailKeyRows[0];
      } else if c in "asdfghjkl" {
        assert k in EmailKeyRows[1];
      } else if c in "zxcvbnm@." {
        assert k in EmailKeyRows[2];
      } else if IsAsciiDigit(c) {
        assert k in EmailKeyRows[3];
      }
    }
    if k in Providers {
      assert k in EmailKeyRows[4];
    }
    if k == "Backspace" {
      assert k in EmailKeyRows[5];
    }
  }

  /** Python's `_phone_key`: Del empties the field, Back removes its last
      character, and a digit key is appended only while the field holds fewer
      than ten characters; any other key leaves the field as it is. */
  function PhoneKeyStep(cur: string, k: string): (r: string)
    ensures k == "Del" ==> r == []
    ensures k == "Back" ==> (cur == [] ==> r == []) && (cur != [] ==> r + [cur[|cur| - 1]] == cur)
    ensures k != "Del" && k != "Back" ==>
              if |cur| < MaxPhoneDigits && IsDigitString(k) then r == cur + k else r == cur
  {
    if k == "Del" then []
    else if k == "Back" then DropLast(cur)
    else if |cur| < MaxPhoneDigits && IsDigitString(k) then cur + k
    else cur
  }

  /** Python's `_email_key`: Backspace removes the last character; a provider
      key completes the address with '@' + provider + ".com" unless the text
      already holds an '@', in which case its label is typed like any other key. */
  function EmailKeyStep(cur: string, k: string): (r: string)
    ensures k == "Backspace" ==> (cur == [] ==> r == []) && (cur != [] ==> r + [cur[|cur| - 1]] == cur)
    ensures k != "Backspace" && k in Providers && '@' !in cur ==> r == cur + "@" + k + ".com"
    ensures k != "Backspace" && (k !in Providers || '@' in cur) ==> r == cur + k
  {
    if k == "Backspace" then DropLast(cur)
    else if k in Providers && '@' !in cur then cur + "@" + k + ".com"
    else cur + k
  }

  /** The phone field after pressing the keys `ks` in order. */
  function PressPhoneKeys(cur: string, ks: seq<string>): string
    decreases |ks|
  {
    if ks == [] then cur else PressPhoneKeys(PhoneKeyStep(cur, ks[0]), ks[1..])
  }

  /** The email field after pressing the keys `ks` in order. */
  function PressEmailKeys(cur: string, ks: seq<string>): string
    decreases |ks|
  {
    if ks == [] then cur else PressEmailKeys(EmailKeyStep(cur, ks[0]), ks[1..])
  }

  /** The keys that type the characters of `s` one by one. */
  function CharKeys(s: string): (ks: seq<string>)
    ensures |ks| == |s| && forall i :: 0 <= i < |s| ==> ks[i] == [s[i]]
  {
    seq(|s|, i requires 0 <= i < |s| => [s[i]])
  }

  /** What the phone field may hold: at most ten ASCII digits. */
  predicate PhoneFieldOk(s: string)
  {
    |s| <= MaxPhoneDigits && AllDigits(s)
  }

  /** One phone key keeps the field at most ten digits long. */
  lemma PhoneKeyKeepsFieldOk(cur: string, k: string)
    requires PhoneFieldOk(cur) && IsPhoneKey(k)
    ensures PhoneFieldOk(PhoneKeyStep(cur, k))
  {
    PhoneKeysAreDigitsBackDel(k);
  }

  /** Any sequence of phone keys keeps the field at most ten digits long. */
  lemma {:induction false} PhoneKeysKeepFieldOk(cur: string, ks: seq<string>)
    requires PhoneFieldOk(cur)
    requires forall i :: 0 <= i < |ks| ==> IsPhoneKey(ks[i])
    ensures PhoneFieldOk(PressPhoneKeys(cur, ks))
    decreases |ks|
  {
    if ks != [] {
      PhoneKeyKeepsFieldOk(cur, ks[0]);
      PhoneKeysKeepFieldOk(PhoneKeyStep(cur, ks[0]), ks[1..]);
    }
  }

  /** Typing the digits `ds` fills the field up to ten digits and ignores the rest. */
  lemma {:induction false} TypingDigitsFillsToTen(cur: string, ds: string)
    requires PhoneFieldOk(cur) && AllDigits(ds)
    ensures var all := cur + ds;
            PressPhoneKeys(cur, CharKeys(ds)) == all[..if |all| < MaxPhoneDigits then |all| else MaxPhoneDigits]
    decreases |ds|
  {
    var all := cur + ds;
    if ds != [] {
      var next := PhoneKeyStep(cur, [ds[0]]);
      assert CharKeys(ds)[1..] == CharKeys(ds[1..]);
      TypingDigitsFillsToTen(next, ds[1..]);
      var rest := next + ds[1..];
      if |cur| < MaxPhoneDigits {
        assert next == cur + [ds[0]];
        assert rest == all;
      } else {
        assert next == cur;
        assert rest[..MaxPhoneDigits] == all[..MaxPhoneDigits];
      }
    }
  }

  /** Back undoes a digit that was accepted. */
  lemma BackUndoesDigit(cur: string, d: char)
    requires |cur| < MaxPhoneDigits && IsAsciiDigit(d)
    ensures PhoneKeyStep(PhoneKeyStep(cur, [d]), "Back") == cur
  {
    assert (cur + [d])[..|cur|] == cur;
  }

  /** Each character key types itself: pressing the keys of `s` appends `s`. */
  lemma {:induction false} TypingCharsAppends(cur: string, s: string)
    ensures PressEmailKeys(cur, CharKeys(s)) == cur + s
    decreases |s|
  {
    if s != [] {
      assert CharKeys(s)[1..] == CharKeys(s[1..]);
      TypingCharsAppends(cur + [s[0]], s[1..]);
      assert cur + [s[0]] + s[1..] == cur + s;
    }
  }

  lemma NoSpaceConcat(a: string, b: string)
    requires NoSpace(a) && NoSpace(b)
    ensures NoSpace(a + b)
  {
    assert forall i :: 0 <= i < |a + b| ==> (a + b)[i] == if i < |a| then a[i] else b[i - |a|];
  }

  /** One email key adds no whitespace. */
  lemma EmailKeyKeepsNoSpace(cur: string, k: string)
    requires NoSpace(cur) && IsEmailKey(k)
    ensures NoSpace(EmailKeyStep(cur, k))
  {
    EmailKeysAreExactly(k);
    if k == "Backspace" {
    } else {
      assert NoSpace(k) by {
        if k in Providers {
          assert k == "gmail" || k == "yahoo" || k == "outlook";
        }
      }
      if k in Providers && '@' !in cur {
        assert NoSpace("@") && NoSpace(".com");
        NoSpaceConcat(cur, "@");
        NoSpaceConcat(cur + "@", k);
        NoSpaceConcat(cur + "@" + k, ".com");
      } else {
        NoSpaceConcat(cur, k);
      }
    }
  }

  /** No email key types whitespace, so the field built from the keyboard never
      contains any. */
  lemma {:induction false} EmailKeysKeepNoSpace(cur: string, ks: seq<string>)
    requires NoSpace(cur)
    requires forall i :: 0 <= i < |ks| ==> IsEmailKey(ks[i])
    ensures NoSpace(PressEmailKeys(cur, ks))
    decreases |ks|
  {
    if ks != [] {
      EmailKeyKeepsNoSpace(cur, ks[0]);
      EmailKeysKeepNoSpace(EmailKeyStep(cur, ks[0]), ks[1..]);
    }
  }

  /** A provider shortcut pressed after a non-empty name that holds no '@'
      yields an address the email check accepts. */
  lemma ProviderShortcutGivesValidEmail(cur: string, k: string)
    requires cur != [] && '@' !in cur && k in Providers
    ensures IsValidEmail(EmailKeyStep(cur, k))
  {
    assert k == "gmail" || k == "yahoo" || k == "outlook";
    AddressIsValidEmail(cur, k, "com");
    assert cur + "@" + k + "." + "com" == cur + "@" + k + ".com";
  }
}
