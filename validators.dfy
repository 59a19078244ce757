/** The input checks shared by the client forms. The email and phone checks are
    hand-written scanners, each proved equal to the regular expression it replaces;
    the hex-colour check is written directly as its pattern's language. */
module Validators {
  import opened Text
  import Secrets

  // ---------------------------------------------------------------------------
  // Email: /^[^\s@]+@[^\s@]+\.[^\s@]+$/ applied to the trimmed input
  // ---------------------------------------------------------------------------

  /** The character class `[^\s@]`. */
  predicate Plain(c: char)
  {
    !IsSpace(c) && c != '@'
  }

  predicate AllPlain(t: string)
  {
    forall k :: 0 <= k < |t| ==> Plain(t[k])
  }

  /** The pattern read as a concatenation: `s` is `a + "@" + b + "." + c`, where the
      `@` sits at `i`, the `.` at `j`, and `a`, `b`, `c` are non-empty runs of `[^\s@]`. */
  predicate EmailSplit(s: string, i: int, j: int)
  {
    && 0 < i && i + 1 < j && j + 1 < |s|
    && s[i] == '@' && s[j] == '.'
    && AllPlain(s[..i]) && AllPlain(s[i + 1..j]) && AllPlain(s[j + 1..])
  }

  /** The regular expression's language. */
  ghost predicate MatchesEmailPattern(s: string)
  {
    exists i, j :: EmailSplit(s, i, j)
  }

  /** The first position of `c` in `s`, or `|s|` when there is none. */
  function IndexOf(s: string, c: char): (k: nat)
    ensures k <= |s|
    ensures k < |s| ==> s[k] == c
    ensures forall j :: 0 <= j < k ==> s[j] != c
  {
    if s == [] then 0
    else if s[0] == c then 0
    else
      var k := 1 + IndexOf(s[1..], c);
      assert forall j :: 1 <= j < |s| ==> s[j] == s[1..][j - 1];
      k
  }

  /** One scan: the first `@` is not at the start, every other character is plain,
      and a `.` follows the `@` with at least one character on each side of it. */
  predicate IsEmail(s: string)
  {
    var at := IndexOf(s, '@');
    && 0 < at
    && at + 2 <= |s| - 1
    && (forall k :: 0 <= k < |s| && k != at ==> Plain(s[k]))
    && '.' in s[at + 2..|s| - 1]
  }

  /** The scanner accepts exactly the strings the regular expression matches. */
  lemma EmailMatches(s: string)
    ensures IsEmail(s) <==> MatchesEmailPattern(s)
  {
    if IsEmail(s) {
      var at := IndexOf(s, '@');
      var rest := s[at + 2..|s| - 1];
      var d :| 0 <= d < |rest| && rest[d] == '.';
      var j := at + 2 + d;
      assert s[j] == '.';
      var a, b, c := s[..at], s[at + 1..j], s[j + 1..];
      forall k | 0 <= k < |a| ensures Plain(a[k]) { assert a[k] == s[k]; }
      forall k | 0 <= k < |b| ensures Plain(b[k]) { assert b[k] == s[at + 1 + k]; }
      forall k | 0 <= k < |c| ensures Plain(c[k]) { assert c[k] == s[j + 1 + k]; }
      assert EmailSplit(s, at, j);
    }
    if MatchesEmailPattern(s) {
      var i, j :| EmailSplit(s, i, j);
      forall k | 0 <= k < |s| && k != i ensures Plain(s[k]) {
        if k < i {
          assert s[k] == s[..i][k];
        } else if k < j {
          assert s[k] == s[i + 1..j][k - i - 1];
        } else if k > j {
          assert s[k] == s[j + 1..][k - j - 1];
        }
      }
      assert IndexOf(s, '@') == i;
      assert s[i + 2..|s| - 1][j - i - 2] == '.';
    }
  }

  /** The forms' email check: `EMAIL.test(email.trim())`. */
  predicate IsValidEmail(email: string)
  {
    IsEmail(Trim(email))
  }

  /** What the forms send is a non-empty address with no whitespace at all. */
  lemma ValidEmailShape(email: string)
    requires IsValidEmail(email)
    ensures |Trim(email)| >= 5
    ensures forall k :: 0 <= k < |Trim(email)| ==> !IsSpace(Trim(email)[k])
  {
    var t := Trim(email);
    var at := IndexOf(t, '@');
    assert !IsSpace(t[at]);
  }

  // ---------------------------------------------------------------------------
  // Phone: /^\+?[0-9]{7,15}$/ applied to the trimmed input
  // ---------------------------------------------------------------------------

  predicate IsDigit(c: char)
  {
    '0' <= c <= '9'
  }

  predicate AllDigits(t: string)
  {
    forall k :: 0 <= k < |t| ==> IsDigit(t[k])
  }

  /** The regular expression's language: an optional `+`, then 7 to 15 digits. */
  predicate MatchesPhonePattern(s: string)
  {
    || (7 <= |s| <= 15 && AllDigits(s))
    || (|s| > 0 && s[0] == '+' && 7 <= |s| - 1 <= 15 && AllDigits(s[1..]))
  }

  /** The length of the run of digits starting at `from`. */
  function DigitRun(s: string, from: nat): (n: nat)
    requires from <= |s|
    decreases |s| - from
  {
    if from < |s| && IsDigit(s[from]) then 1 + DigitRun(s, from + 1) else 0
  }

  lemma {:induction false} DigitRunFacts(s: string, from: nat)
    requires from <= |s|
    ensures from + DigitRun(s, from) <= |s|
    ensures forall k :: from <= k < from + DigitRun(s, from) ==> IsDigit(s[k])
    ensures from + DigitRun(s, from) < |s| ==> !IsDigit(s[from + DigitRun(s, from)])
    decreases |s| - from
  {
    if from < |s| && IsDigit(s[from]) {
      DigitRunFacts(s, from + 1);
    }
  }

  /** One scan: skip an optional `+`, count the digits, and accept when they reach the
      end and number 7 to 15. */
  predicate IsPhone(s: string)
  {
    var start := if |s| > 0 && s[0] == '+' then 1 else 0;
    var n := DigitRun(s, start);
    start + n == |s| && 7 <= n <= 15
  }

  /** The scanner accepts exactly the strings the regular expression matches. */
  lemma PhoneMatches(s: string)
    ensures IsPhone(s) <==> MatchesPhonePattern(s)
  {
    var start := if |s| > 0 && s[0] == '+' then 1 else 0;
    DigitRunFacts(s, start);
    var n := DigitRun(s, start);
    if start + n == |s| {
      assert forall k :: 0 <= k < |s| - start ==> s[start..][k] == s[start + k];
      if start == 1 {
        assert !AllDigits(s) by { assert !IsDigit(s[0]); }
      }
    } else {
      assert !IsDigit(s[start + n]);
      if start == 1 {
        assert !AllDigits(s[1..]) by { assert s[1..][n] == s[1 + n]; }
        assert !AllDigits(s) by { assert !IsDigit(s[0]); }
      } else {
        assert !AllDigits(s);
        assert |s| == 0 || s[0] != '+';
      }
    }
  }

  // ---------------------------------------------------------------------------
  // Hex colour: /^#([0-9a-fA-F]{6})$/ applied to the trimmed input
  // ---------------------------------------------------------------------------

  predicate IsHexDigit(c: char)
  {
    '0' <= c <= '9' || 'a' <= c <= 'f' || 'A' <= c <= 'F'
  }

  /** `#` followed by exactly six hexadecimal digits of either case. */
  predicate IsHexColor(s: string)
  {
    |s| == 7 && s[0] == '#' && forall k :: 1 <= k < 7 ==> IsHexDigit(s[k])
  }

  /** The check ignores case: lowering a string neither makes nor breaks a colour. */
  lemma HexColorIgnoresCase(s: string)
    ensures IsHexColor(ToLower(s)) <==> IsHexColor(s)
  {
    var t := ToLower(s);
    if |s| == 7 {
      assert t[0] == '#' <==> s[0] == '#';
      forall k | 1 <= k < 7 ensures IsHexDigit(t[k]) <==> IsHexDigit(s[k]) {
        assert t[k] == LowerChar(s[k]);
      }
    }
  }

  /** Three bytes written as the service writes bytes, after a `#`, are accepted. */
  lemma EncodedBytesAreHexColor(r: Secrets.Byte, g: Secrets.Byte, b: Secrets.Byte)
    ensures IsHexColor("#" + Secrets.HexEncode([r, g, b]))
  {
    var h := Secrets.HexEncode([r, g, b]);
    var s := "#" + h;
    Secrets.HexEncodeDigits([r, g, b]);
    forall k | 1 <= k < 7 ensures IsHexDigit(s[k]) {
      assert s[k] == h[k - 1];
      DigitIsHex(h[k - 1]);
    }
  }

  /** Every digit the encoder can write is accepted by the colour check. */
  lemma DigitIsHex(c: char)
    requires c in Secrets.HexDigits
    ensures IsHexDigit(c)
  {
  }
}
