/** The regular expressions of the forms, written out as predicates on strings,
    and the ASCII part of `String.prototype.toUpperCase`. */
module Patterns {

  predicate IsDigit(c: char) { '0' <= c <= '9' }
  predicate IsLower(c: char) { 'a' <= c <= 'z' }
  predicate IsUpper(c: char) { 'A' <= c <= 'Z' }

  predicate AllDigits(s: string)
  {
    forall i :: 0 <= i < |s| ==> IsDigit(s[i])
  }

  // ---------------------------------------------------------------------------
  // Phone: /^[+]?[1-9][\d]{0,15}$/

  /** An optional `+`, a digit 1-9, then at most 15 more digits and nothing else
      (without the `m` flag `$` matches only at the very end). */
  predicate PhonePattern(s: string)
    ensures PhonePattern(s) ==> 1 <= |s| <= 17 && s[0] != '0' && IsDigit(s[|s| - 1])
  {
    var t := if |s| > 0 && s[0] == '+' then s[1..] else s;
    1 <= |t| <= 16 && '1' <= t[0] <= '9' && AllDigits(t[1..])
  }

  /** Every string built the way the expression reads is accepted. */
  lemma PhoneFromParts(sign: string, lead: char, rest: string)
    requires sign == "" || sign == "+"
    requires '1' <= lead <= '9' && |rest| <= 15 && AllDigits(rest)
    ensures PhonePattern(sign + [lead] + rest)
  {
    var s := sign + [lead] + rest;
    var t := if |s| > 0 && s[0] == '+' then s[1..] else s;
    assert t == [lead] + rest;
    assert t[1..] == rest;
  }

  /** And every accepted string is built that way: an optional `+` (never two),
      a leading digit that is not `0`, and 1 to 16 digits in all. */
  lemma PhoneParts(s: string)
    requires PhonePattern(s)
    ensures var k := if s[0] == '+' then 1 else 0;
      && 1 + k <= |s| <= 16 + k
      && '1' <= s[k] <= '9'
      && AllDigits(s[k + 1..])
  {
    var k := if s[0] == '+' then 1 else 0;
    var t := if |s| > 0 && s[0] == '+' then s[1..] else s;
    assert t == s[k..];
    assert t[1..] == s[k + 1..];
  }

  // ---------------------------------------------------------------------------
  // Numbers as text: what `RegExp.prototype.test` sees for a number, `String(n)`

  function Pow10(k: nat): (p: nat)
    ensures p >= 1
  {
    if k == 0 then 1 else 10 * Pow10(k - 1)
  }

  function DigitChar(d: nat): (c: char)
    requires d < 10
    ensures IsDigit(c) && (d != 0 ==> c != '0')
  {
    ('0' as int + d) as char
  }

  /** The decimal digits of `n`, most significant first, without leading zeros. */
  function DigitsOf(n: nat): (s: string)
    ensures 1 <= |s| && AllDigits(s)
    ensures n >= 1 ==> s[0] != '0'
  {
    if n < 10 then [DigitChar(n)]
    else
      var s := DigitsOf(n / 10) + [DigitChar(n % 10)];
      assert forall i :: 0 <= i < |s| - 1 ==> s[i] == DigitsOf(n / 10)[i];
      s
  }

  /** `String(n)` for an integer: a minus sign for a negative number, then its digits. */
  function DecimalText(n: int): (s: string)
    ensures n >= 0 ==> s == DigitsOf(n)
    ensures n < 0 ==> s == "-" + DigitsOf(-n)
  {
    if n < 0 then "-" + DigitsOf(-n) else DigitsOf(n)
  }

  /** A number has at most `k + 1` digits exactly when it is below `10^(k+1)`. */
  lemma {:induction false} DigitsLength(n: nat, k: nat)
    ensures |DigitsOf(n)| <= k + 1 <==> n < Pow10(k + 1)
  {
    if n >= 10 {
      if k == 0 {
        assert |DigitsOf(n)| == |DigitsOf(n / 10)| + 1;
      } else {
        DigitsLength(n / 10, k - 1);
        assert n / 10 < Pow10(k) <==> n < 10 * Pow10(k);
      }
    } else {
      assert Pow10(k + 1) >= 10 by { PowAtLeastTen(k); }
    }
  }

  lemma {:induction false} PowAtLeastTen(k: nat)
    ensures Pow10(k + 1) >= 10
  {
    if k > 0 {
      PowAtLeastTen(k - 1);
    }
  }

  /** The bound of the phone pattern's digit count: sixteen digits. */
  lemma PhoneDigitBound()
    ensures Pow10(16) == 10_000_000_000_000_000
  {
    assert Pow10(4) == 10_000;
    assert Pow10(8) == 100_000_000 by {
      assert Pow10(5) == 100_000 && Pow10(6) == 1_000_000 && Pow10(7) == 10_000_000;
    }
    assert Pow10(12) == 1_000_000_000_000 by {
      assert Pow10(9) == 1_000_000_000 && Pow10(10) == 10_000_000_000 && Pow10(11) == 100_000_000_000;
    }
    assert Pow10(13) == 10_000_000_000_000 && Pow10(14) == 100_000_000_000_000;
    assert Pow10(15) == 1_000_000_000_000_000;
  }

  /** A number's text passes the phone pattern exactly when the number is between 1 and
      `10^16 - 1`: zero and negative numbers fail on their first character, and larger
      numbers have too many digits. */
  lemma NumericPhone(n: int)
    ensures PhonePattern(DecimalText(n)) <==> 1 <= n < Pow10(16)
  {
    var s := DecimalText(n);
    if n >= 1 {
      DigitsLength(n, 15);
      assert s[1..] == DigitsOf(n)[1..];
      assert AllDigits(s[1..]) by {
        forall i | 0 <= i < |s[1..]| ensures IsDigit(s[1..][i]) {
          assert s[1..][i] == s[i + 1];
        }
      }
    } else if n == 0 {
      assert s == DigitsOf(0) == ['0'];
    } else {
      assert s[0] == '-';
    }
  }

  // ---------------------------------------------------------------------------
  // Password: /^(?=.*[a-z])(?=.*[A-Z])(?=.*\d)/

  /** The characters `.` does not match. */
  predicate IsLineTerminator(c: char)
  {
    c == '\n' || c == '\r' || c == '\U{2028}' || c == '\U{2029}'
  }

  predicate SingleLine(s: string)
  {
    forall i :: 0 <= i < |s| ==> !IsLineTerminator(s[i])
  }

  /** The longest prefix of `s` without a line terminator: what `.*` can range over from the start. */
  function FirstLine(s: string): (r: string)
    ensures |r| <= |s| && r == s[..|r|]
    ensures SingleLine(r)
    ensures |r| < |s| ==> IsLineTerminator(s[|r|])
  {
    if s == [] || IsLineTerminator(s[0]) then [] else [s[0]] + FirstLine(s[1..])
  }

  predicate HasLower(s: string) { exists i :: 0 <= i < |s| && IsLower(s[i]) }
  predicate HasUpper(s: string) { exists i :: 0 <= i < |s| && IsUpper(s[i]) }
  predicate HasDigit(s: string) { exists i :: 0 <= i < |s| && IsDigit(s[i]) }

  /** Each look-ahead `(?=.*[x])` at position 0 succeeds iff the first line holds an `x`. */
  predicate PasswordPattern(s: string)
    ensures PasswordPattern(s) ==> HasLower(s) && HasUpper(s) && HasDigit(s)
  {
    var line := FirstLine(s);
    assert forall i :: 0 <= i < |line| ==> line[i] == s[i];
    HasLower(line) && HasUpper(line) && HasDigit(line)
  }

  lemma {:induction false} FirstLineOfSingleLine(s: string)
    requires SingleLine(s)
    ensures FirstLine(s) == s
  {
    if s != [] {
      assert SingleLine(s[1..]) by {
        forall i | 0 <= i < |s[1..]| ensures !IsLineTerminator(s[1..][i]) {
          assert s[1..][i] == s[i + 1];
        }
      }
      FirstLineOfSingleLine(s[1..]);
      assert s == [s[0]] + s[1..];
    }
  }

  /** For a password on one line the pattern means what its message says: at least one
      lowercase letter, one uppercase letter and one digit, anywhere. */
  lemma PasswordPatternSingleLine(s: string)
    requires SingleLine(s)
    ensures PasswordPattern(s) <==> HasLower(s) && HasUpper(s) && HasDigit(s)
  {
    FirstLineOfSingleLine(s);
  }

  /** Past a line break the classes are not seen: `"abcdef\nA1"` holds all three classes and is rejected. */
  lemma PasswordPatternStopsAtLineBreak()
    ensures var s := "abcdef\nA1";
      HasLower(s) && HasUpper(s) && HasDigit(s) && !PasswordPattern(s)
  {
    var s := "abcdef\nA1";
    assert IsLower(s[0]) && IsUpper(s[7]) && IsDigit(s[8]);
    var line := FirstLine(s);
    assert |line| <= 6;
    assert !HasUpper(line) by {
      forall i | 0 <= i < |line| ensures !IsUpper(line[i]) {
        assert line[i] == s[i];
      }
    }
  }

  // ---------------------------------------------------------------------------
  // Course code: /^[A-Z0-9]+$/ and upper-casing

  predicate CourseCodePattern(s: string)
    ensures CourseCodePattern(s) ==> SingleLine(s) && forall i :: 0 <= i < |s| ==> !IsLower(s[i])
  {
    |s| >= 1 && forall i :: 0 <= i < |s| ==> IsUpper(s[i]) || IsDigit(s[i])
  }

  function UpperChar(c: char): (u: char)
    ensures IsLower(c) ==> IsUpper(u) && u as int == c as int - 32
    ensures !IsLower(c) ==> u == c
  {
    if IsLower(c) then (c as int - 'a' as int + 'A' as int) as char else c
  }

  /** `s.toUpperCase()` for ASCII letters; every other character is kept. */
  function ToUpper(s: string): (u: string)
    ensures |u| == |s|
    ensures forall i :: 0 <= i < |s| ==> u[i] == UpperChar(s[i])
  {
    seq(|s|, i requires 0 <= i < |s| => UpperChar(s[i]))
  }

  predicate IsAsciiAlnum(c: char) { IsLower(c) || IsUpper(c) || IsDigit(c) }

  /** Upper-casing is idempotent, and turns any non-empty ASCII letters-and-digits input
      into a string the course-code pattern accepts. */
  lemma ToUpperProperties(s: string)
    ensures ToUpper(ToUpper(s)) == ToUpper(s)
    ensures |s| >= 1 && (forall i :: 0 <= i < |s| ==> IsAsciiAlnum(s[i])) ==> CourseCodePattern(ToUpper(s))
    ensures CourseCodePattern(s) ==> ToUpper(s) == s
  {
  }
}
