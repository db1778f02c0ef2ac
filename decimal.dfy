/** Decimal text and Python 2's `int()` / `str()` on it, as far as the request
    codec needs them, restricted to ASCII text: ASCII digits, an optional
    sign, ASCII white space around the number and between the sign and the
    digits. The Unicode digits and Unicode white space that `int()` also
    accepts in a `unicode` string are not modelled. */
module Decimal {
  import opened Outcomes

  predicate IsDigit(c: char) { '0' <= c <= '9' }

  predicate AllDigits(s: string) { forall i :: 0 <= i < |s| ==> IsDigit(s[i]) }

  /** The characters Python's `str.strip()` and `int()` skip. */
  predicate IsSpace(c: char)
  {
    c == ' ' || c == '\t' || c == '\n' || c == '\r' || c == 11 as char || c == 12 as char
  }

  function DigitValue(c: char): (d: nat)
    requires IsDigit(c)
    ensures d < 10
  {
    (c as int) - ('0' as int)
  }

  function DigitChar(d: nat): (c: char)
    requires d < 10
    ensures IsDigit(c) && DigitValue(c) == d
  {
    (d + '0' as int) as char
  }

  /** The number a string of digits denotes, most significant digit first. */
  function DigitsValue(s: string): nat
    requires AllDigits(s)
  {
    if |s| == 0 then 0 else DigitsValue(s[..|s| - 1]) * 10 + DigitValue(s[|s| - 1])
  }

  /** `str(n)` for n >= 0: the shortest decimal rendering. */
  function NatToString(n: nat): (s: string)
    ensures |s| > 0 && AllDigits(s)
  {
    if n < 10 then [DigitChar(n)] else NatToString(n / 10) + [DigitChar(n % 10)]
  }

  /** `str(i)` */
  function IntToString(i: int): string
  {
    if i < 0 then "-" + NatToString(-i) else NatToString(i)
  }

  lemma {:induction false} NatToStringValue(n: nat)
    ensures DigitsValue(NatToString(n)) == n
  {
    var s := NatToString(n);
    if n >= 10 {
      NatToStringValue(n / 10);
      assert s[..|s| - 1] == NatToString(n / 10);
    }
  }

  function StripLeft(s: string): (r: string)
    ensures |r| <= |s|
  {
    if |s| > 0 && IsSpace(s[0]) then StripLeft(s[1..]) else s
  }

  function StripRight(s: string): (r: string)
    ensures |r| <= |s|
  {
    if |s| > 0 && IsSpace(s[|s| - 1]) then StripRight(s[..|s| - 1]) else s
  }

  function Strip(s: string): string { StripRight(StripLeft(s)) }

  /** Python 2's `int(s)` for an ASCII string: None where it raises
      ValueError. White space may surround the number and may follow the
      sign (`int('- 5')` is -5). */
  function ParseInt(s: string): Option<int>
  {
    var t := Strip(s);
    if |t| > 0 && (t[0] == '-' || t[0] == '+') then
      var digits := StripLeft(t[1..]);
      if |digits| > 0 && AllDigits(digits) then
        var v: int := DigitsValue(digits);
        Some(if t[0] == '-' then -v else v)
      else None
    else if |t| > 0 && AllDigits(t) then Some(DigitsValue(t))
    else None
  }

  lemma StripDigits(s: string)
    requires |s| > 0 && (IsDigit(s[0]) || s[0] == '-' || s[0] == '+') && IsDigit(s[|s| - 1])
    ensures Strip(s) == s
  {
  }

  /** `int(str(i)) == i`: the decimal rendering of any integer reads back as it. */
  lemma ParseIntToString(i: int)
    ensures ParseInt(IntToString(i)) == Some(i)
  {
    var s := IntToString(i);
    var d := NatToString(if i < 0 then -i else i);
    NatToStringValue(if i < 0 then -i else i);
    StripDigits(s);
    if i < 0 {
      assert s[1..] == d;
    }
  }

  /** Python 2 skips white space between the sign and the digits:
      `int('- 5')` is -5. */
  lemma SpaceAfterSign(n: nat, gap: string)
    requires forall i :: 0 <= i < |gap| ==> IsSpace(gap[i])
    ensures ParseInt("-" + gap + IntToString(n)) == Some(-(n as int))
    ensures ParseInt("+" + gap + IntToString(n)) == Some(n)
  {
    var d := NatToString(n);
    NatToStringValue(n);
    SkipSpaces(gap, d);
    forall sign | sign == '-' || sign == '+'
      ensures ParseInt([sign] + gap + d) == Some(if sign == '-' then -(n as int) else n)
    {
      var s := [sign] + gap + d;
      StripDigits(s);
      assert s[1..] == gap + d;
    }
    assert "-" + gap + d == ['-'] + gap + d;
    assert "+" + gap + d == ['+'] + gap + d;
  }

  lemma {:induction false} SkipSpaces(gap: string, d: string)
    requires forall i :: 0 <= i < |gap| ==> IsSpace(gap[i])
    requires |d| > 0 && !IsSpace(d[0])
    ensures StripLeft(gap + d) == d
  {
    if |gap| > 0 {
      SkipSpaces(gap[1..], d);
      assert (gap + d)[1..] == gap[1..] + d;
    } else {
      assert gap + d == d;
    }
  }

  lemma {:induction false} StripLeftIsSuffix(s: string)
    ensures exists k :: 0 <= k <= |s| && StripLeft(s) == s[k..]
  {
    if |s| > 0 && IsSpace(s[0]) {
      StripLeftIsSuffix(s[1..]);
      var k :| 0 <= k <= |s[1..]| && StripLeft(s[1..]) == s[1..][k..];
      assert s[1..][k..] == s[k + 1..];
    } else {
      assert s == s[0..];
    }
  }

  lemma {:induction false} StripRightIsPrefix(s: string)
    ensures exists k :: 0 <= k <= |s| && StripRight(s) == s[..k]
  {
    if |s| > 0 && IsSpace(s[|s| - 1]) {
      StripRightIsPrefix(s[..|s| - 1]);
      var k :| 0 <= k <= |s| - 1 && StripRight(s[..|s| - 1]) == s[..|s| - 1][..k];
      assert s[..|s| - 1][..k] == s[..k];
    } else {
      assert s == s[..|s|];
    }
  }

  /** Every character of the stripped string occurs in the original. */
  lemma StripIsInfix(s: string)
    ensures forall c :: c in Strip(s) ==> c in s
  {
    StripLeftIsSuffix(s);
    var k :| 0 <= k <= |s| && StripLeft(s) == s[k..];
    StripRightIsPrefix(s[k..]);
  }

  /** A string without a digit never parses: `int("abc")` raises. */
  lemma NoDigitNoInt(s: string)
    requires forall i :: 0 <= i < |s| ==> !IsDigit(s[i])
    ensures ParseInt(s) == None
  {
    var t := Strip(s);
    StripIsInfix(s);
    if |t| > 1 && (t[0] == '-' || t[0] == '+') {
      var digits := StripLeft(t[1..]);
      StripLeftIsSuffix(t[1..]);
      if |digits| > 0 {
        assert digits[|digits| - 1] in t;
      }
    } else if |t| > 0 {
      assert t[|t| - 1] in s;
    }
  }

  /** The first maximal run of digits in s (what `re.search('(\d+)', s)` captures). */
  function FirstDigitRun(s: string): Option<string>
  {
    if |s| == 0 then None
    else if IsDigit(s[0]) then Some(LeadingDigits(s))
    else FirstDigitRun(s[1..])
  }

  function LeadingDigits(s: string): (r: string)
    ensures |r| <= |s| && AllDigits(r)
  {
    if |s| > 0 && IsDigit(s[0]) then [s[0]] + LeadingDigits(s[1..]) else []
  }

  lemma {:induction false} LeadingDigitsMaximal(s: string)
    ensures LeadingDigits(s) == s[..|LeadingDigits(s)|]
    ensures |LeadingDigits(s)| < |s| ==> !IsDigit(s[|LeadingDigits(s)|])
  {
    if |s| > 0 && IsDigit(s[0]) {
      LeadingDigitsMaximal(s[1..]);
    }
  }

  /** The run is non-empty, made of digits, starts at the first digit of s
      (index k) and is not followed by a digit; and there is a run exactly
      when s holds a digit. */
  lemma {:induction false} FirstDigitRunIsLeftmost(s: string) returns (k: nat)
    ensures FirstDigitRun(s).None? <==> forall i :: 0 <= i < |s| ==> !IsDigit(s[i])
    ensures FirstDigitRun(s).Some? ==>
      var r := FirstDigitRun(s).value;
      |r| > 0 && AllDigits(r) && k + |r| <= |s| && s[k..k + |r|] == r &&
      (forall i :: 0 <= i < k ==> !IsDigit(s[i])) &&
      (k + |r| < |s| ==> !IsDigit(s[k + |r|]))
  {
    k := 0;
    if |s| == 0 {
    } else if IsDigit(s[0]) {
      LeadingDigitsMaximal(s);
      var r := LeadingDigits(s);
      assert s[0..0 + |r|] == r;
    } else {
      var j := FirstDigitRunIsLeftmost(s[1..]);
      k := j + 1;
      if FirstDigitRun(s[1..]).Some? {
        var r := FirstDigitRun(s[1..]).value;
        assert s[1..][j..j + |r|] == s[k..k + |r|];
        forall i | 0 <= i < k ensures !IsDigit(s[i]) {
          if i > 0 { assert s[i] == s[1..][i - 1]; }
        }
        if k + |r| < |s| {
          assert s[k + |r|] == s[1..][j + |r|];
        }
      } else {
        forall i | 0 <= i < |s| ensures !IsDigit(s[i]) {
          if i > 0 { assert s[i] == s[1..][i - 1]; }
        }
      }
    }
  }
}
