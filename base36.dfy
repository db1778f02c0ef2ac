/** Base 36 text over the alphabet 0-9a-z, as Django's `int_to_base36` writes
    it and `base36_to_int` reads it, and Python's `str.zfill`. */
module Base36 {
  import opened Outcomes

  const ALPHABET: string := "0123456789abcdefghijklmnopqrstuvwxyz"

  predicate IsDigit36(c: char) { '0' <= c <= '9' || 'a' <= c <= 'z' }

  predicate AllDigits36(s: string) { forall i :: 0 <= i < |s| ==> IsDigit36(s[i]) }

  function DigitValue(c: char): (d: nat)
    requires IsDigit36(c)
    ensures d < 36 && ALPHABET[d] == c
  {
    if c <= '9' then (c as int) - ('0' as int) else (c as int) - ('a' as int) + 10
  }

  function DigitChar(d: nat): (c: char)
    requires d < 36
    ensures IsDigit36(c) && DigitValue(c) == d
  {
    ALPHABET[d]
  }

  /** 36 to the power k. */
  function Pow36(k: nat): (p: nat)
    ensures p >= 1
  {
    if k == 0 then 1 else 36 * Pow36(k - 1)
  }

  /** The number a string of base 36 digits denotes, most significant first;
      leading zeros add nothing. */
  function Value(s: string): nat
    requires AllDigits36(s)
  {
    if |s| == 0 then 0 else Value(s[..|s| - 1]) * 36 + DigitValue(s[|s| - 1])
  }

  /** `int_to_base36(n)`: the shortest base 36 rendering of n. */
  function Encode(n: nat): (s: string)
    ensures |s| > 0 && AllDigits36(s)
    ensures n > 0 ==> s[0] != '0'
  {
    if n < 36 then [DigitChar(n)] else Encode(n / 36) + [DigitChar(n % 36)]
  }

  /** `base36_to_int(s)`: ValueError unless s is a non-empty run of base 36
      digits. */
  function Decode(s: string): Result<nat>
  {
    if |s| > 0 && AllDigits36(s) then Ok(Value(s)) else Err(ValueError)
  }

  /** A rendering without leading zeros, as `int_to_base36` produces. */
  predicate Canonical(s: string)
  {
    |s| > 0 && AllDigits36(s) && (|s| > 1 ==> s[0] != '0')
  }

  lemma {:induction false} EncodeValue(n: nat)
    ensures Value(Encode(n)) == n
  {
    if n >= 36 {
      var s := Encode(n);
      EncodeValue(n / 36);
      assert s[..|s| - 1] == Encode(n / 36);
    }
  }

  /** `base36_to_int(int_to_base36(n)) == n`. */
  lemma DecodeEncode(n: nat)
    ensures Decode(Encode(n)) == Ok(n)
  {
    EncodeValue(n);
  }

  /** A value below 36^k has at most k digits. */
  lemma {:induction false} EncodeLength(n: nat, k: nat)
    requires k >= 1 && n < Pow36(k)
    ensures |Encode(n)| <= k
  {
    if n >= 36 {
      assert k >= 2;
      assert n / 36 < Pow36(k - 1);
      EncodeLength(n / 36, k - 1);
    }
  }

  /** k digits denote a value below 36^k. */
  lemma {:induction false} ValueBound(s: string)
    requires AllDigits36(s)
    ensures Value(s) < Pow36(|s|)
  {
    if |s| > 0 {
      ValueBound(s[..|s| - 1]);
    }
  }

  /** `int_to_base36(base36_to_int(s)) == s` for every canonical s. */
  lemma {:induction false} EncodeDecode(s: string)
    requires Canonical(s)
    ensures Decode(s) == Ok(Value(s)) && Encode(Value(s)) == s
  {
    var n := Value(s);
    if |s| == 1 {
      assert s[..0] == [];
    } else {
      var init := s[..|s| - 1];
      assert Canonical(init);
      EncodeDecode(init);
      LeadingDigitPositive(init);
      assert n >= 36;
      assert n / 36 == Value(init) && n % 36 == DigitValue(s[|s| - 1]);
      assert Encode(n) == Encode(Value(init)) + [DigitChar(n % 36)];
      assert s == init + [s[|s| - 1]];
    }
  }

  lemma {:induction false} LeadingDigitPositive(s: string)
    requires |s| > 0 && AllDigits36(s) && s[0] != '0'
    ensures Value(s) >= 1
  {
    if |s| > 1 {
      LeadingDigitPositive(s[..|s| - 1]);
    } else {
      assert DigitValue(s[0]) != 0;
    }
  }

  /** A run of n zero digits. */
  function Zeros(n: nat): (z: string)
    ensures |z| == n && AllDigits36(z)
    ensures forall i :: 0 <= i < n ==> z[i] == '0'
  {
    seq(n, _ => '0')
  }

  /** `s.zfill(width)`: zeros on the left up to width, after a leading sign;
      a string at least width long is kept as it is. */
  function ZFill(s: string, width: int): (r: string)
    ensures |r| == if |s| >= width then |s| else width
  {
    if |s| >= width then s
    else if |s| > 0 && (s[0] == '+' || s[0] == '-') then [s[0]] + Zeros(width - |s|) + s[1..]
    else Zeros(width - |s|) + s
  }

  /** Leading zeros do not change the value. */
  lemma {:induction false} ValueZeros(n: nat, s: string)
    requires AllDigits36(s)
    ensures AllDigits36(Zeros(n) + s) && Value(Zeros(n) + s) == Value(s)
  {
    var z := Zeros(n) + s;
    assert AllDigits36(z) by {
      forall i | 0 <= i < |z| ensures IsDigit36(z[i]) {
        if i >= n { assert z[i] == s[i - n]; }
      }
    }
    if |s| == 0 {
      assert z == Zeros(n);
      ZerosValue(n);
    } else {
      ValueZeros(n, s[..|s| - 1]);
      assert z[..|z| - 1] == Zeros(n) + s[..|s| - 1];
    }
  }

  lemma {:induction false} ZerosValue(n: nat)
    ensures Value(Zeros(n)) == 0
  {
    if n > 0 {
      ZerosValue(n - 1);
      assert Zeros(n)[..n - 1] == Zeros(n - 1);
    }
  }

  /** Padding a rendering keeps its value and reaches exactly `width` when
      the value has at most that many digits: `zfill` pads but never
      truncates. */
  lemma PaddedRoundTrip(n: nat, width: nat)
    requires width >= 1 && n < Pow36(width)
    ensures |ZFill(Encode(n), width)| == width
    ensures Decode(ZFill(Encode(n), width)) == Ok(n)
  {
    var s := Encode(n);
    EncodeLength(n, width);
    EncodeValue(n);
    assert IsDigit36(s[0]);
    ValueZeros(width - |s|, s);
    if |s| >= width {
      assert Zeros(0) + s == s;
    }
  }
}
