/** Python's decimal rendering of integers: `str(n)` and the `'{:0Nd}'` format spec. */
module PyText {

  predicate IsDigit(c: char) { '0' <= c <= '9' }

  predicate AllDigits(s: string) { forall i :: 0 <= i < |s| ==> IsDigit(s[i]) }

  function DigitChar(d: nat): (c: char)
    requires d < 10
    ensures IsDigit(c) && c as int - '0' as int == d
  {
    ('0' as int + d) as char
  }

  /** The decimal digits of `n`, most significant first, without leading zeros. */
  function NatToString(n: nat): (s: string)
    ensures |s| >= 1 && AllDigits(s)
    ensures |s| > 1 ==> s[0] != '0'
  {
    if n < 10 then [DigitChar(n)] else NatToString(n / 10) + [DigitChar(n % 10)]
  }

  /** `str(n)`. */
  function IntToString(n: int): (s: string)
    ensures |s| >= 1
    ensures s[0] == '-' <==> n < 0
    ensures AllDigits(if n < 0 then s[1..] else s)
    ensures n < 0 ==> |s| >= 2
    ensures var digits := if n < 0 then s[1..] else s; |digits| > 1 ==> digits[0] != '0'
  {
    if n < 0 then
      var digits := NatToString(-n);
      assert ("-" + digits)[1..] == digits;
      "-" + digits
    else NatToString(n)
  }

  /** `'0' * k`. */
  function Zeros(k: nat): (r: string)
    ensures |r| == k && forall i :: 0 <= i < k ==> r[i] == '0'
  {
    seq(k, _ => '0')
  }

  /** `s` with zeros in front up to `width` characters. */
  function ZeroPad(s: string, width: int): (r: string)
    ensures |r| == if |s| < width then width else |s|
    ensures AllDigits(s) ==> AllDigits(r)
  {
    if |s| >= width then s else Zeros(width - |s|) + s
  }

  /** `'{:0<width>d}'.format(n)`: zeros go between the sign and the digits, and the sign counts toward the width. */
  function FormatInt(n: int, width: int): (s: string)
    ensures |s| == if |IntToString(n)| < width then width else |IntToString(n)|
    ensures |s| >= width && |s| >= 1
    ensures s[0] == '-' <==> n < 0
    ensures AllDigits(if n < 0 then s[1..] else s)
  {
    if n < 0 then "-" + ZeroPad(NatToString(-n), width - 1) else ZeroPad(NatToString(n), width)
  }

  /** The value of a string of decimal digits (leading zeros allowed); the inverse used in the round-trip lemmas. */
  function ParseNat(s: string): nat
    requires AllDigits(s)
  {
    if s == [] then 0 else ParseNat(s[..|s| - 1]) * 10 + (s[|s| - 1] as int - '0' as int)
  }

  /** An optional minus sign followed by decimal digits. */
  function ParseInt(s: string): int
    requires IsIntText(s)
  {
    if |s| > 0 && s[0] == '-' then -(ParseNat(s[1..]) as int) else ParseNat(s)
  }

  lemma {:induction false} ParseNatToString(n: nat)
    ensures ParseNat(NatToString(n)) == n
  {
    if n >= 10 {
      var s := NatToString(n);
      assert s[..|s| - 1] == NatToString(n / 10);
      ParseNatToString(n / 10);
    }
  }

  lemma {:induction false} ParseNatLeadingZero(s: string)
    requires AllDigits(s)
    ensures AllDigits(['0'] + s) && ParseNat(['0'] + s) == ParseNat(s)
    decreases |s|
  {
    var z := ['0'] + s;
    if s != [] {
      assert z[..|z| - 1] == ['0'] + s[..|s| - 1];
      ParseNatLeadingZero(s[..|s| - 1]);
    } else {
      assert z[..|z| - 1] == [];
    }
  }

  lemma {:induction false} ParseNatZeros(k: nat, s: string)
    requires AllDigits(s)
    ensures AllDigits(Zeros(k) + s) && ParseNat(Zeros(k) + s) == ParseNat(s)
  {
    if k > 0 {
      ParseNatZeros(k - 1, s);
      ParseNatLeadingZero(Zeros(k - 1) + s);
      assert Zeros(k) + s == ['0'] + (Zeros(k - 1) + s);
    } else {
      assert Zeros(k) + s == s;
    }
  }

  lemma ParseNatZeroPad(s: string, width: int)
    requires AllDigits(s)
    ensures AllDigits(ZeroPad(s, width)) && ParseNat(ZeroPad(s, width)) == ParseNat(s)
  {
    if |s| < width {
      ParseNatZeros(width - |s|, s);
    }
  }

  /** A well-formed rendering of an integer: an optional minus sign, then digits. */
  predicate IsIntText(s: string)
  {
    (|s| > 0 && s[0] == '-' && AllDigits(s[1..])) || AllDigits(s)
  }

  /** The zero-padded digits of `m` read back as `m`. */
  lemma ParsePaddedDigits(m: nat, width: int)
    ensures AllDigits(ZeroPad(NatToString(m), width)) && ParseNat(ZeroPad(NatToString(m), width)) == m
  {
    ParseNatToString(m);
    ParseNatZeroPad(NatToString(m), width);
  }

  /** Formatting with `{:0Nd}` loses nothing: the number reads back from its rendering. */
  lemma FormatIntRoundTrip(n: int, width: int)
    ensures IsIntText(FormatInt(n, width)) && ParseInt(FormatInt(n, width)) == n
  {
    var s := FormatInt(n, width);
    if n < 0 {
      var digits := ZeroPad(NatToString(-n), width - 1);
      ParsePaddedDigits(-n, width - 1);
      assert s[1..] == digits;
      assert ParseInt(s) == -(ParseNat(digits) as int);
    } else {
      var digits := ZeroPad(NatToString(n), width);
      ParsePaddedDigits(n, width);
      assert s == digits;
      assert ParseInt(s) == ParseNat(digits) by { assert IsDigit(s[0]); }
    }
  }

  /** `str(n)` is the zero-width format, so it reads back too. */
  lemma IntToStringRoundTrip(n: int)
    ensures IntToString(n) == FormatInt(n, 0)
    ensures IsIntText(IntToString(n)) && ParseInt(IntToString(n)) == n
  {
    FormatIntRoundTrip(n, 0);
  }

  lemma FormatIntInjective(a: int, b: int, width: int)
    requires FormatInt(a, width) == FormatInt(b, width)
    ensures a == b
  {
    FormatIntRoundTrip(a, width);
    FormatIntRoundTrip(b, width);
  }
}
