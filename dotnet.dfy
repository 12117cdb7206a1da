// The parts of .NET's base library that the accounting services lean on:
// 32-bit integers, Int32.TryParse, the "D" number format, and null-or-blank
// string tests.

module DotNet {
  import opened Wrappers
  import opened Text

  const Int32Min: int := -0x8000_0000
  const Int32Max: int := 0x7FFF_FFFF

  predicate InInt32(x: int) { Int32Min <= x <= Int32Max }

  /** Unchecked 32-bit arithmetic: the value of `x` after two's-complement wrap-around. */
  function Wrap32(x: int): (r: int)
    ensures InInt32(r)
    ensures (r - x) % 0x1_0000_0000 == 0
    ensures InInt32(x) ==> r == x
  {
    (x - Int32Min) % 0x1_0000_0000 + Int32Min
  }

  function DigitValue(c: char): nat
    requires IsAsciiDigit(c)
  {
    (c as int) - ('0' as int)
  }

  function DigitChar(d: nat): (c: char)
    requires d < 10
    ensures IsAsciiDigit(c) && DigitValue(c) == d
  {
    (('0' as int) + d) as char
  }

  predicate AllDigits(s: string) { forall k :: 0 <= k < |s| ==> IsAsciiDigit(s[k]) }

  /** The value of a string of decimal digits, most significant first. */
  function DigitsValue(s: string): nat
    requires AllDigits(s)
  {
    if s == [] then 0 else DigitsValue(s[..|s| - 1]) * 10 + DigitValue(s[|s| - 1])
  }

  /** The shortest decimal digit string of `n`. */
  function NatDigits(n: nat): (s: string)
    ensures |s| >= 1 && AllDigits(s)
  {
    if n < 10 then [DigitChar(n)] else NatDigits(n / 10) + [DigitChar(n % 10)]
  }

  lemma {:induction false} NatDigitsValue(n: nat)
    ensures DigitsValue(NatDigits(n)) == n
  {
    if n >= 10 {
      var s := NatDigits(n);
      assert s[..|s| - 1] == NatDigits(n / 10);
      NatDigitsValue(n / 10);
    }
  }

  lemma {:induction false} LeadingZeroValue(s: string)
    requires AllDigits(s)
    ensures AllDigits(['0'] + s) && DigitsValue(['0'] + s) == DigitsValue(s)
    decreases |s|
  {
    if s != [] {
      var t := ['0'] + s;
      assert t[..|t| - 1] == ['0'] + s[..|s| - 1];
      LeadingZeroValue(s[..|s| - 1]);
    }
  }

  lemma {:induction false} ZeroPaddedValue(k: nat, s: string)
    requires AllDigits(s)
    ensures AllDigits(Repeat('0', k) + s) && DigitsValue(Repeat('0', k) + s) == DigitsValue(s)
  {
    if k > 0 {
      var rest := Repeat('0', k - 1) + s;
      ZeroPaddedValue(k - 1, s);
      assert Repeat('0', k) + s == ['0'] + rest;
      LeadingZeroValue(rest);
    } else {
      assert Repeat('0', k) + s == s;
    }
  }

  /** The white space Int32.TryParse skips around the number (NumberStyles.Integer). */
  predicate IsNumberWhite(c: char) { c == ' ' || '\t' <= c <= '\r' }

  function TrimNumberWhite(s: string): (r: string)
    ensures |r| <= |s|
    decreases |s|
  {
    if s != [] && IsNumberWhite(s[0]) then TrimNumberWhite(s[1..])
    else if s != [] && IsNumberWhite(s[|s| - 1]) then TrimNumberWhite(s[..|s| - 1])
    else s
  }

  lemma TrimNothing(s: string)
    requires s != [] && !IsNumberWhite(s[0]) && !IsNumberWhite(s[|s| - 1])
    ensures TrimNumberWhite(s) == s
  {
  }

  /** `Int32.TryParse(s, out v)` with the invariant culture: optional surrounding
      white space, an optional sign, one or more ASCII digits, a result in range. */
  function TryParseInt(s: string): (r: Option<int>)
    ensures r.Some? ==> InInt32(r.value)
  {
    var t := TrimNumberWhite(s);
    var neg := t != [] && t[0] == '-';
    var body := if t != [] && (t[0] == '-' || t[0] == '+') then t[1..] else t;
    if body == [] || !AllDigits(body) then None
    else
      var d: int := DigitsValue(body);
      var v := if neg then -d else d;
      if InInt32(v) then Some(v) else None
  }

  /** The digits of `m` with leading zeros up to at least `width` characters. */
  function ZeroPadded(m: nat, width: nat): string
  {
    var ds := NatDigits(m);
    Repeat('0', if |ds| < width then width - |ds| else 0) + ds
  }

  lemma ZeroPaddedDigits(m: nat, width: nat)
    ensures ZeroPadded(m, width) != [] && AllDigits(ZeroPadded(m, width))
    ensures DigitsValue(ZeroPadded(m, width)) == m
  {
    var ds := NatDigits(m);
    var k := if |ds| < width then width - |ds| else 0;
    assert ZeroPadded(m, width) == Repeat('0', k) + ds;
    NatDigitsValue(m);
    ZeroPaddedValue(k, ds);
  }

  function Pow10(k: nat): nat { if k == 0 then 1 else 10 * Pow10(k - 1) }

  /** A string of k digits is worth less than 10^k. */
  lemma {:induction false} DigitsValueBound(s: string)
    requires AllDigits(s)
    ensures DigitsValue(s) < Pow10(|s|)
  {
    if s != [] {
      DigitsValueBound(s[..|s| - 1]);
    }
  }

  /** Among digit strings of one length, the first differing digit decides
      the value. */
  lemma {:induction false} DigitsValueOrder(a: string, b: string, i: nat)
    requires |a| == |b| && AllDigits(a) && AllDigits(b)
    requires i < |a| && a[..i] == b[..i] && a[i] < b[i]
    ensures DigitsValue(a) < DigitsValue(b)
  {
    var n := |a|;
    var a', b' := a[..n - 1], b[..n - 1];
    if i == n - 1 {
      assert a' == b';
    } else {
      assert a'[..i] == a[..i] && b'[..i] == b[..i];
      DigitsValueOrder(a', b', i);
    }
  }

  /** A number below 10^k has at most k digits. */
  lemma {:induction false} NatDigitsFit(n: nat, k: nat)
    requires 1 <= k && n < Pow10(k)
    ensures |NatDigits(n)| <= k
  {
    if n >= 10 {
      assert k >= 2;
      NatDigitsFit(n / 10, k - 1);
    }
  }

  /** Padding to a width the digits fit in gives exactly that width. */
  lemma ZeroPaddedWidth(m: nat, width: nat)
    requires 1 <= width && m < Pow10(width)
    ensures |ZeroPadded(m, width)| == width
  {
    NatDigitsFit(m, width);
  }

  /** `n.ToString("D" + width)`: the digits of |n| padded with zeros to at least
      `width`, after a minus sign when `n` is negative. */
  function FormatD(n: int, width: nat): string
  {
    if n < 0 then "-" + ZeroPadded(-n, width) else ZeroPadded(n, width)
  }

  lemma ParseUnsigned(p: string)
    requires p != [] && AllDigits(p) && DigitsValue(p) <= Int32Max
    ensures TryParseInt(p) == Some(DigitsValue(p) as int)
  {
    TrimNothing(p);
  }

  lemma ParseNegative(p: string, m: nat, f: string)
    requires p != [] && AllDigits(p) && DigitsValue(p) == m && m <= -Int32Min && f == "-" + p
    ensures TryParseInt(f) == Some(-(m as int))
  {
    TrimNothing(f);
    assert f[1..] == p;
  }

  /** What FormatD writes, Int32.TryParse reads back. */
  lemma FormatParseRoundTrip(n: int, width: nat)
    requires InInt32(n)
    ensures TryParseInt(FormatD(n, width)) == Some(n)
  {
    if n < 0 {
      FormatParseNegative(n, width);
    } else {
      FormatParseUnsigned(n, width);
    }
  }

  lemma FormatParseNegative(n: int, width: nat)
    requires InInt32(n) && n < 0
    ensures TryParseInt(FormatD(n, width)) == Some(n)
  {
    var m: nat := -n;
    var p := ZeroPadded(m, width);
    ZeroPaddedDigits(m, width);
    assert FormatD(n, width) == "-" + p;
    ParseNegative(p, m, "-" + p);
  }

  lemma FormatParseUnsigned(n: int, width: nat)
    requires InInt32(n) && n >= 0
    ensures TryParseInt(FormatD(n, width)) == Some(n)
  {
    var p := ZeroPadded(n, width);
    ZeroPaddedDigits(n, width);
    ParseUnsigned(p);
  }

  predicate IsNullOrEmpty(s: Option<string>) { s.None? || s.value == [] }

  predicate IsNullOrWhiteSpace(s: Option<string>)
  {
    s.None? || forall k :: 0 <= k < |s.value| ==> IsDotNetWhiteSpace(s.value[k])
  }
}
