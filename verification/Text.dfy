/** The string operations of Python and JavaScript that the modelled code relies on:
    blank stripping, prefixes, lexicographic order and zero-padded decimal numbers. */
module Text {

  predicate IsSpace(c: char) {
    c in {' ', '\t', '\n', '\r', 11 as char, 12 as char}
  }

  function StripLeft(s: string): (r: string)
    ensures r == [] || !IsSpace(r[0])
    ensures |r| <= |s|
  {
    if s != [] && IsSpace(s[0]) then StripLeft(s[1..]) else s
  }

  function StripRight(s: string): (r: string)
    ensures r == [] || !IsSpace(r[|r| - 1])
    ensures r <= s
  {
    if s != [] && IsSpace(s[|s| - 1]) then StripRight(s[..|s| - 1]) else s
  }

  /** Python's `str.strip()` for ASCII white space. */
  function Strip(s: string): string {
    StripRight(StripLeft(s))
  }

  predicate Blank(s: string) {
    forall i :: 0 <= i < |s| ==> IsSpace(s[i])
  }

  lemma {:induction false} StripLeftCuts(s: string) returns (front: string)
    ensures Blank(front) && s == front + StripLeft(s)
  {
    front := "";
    if s != [] && IsSpace(s[0]) {
      var rest := StripLeftCuts(s[1..]);
      front := [s[0]] + rest;
      assert s == [s[0]] + s[1..];
    }
  }

  lemma {:induction false} StripRightCuts(s: string) returns (back: string)
    ensures Blank(back) && s == StripRight(s) + back
  {
    back := "";
    if s != [] && IsSpace(s[|s| - 1]) {
      var rest := StripRightCuts(s[..|s| - 1]);
      back := rest + [s[|s| - 1]];
      assert s == s[..|s| - 1] + [s[|s| - 1]];
    }
  }

  /** Trimming cuts blanks off both ends and nothing else, and leaves none there. */
  lemma StripCuts(s: string) returns (front: string, back: string)
    ensures Blank(front) && Blank(back) && s == front + Strip(s) + back
    ensures Strip(s) != "" ==> !IsSpace(Strip(s)[0]) && !IsSpace(Strip(s)[|Strip(s)| - 1])
  {
    front := StripLeftCuts(s);
    var left := StripLeft(s);
    back := StripRightCuts(left);
    assert StripRight(left) <= left;
    assert front + StripRight(left) + back == front + (StripRight(left) + back);
    hide StripLeft, StripRight;
    assert Strip(s) != "" ==> Strip(s)[0] == left[0];
  }

  predicate StartsWith(s: string, prefix: string) {
    prefix <= s
  }

  /** Lexicographic order by code point, the order of `<` on text columns. */
  predicate StrLess(a: string, b: string) {
    if b == [] then false
    else if a == [] then true
    else a[0] < b[0] || (a[0] == b[0] && StrLess(a[1..], b[1..]))
  }

  function Pow10(k: nat): (p: nat)
    ensures p > 0
  {
    if k == 0 then 1 else 10 * Pow10(k - 1)
  }

  predicate IsDigit(c: char) {
    '0' <= c <= '9'
  }

  /** Python's `str.isdigit()`: non-empty and made of digits only. */
  predicate AllDigits(s: string) {
    forall i :: 0 <= i < |s| ==> IsDigit(s[i])
  }

  function DigitChar(d: nat): (c: char)
    requires d < 10
    ensures IsDigit(c) && DigitValue(c) == d
  {
    ('0' as int + d) as char
  }

  function DigitValue(c: char): (d: nat)
    requires IsDigit(c)
    ensures d < 10
  {
    c as int - '0' as int
  }

  function Decimal(n: nat): (s: string)
    ensures |s| > 0 && AllDigits(s)
  {
    if n < 10 then [DigitChar(n)] else Decimal(n / 10) + [DigitChar(n % 10)]
  }

  /** Python's `int(s)` on a digit string; leading zeros are ignored. */
  function Value(s: string): nat
    requires AllDigits(s)
  {
    if s == [] then 0 else 10 * Value(s[..|s| - 1]) + DigitValue(s[|s| - 1])
  }

  function ZeroPad(s: string, width: nat): (r: string)
    ensures |r| == if |s| >= width then |s| else width
    decreases width - |s|
  {
    if |s| >= width then s else ZeroPad("0" + s, width)
  }

  /** `f"{n:013d}"`: the sign counts as one of the 13 columns. */
  function Pad13(n: int): string {
    if n < 0 then "-" + ZeroPad(Decimal(-n), 12) else ZeroPad(Decimal(n), 13)
  }

  lemma {:induction false} ValueOfDecimal(n: nat)
    ensures Value(Decimal(n)) == n
  {
    if n >= 10 {
      ValueOfDecimal(n / 10);
      var s := Decimal(n);
      assert s[..|s| - 1] == Decimal(n / 10);
    }
  }

  lemma {:induction false} ValueOfLeadingZero(s: string)
    requires AllDigits(s)
    ensures AllDigits("0" + s) && Value("0" + s) == Value(s)
  {
    var z := "0" + s;
    assert forall i :: 0 < i < |z| ==> z[i] == s[i - 1];
    if s != [] {
      ValueOfLeadingZero(s[..|s| - 1]);
      assert z[..|z| - 1] == "0" + s[..|s| - 1];
    } else {
      assert z[..|z| - 1] == [];
    }
  }

  lemma {:induction false} ValueOfZeroPad(s: string, width: nat)
    requires AllDigits(s)
    ensures AllDigits(ZeroPad(s, width)) && Value(ZeroPad(s, width)) == Value(s)
    decreases width - |s|
  {
    if |s| < width {
      ValueOfLeadingZero(s);
      ValueOfZeroPad("0" + s, width);
    }
  }

  /** Reading a padded stamp back gives the number, at any size. */
  lemma PaddedRoundTrip(n: nat)
    ensures AllDigits(Pad13(n)) && |Pad13(n)| >= 13 && Value(Pad13(n)) == n
  {
    ValueOfDecimal(n);
    ValueOfZeroPad(Decimal(n), 13);
  }

  lemma {:induction false} DecimalLength(n: nat, k: nat)
    requires k > 0
    ensures |Decimal(n)| <= k <==> n < Pow10(k)
  {
    if n < 10 {
      assert Pow10(k) == 10 * Pow10(k - 1);
    } else if k > 1 {
      DecimalLength(n / 10, k - 1);
    } else {
      assert Pow10(1) == 10 * Pow10(0);
    }
  }

  lemma {:induction false} StrLessLast(a: string, b: string, c: char, d: char)
    requires |a| == |b|
    ensures StrLess(a + [c], b + [d]) <==> StrLess(a, b) || (a == b && c < d)
  {
    if a != [] {
      StrLessLast(a[1..], b[1..], c, d);
      assert (a + [c])[1..] == a[1..] + [c] && (b + [d])[1..] == b[1..] + [d];
      assert a == [a[0]] + a[1..] && b == [b[0]] + b[1..];
    }
  }

  /** On digit strings of one length, text order is numeric order. */
  lemma {:induction false} OrderOfEqualLength(a: string, b: string)
    requires |a| == |b| && AllDigits(a) && AllDigits(b)
    ensures StrLess(a, b) <==> Value(a) < Value(b)
    ensures a == b <==> Value(a) == Value(b)
  {
    if a != [] {
      var n := |a| - 1;
      OrderOfEqualLength(a[..n], b[..n]);
      StrLessLast(a[..n], b[..n], a[n], b[n]);
      assert a == a[..n] + [a[n]] && b == b[..n] + [b[n]];
    }
  }

  /** Fixed-width stamps compare as numbers while they fit in 13 digits; a threshold below
      zero sorts under every stamp, as it should. */
  lemma PaddedOrder(stamp: nat, threshold: int)
    requires stamp < Pow10(13) && threshold < Pow10(13)
    ensures StrLess(Pad13(stamp), Pad13(threshold)) <==> stamp < threshold
  {
    PaddedRoundTrip(stamp);
    DecimalLength(stamp, 13);
    if threshold >= 0 {
      PaddedRoundTrip(threshold);
      DecimalLength(threshold, 13);
      OrderOfEqualLength(Pad13(stamp), Pad13(threshold));
    } else {
      assert IsDigit(Pad13(stamp)[0]);
    }
  }

  lemma {:induction false} DecimalOfScaledDigit(d: nat, k: nat)
    requires 0 < d < 10
    ensures |Decimal(d * Pow10(k))| == k + 1 && Decimal(d * Pow10(k))[0] == DigitChar(d)
  {
    if k > 0 {
      hide Pow10, Decimal;
      DecimalOfScaledDigit(d, k - 1);
      ScaleStep(d, k);
      DecimalOfTenfold(d * Pow10(k - 1));
    } else {
      assert Pow10(0) == 1;
    }
  }

  lemma ScaleStep(d: nat, k: nat)
    requires 0 < d && k > 0
    ensures d * Pow10(k) == 10 * (d * Pow10(k - 1)) && d * Pow10(k - 1) > 0
  {
    assert Pow10(k) == 10 * Pow10(k - 1);
    hide Pow10;
  }

  lemma DecimalOfTenfold(n: nat)
    requires n > 0
    ensures Decimal(10 * n) == Decimal(n) + [DigitChar(0)]
  {
  }

  /** The 13-digit bound is exact: a stamp one digit longer sorts under a smaller threshold. */
  lemma PaddedOrderBreaksAtFourteenDigits(k: nat)
    requires k >= 13
    ensures StrLess(Pad13(Pow10(k)), Pad13(9 * Pow10(k - 1)))
    ensures Pow10(k) > 9 * Pow10(k - 1)
  {
    DecimalOfScaledDigit(1, k);
    DecimalOfScaledDigit(9, k - 1);
    assert 1 * Pow10(k) == Pow10(k) == 10 * Pow10(k - 1);
  }
}
