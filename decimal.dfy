/**
 * Decimal rendering of integers as the views do it: Swift's string
 * interpolation `"\(n)"` (an optional minus sign, then the digits) and the
 * format `"%02i"` (the same, padded with zeros to at least two characters),
 * together with the reading-back functions used to state round trips.
 */
module Decimal {
  import opened Wrappers

  predicate IsDigit(c: char) {
    '0' <= c <= '9'
  }

  predicate AllDigits(s: string) {
    forall i :: 0 <= i < |s| ==> IsDigit(s[i])
  }

  /** Characters that can appear in a rendered integer: digits and the minus sign. */
  predicate NumeralChars(s: string) {
    forall i :: 0 <= i < |s| ==> IsDigit(s[i]) || s[i] == '-'
  }

  function DigitChar(d: int): (c: char)
    requires 0 <= d < 10
    ensures IsDigit(c) && c as int - '0' as int == d
  {
    (d + '0' as int) as char
  }

  /** The decimal digits of `n`, most significant first, with no leading zero. */
  function NatString(n: nat): (s: string)
    ensures s != [] && AllDigits(s)
    ensures |s| == 1 <==> n < 10
    ensures n > 0 ==> s[0] != '0'
  {
    if n < 10 then [DigitChar(n)] else NatString(n / 10) + [DigitChar(n % 10)]
  }

  /** The number a string of digits denotes. */
  function DigitsValue(s: string): nat
    requires AllDigits(s)
  {
    if s == [] then 0 else DigitsValue(s[..|s| - 1]) * 10 + (s[|s| - 1] as int - '0' as int)
  }

  /** An integer rendered by string interpolation: a minus sign when negative, then the digits. */
  function IntString(n: int): (s: string)
    ensures s != [] && NumeralChars(s)
    ensures n >= 0 <==> AllDigits(s)
  {
    if n < 0 then
      var s := "-" + NatString(-n);
      assert !IsDigit(s[0]);
      s
    else NatString(n)
  }

  /** The two-digit format: at least two characters, zero-filled when `n` is a single non-negative digit. */
  function Pad2(n: int): (s: string)
    ensures |s| >= 2 && NumeralChars(s)
    ensures 0 <= n < 100 ==> |s| == 2 && AllDigits(s)
  {
    if 0 <= n < 10 then "0" + NatString(n) else IntString(n)
  }

  /** Reads an optionally signed decimal numeral; anything else is `None`. */
  function ParseInt(s: string): Option<int>
  {
    if |s| >= 2 && s[0] == '-' && AllDigits(s[1..]) then Some(-(DigitsValue(s[1..]) as int))
    else if s != [] && AllDigits(s) then Some(DigitsValue(s))
    else None
  }

  /** A rendered integer holds no separator character. */
  lemma NumeralLacks(s: string, c: char)
    requires NumeralChars(s) && !IsDigit(c) && c != '-'
    ensures c !in s
  {
  }

  /** Position of the first `c` in `s`. */
  function FirstIndexOf(s: string, c: char): (r: Option<nat>)
    ensures r.Some? ==> r.value < |s| && s[r.value] == c && c !in s[..r.value]
    ensures r.None? ==> c !in s
  {
    if s == [] then None
    else if s[0] == c then Some(0)
    else
      match FirstIndexOf(s[1..], c)
      case None => None
      case Some(i) => Some(i + 1)
  }

  /** The first `c` in `a + [c] + b` is the one just after `a` when `a` holds none. */
  lemma FirstIndexAfter(a: string, c: char, b: string)
    requires c !in a
    ensures FirstIndexOf(a + [c] + b, c) == Some(|a|)
  {
    var s := a + [c] + b;
    assert s[..|a|] == a;
    assert s[|a|] == c;
  }

  lemma DigitsValueSnoc(s: string, c: char)
    requires AllDigits(s) && IsDigit(c)
    ensures AllDigits(s + [c]) && DigitsValue(s + [c]) == DigitsValue(s) * 10 + (c as int - '0' as int)
  {
    assert (s + [c])[..|s|] == s;
  }

  /** A leading zero does not change the value of a numeral. */
  lemma {:induction false} LeadingZero(s: string)
    requires AllDigits(s)
    ensures AllDigits("0" + s) && DigitsValue("0" + s) == DigitsValue(s)
  {
    if s != [] {
      var init := s[..|s| - 1];
      LeadingZero(init);
      assert "0" + s == ("0" + init) + [s[|s| - 1]];
      DigitsValueSnoc("0" + init, s[|s| - 1]);
    }
  }

  /** Reading back the digits of `n` gives `n`. */
  lemma {:induction false} NatStringValue(n: nat)
    ensures DigitsValue(NatString(n)) == n
  {
    if n >= 10 {
      NatStringValue(n / 10);
      DigitsValueSnoc(NatString(n / 10), DigitChar(n % 10));
    }
  }

  /** `ParseInt` inverts the interpolated rendering. */
  lemma IntStringRoundTrip(n: int)
    ensures ParseInt(IntString(n)) == Some(n)
  {
    var t := IntString(n);
    if n < 0 {
      var digits := NatString(-n);
      assert t == "-" + digits;
      assert t[1..] == digits;
      NatStringValue(-n);
    } else {
      assert t == NatString(n);
      assert IsDigit(t[0]);
      NatStringValue(n);
    }
  }

  /** `ParseInt` inverts `"%02i"`: the padding zero is harmless. */
  lemma Pad2RoundTrip(n: int)
    ensures ParseInt(Pad2(n)) == Some(n)
  {
    if 0 <= n < 10 {
      NatStringValue(n);
      LeadingZero(NatString(n));
    } else {
      IntStringRoundTrip(n);
    }
  }
}
