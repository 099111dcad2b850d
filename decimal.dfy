/** Decimal text of integers, as Kotlin prints an `Int` (`"%d"` in `String.format`
    and `$x` in a string template): ASCII digits, no leading zeros, a leading `-`
    for negative values. The parsers are the inverses used to state what the
    printed text means. */
module Decimal {
  import opened Wrappers

  predicate IsDigit(c: char) { '0' <= c <= '9' }

  function DigitChar(d: nat): (c: char)
    requires d < 10
    ensures IsDigit(c)
  {
    "0123456789"[d]
  }

  function DigitValue(c: char): (d: nat)
    requires IsDigit(c)
    ensures d < 10 && DigitChar(d) == c
  {
    (c as int - '0' as int) as nat
  }

  /** Canonical decimal text: non-empty, digits only, no superfluous leading zero. */
  predicate IsDecimal(s: string) {
    && |s| >= 1
    && (forall i :: 0 <= i < |s| ==> IsDigit(s[i]))
    && (|s| > 1 ==> s[0] != '0')
  }

  /** The text Kotlin prints for a non-negative value. */
  function NatToString(n: nat): (s: string)
    ensures IsDecimal(s)
  {
    if n < 10 then [DigitChar(n)]
    else NatToString(n / 10) + [DigitChar(n % 10)]
  }

  /** The value of a string of digits, most significant first. */
  function ParseNat(s: string): nat
    requires forall i :: 0 <= i < |s| ==> IsDigit(s[i])
  {
    if s == [] then 0
    else ParseNat(s[..|s| - 1]) * 10 + DigitValue(s[|s| - 1])
  }

  /** Reading back the printed text gives the value. */
  lemma {:induction false} ParseNatToString(n: nat)
    ensures ParseNat(NatToString(n)) == n
  {
    var s := NatToString(n);
    if n >= 10 {
      ParseNatToString(n / 10);
      assert s[..|s| - 1] == NatToString(n / 10);
    }
  }

  /** Canonical text that starts with a non-zero digit stands for a positive value. */
  lemma {:induction false} LeadingDigitPositive(s: string)
    requires IsDecimal(s) && s[0] != '0'
    ensures ParseNat(s) >= 1
  {
    if |s| > 1 {
      var p := s[..|s| - 1];
      assert p[0] == s[0];
      LeadingDigitPositive(p);
    } else {
      assert DigitChar(DigitValue(s[0])) == s[0];
    }
  }

  /** Canonical text is exactly what Kotlin prints for its value. */
  lemma {:induction false} NatToStringParse(s: string)
    requires IsDecimal(s)
    ensures NatToString(ParseNat(s)) == s
  {
    if |s| > 1 {
      var p := s[..|s| - 1];
      assert p[0] == s[0];
      assert IsDecimal(p);
      LeadingDigitPositive(p);
      NatToStringParse(p);
      var n := ParseNat(s);
      assert n / 10 == ParseNat(p) && n % 10 == DigitValue(s[|s| - 1]);
      assert s == p + [s[|s| - 1]];
    } else {
      assert DigitChar(DigitValue(s[0])) == s[0];
    }
  }

  /** Printing is a bijection between the naturals and canonical decimal text. */
  lemma DecimalText(n: nat, s: string)
    ensures s == NatToString(n) <==> IsDecimal(s) && ParseNat(s) == n
  {
    if s == NatToString(n) {
      ParseNatToString(n);
    }
    if IsDecimal(s) && ParseNat(s) == n {
      NatToStringParse(s);
    }
  }

  /** The text Kotlin prints for any `Int`. */
  function IntToString(i: int): string
  {
    if i < 0 then "-" + NatToString(-i) else NatToString(i)
  }

  /** The inverse of `IntToString`: canonical text with an optional minus sign
      (and no `-0`), or `None`. */
  function ParseInt(s: string): Option<int>
  {
    if |s| >= 1 && s[0] == '-' then
      if IsDecimal(s[1..]) && s[1..] != "0" then Some(-(ParseNat(s[1..]) as int)) else None
    else if IsDecimal(s) then Some(ParseNat(s) as int)
    else None
  }

  /** A negative value prints as `-` and the text of its magnitude, never `-0`. */
  lemma ParseNegative(n: nat)
    requires n >= 1
    ensures ParseInt("-" + NatToString(n)) == Some(-(n as int))
  {
    var s := "-" + NatToString(n);
    var t := NatToString(n);
    assert s[1..] == t;
    ParseNatToString(n);
    assert t != "0";
  }

  /** A non-negative value prints as canonical text without a sign. */
  lemma ParseNonNegative(n: nat)
    ensures ParseInt(NatToString(n)) == Some(n)
  {
    var s := NatToString(n);
    ParseNatToString(n);
    assert s[0] != '-' by { assert IsDigit(s[0]); }
  }

  /** Reading back the printed text of an `Int` gives the value. */
  lemma ParseIntToString(i: int)
    ensures ParseInt(IntToString(i)) == Some(i)
  {
    if i < 0 {
      ParseNegative(-i);
    } else {
      ParseNonNegative(i);
    }
  }

  /** Printed integers contain only digits and the minus sign, so they never
      contain a field separator such as `.` or `@`. */
  lemma IntToStringChars(i: int, c: char)
    requires c != '-' && !IsDigit(c)
    ensures c !in IntToString(i)
  {
    var s := IntToString(i);
    if i < 0 {
      var t := NatToString(-i);
      assert s == "-" + t;
      assert forall k :: 1 <= k < |s| ==> s[k] == t[k - 1];
    }
  }
}
