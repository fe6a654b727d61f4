/**
 * Decimal text of integers as Go's fmt package writes it with the %d verb,
 * and reads it back with fmt.Sscanf(s, "%d", &n) into a 64-bit int.
 */
module Decimal {
  import opened Wrappers

  const Int64Min: int := -0x8000_0000_0000_0000
  const Int64Max: int := 0x7FFF_FFFF_FFFF_FFFF

  predicate IsDigit(c: char) {
    '0' <= c <= '9'
  }

  predicate AllDigits(s: string) {
    forall i :: 0 <= i < |s| ==> IsDigit(s[i])
  }

  function DigitChar(d: nat): (c: char)
    requires d < 10
    ensures IsDigit(c) && (c as int) - ('0' as int) == d
  {
    ('0' as int + d) as char
  }

  /** The digits of n, most significant first, with no leading zero. */
  function Digits(n: nat): (s: string)
    ensures |s| > 0 && AllDigits(s)
    ensures |s| > 1 ==> s[0] != '0'
    decreases n
  {
    if n < 10 then [DigitChar(n)] else Digits(n / 10) + [DigitChar(n % 10)]
  }

  /** The number a string of digits denotes in base 10. */
  function ValueOf(s: string): nat
    requires AllDigits(s)
  {
    if s == [] then 0 else 10 * ValueOf(s[..|s| - 1]) + ((s[|s| - 1] as int) - ('0' as int))
  }

  /** %d: a minus sign for negative numbers, then the digits of the magnitude. */
  function FormatInt(n: int): (s: string)
    ensures |s| > 0 && (IsDigit(s[0]) || (s[0] == '-' && n < 0))
  {
    if n < 0 then "-" + Digits(-n) else Digits(n)
  }

  /** A single digit formats as itself. */
  lemma FormatDigit(n: int)
    requires 0 <= n < 10
    ensures FormatInt(n) == [('0' as int + n) as char]
  {
    assert FormatInt(n) == Digits(n) == [DigitChar(n)];
  }

  /** The longest prefix of s made of digits. */
  function LeadingDigits(s: string): (d: string)
    ensures d <= s && AllDigits(d)
    ensures |d| < |s| ==> !IsDigit(s[|d|])
  {
    if s == [] || !IsDigit(s[0]) then [] else [s[0]] + LeadingDigits(s[1..])
  }

  /**
   * fmt.Sscanf(s, "%d", &n): an optional '+' or '-', then at least one digit;
   * the scan stops at the first non-digit and ignores what follows; a number
   * outside the 64-bit range is an error.
   */
  function ScanInt(s: string): (r: Option<int>)
    ensures r.Some? ==> Int64Min <= r.value <= Int64Max
    ensures r.Some? ==> |s| > 0 && (IsDigit(s[0]) || (|s| > 1 && (s[0] == '+' || s[0] == '-') && IsDigit(s[1])))
  {
    var signed := |s| > 0 && (s[0] == '+' || s[0] == '-');
    var rest := if signed then s[1..] else s;
    var ds := LeadingDigits(rest);
    if ds == [] then None
    else
      var v: int := if signed && s[0] == '-' then -(ValueOf(ds) as int) else ValueOf(ds);
      if Int64Min <= v <= Int64Max then Some(v) else None
  }

  lemma {:induction false} ValueOfDigits(n: nat)
    ensures ValueOf(Digits(n)) == n
    decreases n
  {
    if n >= 10 {
      ValueOfDigits(n / 10);
      var s := Digits(n);
      assert s[..|s| - 1] == Digits(n / 10);
    }
  }

  lemma {:induction false} LeadingDigitsStopsAtNonDigit(d: string, t: string)
    requires AllDigits(d)
    requires t == [] || !IsDigit(t[0])
    ensures LeadingDigits(d + t) == d
  {
    if d != [] {
      assert (d + t)[1..] == d[1..] + t;
      LeadingDigitsStopsAtNonDigit(d[1..], t);
    }
  }

  /** What %d writes, Sscanf's %d reads back, whatever non-digit text follows it. */
  lemma ScanFormatInt(n: int, t: string)
    requires Int64Min <= n <= Int64Max
    requires t == [] || !IsDigit(t[0])
    ensures ScanInt(FormatInt(n) + t) == Some(n)
  {
    var m: nat := if n < 0 then -n else n;
    var ds := Digits(m);
    assert ValueOf(ds) == m by { ValueOfDigits(m); }
    if n < 0 {
      assert FormatInt(n) + t == "-" + ds + t;
      ScanNegative(ds, t);
    } else {
      assert FormatInt(n) + t == ds + t;
      ScanNonNegative(ds, t);
    }
  }

  lemma ScanNegative(ds: string, t: string)
    requires ds != [] && AllDigits(ds)
    requires t == [] || !IsDigit(t[0])
    requires Int64Min <= -(ValueOf(ds) as int)
    ensures ScanInt("-" + ds + t) == Some(-(ValueOf(ds) as int))
  {
    var rest := ds + t;
    var s := "-" + rest;
    assert "-" + ds + t == s;
    assert LeadingDigits(s[1..]) == ds by {
      assert s[1..] == rest;
      LeadingDigitsStopsAtNonDigit(ds, t);
    }
    ScanSigned(s, ds);
  }

  lemma ScanNonNegative(ds: string, t: string)
    requires ds != [] && AllDigits(ds)
    requires t == [] || !IsDigit(t[0])
    requires ValueOf(ds) <= Int64Max
    ensures ScanInt(ds + t) == Some(ValueOf(ds))
  {
    assert LeadingDigits(ds + t) == ds by { LeadingDigitsStopsAtNonDigit(ds, t); }
    assert (ds + t)[0] == ds[0];
    ScanUnsigned(ds + t, ds);
  }

  /** A digit run beyond the 64-bit range does not scan: Sscanf reports an overflow. */
  lemma ScanOutOfRange(ds: string, t: string)
    requires ds != [] && AllDigits(ds)
    requires t == [] || !IsDigit(t[0])
    requires ValueOf(ds) > Int64Max
    ensures ScanInt(ds + t) == None
  {
    LeadingDigitsStopsAtNonDigit(ds, t);
    assert (ds + t)[0] == ds[0];
  }

  /** A negative number below the 64-bit range does not scan either. */
  lemma ScanNegativeOutOfRange(ds: string, t: string)
    requires ds != [] && AllDigits(ds)
    requires t == [] || !IsDigit(t[0])
    requires -(ValueOf(ds) as int) < Int64Min
    ensures ScanInt("-" + ds + t) == None
  {
    var rest := ds + t;
    var s := "-" + rest;
    assert "-" + ds + t == s;
    assert s[1..] == rest;
    LeadingDigitsStopsAtNonDigit(ds, t);
  }

  /** A '+' sign is accepted and leaves the value unchanged. */
  lemma ScanPlus(ds: string, t: string)
    requires ds != [] && AllDigits(ds)
    requires t == [] || !IsDigit(t[0])
    requires ValueOf(ds) <= Int64Max
    ensures ScanInt("+" + ds + t) == Some(ValueOf(ds))
  {
    var rest := ds + t;
    var s := "+" + rest;
    assert "+" + ds + t == s;
    assert LeadingDigits(s[1..]) == ds by {
      assert s[1..] == rest;
      LeadingDigitsStopsAtNonDigit(ds, t);
    }
    assert s[0] == '+';
  }

  lemma ScanSigned(s: string, ds: string)
    requires |s| > 0 && s[0] == '-' && ds != [] && AllDigits(ds) && LeadingDigits(s[1..]) == ds
    requires Int64Min <= -(ValueOf(ds) as int)
    ensures ScanInt(s) == Some(-(ValueOf(ds) as int))
  {
  }

  lemma ScanUnsigned(s: string, ds: string)
    requires |s| > 0 && IsDigit(s[0]) && ds != [] && AllDigits(ds) && LeadingDigits(s) == ds
    requires ValueOf(ds) <= Int64Max
    ensures ScanInt(s) == Some(ValueOf(ds))
  {
  }
}
