/** The strings the reports page builds and compares: decimal renderings of
    numbers (template literals and String()), padStart(2, '0'), the month key
    `YYYY-MM` of a date, and the order in which keys are sorted. Keys made of
    ASCII digits and '-' are compared by localeCompare as by code points, so
    the order is modelled as the lexicographic order of characters. */
module Text {
  import opened Calendar

  predicate IsDigit(c: char)
  {
    '0' <= c <= '9'
  }

  function Digit(d: int): (c: char)
    requires 0 <= d < 10
    ensures IsDigit(c)
  {
    ('0' as int + d) as char
  }

  function DigitValue(c: char): int
  {
    c as int - '0' as int
  }

  predicate AllDigits(s: string)
  {
    forall i :: 0 <= i < |s| ==> IsDigit(s[i])
  }

  /** The decimal rendering of a natural number: its digits, without leading zeros. */
  function DecimalString(n: nat): (s: string)
    ensures 1 <= |s| && AllDigits(s)
    ensures s[0] == '0' ==> n == 0
    decreases n
  {
    if n < 10 then [Digit(n)] else DecimalString(n / 10) + [Digit(n % 10)]
  }

  /** The number a string of digits denotes. */
  function DecimalValue(s: string): nat
    requires AllDigits(s)
    decreases |s|
  {
    if s == [] then 0 else DecimalValue(s[..|s| - 1]) * 10 + DigitValue(s[|s| - 1])
  }

  /** Reading back a rendered number gives the number. */
  lemma {:induction false} DecimalRoundTrip(n: nat)
    ensures DecimalValue(DecimalString(n)) == n
    decreases n
  {
    if n >= 10 {
      DecimalRoundTrip(n / 10);
      var s := DecimalString(n);
      assert s[..|s| - 1] == DecimalString(n / 10);
    }
  }

  /** The rendering of an integer: a minus sign before the digits of a negative one. */
  function IntegerString(n: int): (s: string)
    ensures 1 <= |s|
  {
    if n < 0 then "-" + DecimalString(-n) else DecimalString(n)
  }

  /** String.prototype.padStart(2, '0'). */
  function PadStart2(s: string): (r: string)
    ensures |r| == if |s| < 2 then 2 else |s|
  {
    if |s| == 0 then "00" else if |s| == 1 then "0" + s else s
  }

  /** The 1-based month padded to two digits: String(month + 1).padStart(2, '0'). */
  function MonthDigits(month: int): string
  {
    PadStart2(IntegerString(month + 1))
  }

  /** The month key of a date: the full year, a dash, and the padded month. */
  function MonthKey(d: Date): string
  {
    IntegerString(d.year) + "-" + MonthDigits(d.month)
  }

  /** The padded month of a month 0..11 is two digits spelling month + 1. */
  lemma MonthDigitsFormat(month: int)
    requires 0 <= month < 12
    ensures |MonthDigits(month)| == 2 && AllDigits(MonthDigits(month))
    ensures DecimalValue(MonthDigits(month)) == month + 1
  {
    var m := MonthDigits(month);
    if month + 1 < 10 {
      assert IntegerString(month + 1) == [Digit(month + 1)];
      assert m == ['0', Digit(month + 1)];
      assert m[..1] == ['0'];
      assert DecimalValue(m[..1]) == 0 by {
        assert m[..1][..0] == [];
      }
    } else {
      assert IntegerString(month + 1) == DecimalString(1) + [Digit(month + 1 - 10)];
      assert m == [Digit(1), Digit(month + 1 - 10)];
      assert m[..1] == [Digit(1)];
      assert DecimalValue(m[..1]) == 1 by {
        assert m[..1][..0] == [];
      }
    }
  }

  /** The month key of a valid date is the year, then a dash at the third
      position from the end, then the two digits of the padded month. */
  lemma MonthKeyFormat(d: Date)
    requires ValidDate(d)
    ensures var k := MonthKey(d);
            && |k| >= 4 && k[|k| - 3] == '-'
            && k[..|k| - 3] == IntegerString(d.year)
            && k[|k| - 2..] == MonthDigits(d.month)
  {
    MonthDigitsFormat(d.month);
    var k := MonthKey(d);
    var y := IntegerString(d.year);
    assert k == y + "-" + MonthDigits(d.month);
    assert k[..|y|] == y;
  }

  /** Reading a year back: an optional minus sign, then digits. */
  function ParseYear(y: string): int
  {
    if |y| > 0 && y[0] == '-' && AllDigits(y[1..]) then 0 - DecimalValue(y[1..]) as int
    else if AllDigits(y) then DecimalValue(y)
    else 0
  }

  lemma ParseYearRoundTrip(n: int)
    ensures ParseYear(IntegerString(n)) == n
  {
    var y := IntegerString(n);
    if n < 0 {
      assert y[1..] == DecimalString(-n);
      DecimalRoundTrip(-n);
    } else {
      assert IsDigit(y[0]);
      DecimalRoundTrip(n);
    }
  }

  /** The year and the month read back from a month key. */
  function ParseMonthKey(k: string): (ym: (int, int))
    requires |k| >= 4 && AllDigits(k[|k| - 2..])
  {
    (ParseYear(k[..|k| - 3]), DecimalValue(k[|k| - 2..]) - 1)
  }

  /** Reading a month key back gives the date's year and month: distinct months
      have distinct keys. */
  lemma MonthKeyRoundTrip(d: Date)
    requires ValidDate(d)
    ensures |MonthKey(d)| >= 4 && AllDigits(MonthKey(d)[|MonthKey(d)| - 2..])
    ensures ParseMonthKey(MonthKey(d)) == (d.year, d.month)
  {
    MonthKeyFormat(d);
    MonthDigitsFormat(d.month);
    ParseYearRoundTrip(d.year);
  }

  /** Lexicographic order of strings: the order a sort by localeCompare gives
      the month keys. */
  predicate StrLess(a: string, b: string)
    decreases |a|
  {
    if |a| == 0 then |b| > 0
    else if |b| == 0 then false
    else if a[0] != b[0] then a[0] < b[0]
    else StrLess(a[1..], b[1..])
  }

  lemma {:induction false} StrLessIrreflexive(a: string)
    ensures !StrLess(a, a)
    decreases |a|
  {
    if |a| > 0 {
      StrLessIrreflexive(a[1..]);
    }
  }

  lemma {:induction false} StrLessTransitive(a: string, b: string, c: string)
    requires StrLess(a, b) && StrLess(b, c)
    ensures StrLess(a, c)
    decreases |a|
  {
    if |a| > 0 && |b| > 0 && |c| > 0 && a[0] == b[0] && b[0] == c[0] {
      StrLessTransitive(a[1..], b[1..], c[1..]);
    }
  }

  /** Any two distinct strings are ordered one way or the other, and never both. */
  lemma {:induction false} StrLessTotal(a: string, b: string)
    ensures a != b ==> StrLess(a, b) || StrLess(b, a)
    ensures !(StrLess(a, b) && StrLess(b, a))
    decreases |a|
  {
    if |a| > 0 && |b| > 0 && a[0] == b[0] {
      StrLessTotal(a[1..], b[1..]);
      if a != b {
        assert a == [a[0]] + a[1..] && b == [b[0]] + b[1..];
      }
    }
  }

  /** On two strings of the same length, a common prefix does not change the order. */
  lemma {:induction false} StrLessCommonPrefix(p: string, a: string, b: string)
    ensures StrLess(p + a, p + b) == StrLess(a, b)
    decreases |p|
  {
    if |p| > 0 {
      assert (p + a)[0] == (p + b)[0] == p[0];
      assert (p + a)[1..] == p[1..] + a && (p + b)[1..] == p[1..] + b;
      StrLessCommonPrefix(p[1..], a, b);
    } else {
      assert p + a == a && p + b == b;
    }
  }

  /** When two strings of the same length differ, what follows them does not
      change their order. */
  lemma {:induction false} StrLessDifferentPrefix(a: string, b: string, x: string, y: string)
    requires |a| == |b| && a != b
    ensures StrLess(a + x, b + y) == StrLess(a, b)
    decreases |a|
  {
    if a[0] == b[0] {
      assert a == [a[0]] + a[1..] && b == [b[0]] + b[1..];
      assert (a + x)[1..] == a[1..] + x && (b + y)[1..] == b[1..] + y;
      StrLessDifferentPrefix(a[1..], b[1..], x, y);
    }
  }

  /** A rendered number with 1000 <= n <= 9999 has four digits. */
  lemma FourDigitYear(n: nat)
    requires 1000 <= n <= 9999
    ensures |DecimalString(n)| == 4
  {
    assert |DecimalString(n / 1000)| == 1;
    assert |DecimalString(n / 100)| == 2;
    assert |DecimalString(n / 10)| == 3;
  }

  /** On digit strings of the same length, the lexicographic order is the order
      of the numbers they denote. */
  lemma {:induction false} DigitsOrder(s: string, t: string)
    requires |s| == |t| && AllDigits(s) && AllDigits(t)
    ensures StrLess(s, t) <==> DecimalValue(s) < DecimalValue(t)
    ensures s == t <==> DecimalValue(s) == DecimalValue(t)
    decreases |s|
  {
    if s == [] {
      assert t == [];
    } else {
      var s', t' := s[..|s| - 1], t[..|t| - 1];
      var c, e := s[|s| - 1], t[|t| - 1];
      assert s == s' + [c] && t == t' + [e];
      DigitsOrder(s', t');
      if s' != t' {
        StrLessDifferentPrefix(s', t', [c], [e]);
      } else {
        StrLessCommonPrefix(s', [c], [e]);
        assert [c][1..] == [] && [e][1..] == [];
      }
    }
  }

  /** Within a year the key order is the order of the months. */
  lemma KeyOrderWithinYear(a: Date, b: Date)
    requires ValidDate(a) && ValidDate(b) && a.year == b.year
    ensures StrLess(MonthKey(a), MonthKey(b)) <==> a.month < b.month
  {
    var p := IntegerString(a.year) + "-";
    var ma, mb := MonthDigits(a.month), MonthDigits(b.month);
    assert MonthKey(a) == p + ma && MonthKey(b) == p + mb;
    StrLessCommonPrefix(p, ma, mb);
    MonthDigitsFormat(a.month);
    MonthDigitsFormat(b.month);
    DigitsOrder(ma, mb);
  }

  /** Between two different four-digit years the key order is the order of the years. */
  lemma KeyOrderAcrossYears(a: Date, b: Date)
    requires 1000 <= a.year <= 9999 && 1000 <= b.year <= 9999 && a.year != b.year
    ensures StrLess(MonthKey(a), MonthKey(b)) <==> a.year < b.year
  {
    var ya, yb := DecimalString(a.year), DecimalString(b.year);
    FourDigitYear(a.year);
    FourDigitYear(b.year);
    DecimalRoundTrip(a.year);
    DecimalRoundTrip(b.year);
    DigitsOrder(ya, yb);
    assert MonthKey(a) == ya + ("-" + MonthDigits(a.month));
    assert MonthKey(b) == yb + ("-" + MonthDigits(b.month));
    StrLessDifferentPrefix(ya, yb, "-" + MonthDigits(a.month), "-" + MonthDigits(b.month));
  }

  /** On years written with four digits the key order is the chronological order
      of months. */
  lemma MonthKeyOrderIsChronological(a: Date, b: Date)
    requires ValidDate(a) && ValidDate(b)
    requires 1000 <= a.year <= 9999 && 1000 <= b.year <= 9999
    ensures StrLess(MonthKey(a), MonthKey(b)) <==>
              a.year < b.year || (a.year == b.year && a.month < b.month)
  {
    if a.year == b.year {
      KeyOrderWithinYear(a, b);
    } else {
      KeyOrderAcrossYears(a, b);
    }
  }

  /** Across a change in the number of digits of the year the key order is not
      chronological: the keys of year 1000 sort before those of year 999. */
  lemma MonthKeyOrderAcrossDigitCounts()
    ensures StrLess(MonthKey(Date(1000, 0, 1)), MonthKey(Date(999, 0, 1)))
  {
    assert DecimalString(1000) == DecimalString(100) + ['0'];
    assert DecimalString(999) == DecimalString(99) + ['9'];
    assert MonthKey(Date(1000, 0, 1))[0] == '1';
    assert MonthKey(Date(999, 0, 1))[0] == '9';
  }
}
