/** Calendar dates as Python's `datetime.date` has them, and the parse that
    `datetime.strptime(s, "%Y-%m-%d").date()` performs.

    Accepted inputs: the whole string is four ASCII digits for the year, a
    hyphen, a month written `1[0-2]`, `0[1-9]` or `[1-9]`, a hyphen, and a
    day written `3[01]`, `[12][0-9]`, `0[1-9]`, `[1-9]` or a space followed
    by `[1-9]` (the day pattern of Python's `_strptime`); then the year must
    be at least 1 and the day must exist in that month of that year. So
    "2024-09-05", "2024-9-5" and "2024-9- 5" all give 5 September 2024,
    while "2024-02-30", "0000-01-01" and "2024-Sep-20" are rejected. */
module Dates {
  import opened Wrappers

  datatype Date = Date(year: int, month: int, day: int)

  predicate IsLeapYear(y: int)
  {
    y % 4 == 0 && (y % 100 != 0 || y % 400 == 0)
  }

  function DaysInMonth(y: int, m: int): int
    requires 1 <= m <= 12
  {
    if m == 2 then (if IsLeapYear(y) then 29 else 28)
    else if m == 4 || m == 6 || m == 9 || m == 11 then 30
    else 31
  }

  /** A date `datetime.date` can represent (years 1 to 9999). */
  predicate Valid(d: Date)
  {
    1 <= d.year <= 9999 && 1 <= d.month <= 12 && 1 <= d.day <= DaysInMonth(d.year, d.month)
  }

  function DaysBeforeYear(y: int): int
  {
    var p := y - 1;
    p * 365 + p / 4 - p / 100 + p / 400
  }

  function DaysBeforeMonth(y: int, m: int): int
    requires 1 <= m <= 12
  {
    var table := [0, 31, 59, 90, 120, 151, 181, 212, 243, 273, 304, 334];
    table[m - 1] + (if m > 2 && IsLeapYear(y) then 1 else 0)
  }

  /** `date.toordinal()`: 1 January of year 1 is day 1. */
  function Ordinal(d: Date): int
    requires Valid(d)
  {
    DaysBeforeYear(d.year) + DaysBeforeMonth(d.year, d.month) + d.day
  }

  const MaxOrdinal: int := 3652059

  /** Python compares dates as (year, month, day) tuples. */
  predicate OnOrBefore(a: Date, b: Date)
  {
    a.year < b.year
    || (a.year == b.year && (a.month < b.month || (a.month == b.month && a.day <= b.day)))
  }

  // ---------------------------------------------------------------------
  // The day-ordinal

  lemma MonthStep(y: int, m: int)
    requires 1 <= m < 12
    ensures DaysBeforeMonth(y, m) + DaysInMonth(y, m) == DaysBeforeMonth(y, m + 1)
  {
  }

  lemma YearLength(y: int)
    ensures DaysBeforeMonth(y, 12) + DaysInMonth(y, 12) == if IsLeapYear(y) then 366 else 365
  {
  }

  lemma {:induction false} DaysBeforeMonthGrows(y: int, m: int, n: int)
    requires 1 <= m < n <= 12
    ensures DaysBeforeMonth(y, m) + DaysInMonth(y, m) <= DaysBeforeMonth(y, n)
    decreases n - m
  {
    MonthStep(y, m);
    if m + 1 < n {
      DaysBeforeMonthGrows(y, m + 1, n);
    }
  }

  /** Each of the quotients that count leap days grows by one exactly
      when the year is a multiple of the divisor. */
  lemma QuotientsStep(y: int)
    ensures y / 4 == (y - 1) / 4 + (if y % 4 == 0 then 1 else 0)
    ensures y / 100 == (y - 1) / 100 + (if y % 100 == 0 then 1 else 0)
    ensures y / 400 == (y - 1) / 400 + (if y % 400 == 0 then 1 else 0)
  {
  }

  lemma YearStep(y: int)
    requires y >= 1
    ensures DaysBeforeYear(y + 1) == DaysBeforeYear(y) + if IsLeapYear(y) then 366 else 365
  {
    QuotientsStep(y);
  }

  lemma {:induction false} DaysBeforeYearGrows(y: int, z: int)
    requires 1 <= y < z
    ensures DaysBeforeYear(y) + DaysBeforeMonth(y, 12) + DaysInMonth(y, 12) <= DaysBeforeYear(z)
    decreases z - y
  {
    YearStep(y);
    YearLength(y);
    if y + 1 < z {
      DaysBeforeYearGrows(y + 1, z);
      YearLength(y + 1);
    }
  }

  lemma EarlierMeansSmaller(a: Date, b: Date)
    requires Valid(a) && Valid(b)
    requires OnOrBefore(a, b) && a != b
    ensures Ordinal(a) < Ordinal(b)
  {
    if a.year < b.year {
      if a.month < 12 {
        DaysBeforeMonthGrows(a.year, a.month, 12);
      }
      DaysBeforeYearGrows(a.year, b.year);
    } else if a.month < b.month {
      DaysBeforeMonthGrows(a.year, a.month, b.month);
    }
  }

  /** Comparing day-ordinals is comparing dates: the filters compare
      ordinals, Python compares (year, month, day). */
  lemma OrdinalOrder(a: Date, b: Date)
    requires Valid(a) && Valid(b)
    ensures Ordinal(a) <= Ordinal(b) <==> OnOrBefore(a, b)
    ensures Ordinal(a) == Ordinal(b) <==> a == b
  {
    if a != b {
      if OnOrBefore(a, b) {
        EarlierMeansSmaller(a, b);
      } else {
        EarlierMeansSmaller(b, a);
      }
    }
  }

  lemma MaxOrdinalIsLastDay()
    ensures Valid(Date(9999, 12, 31)) && Ordinal(Date(9999, 12, 31)) == MaxOrdinal
  {
  }

  // ---------------------------------------------------------------------
  // Parsing

  predicate IsDigit(c: char)
  {
    '0' <= c <= '9'
  }

  function DigitValue(c: char): int
    requires IsDigit(c)
  {
    c as int - '0' as int
  }

  /** The `%Y` field: exactly four digits. */
  function YearField(f: string): Option<int>
  {
    if |f| == 4 && IsDigit(f[0]) && IsDigit(f[1]) && IsDigit(f[2]) && IsDigit(f[3])
    then Some(DigitValue(f[0]) * 1000 + DigitValue(f[1]) * 100 + DigitValue(f[2]) * 10 + DigitValue(f[3]))
    else None
  }

  /** The `%m` field: `1[0-2]|0[1-9]|[1-9]`. */
  function MonthField(f: string): Option<int>
  {
    if |f| == 2 && f[0] == '1' && '0' <= f[1] <= '2' then Some(10 + DigitValue(f[1]))
    else if |f| == 2 && f[0] == '0' && '1' <= f[1] <= '9' then Some(DigitValue(f[1]))
    else if |f| == 1 && '1' <= f[0] <= '9' then Some(DigitValue(f[0]))
    else None
  }

  /** The `%d` field: `3[01]|[12]\d|0[1-9]|[1-9]| [1-9]`. */
  function DayField(f: string): Option<int>
  {
    if |f| == 2 && f[0] == '3' && '0' <= f[1] <= '1' then Some(30 + DigitValue(f[1]))
    else if |f| == 2 && '1' <= f[0] <= '2' && IsDigit(f[1]) then Some(DigitValue(f[0]) * 10 + DigitValue(f[1]))
    else if |f| == 2 && f[0] == '0' && '1' <= f[1] <= '9' then Some(DigitValue(f[1]))
    else if |f| == 1 && '1' <= f[0] <= '9' then Some(DigitValue(f[0]))
    else if |f| == 2 && f[0] == ' ' && '1' <= f[1] <= '9' then Some(DigitValue(f[1]))
    else None
  }

  /** The fields of "Y-m-d" once the month is known to take `width` characters. */
  function FieldsAt(s: string, width: nat): Option<Date>
  {
    if |s| >= 6 + width && s[4] == '-' && s[5 + width] == '-'
       && YearField(s[..4]).Some? && MonthField(s[5..5 + width]).Some? && DayField(s[6 + width..]).Some?
    then Some(Date(YearField(s[..4]).value, MonthField(s[5..5 + width]).value, DayField(s[6 + width..]).value))
    else None
  }

  /** `datetime.strptime(s, "%Y-%m-%d").date()`, with `None` for the
      `ValueError` it raises. */
  function ParseDate(s: string): (r: Option<Date>)
    ensures r.Some? ==> Valid(r.value)
  {
    var fields := if FieldsAt(s, 1).Some? then FieldsAt(s, 1) else FieldsAt(s, 2);
    if fields.Some? && Valid(fields.value) then fields else None
  }

  // ---------------------------------------------------------------------
  // What the parser accepts

  function Digit(n: int): char
    requires 0 <= n <= 9
  {
    ('0' as int + n) as char
  }

  /** Two digits, zero-padded. */
  function Pad2(n: int): string
    requires 0 <= n <= 99
  {
    [Digit(n / 10), Digit(n % 10)]
  }

  function Year4(y: int): string
    requires 0 <= y <= 9999
  {
    [Digit(y / 1000), Digit(y / 100 % 10), Digit(y / 10 % 10), Digit(y % 10)]
  }

  /** The ways the month `m` may be written. */
  function MonthSpellings(m: int): set<string>
    requires 1 <= m <= 12
  {
    {Pad2(m)} + (if m < 10 then {[Digit(m)]} else {})
  }

  /** The ways the day `d` may be written. */
  function DaySpellings(d: int): set<string>
    requires 1 <= d <= 31
  {
    {Pad2(d)} + (if d < 10 then {[Digit(d)], [' ', Digit(d)]} else {})
  }

  /** Every text that spells the valid date `d` in the `%Y-%m-%d` format. */
  function Spellings(d: Date): set<string>
    requires Valid(d)
  {
    set ms, ds | ms in MonthSpellings(d.month) && ds in DaySpellings(d.day)
      :: Year4(d.year) + "-" + ms + "-" + ds
  }

  /** `date.isoformat()`: the zero-padded spelling. */
  function IsoFormat(d: Date): string
    requires Valid(d)
  {
    Year4(d.year) + "-" + Pad2(d.month) + "-" + Pad2(d.day)
  }

  lemma DigitRoundTrip(n: int)
    requires 0 <= n <= 9
    ensures IsDigit(Digit(n)) && DigitValue(Digit(n)) == n
  {
  }

  lemma DigitOfValue(c: char)
    requires IsDigit(c)
    ensures 0 <= DigitValue(c) <= 9 && Digit(DigitValue(c)) == c
  {
  }

  lemma FourDigits(a: int, b: int, c: int, d: int)
    requires 0 <= a <= 9 && 0 <= b <= 9 && 0 <= c <= 9 && 0 <= d <= 9
    ensures var y := a * 1000 + b * 100 + c * 10 + d;
      y / 1000 == a && y / 100 % 10 == b && y / 10 % 10 == c && y % 10 == d
  {
    var y := a * 1000 + b * 100 + c * 10 + d;
    assert y == (a * 100 + b * 10 + c) * 10 + d;
    assert y / 10 == a * 100 + b * 10 + c && y % 10 == d;
    assert y == (a * 10 + b) * 100 + (c * 10 + d);
    assert y / 100 == a * 10 + b;
    assert y == a * 1000 + (b * 100 + c * 10 + d);
    assert y / 1000 == a;
  }

  lemma YearDigits(y: int)
    requires 0 <= y <= 9999
    ensures y == (y / 1000) * 1000 + (y / 100 % 10) * 100 + (y / 10 % 10) * 10 + y % 10
  {
    var t, h, k := y / 10, y / 100, y / 1000;
    assert y == t * 10 + y % 10;
    assert t / 10 == h && t == h * 10 + t % 10;
    assert h / 10 == k && h == k * 10 + h % 10;
  }

  lemma YearFieldOfYear4(y: int)
    requires 0 <= y <= 9999
    ensures YearField(Year4(y)) == Some(y)
  {
    var f := Year4(y);
    DigitRoundTrip(y / 1000);
    DigitRoundTrip(y / 100 % 10);
    DigitRoundTrip(y / 10 % 10);
    DigitRoundTrip(y % 10);
    assert DigitValue(f[0]) == y / 1000 && DigitValue(f[1]) == y / 100 % 10;
    assert DigitValue(f[2]) == y / 10 % 10 && DigitValue(f[3]) == y % 10;
    YearDigits(y);
  }

  lemma Year4OfYearField(f: string)
    requires YearField(f).Some?
    ensures 0 <= YearField(f).value <= 9999 && f == Year4(YearField(f).value)
  {
    var a, b, c, d := DigitValue(f[0]), DigitValue(f[1]), DigitValue(f[2]), DigitValue(f[3]);
    DigitOfValue(f[0]);
    DigitOfValue(f[1]);
    DigitOfValue(f[2]);
    DigitOfValue(f[3]);
    FourDigits(a, b, c, d);
    assert YearField(f).value == a * 1000 + b * 100 + c * 10 + d;
  }

  lemma YearFieldExact(f: string, y: int)
    requires 0 <= y <= 9999
    ensures YearField(f) == Some(y) <==> f == Year4(y)
  {
    if YearField(f) == Some(y) {
      Year4OfYearField(f);
    }
    if f == Year4(y) {
      YearFieldOfYear4(y);
    }
  }

  lemma MonthFieldExact(f: string, m: int)
    requires 1 <= m <= 12
    ensures MonthField(f) == Some(m) <==> f in MonthSpellings(m)
  {
    DigitRoundTrip(m / 10);
    DigitRoundTrip(m % 10);
    if MonthField(f) == Some(m) {
      if |f| == 2 {
        DigitOfValue(f[1]);
        assert f == Pad2(m);
      } else {
        DigitOfValue(f[0]);
        assert f == [Digit(m)];
      }
    }
  }

  lemma DayFieldExact(f: string, d: int)
    requires 1 <= d <= 31
    ensures DayField(f) == Some(d) <==> f in DaySpellings(d)
  {
    DigitRoundTrip(d / 10);
    DigitRoundTrip(d % 10);
    if DayField(f) == Some(d) {
      if |f| == 2 && f[0] != ' ' {
        DigitOfValue(f[0]);
        DigitOfValue(f[1]);
        assert f == Pad2(d);
      } else if |f| == 2 {
        DigitOfValue(f[1]);
        assert f == [' ', Digit(d)];
      } else {
        DigitOfValue(f[0]);
        assert f == [Digit(d)];
      }
    }
  }

  /** The pieces of `y + "-" + m + "-" + x` with a four-character `y`,
      read back by position. */
  lemma HyphenatedPieces(s: string, y: string, m: string, x: string)
    requires s == y + "-" + m + "-" + x && |y| == 4
    ensures |s| == 6 + |m| + |x| && s[4] == '-' && s[5 + |m|] == '-'
    ensures s[..4] == y && s[5..5 + |m|] == m && s[6 + |m|..] == x
  {
  }

  lemma ParseAccepts(d: Date, s: string)
    requires Valid(d) && s in Spellings(d)
    ensures ParseDate(s) == Some(d)
  {
    var ms, ds :| ms in MonthSpellings(d.month) && ds in DaySpellings(d.day)
      && s == Year4(d.year) + "-" + ms + "-" + ds;
    var w := |ms|;
    HyphenatedPieces(s, Year4(d.year), ms, ds);
    YearFieldExact(s[..4], d.year);
    MonthFieldExact(ms, d.month);
    DayFieldExact(ds, d.day);
    if w == 2 {
      assert MonthField(s[5..6]).None? || s[6] != '-';
    }
  }

  lemma ParseOnlyAccepts(s: string, d: Date)
    requires ParseDate(s) == Some(d)
    ensures Valid(d) && s in Spellings(d)
  {
    var w: nat := if FieldsAt(s, 1).Some? then 1 else 2;
    var ys, ms, ds := s[..4], s[5..5 + w], s[6 + w..];
    assert s == ys + "-" + ms + "-" + ds;
    YearFieldExact(ys, d.year);
    MonthFieldExact(ms, d.month);
    DayFieldExact(ds, d.day);
  }

  /** The parser accepts exactly the spellings of valid dates. */
  lemma ParseDateExactly(s: string, d: Date)
    ensures ParseDate(s) == Some(d) <==> Valid(d) && s in Spellings(d)
  {
    if ParseDate(s) == Some(d) {
      ParseOnlyAccepts(s, d);
    }
    if Valid(d) && s in Spellings(d) {
      ParseAccepts(d, s);
    }
  }

  /** `strptime` reads back what `isoformat` writes. */
  lemma ParseIsoFormat(d: Date)
    requires Valid(d)
    ensures ParseDate(IsoFormat(d)) == Some(d)
  {
    assert Pad2(d.month) in MonthSpellings(d.month);
    assert Pad2(d.day) in DaySpellings(d.day);
    assert IsoFormat(d) in Spellings(d);
    ParseAccepts(d, IsoFormat(d));
  }

  /** Single-digit month and day are accepted; day 30 of February and year
      0 are not. */
  lemma ParseExamples()
    ensures ParseDate("2024-9-5") == Some(Date(2024, 9, 5))
    ensures ParseDate("2024-09-05") == Some(Date(2024, 9, 5))
    ensures ParseDate("2024-02-30") == None
    ensures ParseDate("0000-01-01") == None
    ensures ParseDate("2024-Sep-20") == None
  {
    assert "2024-9-5"[..4] == "2024";
    assert "2024-9-5"[5..6] == "9";
    assert "2024-9-5"[7..] == "5";
    assert "2024-09-05"[..4] == "2024";
    assert "2024-09-05"[5..7] == "09";
    assert "2024-09-05"[8..] == "05";
    assert "2024-02-30"[..4] == "2024";
    assert "2024-02-30"[5..7] == "02";
    assert "2024-02-30"[8..] == "30";
    assert "0000-01-01"[..4] == "0000";
    assert "0000-01-01"[5..7] == "01";
    assert "0000-01-01"[8..] == "01";
  }
}
