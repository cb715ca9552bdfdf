/** Calendar dates: how a local day number is printed with the layout "2006-01-02". */
module Civil {
  import opened Text

  datatype Date = Date(year: int, month: int, day: int)

  predicate Leap(year: int) {
    year % 4 == 0 && (year % 100 != 0 || year % 400 == 0)
  }

  function DaysIn(year: int, month: int): int {
    if month == 2 then if Leap(year) then 29 else 28
    else if month == 4 || month == 6 || month == 9 || month == 11 then 30
    else 31
  }

  predicate Valid(d: Date) {
    1 <= d.month <= 12 && 1 <= d.day <= DaysIn(d.year, d.month)
  }

  function Next(d: Date): Date {
    if d.day < DaysIn(d.year, d.month) then d.(day := d.day + 1)
    else if d.month < 12 then Date(d.year, d.month + 1, 1)
    else Date(d.year + 1, 1, 1)
  }

  function Prev(d: Date): Date {
    if d.day > 1 then d.(day := d.day - 1)
    else if d.month > 1 then Date(d.year, d.month - 1, DaysIn(d.year, d.month - 1))
    else Date(d.year - 1, 12, 31)
  }

  /** The date of day n, where day 0 is 1 January 1970. */
  function OfDay(n: int): Date
    decreases if n < 0 then -n else n
  {
    if n == 0 then Date(1970, 1, 1)
    else if n > 0 then Next(OfDay(n - 1))
    else Prev(OfDay(n + 1))
  }

  // The other direction, in closed form: days before a year, and before a month in it.
  function BeforeYear(year: int): int {
    365 * year + (year + 3) / 4 - (year + 99) / 100 + (year + 399) / 400
  }

  function BeforeMonth(year: int, month: int): int {
    var leap := if Leap(year) then 1 else 0;
    if month <= 1 then 0
    else if month == 2 then 31
    else if month == 3 then 59 + leap
    else if month == 4 then 90 + leap
    else if month == 5 then 120 + leap
    else if month == 6 then 151 + leap
    else if month == 7 then 181 + leap
    else if month == 8 then 212 + leap
    else if month == 9 then 243 + leap
    else if month == 10 then 273 + leap
    else if month == 11 then 304 + leap
    else 334 + leap
  }

  function Number(d: Date): int {
    BeforeYear(d.year) + BeforeMonth(d.year, d.month) + d.day - 1 - 719528
  }

  lemma FourYears(year: int)
    ensures (year + 4) / 4 - (year + 3) / 4 == if year % 4 == 0 then 1 else 0
  {
  }

  lemma Century(year: int)
    ensures (year + 100) / 100 - (year + 99) / 100 == if year % 100 == 0 then 1 else 0
  {
  }

  lemma FourCenturies(year: int)
    ensures (year + 400) / 400 - (year + 399) / 400 == if year % 400 == 0 then 1 else 0
  {
  }

  lemma CenturyMultiple(x: int)
    ensures (100 * x) % 100 == 0
  {
  }

  lemma FourMultiple(x: int)
    ensures (4 * x) % 4 == 0
  {
  }

  lemma FourCenturiesAreCenturies(year: int)
    requires year % 400 == 0
    ensures year % 100 == 0
  {
    var q := year / 400;
    CenturyMultiple(4 * q);
    assert year == 100 * (4 * q);
  }

  lemma CenturiesAreFourYears(year: int)
    requires year % 100 == 0
    ensures year % 4 == 0
  {
    var q := year / 100;
    FourMultiple(25 * q);
    assert year == 4 * (25 * q);
  }

  lemma CenturiesNest(year: int)
    ensures year % 400 == 0 ==> year % 100 == 0
    ensures year % 100 == 0 ==> year % 4 == 0
  {
    if year % 400 == 0 {
      FourCenturiesAreCenturies(year);
    }
    if year % 100 == 0 {
      CenturiesAreFourYears(year);
    }
  }

  lemma YearLength(year: int)
    ensures BeforeYear(year + 1) - BeforeYear(year) == if Leap(year) then 366 else 365
  {
    FourYears(year);
    Century(year);
    FourCenturies(year);
    CenturiesNest(year);
  }

  lemma MonthLength(year: int, month: int)
    requires 1 <= month < 12
    ensures BeforeMonth(year, month + 1) == BeforeMonth(year, month) + DaysIn(year, month)
  {
  }

  lemma NextDay(d: Date)
    requires Valid(d)
    ensures Valid(Next(d)) && Number(Next(d)) == Number(d) + 1
  {
    if d.day == DaysIn(d.year, d.month) {
      if d.month < 12 {
        MonthLength(d.year, d.month);
      } else {
        YearLength(d.year);
      }
    }
  }

  lemma PrevDay(d: Date)
    requires Valid(d)
    ensures Valid(Prev(d)) && Number(Prev(d)) == Number(d) - 1
  {
    if d.day == 1 {
      if d.month > 1 {
        MonthLength(d.year, d.month - 1);
      } else {
        YearLength(d.year - 1);
      }
    }
  }

  /** Walking the calendar a day at a time agrees with the closed-form day count. */
  lemma {:induction false} DayNumber(n: int)
    ensures Valid(OfDay(n)) && Number(OfDay(n)) == n
    decreases if n < 0 then -n else n
  {
    if n > 0 {
      DayNumber(n - 1);
      NextDay(OfDay(n - 1));
    } else if n < 0 {
      DayNumber(n + 1);
      PrevDay(OfDay(n + 1));
    }
  }

  lemma NumberZero(d: Date)
    requires Valid(d) && Number(d) == 0
    ensures d == Date(1970, 1, 1)
  {
    hide BeforeMonth, DaysIn;
    assert 0 <= BeforeMonth(d.year, d.month) + d.day - 1 < 366 by {
      DayOfYear(d);
    }
    assert BeforeYear(1970) == 719528;
    var y := d.year;
    assert 719528 - 366 < BeforeYear(y) <= 719528;
    assert BeforeYear(1969) == 719163 && BeforeYear(1971) == 719893;
    assert y == 1970 || y == 1969;
    if y == 1969 {
      DayOfYear(d);
    }
    FirstOfYear(d);
  }

  lemma DayOfYear(d: Date)
    requires Valid(d)
    ensures 0 <= BeforeMonth(d.year, d.month) + d.day - 1 < if Leap(d.year) then 366 else 365
  {
  }

  lemma FirstOfYear(d: Date)
    requires Valid(d) && BeforeMonth(d.year, d.month) + d.day == 1
    ensures d.month == 1 && d.day == 1
  {
  }

  lemma NextUndoesPrev(d: Date)
    requires Valid(d)
    ensures Next(Prev(d)) == d && Prev(Next(d)) == d
  {
  }

  /** Walking to the day number of a date arrives at that date: days and valid dates correspond one to one. */
  lemma {:induction false} DateOfNumber(d: Date)
    requires Valid(d)
    ensures OfDay(Number(d)) == d
    decreases if Number(d) < 0 then -Number(d) else Number(d)
  {
    hide Valid, Number, Next, Prev;
    NextUndoesPrev(d);
    PrevDay(d);
    NextDay(d);
    if Number(d) == 0 {
      NumberZero(d);
    } else if Number(d) > 0 {
      DateOfNumber(Prev(d));
    } else {
      DateOfNumber(Next(d));
    }
  }

  function PrintYear(year: int): string {
    if year < 0 then "-" + Padded(-year, 4) else Padded(year, 4)
  }

  /** Years print with at least four digits. */
  lemma KnownYears()
    ensures PrintYear(7) == "0007" && PrintYear(-7) == "-0007"
    ensures PrintYear(2026) == "2026" && PrintYear(12026) == "12026"
  {
    assert Digits(2) == "2" && Digits(1) == "1";
    assert Digits(20) == "20" && Digits(12) == "12";
    assert Digits(202) == "202" && Digits(120) == "120";
    assert Digits(1202) == "1202";
    assert Zeros(3) == "000" && Digits(7) == "7";
  }

  /** time.Time.Format("2006-01-02"). */
  function Print(d: Date): string
    requires Valid(d)
  {
    PrintYear(d.year) + "-" + Padded(d.month, 2) + "-" + Padded(d.day, 2)
  }

  lemma YearInjective(a: int, b: int)
    ensures PrintYear(a) == PrintYear(b) <==> a == b
  {
    var m, n := if a < 0 then -a else a, if b < 0 then -b else b;
    PaddedValue(m, 4);
    PaddedValue(n, 4);
    var x, y := PrintYear(a), PrintYear(b);
    if x == y {
      assert x[0] == y[0];
      assert a < 0 <==> b < 0;
      if a < 0 {
        assert x[1..] == Padded(m, 4) && y[1..] == Padded(n, 4);
      }
    }
  }

  lemma TwoDigits(n: nat)
    requires n < 100
    ensures |Padded(n, 2)| == 2 && AllDigits(Padded(n, 2)) && NatVal(Padded(n, 2)) == n
  {
    PaddedValue(n, 2);
    if n >= 10 {
      assert |Digits(n / 10)| == 1;
    }
  }

  /** The last six characters of two equal texts of this shape agree piece by piece. */
  lemma SameTails(x: string, m: string, d: string, x': string, m': string, d': string)
    requires |m| == |d| == |m'| == |d'| == 2
    requires x + "-" + m + "-" + d == x' + "-" + m' + "-" + d'
    ensures x == x' && m == m' && d == d'
  {
    var s, t := x + "-" + m + "-" + d, x' + "-" + m' + "-" + d';
    var k := |x|;
    assert |s| == |t| == k + 6 && |x'| == k;
    assert x == s[..k] == t[..k] == x';
    assert m == s[k + 1..k + 3] == t[k + 1..k + 3] == m';
    assert d == s[k + 4..] == t[k + 4..] == d';
  }

  lemma PrintInjective(a: Date, b: Date)
    requires Valid(a) && Valid(b)
    ensures Print(a) == Print(b) <==> a == b
  {
    TwoDigits(a.month); TwoDigits(b.month);
    TwoDigits(a.day); TwoDigits(b.day);
    if Print(a) == Print(b) {
      SameTails(PrintYear(a.year), Padded(a.month, 2), Padded(a.day, 2),
                PrintYear(b.year), Padded(b.month, 2), Padded(b.day, 2));
      YearInjective(a.year, b.year);
    }
  }

  /** The printed form of day n. */
  function DayText(n: int): string {
    DayNumber(n);
    Print(OfDay(n))
  }

  /** Printed dates name days exactly: for every day of every year, before or after year 0 too. */
  lemma DayTextInjective(m: int, n: int)
    ensures DayText(m) == DayText(n) <==> m == n
  {
    DayNumber(m);
    DayNumber(n);
    PrintInjective(OfDay(m), OfDay(n));
  }

}
