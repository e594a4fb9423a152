/**
 * Calendar days as the tracker stamps them on a new row:
 * `datetime.now().strftime('%Y-%m-%d')`, and the month key the monthly
 * chart derives from such a stamp.
 */
module Dates {
  import opened Lex

  /** A day of the proleptic Gregorian calendar, as the wall clock reports it. */
  datatype Day = Day(year: int, month: int, day: int)

  predicate IsLeapYear(y: int)
  {
    y % 4 == 0 && (y % 100 != 0 || y % 400 == 0)
  }

  function DaysInMonth(y: int, m: int): int
    requires 1 <= m <= 12
  {
    if m == 2 then (if IsLeapYear(y) then 29 else 28)
    else if m == 4 || m == 6 || m == 9 || m == 11 then 30
    else 31
  }

  /** A day the clock can report, with a four-digit year. */
  predicate ValidDay(d: Day)
  {
    1000 <= d.year <= 9999 && 1 <= d.month <= 12 && 1 <= d.day <= DaysInMonth(d.year, d.month)
  }

  /** Chronological order of days. */
  predicate DayLe(d1: Day, d2: Day)
  {
    d1.year < d2.year
    || (d1.year == d2.year && (d1.month < d2.month || (d1.month == d2.month && d1.day <= d2.day)))
  }

  function Digit(n: int): char
    requires 0 <= n < 10
  {
    ('0' as int + n) as char
  }

  predicate IsDigit(c: char)
  {
    '0' <= c <= '9'
  }

  /** Zero-padded two-digit field (`%m`, `%d`). */
  function Pad2(n: int): string
    requires 0 <= n < 100
  {
    [Digit(n / 10), Digit(n % 10)]
  }

  /** Zero-padded four-digit field (`%Y`). */
  function Pad4(n: int): string
    requires 0 <= n < 10000
  {
    Pad2(n / 100) + Pad2(n % 100)
  }

  /** `strftime('%Y-%m-%d')`. */
  function FormatDate(d: Day): string
    requires ValidDay(d)
  {
    Pad4(d.year) + ("-" + (Pad2(d.month) + ("-" + Pad2(d.day))))
  }

  /** The shape `YYYY-MM-DD`: ten characters, dashes at 4 and 7, digits elsewhere. */
  predicate IsoDate(s: string)
  {
    |s| == 10 && s[4] == '-' && s[7] == '-'
    && forall i :: 0 <= i < 10 && i != 4 && i != 7 ==> IsDigit(s[i])
  }

  function DigitValue(c: char): int
  {
    c as int - '0' as int
  }

  /** The day an ISO-shaped string names, read field by field. */
  function ParseDay(s: string): Day
    requires IsoDate(s)
  {
    Day(1000 * DigitValue(s[0]) + 100 * DigitValue(s[1]) + 10 * DigitValue(s[2]) + DigitValue(s[3]),
        10 * DigitValue(s[5]) + DigitValue(s[6]),
        10 * DigitValue(s[8]) + DigitValue(s[9]))
  }

  /**
   * A `YYYY-MM-DD` string naming a day that exists, which `pd.to_datetime`
   * accepts; `"2024-13-45"` or `"2024-02-30"` make it raise.
   */
  predicate IsCalendarDate(s: string)
  {
    IsoDate(s) && ValidDay(ParseDay(s))
  }

  /** The `Period('M')` of an ISO date: its year and month, `YYYY-MM`. */
  function MonthKey(date: string): string
    requires IsoDate(date)
  {
    date[..7]
  }

  lemma Pad2Order(a: int, b: int)
    requires 0 <= a < 100 && 0 <= b < 100
    ensures LexLe(Pad2(a), Pad2(b)) <==> a <= b
    ensures Pad2(a) == Pad2(b) <==> a == b
  {
    var pa, pb := Pad2(a), Pad2(b);
    assert pa[1..][1..] == [] && pb[1..][1..] == [];
    assert pa[1..][0] == Digit(a % 10) && pb[1..][0] == Digit(b % 10);
    if pa == pb {
      LeReflexive(pa);
      assert a / 10 == b / 10 && a % 10 == b % 10;
    }
  }

  lemma Pad4Order(a: int, b: int)
    requires 0 <= a < 10000 && 0 <= b < 10000
    ensures LexLe(Pad4(a), Pad4(b)) <==> a <= b
    ensures Pad4(a) == Pad4(b) <==> a == b
  {
    LeConcat(Pad2(a / 100), Pad2(a % 100), Pad2(b / 100), Pad2(b % 100));
    Pad2Order(a / 100, b / 100);
    Pad2Order(a % 100, b % 100);
    if Pad4(a) == Pad4(b) {
      assert Pad4(a)[..2] == Pad2(a / 100) && Pad4(b)[..2] == Pad2(b / 100);
      assert Pad4(a)[2..] == Pad2(a % 100) && Pad4(b)[2..] == Pad2(b % 100);
    }
  }

  /** Every stamp the tracker writes has the `YYYY-MM-DD` shape. */
  lemma FormatIsIso(d: Day)
    requires ValidDay(d)
    ensures IsoDate(FormatDate(d))
  {
    var s := FormatDate(d);
    var y, m, dd := Pad4(d.year), Pad2(d.month), Pad2(d.day);
    assert s == y + "-" + m + "-" + dd;
    assert y == [Digit(d.year / 100 / 10), Digit(d.year / 100 % 10), Digit(d.year % 100 / 10), Digit(d.year % 100 % 10)];
    forall i | 0 <= i < 10 && i != 4 && i != 7
      ensures IsDigit(s[i])
    {
      if i < 4 {
        assert s[i] == y[i];
      } else if i < 7 {
        assert s[i] == m[i - 5];
      } else {
        assert s[i] == dd[i - 8];
      }
    }
  }

  /**
   * Because every field is zero-padded to a fixed width, comparing two stamps
   * as strings is comparing the days chronologically.
   */
  lemma FormatOrder(d1: Day, d2: Day)
    requires ValidDay(d1) && ValidDay(d2)
    ensures LexLe(FormatDate(d1), FormatDate(d2)) <==> DayLe(d1, d2)
    ensures FormatDate(d1) == FormatDate(d2) <==> d1 == d2
  {
    var tail1, tail2 := Pad2(d1.month) + ("-" + Pad2(d1.day)), Pad2(d2.month) + ("-" + Pad2(d2.day));
    LeConcat(Pad4(d1.year), "-" + tail1, Pad4(d2.year), "-" + tail2);
    Pad4Order(d1.year, d2.year);
    LeConcat("-", tail1, "-", tail2);
    LeConcat(Pad2(d1.month), "-" + Pad2(d1.day), Pad2(d2.month), "-" + Pad2(d2.day));
    Pad2Order(d1.month, d2.month);
    LeConcat("-", Pad2(d1.day), "-", Pad2(d2.day));
    Pad2Order(d1.day, d2.day);
    if FormatDate(d1) == FormatDate(d2) {
      LeReflexive(FormatDate(d1));
      assert DayLe(d1, d2);
      assert DayLe(d2, d1) by {
        LeConcat(Pad4(d2.year), "-" + tail2, Pad4(d1.year), "-" + tail1);
        LeConcat("-", tail2, "-", tail1);
        LeConcat(Pad2(d2.month), "-" + Pad2(d2.day), Pad2(d1.month), "-" + Pad2(d1.day));
        LeConcat("-", Pad2(d2.day), "-", Pad2(d1.day));
        Pad4Order(d2.year, d1.year);
        Pad2Order(d2.month, d1.month);
        Pad2Order(d2.day, d1.day);
      }
    }
  }

  /** Reading a stamp back gives the day it was made from. */
  lemma FormatThenParse(d: Day)
    requires ValidDay(d)
    ensures IsCalendarDate(FormatDate(d))
    ensures ParseDay(FormatDate(d)) == d
  {
    FormatIsIso(d);
    var s := FormatDate(d);
    var y, m, dd := Pad4(d.year), Pad2(d.month), Pad2(d.day);
    assert s == y + "-" + m + "-" + dd;
    assert s[0] == Digit(d.year / 100 / 10) && s[1] == Digit(d.year / 100 % 10);
    assert s[2] == Digit(d.year % 100 / 10) && s[3] == Digit(d.year % 100 % 10);
    assert s[5] == Digit(d.month / 10) && s[6] == Digit(d.month % 10);
    assert s[8] == Digit(d.day / 10) && s[9] == Digit(d.day % 10);
  }

  /** A calendar date is the stamp of the day it names: stamps are exactly the calendar dates. */
  lemma ParseThenFormat(s: string)
    requires IsCalendarDate(s)
    ensures FormatDate(ParseDay(s)) == s
  {
    var d := ParseDay(s);
    var t := FormatDate(d);
    FormatIsIso(d);
    var v := seq(10, i requires 0 <= i < 10 => DigitValue(s[i]));
    assert forall i :: 0 <= i < 10 && i != 4 && i != 7 ==> 0 <= v[i] < 10 && s[i] == Digit(v[i]);
    assert d.year / 100 == 10 * v[0] + v[1] && d.year % 100 == 10 * v[2] + v[3];
    assert t == Pad4(d.year) + "-" + Pad2(d.month) + "-" + Pad2(d.day);
    assert t[0] == s[0] && t[1] == s[1] && t[2] == s[2] && t[3] == s[3];
    assert t[5] == s[5] && t[6] == s[6] && t[8] == s[8] && t[9] == s[9];
    assert t[4] == s[4] && t[7] == s[7];
  }

  /** The month key of a stamp is its zero-padded year and month. */
  lemma MonthKeyOfFormat(d: Day)
    requires ValidDay(d)
    ensures IsoDate(FormatDate(d))
    ensures MonthKey(FormatDate(d)) == Pad4(d.year) + "-" + Pad2(d.month)
  {
    FormatIsIso(d);
    var s := FormatDate(d);
    assert s == (Pad4(d.year) + "-" + Pad2(d.month)) + ("-" + Pad2(d.day));
  }

  /**
   * Two stamps share a month key exactly when they fall in the same calendar
   * month, whatever their days; and month keys order months chronologically.
   */
  lemma MonthKeyOrder(d1: Day, d2: Day)
    requires ValidDay(d1) && ValidDay(d2)
    ensures IsoDate(FormatDate(d1)) && IsoDate(FormatDate(d2))
    ensures MonthKey(FormatDate(d1)) == MonthKey(FormatDate(d2)) <==> d1.year == d2.year && d1.month == d2.month
    ensures LexLe(MonthKey(FormatDate(d1)), MonthKey(FormatDate(d2)))
            <==> d1.year < d2.year || (d1.year == d2.year && d1.month <= d2.month)
  {
    MonthKeyOfFormat(d1);
    MonthKeyOfFormat(d2);
    var k1, k2 := MonthKey(FormatDate(d1)), MonthKey(FormatDate(d2));
    LeConcat(Pad4(d1.year), "-" + Pad2(d1.month), Pad4(d2.year), "-" + Pad2(d2.month));
    Pad4Order(d1.year, d2.year);
    LeConcat("-", Pad2(d1.month), "-", Pad2(d2.month));
    Pad2Order(d1.month, d2.month);
    assert k1 == Pad4(d1.year) + ("-" + Pad2(d1.month));
    assert k2 == Pad4(d2.year) + ("-" + Pad2(d2.month));
    if k1 == k2 {
      assert k1[..4] == Pad4(d1.year) && k2[..4] == Pad4(d2.year);
      assert k1[5..] == Pad2(d1.month) && k2[5..] == Pad2(d2.month);
    }
  }
}
