/** Calendar dates as the pipeline uses them: `strftime` renderings, the
    `relativedelta` steps, and the order that zero-padded strings inherit. */
module Dates {
  import opened Strings

  datatype Date = Date(year: nat, month: nat, day: nat)

  predicate Leap(y: nat) {
    y % 4 == 0 && (y % 100 != 0 || y % 400 == 0)
  }

  function DaysIn(y: nat, m: nat): nat {
    if m == 2 then (if Leap(y) then 29 else 28)
    else if m == 4 || m == 6 || m == 9 || m == 11 then 30
    else 31
  }

  /** A real calendar day with a four-digit year, so that `%Y` is four digits. */
  predicate Valid(d: Date) {
    1 <= d.month <= 12 && 1 <= d.day <= DaysIn(d.year, d.month) && d.year < 10000
  }

  /** Chronological order of days. */
  predicate Before(a: Date, b: Date) {
    a.year < b.year
    || (a.year == b.year && (a.month < b.month || (a.month == b.month && a.day < b.day)))
  }

  function Min(a: nat, b: nat): nat {
    if a <= b then a else b
  }

  /** `d + relativedelta(months=1)`: the day is clamped to the target month. */
  function AddMonth(d: Date): (r: Date)
    requires Valid(d) && d.year < 9999
    ensures Valid(r)
    ensures Before(d, r) && r.day <= d.day
    ensures MonthIndex(r) == MonthIndex(d) + 1
  {
    if d.month == 12 then Date(d.year + 1, 1, Min(d.day, 31))
    else Date(d.year, d.month + 1, Min(d.day, DaysIn(d.year, d.month + 1)))
  }

  /** `d - relativedelta(years=n)`: 29 February becomes 28 February. */
  function MinusYears(d: Date, n: nat): (r: Date)
    requires d.year >= n
    ensures Valid(d) ==> Valid(r)
    ensures r.year == d.year - n && r.month == d.month
    ensures Before(r, d) || n == 0
  {
    Date(d.year - n, d.month, Min(d.day, DaysIn(d.year - n, d.month)))
  }

  /** `d.strftime("%Y/%m/%d")`. */
  function Text(d: Date): string {
    Pad(d.year, 4) + ("/" + (Pad(d.month, 2) + ("/" + Pad(d.day, 2))))
  }

  /** `d.strftime("%Y/%m/01")`: the first of the month, as every lab writes `month`. */
  function MonthLabel(d: Date): string {
    Text(Date(d.year, d.month, 1))
  }

  /** Zero-padded `YYYY/MM/DD` strings compare lexicographically exactly as
      the dates compare chronologically; `skip_old_data` relies on this. */
  lemma TextOrder(a: Date, b: Date)
    requires a.year < 10000 && a.month < 100 && a.day < 100
    requires b.year < 10000 && b.month < 100 && b.day < 100
    ensures Less(Text(a), Text(b)) <==> Before(a, b)
    ensures Text(a) == Text(b) <==> a == b
  {
    assert Pow10(2) == 100 && Pow10(4) == 10000;
    PadOrder(a.year, b.year, 4);
    PadOrder(a.month, b.month, 2);
    PadOrder(a.day, b.day, 2);
    var ta := "/" + (Pad(a.month, 2) + ("/" + Pad(a.day, 2)));
    var tb := "/" + (Pad(b.month, 2) + ("/" + Pad(b.day, 2)));
    LessConcat(Pad(a.year, 4), ta, Pad(b.year, 4), tb);
    LessConcat("/", Pad(a.month, 2) + ("/" + Pad(a.day, 2)), "/", Pad(b.month, 2) + ("/" + Pad(b.day, 2)));
    LessConcat(Pad(a.month, 2), "/" + Pad(a.day, 2), Pad(b.month, 2), "/" + Pad(b.day, 2));
    LessConcat("/", Pad(a.day, 2), "/", Pad(b.day, 2));
    if Text(a) == Text(b) {
      assert Text(a)[..4] == Pad(a.year, 4) && Text(b)[..4] == Pad(b.year, 4);
      assert Text(a)[5..7] == Pad(a.month, 2) && Text(b)[5..7] == Pad(b.month, 2);
      assert Text(a)[8..] == Pad(a.day, 2) && Text(b)[8..] == Pad(b.day, 2);
    }
  }

  /** Month number counted from year 0, so that consecutive months differ by one. */
  function MonthIndex(d: Date): int {
    d.year * 12 + d.month - 1
  }
  // ---------------------------------------------------------------------------
  // Day numbers

  /** Days from 1 January of year 0 to 1 January of year `y`. */
  function DaysBeforeYear(y: nat): nat {
    if y == 0 then 0 else DaysBeforeYear(y - 1) + (if Leap(y - 1) then 366 else 365)
  }

  /** Days in the months of year `y` before month `m`. */
  function DaysBeforeMonth(y: nat, m: nat): nat {
    if m <= 1 then 0 else DaysBeforeMonth(y, m - 1) + DaysIn(y, m - 1)
  }

  /** A day's ordinal; `(a - b).days` for two datetimes on days `a` and `b`
      (the later one at or after its midnight) is the difference. */
  function DayNumber(d: Date): int {
    DaysBeforeYear(d.year) + DaysBeforeMonth(d.year, d.month) + d.day
  }

  /** The twelve months fill the year. */
  lemma MonthsFillYear(y: nat)
    ensures DaysBeforeMonth(y, 13) == DaysBeforeYear(y + 1) - DaysBeforeYear(y)
  {
    var feb := if Leap(y) then 29 else 28;
    assert DaysBeforeMonth(y, 1) == 0;
    assert DaysBeforeMonth(y, 2) == 31;
    assert DaysBeforeMonth(y, 3) == 31 + feb;
    assert DaysBeforeMonth(y, 4) == 31 + feb + 31;
    assert DaysBeforeMonth(y, 5) == 31 + feb + 31 + 30;
    assert DaysBeforeMonth(y, 6) == 31 + feb + 31 + 30 + 31;
    assert DaysBeforeMonth(y, 7) == 31 + feb + 31 + 30 + 31 + 30;
    assert DaysBeforeMonth(y, 8) == 31 + feb + 31 + 30 + 31 + 30 + 31;
    assert DaysBeforeMonth(y, 9) == 31 + feb + 31 + 30 + 31 + 30 + 31 + 31;
    assert DaysBeforeMonth(y, 10) == 31 + feb + 31 + 30 + 31 + 30 + 31 + 31 + 30;
    assert DaysBeforeMonth(y, 11) == 31 + feb + 31 + 30 + 31 + 30 + 31 + 31 + 30 + 31;
    assert DaysBeforeMonth(y, 12) == 31 + feb + 31 + 30 + 31 + 30 + 31 + 31 + 30 + 31 + 30;
    assert DaysBeforeMonth(y, 13) == 31 + feb + 31 + 30 + 31 + 30 + 31 + 31 + 30 + 31 + 30 + 31;
  }

  lemma {:induction false} DaysBeforeMonthGrows(y: nat, m: nat, m': nat)
    requires 1 <= m <= m'
    ensures DaysBeforeMonth(y, m) + (if m < m' then DaysIn(y, m) else 0) <= DaysBeforeMonth(y, m')
    decreases m' - m
  {
    if m < m' {
      DaysBeforeMonthGrows(y, m + 1, m');
    }
  }

  lemma {:induction false} DaysBeforeYearGrows(y: nat, y': nat)
    requires y <= y'
    ensures DaysBeforeYear(y) + (if y < y' then 365 else 0) <= DaysBeforeYear(y')
    decreases y' - y
  {
    if y < y' {
      DaysBeforeYearGrows(y + 1, y');
    }
  }

  /** Day numbers order real days as the calendar does. */
  lemma DayNumberOrder(a: Date, b: Date)
    requires Valid(a) && Valid(b)
    ensures Before(a, b) <==> DayNumber(a) < DayNumber(b)
    ensures a == b <==> DayNumber(a) == DayNumber(b)
  {
    hide DaysBeforeYear, DaysBeforeMonth;
    if a.year < b.year {
      EarlierYearFirst(a, b);
    } else if b.year < a.year {
      EarlierYearFirst(b, a);
    } else if a.month < b.month {
      EarlierMonthFirst(a, b);
    } else if b.month < a.month {
      EarlierMonthFirst(b, a);
    }
  }

  /** A day of an earlier year has the smaller number. */
  lemma EarlierYearFirst(x: Date, z: Date)
    requires Valid(x) && Valid(z) && x.year < z.year
    ensures DayNumber(x) < DayNumber(z)
  {
    DaysBeforeMonthGrows(x.year, x.month, 13);
    MonthsFillYear(x.year);
    DaysBeforeYearGrows(x.year + 1, z.year);
  }

  /** A day of an earlier month of the same year has the smaller number. */
  lemma EarlierMonthFirst(x: Date, z: Date)
    requires Valid(x) && Valid(z) && x.year == z.year && x.month < z.month
    ensures DayNumber(x) < DayNumber(z)
  {
    DaysBeforeMonthGrows(x.year, x.month, z.month);
  }
}
