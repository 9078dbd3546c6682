/** The proleptic Gregorian calendar: dates, their order, and counting days. */
module Calendar {
  import opened Arithmetic

  datatype Date = Date(year: nat, month: nat, day: nat) {
    predicate Valid() {
      1 <= month <= 12 && 1 <= day <= DaysIn(year, month)
    }
  }

  predicate Leap(y: nat) {
    y % 4 == 0 && (y % 100 != 0 || y % 400 == 0)
  }

  function DaysIn(y: nat, m: nat): (n: nat)
    ensures 28 <= n <= 31
  {
    if m == 2 then (if Leap(y) then 29 else 28)
    else if m == 4 || m == 6 || m == 9 || m == 11 then 30
    else 31
  }

  /** Earlier in the calendar. */
  predicate Before(a: Date, b: Date) {
    a.year < b.year || (a.year == b.year && (a.month < b.month || (a.month == b.month && a.day < b.day)))
  }

  function NextDay(d: Date): (r: Date)
    requires d.Valid()
    ensures r.Valid()
  {
    if d.day < DaysIn(d.year, d.month) then d.(day := d.day + 1)
    else if d.month < 12 then Date(d.year, d.month + 1, 1)
    else Date(d.year + 1, 1, 1)
  }

  function AddDays(d: Date, n: nat): (r: Date)
    requires d.Valid()
    ensures r.Valid()
  {
    if n == 0 then d else NextDay(AddDays(d, n - 1))
  }

  // ---------------------------------------------------------------------- day numbers

  function YearLength(y: nat): nat { if Leap(y) then 366 else 365 }

  function YearStart(y: nat): nat {
    if y == 0 then 0 else YearStart(y - 1) + YearLength(y - 1)
  }

  /** Days of the year before month m. */
  function MonthStart(y: nat, m: nat): nat
    requires 1 <= m <= 13
  {
    if m == 1 then 0 else MonthStart(y, m - 1) + DaysIn(y, m - 1)
  }

  /** Days since 1 January of year 0. */
  function DayNumber(d: Date): nat
    requires d.Valid()
  {
    YearStart(d.year) + MonthStart(d.year, d.month) + d.day - 1
  }

  lemma YearIsTwelveMonths(y: nat)
    ensures MonthStart(y, 13) == YearLength(y)
  {
    assert MonthStart(y, 2) == 31;
    assert MonthStart(y, 3) == 31 + DaysIn(y, 2);
    assert MonthStart(y, 4) == 62 + DaysIn(y, 2);
    assert MonthStart(y, 5) == 92 + DaysIn(y, 2);
    assert MonthStart(y, 6) == 123 + DaysIn(y, 2);
    assert MonthStart(y, 7) == 153 + DaysIn(y, 2);
    assert MonthStart(y, 8) == 184 + DaysIn(y, 2);
    assert MonthStart(y, 9) == 215 + DaysIn(y, 2);
    assert MonthStart(y, 10) == 245 + DaysIn(y, 2);
    assert MonthStart(y, 11) == 276 + DaysIn(y, 2);
    assert MonthStart(y, 12) == 306 + DaysIn(y, 2);
  }

  lemma {:induction false} MonthsGrow(y: nat, m: nat, n: nat)
    requires 1 <= m <= n <= 13
    ensures MonthStart(y, m) <= MonthStart(y, n)
    ensures m < n ==> MonthStart(y, m) + DaysIn(y, m) <= MonthStart(y, n)
    decreases n
  {
    if m < n { MonthsGrow(y, m, n - 1); }
  }

  lemma {:induction false} YearsGrow(y: nat, z: nat)
    requires y <= z
    ensures YearStart(y) <= YearStart(z)
    ensures y < z ==> YearStart(y) + YearLength(y) <= YearStart(z)
    decreases z
  {
    if y < z { YearsGrow(y, z - 1); }
  }

  lemma NextDayNumber(d: Date)
    requires d.Valid()
    ensures DayNumber(NextDay(d)) == DayNumber(d) + 1
  {
    if d.month == 12 && d.day == 31 { YearIsTwelveMonths(d.year); }
  }

  lemma {:induction false} AddDaysNumber(d: Date, n: nat)
    requires d.Valid()
    ensures DayNumber(AddDays(d, n)) == DayNumber(d) + n
  {
    hide DayNumber, NextDay;
    if n > 0 {
      AddDaysNumber(d, n - 1);
      NextDayNumber(AddDays(d, n - 1));
    }
  }

  lemma {:induction false} BeforeGrows(a: Date, b: Date)
    requires a.Valid() && b.Valid() && Before(a, b)
    ensures DayNumber(a) < DayNumber(b)
  {
    if a.year < b.year {
      YearsGrow(a.year, b.year);
      MonthsGrow(a.year, a.month, 13);
      YearIsTwelveMonths(a.year);
    } else if a.month < b.month {
      MonthsGrow(a.year, a.month, b.month);
    }
  }

  /** Calendar order is the order of day numbers, and day numbers name dates. */
  lemma BeforeIsLess(a: Date, b: Date)
    requires a.Valid() && b.Valid()
    ensures Before(a, b) <==> DayNumber(a) < DayNumber(b)
    ensures a == b <==> DayNumber(a) == DayNumber(b)
  {
    if Before(a, b) {
      BeforeGrows(a, b);
    } else if Before(b, a) {
      BeforeGrows(b, a);
    }
  }

  /** Counting on from a date reaches every later date. */
  lemma ReachedByDays(a: Date, b: Date)
    requires a.Valid() && b.Valid() && DayNumber(a) <= DayNumber(b)
    ensures b == AddDays(a, DayNumber(b) - DayNumber(a))
  {
    hide DayNumber, AddDays;
    AddDaysNumber(a, DayNumber(b) - DayNumber(a));
    BeforeIsLess(b, AddDays(a, DayNumber(b) - DayNumber(a)));
  }

  /** Days from Monday, which is 0. */
  function Weekday(d: Date): (w: nat)
    requires d.Valid()
    ensures w < 7
  {
    (DayNumber(d) + 5) % 7
  }

  lemma {:induction false} YearStartClosed(y: nat)
    ensures YearStart(y) == 365 * y + (y + 3) / 4 - (y + 99) / 100 + (y + 399) / 400
  {
    if y > 0 {
      YearStartClosed(y - 1);
      RoundedUp(y - 1);
    }
  }

  /** Counts of multiples, rounded up, grow exactly behind a multiple. */
  lemma RoundedUp(y: nat)
    ensures (y + 4) / 4 == (y + 3) / 4 + (if y % 4 == 0 then 1 else 0)
    ensures (y + 100) / 100 == (y + 99) / 100 + (if y % 100 == 0 then 1 else 0)
    ensures (y + 400) / 400 == (y + 399) / 400 + (if y % 400 == 0 then 1 else 0)
    ensures (y % 400 == 0 ==> y % 100 == 0) && (y % 100 == 0 ==> y % 4 == 0)
  {
    By4(y);
    By100(y);
    By400(y);
  }

  lemma By4(y: nat)
    ensures (y + 4) / 4 == (y + 3) / 4 + (if y % 4 == 0 then 1 else 0)
  {
  }

  lemma By100(y: nat)
    ensures (y + 100) / 100 == (y + 99) / 100 + (if y % 100 == 0 then 1 else 0)
    ensures y % 100 == 0 ==> y % 4 == 0
  {
    var q, r := y / 100, y % 100;
    DivModUnique(y + 100, 100, q + 1, r);
    DivModUnique(y + 99, 100, if r == 0 then q else q + 1, if r == 0 then 99 else r - 1);
    if r == 0 { DivModUnique(y, 4, 25 * q, 0); }
  }

  lemma By400(y: nat)
    ensures (y + 400) / 400 == (y + 399) / 400 + (if y % 400 == 0 then 1 else 0)
    ensures y % 400 == 0 ==> y % 100 == 0
  {
    var q, r := y / 400, y % 400;
    DivModUnique(y + 400, 400, q + 1, r);
    DivModUnique(y + 399, 400, if r == 0 then q else q + 1, if r == 0 then 399 else r - 1);
    if r == 0 { DivModUnique(y, 100, 4 * q, 0); }
  }

  /** The count of weekdays is anchored right: 1 January 1970 was a Thursday. */
  lemma EpochIsThursday(epoch: Date)
    requires epoch == Date(1970, 1, 1)
    ensures Weekday(epoch) == 3
  {
    hide YearStart;
    YearStartClosed(epoch.year);
    assert DayNumber(epoch) == YearStart(epoch.year);
  }
}
