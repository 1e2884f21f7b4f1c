/** The calendar is the Gregorian one: day numbers against formulas that name neither
    leap years nor month lengths (todoers-client/src/model.rs:217-236,
    todoers/src/components/todo_form.rs:142-161). */
module Gregorian {
  import opened Helpers
  import opened Calendar

  lemma Multiples(year: int)
    ensures year / 4 - (year - 1) / 4 == if year % 4 == 0 then 1 else 0
    ensures year / 100 - (year - 1) / 100 == if year % 100 == 0 then 1 else 0
    ensures year / 400 - (year - 1) / 400 == if year % 400 == 0 then 1 else 0
    ensures year % 400 == 0 ==> year % 100 == 0
    ensures year % 100 == 0 ==> year % 4 == 0
  {
  }

  /** One day more in every fourth year, less in every hundredth, more again in every
      four hundredth, before the year 1 as after it. */
  lemma {:induction false} YearsInDays(year: int)
    ensures DaysBeforeYear(year) == 365 * (year - 1) + (year - 1) / 4 - (year - 1) / 100 + (year - 1) / 400
    decreases if year > 1 then year - 1 else 1 - year
  {
    if year > 1 {
      Multiples(year - 1);
      YearsInDays(year - 1);
    } else if year < 1 {
      Multiples(year);
      YearsInDays(year + 1);
    }
  }

  /** The first of a month. */
  function First(month: int, year: int): int {
    DayNumber(Date(year, month, 1))
  }

  lemma NextMonth(month: int, year: int)
    requires 1 <= month < 12
    ensures First(month + 1, year) - First(month, year) == Length(month, year)
  {
    assert DaysBeforeMonth(month + 1, year) == DaysBeforeMonth(month, year) + Length(month, year);
  }

  /** The months are as long as they should be, from one first to the next. */
  lemma MonthLengths(year: int)
    ensures First(2, year) - First(1, year) == 31
    ensures First(3, year) - First(2, year) == if year % 400 == 0 || (year % 4 == 0 && year % 100 != 0) then 29 else 28
    ensures First(4, year) - First(3, year) == 31 && First(5, year) - First(4, year) == 30
    ensures First(6, year) - First(5, year) == 31 && First(7, year) - First(6, year) == 30
    ensures First(8, year) - First(7, year) == 31 && First(9, year) - First(8, year) == 31
    ensures First(10, year) - First(9, year) == 30 && First(11, year) - First(10, year) == 31
    ensures First(12, year) - First(11, year) == 30 && First(1, year + 1) - First(12, year) == 31
  {
    forall m | 1 <= m < 12
      ensures First(m + 1, year) - First(m, year) == Length(m, year)
    {
      NextMonth(m, year);
    }
    Multiples(year);
    YearLength(year);
  }

  /** A date is proper exactly when it comes before the first of the next month. */
  lemma ProperIff(d: Date)
    ensures Proper(d) <==>
      && 1 <= d.month <= 12 && d.day >= 1
      && DayNumber(d) < if d.month < 12 then First(d.month + 1, d.year) else First(1, d.year + 1)
  {
    if 1 <= d.month < 12 {
      NextMonth(d.month, d.year);
    } else if d.month == 12 {
      YearLength(d.year);
    }
  }

  lemma {:induction false} SameMonths(month: int, year: int)
    ensures DaysBeforeMonth(month, year + 400) == DaysBeforeMonth(month, year)
    ensures Length(month, year + 400) == Length(month, year)
    decreases month
  {
    assert (year + 400) % 4 == year % 4 && (year + 400) % 100 == year % 100 && (year + 400) % 400 == year % 400;
    if month > 1 {
      SameMonths(month - 1, year);
    }
  }

  lemma YearsAfter(year: int)
    ensures DaysBeforeYear(year + 400) == DaysBeforeYear(year) + 146097
  {
    YearsInDays(year);
    YearsInDays(year + 400);
    var y := year - 1;
    assert (y + 400) / 4 == y / 4 + 100 && (y + 400) / 100 == y / 100 + 4 && (y + 400) / 400 == y / 400 + 1;
  }

  lemma WholeWeeks(n: int)
    ensures Weekday(n + 146097) == Weekday(n)
  {
    assert n + 146097 - 1 == (n - 1) + 7 * 20871;
  }

  /** Four centuries are 146097 days, whole weeks, from every date on. */
  lemma FourCenturies(d: Date)
    requires Proper(d)
    ensures Proper(d.(year := d.year + 400)) && DayNumber(d.(year := d.year + 400)) == DayNumber(d) + 146097
    ensures FromMonday(d.(year := d.year + 400)) == FromMonday(d)
  {
    SameMonths(d.month, d.year);
    YearsAfter(d.year);
    WholeWeeks(DayNumber(d));
  }

  lemma YearOf2026()
    ensures DaysBeforeYear(2026) == 739616
  {
    YearsInDays(2026);
  }

  lemma JuneOf2026(day: int)
    ensures DayNumber(Date(2026, 6, day)) == 739767 + day
  {
    YearOf2026();
    MonthLengths(2026);
    assert First(6, 2026) - First(1, 2026) == 151;
  }

  lemma AddsUpTo(d: Date, n: nat, r: Date)
    requires Valid(d) && Valid(r) && DayNumber(r) == DayNumber(d) + n
    ensures AddDays(d, n) == r
  {
    assert DayNumber(r) <= DayNumber(LAST) by { Ends(r); }
    AddWithin(d, n);
    OrderOfDays(AddDays(d, n), r);
  }

  /** Wednesday, 17 June 2026: the week ends on Sunday the 21st, the month on the
      30th, at 23:59:59. */
  lemma JuneTheSeventeenth(nanos: int)
    requires 0 <= nanos < NANOS_PER_DAY
    ensures var now := Instant(Date(2026, 6, 17), nanos);
            && FromMonday(now.date) == 2
            && DueBefore(DueThisWeek, now) == Some(Instant(Date(2026, 6, 21), 86_399_000_000_000))
            && DueBefore(DueThisMonth, now) == Some(Instant(Date(2026, 6, 30), 86_399_000_000_000))
            && DueBefore(DueToday, now) == Some(Instant(Date(2026, 6, 17), 86_399_000_000_000))
  {
    JuneOf2026(17);
    JuneOf2026(21);
    AddsUpTo(Date(2026, 6, 17), 4, Date(2026, 6, 21));
  }
}
