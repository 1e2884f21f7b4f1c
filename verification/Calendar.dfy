/** Due dates: the calendar cursor of the edit form and the bounds of the aggregate
    views (todoers/src/components/todo_form.rs:142-161,
    todoers-client/src/model.rs:213-246). */
module Calendar {
  import opened Helpers

  datatype Date = Date(year: int, month: int, day: int)

  /** The library's range of years. */
  const MIN_YEAR := -9999
  const MAX_YEAR := 9999

  predicate Leap(year: int) {
    year % 4 == 0 && (year % 100 != 0 || year % 400 == 0)
  }

  function Length(month: int, year: int): int {
    if month == 2 then (if Leap(year) then 29 else 28)
    else if month in {4, 6, 9, 11} then 30
    else 31
  }

  predicate Proper(d: Date) {
    1 <= d.month <= 12 && 1 <= d.day <= Length(d.month, d.year)
  }

  predicate Valid(d: Date) {
    Proper(d) && MIN_YEAR <= d.year <= MAX_YEAR
  }

  // ── months ────────────────────────────────────────────────────────────────

  function MonthIndex(d: Date): int {
    d.year * 12 + d.month - 1
  }

  function Min(a: int, b: int): int {
    if a <= b then a else b
  }

  function Max(a: int, b: int): int {
    if a >= b then a else b
  }

  /** `shift_month`; a target year out of range leaves the date alone. */
  function ShiftMonth(d: Date, delta: int): Date {
    var total := d.year * 12 + (d.month - 1) + delta;
    var year, month := total / 12, total % 12 + 1;
    var shifted := Date(year, month, Min(d.day, Length(month, year)));
    if MIN_YEAR <= year <= MAX_YEAR then shifted else d
  }

  predicate Reachable(d: Date, delta: int) {
    MIN_YEAR * 12 <= MonthIndex(d) + delta < (MAX_YEAR + 1) * 12
  }

  /** A shift gives a valid date; it moves the month index by exactly `delta` if the
      target is in range and changes nothing otherwise, and it never gains days. */
  lemma ShiftMoves(d: Date, delta: int)
    requires Valid(d)
    ensures var r := ShiftMonth(d, delta);
            && Valid(r) && r.day <= d.day
            && (Reachable(d, delta) ==> MonthIndex(r) == MonthIndex(d) + delta)
            && (!Reachable(d, delta) ==> r == d)
            && (Reachable(d, delta) && d.day <= Length(r.month, r.year) ==> r.day == d.day)
  {
  }

  lemma SameMonth(a: Date, b: Date)
    requires 1 <= a.month <= 12 && 1 <= b.month <= 12 && MonthIndex(a) == MonthIndex(b)
    ensures a.year == b.year && a.month == b.month
  {
  }

  /** Two shifts in a row never end on a later day than one, and are the same as one
      exactly when the month in between is long enough. */
  lemma ShiftsComposeIff(d: Date, a: int, b: int)
    requires Valid(d) && Reachable(d, a) && Reachable(d, a + b)
    ensures var mid, once := ShiftMonth(d, a), ShiftMonth(d, a + b);
            && var twice := ShiftMonth(mid, b);
            && twice.year == once.year && twice.month == once.month && twice.day <= once.day
            && (twice == once <==> once.day <= Length(mid.month, mid.year))
  {
    var mid, once := ShiftMonth(d, a), ShiftMonth(d, a + b);
    ShiftMoves(d, a);
    ShiftMoves(d, a + b);
    ShiftMoves(mid, b);
    SameMonth(ShiftMonth(mid, b), once);
  }

  /** In particular for every day up to the 28th. */
  lemma EarlyDaysCompose(d: Date, a: int, b: int)
    requires Valid(d) && Reachable(d, a) && Reachable(d, a + b) && d.day <= 28
    ensures ShiftMonth(ShiftMonth(d, a), b) == ShiftMonth(d, a + b)
  {
    ShiftsComposeIff(d, a, b);
    ShiftMoves(d, a + b);
  }

  // ── days ──────────────────────────────────────────────────────────────────

  function YearDays(year: int): int {
    if Leap(year) then 366 else 365
  }

  /** Counted from the year 1, backwards before it. */
  function DaysBeforeYear(year: int): int
    decreases if year > 1 then year - 1 else 1 - year
  {
    if year == 1 then 0
    else if year > 1 then DaysBeforeYear(year - 1) + YearDays(year - 1)
    else DaysBeforeYear(year + 1) - YearDays(year)
  }

  function DaysBeforeMonth(month: int, year: int): int
    decreases month
  {
    if month <= 1 then 0 else DaysBeforeMonth(month - 1, year) + Length(month - 1, year)
  }

  /** Days are numbered so that 1 is Monday, 1 January of the year 1. */
  function DayNumber(d: Date): int {
    DaysBeforeYear(d.year) + DaysBeforeMonth(d.month, d.year) + d.day
  }

  function Tomorrow(d: Date): Date {
    if d.day < Length(d.month, d.year) then d.(day := d.day + 1)
    else if d.month < 12 then Date(d.year, d.month + 1, 1)
    else Date(d.year + 1, 1, 1)
  }

  function Yesterday(d: Date): Date {
    if d.day > 1 then d.(day := d.day - 1)
    else if d.month > 1 then Date(d.year, d.month - 1, Length(d.month - 1, d.year))
    else Date(d.year - 1, 12, 31)
  }

  lemma YearLength(year: int)
    ensures DaysBeforeMonth(12, year) + 31 == YearDays(year)
    ensures DaysBeforeYear(year + 1) == DaysBeforeYear(year) + YearDays(year)
  {
    assert DaysBeforeMonth(3, year) == 31 + Length(2, year);
    assert DaysBeforeMonth(5, year) == DaysBeforeMonth(3, year) + 61;
    assert DaysBeforeMonth(7, year) == DaysBeforeMonth(5, year) + 61;
    assert DaysBeforeMonth(9, year) == DaysBeforeMonth(7, year) + 62;
    assert DaysBeforeMonth(11, year) == DaysBeforeMonth(9, year) + 61;
  }

  /** The calendar and the day numbers agree. */
  lemma TomorrowIsOneMore(d: Date)
    requires Proper(d)
    ensures Proper(Tomorrow(d)) && DayNumber(Tomorrow(d)) == DayNumber(d) + 1
    ensures Yesterday(Tomorrow(d)) == d
  {
    if d.day < Length(d.month, d.year) {
    } else if d.month < 12 {
      assert DaysBeforeMonth(d.month + 1, d.year) == DaysBeforeMonth(d.month, d.year) + Length(d.month, d.year);
    } else {
      YearLength(d.year);
    }
  }

  lemma YesterdayIsOneLess(d: Date)
    requires Proper(d)
    ensures Proper(Yesterday(d)) && DayNumber(Yesterday(d)) == DayNumber(d) - 1
    ensures Tomorrow(Yesterday(d)) == d
  {
    if d.day > 1 {
    } else if d.month > 1 {
      assert DaysBeforeMonth(d.month, d.year) == DaysBeforeMonth(d.month - 1, d.year) + Length(d.month - 1, d.year);
    } else {
      YearLength(d.year - 1);
    }
  }

  // ── the order of days ─────────────────────────────────────────────────────

  predicate Earlier(a: Date, b: Date) {
    a.year < b.year || (a.year == b.year && (a.month < b.month || (a.month == b.month && a.day < b.day)))
  }

  lemma {:induction false} YearsGrow(a: int, b: int)
    requires a <= b
    ensures DaysBeforeYear(a) <= DaysBeforeYear(b)
    decreases b - a
  {
    if a < b {
      YearsGrow(a, b - 1);
      YearLength(b - 1);
    }
  }

  lemma {:induction false} MonthsGrow(a: int, b: int, year: int)
    requires 1 <= a < b
    ensures DaysBeforeMonth(a, year) + Length(a, year) <= DaysBeforeMonth(b, year)
    decreases b - a
  {
    if a + 1 < b {
      MonthsGrow(a, b - 1, year);
    }
  }

  lemma WithinYear(d: Date)
    requires Proper(d)
    ensures DaysBeforeYear(d.year) < DayNumber(d) <= DaysBeforeYear(d.year + 1)
  {
    MonthsFromStart(d.month, d.year);
    if d.month < 12 {
      MonthsGrow(d.month, 12, d.year);
    }
    YearLength(d.year);
  }

  lemma {:induction false} MonthsFromStart(month: int, year: int)
    ensures DaysBeforeMonth(month, year) >= 0
    decreases month
  {
    if month > 1 {
      MonthsFromStart(month - 1, year);
    }
  }

  lemma EarlierIsLess(a: Date, b: Date)
    requires Proper(a) && Proper(b) && Earlier(a, b)
    ensures DayNumber(a) < DayNumber(b)
  {
    if a.year < b.year {
      WithinYear(a);
      WithinYear(b);
      YearsGrow(a.year + 1, b.year);
    } else if a.month < b.month {
      MonthsGrow(a.month, b.month, a.year);
    }
  }

  /** Day numbers put the dates in calendar order, each its own. */
  lemma OrderOfDays(a: Date, b: Date)
    requires Proper(a) && Proper(b)
    ensures DayNumber(a) < DayNumber(b) <==> Earlier(a, b)
    ensures DayNumber(a) == DayNumber(b) <==> a == b
  {
    if Earlier(a, b) {
      EarlierIsLess(a, b);
    } else if Earlier(b, a) {
      EarlierIsLess(b, a);
    }
  }

  // ── moving the cursor ─────────────────────────────────────────────────────

  const FIRST: Date := Date(MIN_YEAR, 1, 1)
  const LAST: Date := Date(MAX_YEAR, 12, 31)

  /** `saturating_add` of whole days. */
  function AddDays(d: Date, n: int): Date
    decreases if n < 0 then -n else n
  {
    if n == 0 then d
    else if n > 0 then (if d == LAST then LAST else AddDays(Tomorrow(d), n - 1))
    else (if d == FIRST then FIRST else AddDays(Yesterday(d), n + 1))
  }

  lemma Ends(d: Date)
    requires Valid(d)
    ensures Valid(FIRST) && Valid(LAST) && DayNumber(FIRST) <= DayNumber(d) <= DayNumber(LAST)
    ensures d != LAST ==> Valid(Tomorrow(d))
    ensures d != FIRST ==> Valid(Yesterday(d))
  {
    TomorrowIsOneMore(d);
    YesterdayIsOneLess(d);
    OrderOfDays(FIRST, d);
    OrderOfDays(d, LAST);
  }

  /** A numbering that goes up by one from each day to the next. */
  ghost predicate Counts(number: Date -> int) {
    && Valid(FIRST) && Valid(LAST)
    && forall d | Valid(d) ::
         && number(FIRST) <= number(d) <= number(LAST)
         && (d != LAST ==> Valid(Tomorrow(d)) && number(Tomorrow(d)) == number(d) + 1)
         && (d != FIRST ==> Valid(Yesterday(d)) && number(Yesterday(d)) == number(d) - 1)
  }

  lemma DayNumberCounts()
    ensures Counts(DayNumber)
  {
    forall d | Valid(d)
      ensures DayNumber(FIRST) <= DayNumber(d) <= DayNumber(LAST)
      ensures d != LAST ==> Valid(Tomorrow(d)) && DayNumber(Tomorrow(d)) == DayNumber(d) + 1
      ensures d != FIRST ==> Valid(Yesterday(d)) && DayNumber(Yesterday(d)) == DayNumber(d) - 1
    {
      Ends(d);
      TomorrowIsOneMore(d);
      YesterdayIsOneLess(d);
    }
    assert Valid(FIRST) && Valid(LAST);
  }

  lemma {:induction false} AddDaysBy(number: Date -> int, d: Date, n: int)
    requires Counts(number) && Valid(d)
    ensures Valid(AddDays(d, n))
    ensures number(AddDays(d, n)) == Clamp(number(d) + n, number(FIRST), number(LAST))
    decreases if n < 0 then -n else n
  {
    if n > 0 && d != LAST {
      AddDaysBy(number, Tomorrow(d), n - 1);
    } else if n < 0 && d != FIRST {
      AddDaysBy(number, Yesterday(d), n + 1);
    }
  }

  /** Adding days counts days, and stops at the ends of the calendar. */
  lemma AddDaysCounts(d: Date, n: int)
    requires Valid(d)
    ensures Valid(AddDays(d, n))
    ensures DayNumber(AddDays(d, n)) == Clamp(DayNumber(d) + n, DayNumber(FIRST), DayNumber(LAST))
  {
    DayNumberCounts();
    AddDaysBy(DayNumber, d, n);
  }

  datatype CursorMove = PrevDay | NextDay | PrevWeek | NextWeek | PrevMonth | NextMonth

  function Moved(d: Date, mv: CursorMove): Date {
    match mv
    case PrevDay => AddDays(d, -1)
    case NextDay => AddDays(d, 1)
    case PrevWeek => AddDays(d, -7)
    case NextWeek => AddDays(d, 7)
    case PrevMonth => ShiftMonth(d, -1)
    case NextMonth => ShiftMonth(d, 1)
  }

  /** The due-date part of the form. */
  class TodoForm {
    var dueCursor: Date

    ghost predicate Shown()
      reads this
    {
      Valid(dueCursor)
    }

    constructor (today: Date)
      requires Valid(today)
      ensures Shown() && dueCursor == today
    {
      dueCursor := today;
    }

    /** The cursor is always on a valid date. */
    method MoveCursor(mv: CursorMove)
      requires Shown()
      modifies this
      ensures Shown() && dueCursor == Moved(old(dueCursor), mv)
    {
      MoveIsValid(dueCursor, mv);
      match mv {
        case PrevDay => dueCursor := AddDays(dueCursor, -1);
        case NextDay => dueCursor := AddDays(dueCursor, 1);
        case PrevWeek => dueCursor := AddDays(dueCursor, -7);
        case NextWeek => dueCursor := AddDays(dueCursor, 7);
        case PrevMonth => dueCursor := ShiftMonth(dueCursor, -1);
        case NextMonth => dueCursor := ShiftMonth(dueCursor, 1);
      }
    }
  }

  lemma MoveIsValid(d: Date, mv: CursorMove)
    requires Valid(d)
    ensures Valid(Moved(d, mv))
  {
    match mv
    case PrevDay => AddDaysCounts(d, -1);
    case NextDay => AddDaysCounts(d, 1);
    case PrevWeek => AddDaysCounts(d, -7);
    case NextWeek => AddDaysCounts(d, 7);
    case PrevMonth => ShiftMoves(d, -1);
    case NextMonth => ShiftMoves(d, 1);
  }

  /** Each key, in days and in months: one day or seven either way, stopping at the
      ends of the calendar, or one month either way, on the same day or the month's
      last if that comes first. */
  lemma KeysMoveBy(d: Date, mv: CursorMove)
    requires Valid(d)
    ensures var r := Moved(d, mv);
            match mv
            case PrevDay => DayNumber(r) == if d == Date(-9999, 1, 1) then DayNumber(d) else DayNumber(d) - 1
            case NextDay => DayNumber(r) == if d == Date(9999, 12, 31) then DayNumber(d) else DayNumber(d) + 1
            case PrevWeek => DayNumber(r) == Max(DayNumber(d) - 7, DayNumber(Date(-9999, 1, 1)))
            case NextWeek => DayNumber(r) == Min(DayNumber(d) + 7, DayNumber(Date(9999, 12, 31)))
            case PrevMonth =>
              if d.year == -9999 && d.month == 1 then r == d
              else MonthIndex(r) == MonthIndex(d) - 1 && r.day == Min(d.day, Length(r.month, r.year))
            case NextMonth =>
              if d.year == 9999 && d.month == 12 then r == d
              else MonthIndex(r) == MonthIndex(d) + 1 && r.day == Min(d.day, Length(r.month, r.year))
  {
    match mv
    case PrevDay => ClampedDays(d, -1);
    case NextDay => ClampedDays(d, 1);
    case PrevWeek => ClampedDays(d, -7);
    case NextWeek => ClampedDays(d, 7);
    case PrevMonth => ShiftMoves(d, -1);
    case NextMonth => ShiftMoves(d, 1);
  }

  lemma ClampedDays(d: Date, n: int)
    requires Valid(d)
    ensures DayNumber(AddDays(d, n))
         == if n < 0 then Max(DayNumber(d) + n, DayNumber(FIRST)) else Min(DayNumber(d) + n, DayNumber(LAST))
    ensures DayNumber(FIRST) <= DayNumber(d) <= DayNumber(LAST)
    ensures DayNumber(d) == DayNumber(FIRST) <==> d == FIRST
    ensures DayNumber(d) == DayNumber(LAST) <==> d == LAST
  {
    Ends(d);
    AddDaysCounts(d, n);
    OrderOfDays(FIRST, d);
    OrderOfDays(d, LAST);
  }

  function Undo(mv: CursorMove): CursorMove {
    match mv
    case PrevDay => NextDay
    case NextDay => PrevDay
    case PrevWeek => NextWeek
    case NextWeek => PrevWeek
    case PrevMonth => NextMonth
    case NextMonth => PrevMonth
  }

  function DaysOf(mv: CursorMove): int {
    match mv
    case PrevDay => -1
    case NextDay => 1
    case PrevWeek => -7
    case NextWeek => 7
    case _ => 0
  }

  lemma ClampBack(x: int, n: int, lo: int, hi: int)
    requires lo <= x <= hi && n <= hi - lo && -n <= hi - lo
    ensures Clamp(Clamp(x + n, lo, hi) - n, lo, hi) == x <==> lo <= x + n <= hi
  {
  }

  /** The calendar is longer than a week. */
  lemma LongCalendar()
    ensures DayNumber(FIRST) + 7 <= DayNumber(LAST)
  {
    var next := Date(MIN_YEAR, 2, 1);
    assert DaysBeforeMonth(2, MIN_YEAR) == DaysBeforeMonth(1, MIN_YEAR) + 31;
    OrderOfDays(next, LAST);
  }

  lemma BackBy(number: Date -> int, d: Date, n: int)
    requires Counts(number) && Valid(d)
    ensures var back, lo, hi := AddDays(AddDays(d, n), -n), number(FIRST), number(LAST);
            Valid(back) && number(back) == Clamp(Clamp(number(d) + n, lo, hi) - n, lo, hi)
  {
    AddDaysBy(number, d, n);
    AddDaysBy(number, AddDays(d, n), -n);
  }

  lemma Back(number: Date -> int, d: Date, n: int, back: Date)
    requires Counts(number) && Valid(d) && Valid(back) && -7 <= n <= 7 && number(FIRST) + 7 <= number(LAST)
    requires number(back) == Clamp(Clamp(number(d) + n, number(FIRST), number(LAST)) - n, number(FIRST), number(LAST))
    requires number(back) == number(d) ==> back == d
    ensures back == d <==> number(FIRST) <= number(d) + n <= number(LAST)
  {
    ClampBack(number(d), n, number(FIRST), number(LAST));
  }

  lemma DaysUndoneIff(d: Date, n: int)
    requires Valid(d) && -7 <= n <= 7
    ensures AddDays(AddDays(d, n), -n) == d <==> DayNumber(FIRST) <= DayNumber(d) + n <= DayNumber(LAST)
  {
    DayNumberCounts();
    BackBy(DayNumber, d, n);
    var back := AddDays(AddDays(d, n), -n);
    assert DayNumber(back) == DayNumber(d) ==> back == d by { OrderOfDays(back, d); }
    assert DayNumber(FIRST) + 7 <= DayNumber(LAST) by { LongCalendar(); }
    Back(DayNumber, d, n, back);
  }

  /** The opposite key brings the cursor back exactly when the first move was not
      cut short: by an end of the calendar, or by a month with too few days. */
  lemma UndoneIff(d: Date, mv: CursorMove)
    requires Valid(d)
    ensures Moved(Moved(d, mv), Undo(mv)) == d <==>
      match mv
      case PrevMonth => Reachable(d, -1) && ShiftMonth(d, -1).day == d.day
      case NextMonth => Reachable(d, 1) && ShiftMonth(d, 1).day == d.day
      case _ => DayNumber(FIRST) <= DayNumber(d) + DaysOf(mv) <= DayNumber(LAST)
  {
    match mv
    case PrevMonth => MonthUndoneIff(d, -1);
    case NextMonth => MonthUndoneIff(d, 1);
    case _ => DaysUndoneIff(d, DaysOf(mv));
  }

  lemma MonthUndoneIff(d: Date, delta: int)
    requires Valid(d) && delta in {-1, 1}
    ensures ShiftMonth(ShiftMonth(d, delta), -delta) == d <==> Reachable(d, delta) && ShiftMonth(d, delta).day == d.day
  {
    var there := ShiftMonth(d, delta);
    ShiftMoves(d, delta);
    ShiftMoves(there, -delta);
    if Reachable(d, delta) {
      SameMonth(ShiftMonth(there, -delta), d);
    }
  }

  // ── what is due ───────────────────────────────────────────────────────────

  const NANOS_PER_DAY := 86_400_000_000_000
  const END_OF_DAY := 86_399_000_000_000

  /** A moment of a day, in nanoseconds since its midnight. */
  datatype Instant = Instant(date: Date, nanos: int)

  predicate Moment(i: Instant) {
    Valid(i.date) && 0 <= i.nanos < NANOS_PER_DAY
  }

  predicate NotAfter(a: Instant, b: Instant) {
    DayNumber(a.date) < DayNumber(b.date) || (DayNumber(a.date) == DayNumber(b.date) && a.nanos <= b.nanos)
  }

  datatype MetaList = AllTasks | DueToday | DueThisWeek | DueThisMonth

  function Weekday(n: int): int {
    (n - 1) % 7
  }

  /** Days since the last Monday. */
  function FromMonday(d: Date): int {
    Weekday(DayNumber(d))
  }

  /** The end of today, of the week or of the month: always 23:59:59. */
  function DueBefore(view: MetaList, now: Instant): Option<Instant> {
    match view
    case AllTasks => None
    case DueToday => Some(Instant(now.date, END_OF_DAY))
    case DueThisWeek => Some(Instant(AddDays(now.date, 6 - FromMonday(now.date)), END_OF_DAY))
    case DueThisMonth => Some(Instant(now.date.(day := Length(now.date.month, now.date.year)), END_OF_DAY))
  }

  predicate Contains(view: MetaList, due: Option<Instant>, now: Instant) {
    match DueBefore(view, now)
    case None => true
    case Some(bound) => due.Some? && NotAfter(due.value, bound)
  }

  /** The week does not run off the calendar's end, where the addition panics. */
  predicate WeekInRange(now: Instant) {
    DayNumber(now.date) + 6 - FromMonday(now.date) <= DayNumber(LAST)
  }

  /** The coming Sunday, in day numbers. */
  lemma ComingSunday(n: int, other: int)
    ensures var sunday := n + 6 - Weekday(n);
            && Weekday(sunday) == 6 && n <= sunday <= n + 6
            && (n <= other && Weekday(other) == 6 ==> sunday <= other)
  {
  }

  lemma SundayNumber(d: Date)
    requires Valid(d) && DayNumber(d) + 6 - FromMonday(d) <= DayNumber(LAST)
    ensures Valid(AddDays(d, 6 - FromMonday(d)))
    ensures DayNumber(AddDays(d, 6 - FromMonday(d))) == DayNumber(d) + 6 - FromMonday(d)
  {
    AddWithin(d, 6 - FromMonday(d));
  }

  lemma AddWithin(d: Date, n: nat)
    requires Valid(d) && DayNumber(d) + n <= DayNumber(LAST)
    ensures Valid(AddDays(d, n)) && DayNumber(AddDays(d, n)) == DayNumber(d) + n
  {
    Ends(d);
    AddDaysCounts(d, n);
  }

  lemma SundayAfter(d: Date, sunday: Date, other: int)
    requires DayNumber(sunday) == DayNumber(d) + 6 - FromMonday(d)
    ensures FromMonday(sunday) == 6 && 0 <= DayNumber(sunday) - DayNumber(d) <= 6
    ensures DayNumber(d) <= other && Weekday(other) == 6 ==> DayNumber(sunday) <= other
  {
    ComingSunday(DayNumber(d), other);
  }

  lemma SundayBound(now: Instant, day: Date)
    requires Moment(now) && WeekInRange(now)
    ensures var sunday := DueBefore(DueThisWeek, now).value.date;
            && Valid(sunday) && FromMonday(sunday) == 6
            && 0 <= DayNumber(sunday) - DayNumber(now.date) <= 6
            && (DayNumber(now.date) <= DayNumber(day) && FromMonday(day) == 6 ==> DayNumber(sunday) <= DayNumber(day))
  {
    SundayNumber(now.date);
    SundayAfter(now.date, DueBefore(DueThisWeek, now).value.date, DayNumber(day));
  }

  lemma MonthBound(now: Instant)
    requires Moment(now)
    ensures var last := DueBefore(DueThisMonth, now).value.date;
            && Valid(last) && DayNumber(now.date) <= DayNumber(last)
            && MonthIndex(last) == MonthIndex(now.date) && MonthIndex(Tomorrow(last)) == MonthIndex(last) + 1
  {
  }

  /** The week bound is the first Sunday from today on; the month bound is the last
      day of today's month. */
  lemma BoundsAre(now: Instant, day: Date)
    requires Moment(now) && WeekInRange(now)
    ensures var sunday, last := DueBefore(DueThisWeek, now).value.date, DueBefore(DueThisMonth, now).value.date;
            && Valid(sunday) && FromMonday(sunday) == 6
            && 0 <= DayNumber(sunday) - DayNumber(now.date) <= 6
            && (DayNumber(now.date) <= DayNumber(day) && FromMonday(day) == 6 ==> DayNumber(sunday) <= DayNumber(day))
            && Valid(last) && DayNumber(now.date) <= DayNumber(last)
            && MonthIndex(last) == MonthIndex(now.date) && MonthIndex(Tomorrow(last)) == MonthIndex(last) + 1
  {
    SundayBound(now, day);
    MonthBound(now);
  }

  /** At every instant, what is due today is due this month, and this week wherever the
      week has an end. */
  lemma TodayIsInBoth(due: Option<Instant>, now: Instant)
    requires Moment(now) && Contains(DueToday, due, now)
    ensures Contains(DueThisMonth, due, now) && (WeekInRange(now) ==> Contains(DueThisWeek, due, now))
  {
    MonthBound(now);
    if WeekInRange(now) {
      SundayBound(now, now.date);
    }
  }

  /** The chain goes on from the week to the month only when the coming Sunday is
      still in this month. */
  lemma WeekInMonthIff(now: Instant)
    requires Moment(now) && WeekInRange(now)
    ensures (forall due :: Contains(DueThisWeek, due, now) ==> Contains(DueThisMonth, due, now))
       <==> MonthIndex(DueBefore(DueThisWeek, now).value.date) == MonthIndex(now.date)
  {
    BoundsAre(now, now.date);
    var week, month := DueBefore(DueThisWeek, now).value, DueBefore(DueThisMonth, now).value;
    OrderOfDays(week.date, month.date);
    OrderOfDays(month.date, week.date);
    OrderOfDays(now.date, week.date);
    assert Contains(DueThisWeek, Some(week), now);
    if MonthIndex(week.date) == MonthIndex(now.date) {
      SameMonth(week.date, now.date);
    } else {
      LaterMonth(now.date, week.date);
    }
  }

  /** From 29 January of the year 1 the coming Sunday is 4 February: what is due then is
      due this week and not this month. */
  lemma WeekLeavesMonth(nanos: int)
    requires 0 <= nanos < NANOS_PER_DAY
    ensures var now, due := Instant(Date(1, 1, 29), nanos), Some(Instant(Date(1, 2, 4), 0));
            && Moment(now) && WeekInRange(now) && DueBefore(DueThisWeek, now).value.date == Date(1, 2, 4)
            && Contains(DueThisWeek, due, now) && !Contains(DueThisMonth, due, now)
  {
    var d := Date(1, 1, 29);
    Ends(Date(1, 2, 4));
    assert DayNumber(d) == 29 && FromMonday(d) == 0 && DayNumber(Date(1, 2, 4)) == 35;
    assert AddDays(d, 6) == Date(1, 2, 4) by {
      assert Tomorrow(Date(1, 1, 29)) == Date(1, 1, 30) && Tomorrow(Date(1, 1, 30)) == Date(1, 1, 31);
      assert Tomorrow(Date(1, 1, 31)) == Date(1, 2, 1) && Tomorrow(Date(1, 2, 1)) == Date(1, 2, 2);
      assert Tomorrow(Date(1, 2, 2)) == Date(1, 2, 3) && Tomorrow(Date(1, 2, 3)) == Date(1, 2, 4);
      assert AddDays(Date(1, 2, 1), 3) == AddDays(Date(1, 2, 4), 0);
      assert AddDays(Date(1, 1, 29), 6) == AddDays(Date(1, 2, 1), 3);
    }
  }

  lemma LaterMonth(a: Date, b: Date)
    requires Valid(a) && Valid(b) && DayNumber(a) <= DayNumber(b) && MonthIndex(a) != MonthIndex(b)
    ensures DayNumber(a.(day := Length(a.month, a.year))) < DayNumber(b)
  {
    OrderOfDays(b, a);
    OrderOfDays(a.(day := Length(a.month, a.year)), b);
  }

  /** Without a due date an item is in the view of all tasks only, which has them all. */
  lemma WithoutDueDateIff(view: MetaList, due: Option<Instant>, now: Instant)
    ensures Contains(view, None, now) <==> view == AllTasks
    ensures Contains(AllTasks, due, now)
  {
  }

  /** Today's bound draws the line at 23:59:59 sharp; among whole seconds, as due dates
      are stored, due by the end of today means on a day up to today. */
  lemma DueTodayIff(due: Instant, now: Instant)
    requires Moment(now) && Moment(due)
    ensures Contains(DueToday, Some(due), now)
       <==> Earlier(due.date, now.date) || (due.date == now.date && due.nanos <= 86_399_000_000_000)
    ensures due.nanos % 1_000_000_000 == 0 ==>
      (Contains(DueToday, Some(due), now) <==> due.date == now.date || Earlier(due.date, now.date))
  {
    OrderOfDays(due.date, now.date);
  }
}
