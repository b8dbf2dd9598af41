/** Instants as nanoseconds since 1970-01-01T00:00:00Z, and their date and time fields in the proleptic Gregorian calendar. */
module Calendar {
  import opened Quotients

  const NANOS := 1_000_000_000
  const DAY := 86400
  const EPOCH_DAY := 719162

  datatype Civil = Civil(year: int, month: int, day: int, hour: int, minute: int, second: int, nano: int)

  predicate IsLeap(y: int) { y % 4 == 0 && (y % 100 != 0 || y % 400 == 0) }

  function MonthLength(y: int, m: int): int {
    if m == 2 then (if IsLeap(y) then 29 else 28)
    else if m == 4 || m == 6 || m == 9 || m == 11 then 30
    else 31
  }

  /** Days from 0001-01-01 to the first of January of year y. */
  function DaysBeforeYear(y: int): int {
    365 * (y - 1) + (y - 1) / 4 - (y - 1) / 100 + (y - 1) / 400
  }

  function DaysBeforeMonth(y: int, m: int): int {
    if m <= 1 then 0 else DaysBeforeMonth(y, m - 1) + MonthLength(y, m - 1)
  }

  function DayNumber(y: int, m: int, d: int): int { DaysBeforeYear(y) + DaysBeforeMonth(y, m) + d - 1 }

  function SecondOfDay(c: Civil): int { c.hour * 3600 + c.minute * 60 + c.second }

  function InstantOf(c: Civil): int {
    ((DayNumber(c.year, c.month, c.day) - EPOCH_DAY) * DAY + SecondOfDay(c)) * NANOS + c.nano
  }

  predicate ValidDate(y: int, m: int, d: int) { 1 <= m <= 12 && 1 <= d <= MonthLength(y, m) }

  predicate Valid(c: Civil) {
    && ValidDate(c.year, c.month, c.day)
    && 0 <= c.hour < 24 && 0 <= c.minute < 60 && 0 <= c.second < 60 && 0 <= c.nano < NANOS
  }

  function FindYear(day: int, y: int): (r: int)
    requires 1 <= y <= 400
    decreases 400 - y
  {
    if y < 400 && DaysBeforeYear(y + 1) <= day then FindYear(day, y + 1) else y
  }

  /** The year of a day number; the calendar repeats every 400 years of 146097 days. */
  function YearOfDay(day: int): int { 400 * (day / 146097) + FindYear(day % 146097, 1) }

  function FindMonth(y: int, day: int, m: int): (r: int)
    requires 1 <= m <= 12
    decreases 12 - m
  {
    if m < 12 && DaysBeforeMonth(y, m + 1) <= day then FindMonth(y, day, m + 1) else m
  }

  function CivilOf(t: int): Civil {
    var seconds := t / NANOS;
    var day := seconds / DAY + EPOCH_DAY;
    var rest := seconds % DAY;
    var y := YearOfDay(day);
    var dayOfYear := day - DaysBeforeYear(y);
    var m := FindMonth(y, dayOfYear, 1);
    Civil(y, m, dayOfYear - DaysBeforeMonth(y, m) + 1, rest / 3600, rest / 60 % 60, rest % 60, t % NANOS)
  }

  function YearOf(t: int): int { CivilOf(t).year }

  // ---------------------------------------------------------------- the calendar is a numbering of days

  lemma YearLength(y: int)
    ensures DaysBeforeYear(y + 1) == DaysBeforeYear(y) + DaysBeforeMonth(y, 13)
    ensures DaysBeforeMonth(y, 13) == if IsLeap(y) then 366 else 365
  {
    MonthTable(y);
    QuotientSteps(y, 4);
    QuotientSteps(y, 100);
    QuotientSteps(y, 400);
    if y % 100 == 0 { MultipleOfFactor(y, 25, 4); }
    if y % 400 == 0 { MultipleOfFactor(y, 4, 100); }
  }

  lemma MonthTable(y: int)
    ensures var leap := if IsLeap(y) then 1 else 0;
      && DaysBeforeMonth(y, 2) == 31 && DaysBeforeMonth(y, 3) == 59 + leap && DaysBeforeMonth(y, 4) == 90 + leap
      && DaysBeforeMonth(y, 5) == 120 + leap && DaysBeforeMonth(y, 6) == 151 + leap && DaysBeforeMonth(y, 7) == 181 + leap
      && DaysBeforeMonth(y, 8) == 212 + leap && DaysBeforeMonth(y, 9) == 243 + leap && DaysBeforeMonth(y, 10) == 273 + leap
      && DaysBeforeMonth(y, 11) == 304 + leap && DaysBeforeMonth(y, 12) == 334 + leap && DaysBeforeMonth(y, 13) == 365 + leap
  {
    var d1, d2 := DaysBeforeMonth(y, 1), DaysBeforeMonth(y, 2);
    var d3, d4 := DaysBeforeMonth(y, 3), DaysBeforeMonth(y, 4);
    var d5, d6 := DaysBeforeMonth(y, 5), DaysBeforeMonth(y, 6);
    var d7, d8 := DaysBeforeMonth(y, 7), DaysBeforeMonth(y, 8);
    var d9, d10 := DaysBeforeMonth(y, 9), DaysBeforeMonth(y, 10);
    var d11, d12 := DaysBeforeMonth(y, 11), DaysBeforeMonth(y, 12);
    assert d2 == 31 && d3 == d2 + MonthLength(y, 2) && d4 == d3 + 31 && d5 == d4 + 30 && d6 == d5 + 31;
    assert d7 == d6 + 30 && d8 == d7 + 31 && d9 == d8 + 31 && d10 == d9 + 30 && d11 == d10 + 31 && d12 == d11 + 30;
  }

  lemma {:induction false} YearsAscend(y: int, z: int)
    requires y < z
    ensures DaysBeforeYear(y + 1) <= DaysBeforeYear(z)
    decreases z - y
  {
    hide DaysBeforeYear;
    if y + 1 < z {
      YearsAscend(y, z - 1);
      YearLength(z - 1);
    }
  }

  lemma {:induction false} MonthsAscend(y: int, m: int, n: int)
    requires 1 <= m < n <= 13
    ensures DaysBeforeMonth(y, m) + MonthLength(y, m) <= DaysBeforeMonth(y, n)
    decreases n - m
  {
    if m + 1 < n { MonthsAscend(y, m, n - 1); }
  }

  /** A valid date falls inside its month, and its month inside its year. */
  lemma DayInYear(y: int, m: int, d: int)
    requires ValidDate(y, m, d)
    ensures DaysBeforeYear(y) <= DaysBeforeYear(y) + DaysBeforeMonth(y, m) <= DayNumber(y, m, d)
    ensures DayNumber(y, m, d) < DaysBeforeYear(y) + DaysBeforeMonth(y, m) + MonthLength(y, m) <= DaysBeforeYear(y + 1)
  {
    YearLength(y);
    MonthsAscend(y, m, 13);
    if m > 1 { MonthsAscend(y, 1, m); }
  }

  predicate DateLess(y: int, m: int, d: int, y': int, m': int, d': int) {
    y < y' || (y == y' && (m < m' || (m == m' && d < d')))
  }

  lemma DatesAscend(y: int, m: int, d: int, y': int, m': int, d': int)
    requires ValidDate(y, m, d) && ValidDate(y', m', d') && DateLess(y, m, d, y', m', d')
    ensures DayNumber(y, m, d) < DayNumber(y', m', d')
  {
    DayInYear(y, m, d);
    DayInYear(y', m', d');
    if y < y' { YearsAscend(y, y'); } else if m < m' { MonthsAscend(y, m, m'); }
  }

  /** Chronological order is the lexicographic order of the fields. */
  predicate Earlier(c: Civil, d: Civil) {
    || DateLess(c.year, c.month, c.day, d.year, d.month, d.day)
    || (c.year == d.year && c.month == d.month && c.day == d.day && TimeEarlier(c, d))
  }

  predicate TimeEarlier(c: Civil, d: Civil) {
    c.hour < d.hour || (c.hour == d.hour && (c.minute < d.minute || (c.minute == d.minute &&
      (c.second < d.second || (c.second == d.second && c.nano < d.nano)))))
  }

  lemma EarlierIsLess(c: Civil, d: Civil)
    requires Valid(c) && Valid(d) && Earlier(c, d)
    ensures InstantOf(c) < InstantOf(d)
  {
    hide DayNumber;
    if DateLess(c.year, c.month, c.day, d.year, d.month, d.day) {
      DatesAscend(c.year, c.month, c.day, d.year, d.month, d.day);
    }
  }

  lemma InstantOrder(c: Civil, d: Civil)
    requires Valid(c) && Valid(d)
    ensures InstantOf(c) < InstantOf(d) <==> Earlier(c, d)
    ensures InstantOf(c) == InstantOf(d) <==> c == d
  {
    hide InstantOf;
    if Earlier(c, d) { EarlierIsLess(c, d); } else if c != d { EarlierIsLess(d, c); }
  }

  // ---------------------------------------------------------------- every instant has exactly one set of fields

  lemma {:induction false} FindYearFinds(day: int, y: int)
    requires 1 <= y <= 400 && DaysBeforeYear(y) <= day < 146097
    ensures var r := FindYear(day, y); 1 <= r <= 400 && DaysBeforeYear(r) <= day < DaysBeforeYear(r + 1)
    decreases 400 - y
  {
    if y < 400 && DaysBeforeYear(y + 1) <= day { FindYearFinds(day, y + 1); }
  }

  lemma YearOfDayFinds(day: int)
    ensures var y := YearOfDay(day); DaysBeforeYear(y) <= day < DaysBeforeYear(y + 1)
  {
    hide DaysBeforeYear, FindYear;
    var k, r := day / 146097, day % 146097;
    FirstCycle();
    FindYearFinds(r, 1);
    YearInCycle(k, r, FindYear(r, 1));
  }

  lemma FirstCycle()
    ensures DaysBeforeYear(1) == 0 && DaysBeforeYear(401) == 146097
  {}

  lemma YearInCycle(k: int, r: int, y: int)
    requires DaysBeforeYear(y) <= r < DaysBeforeYear(y + 1)
    ensures DaysBeforeYear(400 * k + y) <= 146097 * k + r < DaysBeforeYear(400 * k + y + 1)
  {
    YearCycle(k, y);
    YearCycle(k, y + 1);
    assert 400 * k + (y + 1) == 400 * k + y + 1;
    hide DaysBeforeYear;
  }

  lemma YearCycle(k: int, y: int)
    ensures DaysBeforeYear(400 * k + y) == 146097 * k + DaysBeforeYear(y)
  {
    var n := y - 1;
    assert (400 * k + n) / 4 == 100 * k + n / 4;
    assert (400 * k + n) / 100 == 4 * k + n / 100;
    assert (400 * k + n) / 400 == k + n / 400;
    assert 400 * k + y - 1 == 400 * k + n;
  }

  lemma {:induction false} FindMonthFinds(y: int, day: int, m: int)
    requires 1 <= m <= 12 && DaysBeforeMonth(y, m) <= day < DaysBeforeMonth(y, 13)
    ensures var r := FindMonth(y, day, m); 1 <= r <= 12 && DaysBeforeMonth(y, r) <= day < DaysBeforeMonth(y, r + 1)
    decreases 12 - m
  {
    if m < 12 && DaysBeforeMonth(y, m + 1) <= day { FindMonthFinds(y, day, m + 1); }
  }

  lemma NanoOf(t: int)
    ensures CivilOf(t).nano == t % NANOS
  {
    hide YearOfDay, FindMonth, DaysBeforeYear, DaysBeforeMonth;
  }

  lemma CivilOfIsValid(t: int)
    ensures Valid(CivilOf(t)) && InstantOf(CivilOf(t)) == t
  {
    hide DaysBeforeYear, DaysBeforeMonth, YearOfDay, FindMonth, MonthLength;
    var seconds := t / NANOS;
    var day := seconds / DAY + EPOCH_DAY;
    var y := YearOfDay(day);
    YearOfDayFinds(day);
    YearLength(y);
    FirstMonth(y);
    FindMonthFinds(y, day - DaysBeforeYear(y), 1);
    var m := CivilOf(t).month;
    NextMonth(y, m);
    var rest := seconds % DAY;
    assert rest / 3600 * 3600 + rest / 60 % 60 * 60 + rest % 60 == rest;
  }

  lemma FirstMonth(y: int)
    ensures DaysBeforeMonth(y, 1) == 0
  {}

  lemma NextMonth(y: int, m: int)
    requires m >= 1
    ensures DaysBeforeMonth(y, m + 1) == DaysBeforeMonth(y, m) + MonthLength(y, m)
  {}

  /** The fields of an instant are the only valid ones that denote it. */
  lemma CivilOfInverts(c: Civil)
    requires Valid(c)
    ensures CivilOf(InstantOf(c)) == c
  {
    hide InstantOf, CivilOf, Valid;
    CivilOfIsValid(InstantOf(c));
    InstantOrder(c, CivilOf(InstantOf(c)));
  }

  lemma ChronologicalOrder(t: int, u: int)
    ensures t < u <==> Earlier(CivilOf(t), CivilOf(u))
    ensures t == u <==> CivilOf(t) == CivilOf(u)
  {
    hide InstantOf, CivilOf, Valid;
    CivilOfIsValid(t);
    CivilOfIsValid(u);
    InstantOrder(CivilOf(t), CivilOf(u));
  }
}
