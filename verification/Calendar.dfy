// Dates named without a year, on the proleptic Gregorian calendar.
module Calendar {
  import opened Prelude
  import opened Decimal

  const U32_MAX: nat := 0xffff_ffff
  const MIN_YEAR: int := -262_143
  const MAX_YEAR: int := 262_142

  datatype Date = Date(year: int, month: nat, day: nat)

  // ---- The calendar -------------------------------------------------------

  predicate Leap(y: int) {
    y % 4 == 0 && (y % 100 != 0 || y % 400 == 0)
  }

  function MonthLength(y: int, m: nat): nat {
    if m == 2 then (if Leap(y) then 29 else 28)
    else if m == 4 || m == 6 || m == 9 || m == 11 then 30
    else 31
  }

  predicate Exists(y: int, m: nat, d: nat) {
    1 <= m <= 12 && 1 <= d <= MonthLength(y, m)
  }

  predicate IsDate(date: Date) {
    MIN_YEAR <= date.year <= MAX_YEAR && Exists(date.year, date.month, date.day)
  }

  // `from_ymd_opt`.
  function FromYmd(y: int, m: nat, d: nat): Option<Date> {
    if IsDate(Date(y, m, d)) then Some(Date(y, m, d)) else None
  }

  // Days before the year, counted from the first day of year 1.
  function YearStart(y: int): int {
    365 * (y - 1) + (y - 1) / 4 - (y - 1) / 100 + (y - 1) / 400
  }

  // Days of the year before the month.
  function MonthStart(y: int, m: nat): nat {
    if m <= 1 then 0 else MonthStart(y, m - 1) + MonthLength(y, m - 1)
  }

  function DayNumber(date: Date): int {
    YearStart(date.year) + MonthStart(date.year, date.month) + date.day - 1
  }

  function NextDay(date: Date): Date {
    if date.day < MonthLength(date.year, date.month) then Date(date.year, date.month, date.day + 1)
    else if date.month < 12 then Date(date.year, date.month + 1, 1)
    else Date(date.year + 1, 1, 1)
  }

  lemma YearLength(y: int)
    ensures YearStart(y + 1) == YearStart(y) + if Leap(y) then 366 else 365
  {
    var z := y - 1;
    Quotient(z, 4);
    Quotient(z, 100);
    Quotient(z, 400);
    Nested(y);
    Days(y, z / 4, z / 100, z / 400);
  }

  lemma Days(y: int, a: int, b: int, c: int)
    requires YearStart(y) == 365 * (y - 1) + a - b + c
    requires y / 4 == a + if y % 4 == 0 then 1 else 0
    requires y / 100 == b + if y % 100 == 0 then 1 else 0
    requires y / 400 == c + if y % 400 == 0 then 1 else 0
    requires (y % 400 == 0 ==> y % 100 == 0) && (y % 100 == 0 ==> y % 4 == 0)
    ensures YearStart(y + 1) == YearStart(y) + if Leap(y) then 366 else 365
  {
    assert YearStart(y + 1) == 365 * y + y / 4 - y / 100 + y / 400;
    hide YearStart;
  }

  lemma Nested(y: int)
    ensures (y % 400 == 0 ==> y % 100 == 0) && (y % 100 == 0 ==> y % 4 == 0)
  {
    if y % 400 == 0 { Multiple(y, 100, 4, y / 400); }
    if y % 100 == 0 { Multiple(y, 4, 25, y / 100); }
  }

  lemma Multiple(y: int, k: int, f: int, n: int)
    requires (k == 100 && f == 4) || (k == 4 && f == 25)
    requires y == k * f * n
    ensures y % k == 0
  {
    assert y == k * (f * n);
  }

  lemma Quotient(z: int, k: int)
    requires k == 4 || k == 100 || k == 400
    ensures (z + 1) / k == z / k + if (z + 1) % k == 0 then 1 else 0
  {
  }

  lemma MonthStarts(y: int)
    ensures MonthStart(y, 2) == 31
    ensures var f := if Leap(y) then 1 else 0;
      && MonthStart(y, 3) == 59 + f && MonthStart(y, 4) == 90 + f && MonthStart(y, 5) == 120 + f
      && MonthStart(y, 6) == 151 + f && MonthStart(y, 7) == 181 + f && MonthStart(y, 8) == 212 + f
      && MonthStart(y, 9) == 243 + f && MonthStart(y, 10) == 273 + f && MonthStart(y, 11) == 304 + f
      && MonthStart(y, 12) == 334 + f
  {
  }

  // The day numbers count the days of the calendar one by one.
  lemma {:induction false} NextDayNumber(date: Date)
    requires Exists(date.year, date.month, date.day)
    ensures Exists(NextDay(date).year, NextDay(date).month, NextDay(date).day)
    ensures DayNumber(NextDay(date)) == DayNumber(date) + 1
  {
    hide Leap, YearStart;
    YearLength(date.year);
    MonthStarts(date.year);
  }

  lemma {:induction false} YearsApart(a: int, b: int)
    requires a <= b
    ensures YearStart(b) - YearStart(a) >= 365 * (b - a)
    decreases b - a
  {
    hide YearStart, Leap;
    if a < b {
      YearsApart(a, b - 1);
      YearLength(b - 1);
    }
  }

  // ---- Inference ----------------------------------------------------------

  function InferDate(m: nat, d: nat, today: Date): Option<Date> {
    match FromYmd(today.year, m, d)
    case None => None
    case Some(current) =>
      var distance := DayNumber(current) - DayNumber(today);
      if distance < -183 then FromYmd(today.year + 1, m, d)
      else if distance > 183 then FromYmd(today.year - 1, m, d)
      else Some(current)
  }

  function InferYearlessDate(month: string, day: string, today: Date): Option<Date> {
    var m, d := ParseUnsigned(month, U32_MAX), ParseUnsigned(day, U32_MAX);
    if m.None? || d.None? then None else InferDate(m.value, d.value, today)
  }

  // ---- How far the years are apart -----------------------------------------

  lemma WithinYear(y: int, m: nat, d: nat)
    requires Exists(y, m, d)
    ensures 0 <= MonthStart(y, m) + d - 1 <= if Leap(y) then 365 else 364
  {
    hide Leap;
    MonthStarts(y);
  }

  // The same day of two years.
  lemma SameDay(a: int, b: int, m: nat, d: nat)
    requires a <= b && Exists(a, m, d) && Exists(b, m, d)
    ensures DayNumber(Date(b, m, d)) - DayNumber(Date(a, m, d)) >= 365 * (b - a)
    ensures b == a + 1 ==> DayNumber(Date(b, m, d)) - DayNumber(Date(a, m, d)) <= 366
  {
    hide Leap, YearStart;
    MonthStarts(a);
    MonthStarts(b);
    YearsApart(a, b);
    YearsApart(a + 1, b + 1);
    YearLength(a);
    YearLength(b);
  }

  function Distance(date: Date, today: Date): nat {
    var d := DayNumber(date) - DayNumber(today);
    if d >= 0 then d else -d
  }

  lemma SameYearDistance(date: Date, today: Date)
    requires Exists(date.year, date.month, date.day) && Exists(today.year, today.month, today.day)
    requires date.year == today.year
    ensures -365 <= DayNumber(date) - DayNumber(today) <= 365
  {
    hide Leap, YearStart, MonthStart;
    WithinYear(date.year, date.month, date.day);
    WithinYear(today.year, today.month, today.day);
  }

  lemma NearestYear(m: nat, d: nat, today: Date, other: int)
    requires IsDate(today) && InferDate(m, d, today).Some? && Exists(other, m, d)
    ensures var date := InferDate(m, d, today).value;
      && IsDate(date) && date.month == m && date.day == d
      && Distance(date, today) <= 183
      && Distance(date, today) <= Distance(Date(other, m, d), today) + 1
  {
    hide Leap, YearStart, MonthStart, MonthLength;
    var current, date := Date(today.year, m, d), InferDate(m, d, today).value;
    SameYearDistance(current, today);
    if date.year < today.year { SameDay(date.year, today.year, m, d); }
    if date.year > today.year { SameDay(today.year, date.year, m, d); }
    if other < date.year { SameDay(other, date.year, m, d); }
    if other > date.year { SameDay(date.year, other, m, d); }
  }

  // An inferred date is the day asked for, within 183 days of today, and at most
  // one day farther away than the same day of any other year.
  lemma {:induction false} InferredIsNearest(month: string, day: string, today: Date, other: int)
    requires IsDate(today) && InferYearlessDate(month, day, today).Some?
    ensures var date := InferYearlessDate(month, day, today).value;
      && IsDate(date)
      && ParseUnsigned(month, U32_MAX) == Some(date.month) && ParseUnsigned(day, U32_MAX) == Some(date.day)
      && Distance(date, today) <= 183
      && (Exists(other, date.month, date.day) ==>
        Distance(date, today) <= Distance(Date(other, date.month, date.day), today) + 1)
  {
    hide Leap, DayNumber, MonthLength, ParseUnsigned;
    var date := InferYearlessDate(month, day, today).value;
    NearestYear(ParseUnsigned(month, U32_MAX).value, ParseUnsigned(day, U32_MAX).value, today, date.year);
    if Exists(other, date.month, date.day) { NearestYear(date.month, date.day, today, other); }
  }

  // The nearest year is another one in which the day does not exist: for
  // 29 February, or beyond the years of the calendar.
  predicate OutOfReach(m: nat, d: nat, today: Date) {
    var current := Date(today.year, m, d);
    && Distance(current, today) > 183
    && ((m == 2 && d == 29)
        || (today.year == MAX_YEAR && DayNumber(current) < DayNumber(today))
        || (today.year == MIN_YEAR && DayNumber(current) > DayNumber(today)))
  }

  // No date is inferred exactly when the texts are not numbers, the day does not
  // exist in today's year, or the year to move to has no such day.
  lemma {:induction false} NotInferredIff(month: string, day: string, today: Date)
    requires IsDate(today)
    ensures InferYearlessDate(month, day, today).None? <==>
      var m, d := ParseUnsigned(month, U32_MAX), ParseUnsigned(day, U32_MAX);
      m.None? || d.None? || !Exists(today.year, m.value, d.value) || OutOfReach(m.value, d.value, today)
  {
    hide ParseUnsigned, YearStart, MonthStart;
  }

  // The months have their lengths, and February its leap day every fourth year,
  // but not in centuries that four hundred does not divide.
  lemma {:induction false} MonthsAre(y: int, m: nat)
    ensures m in {1, 3, 5, 7, 8, 10, 12} ==> MonthLength(y, m) == 31
    ensures m in {4, 6, 9, 11} ==> MonthLength(y, m) == 30
    ensures MonthLength(2023, 2) == 28 && MonthLength(2024, 2) == 29
    ensures MonthLength(1900, 2) == 28 && MonthLength(2000, 2) == 29
  {
  }
}
