/**
 Gregorian dates and the billing period a date falls in.

 A node's reset dates are one per month: its `reset_day`, pulled back to the
 last day of a month that is too short. Months are numbered consecutively, so
 the reset dates of a node are a sequence indexed by the integers.
 */
module Calendar {
  import opened Wrappers

  datatype Date = Date(year: int, month: int, day: int)

  /** The range of years a date can be built for. */
  const MIN_YEAR: int := -9999
  const MAX_YEAR: int := 9999

  predicate IsLeap(year: int) {
    year % 4 == 0 && (year % 100 != 0 || year % 400 == 0)
  }

  function DaysInMonth(year: int, month: int): (n: int)
    ensures 28 <= n <= 31
  {
    if month == 2 then (if IsLeap(year) then 29 else 28)
    else if month == 4 || month == 6 || month == 9 || month == 11 then 30
    else 31
  }

  predicate Valid(d: Date) {
    && MIN_YEAR <= d.year <= MAX_YEAR
    && 1 <= d.month <= 12
    && 1 <= d.day <= DaysInMonth(d.year, d.month)
  }

  predicate AtMost(a: Date, b: Date) {
    || a.year < b.year
    || (a.year == b.year && (a.month < b.month || (a.month == b.month && a.day <= b.day)))
  }

  function FromCalendarDate(year: int, month: int, day: int): Result<Date, string> {
    var d := Date(year, month, day);
    if Valid(d) then Ok(d) else Err("component out of range")
  }

  function ClampToMonth(year: int, month: int, resetDay: nat): nat {
    if resetDay <= DaysInMonth(year, month) then resetDay else DaysInMonth(year, month)
  }

  function PeriodStart(today: Date, resetDay: nat): Result<Date, string> {
    var (year, month) :=
      if today.day >= ClampToMonth(today.year, today.month, resetDay) then (today.year, today.month)
      else if today.month == 1 then (today.year - 1, 12)
      else (today.year, today.month - 1);
    FromCalendarDate(year, month, ClampToMonth(year, month, resetDay))
  }

  // ---------------------------------------------------------------------
  // Months and reset dates as integer-indexed sequences
  // ---------------------------------------------------------------------

  function MonthIndex(d: Date): int {
    12 * d.year + d.month - 1
  }

  function YearOf(k: int): int { k / 12 }

  function MonthOf(k: int): int { k % 12 + 1 }

  function MonthLength(k: int): (n: int)
    ensures 28 <= n <= 31
  {
    DaysInMonth(YearOf(k), MonthOf(k))
  }

  /** The day a month resets on: the reset day if the month has it, its last day
      otherwise. */
  function ResetDayOf(length: int, resetDay: nat): int {
    if resetDay <= length then resetDay else length
  }

  /** The reset date of month `k`. */
  function ResetDate(k: int, resetDay: nat): Date {
    Date(YearOf(k), MonthOf(k), ResetDayOf(MonthLength(k), resetDay))
  }

  /** Days before month `k`, counted month by month from month 0. */
  function MonthStart(k: int): int
    decreases if k < 0 then -k else k
  {
    if k == 0 then 0
    else if k > 0 then MonthStart(k - 1) + MonthLength(k - 1)
    else MonthStart(k + 1) - MonthLength(k)
  }

  /** Days since the same origin; the difference of two is the days between them. */
  function DayNumber(d: Date): int {
    MonthStart(MonthIndex(d)) + d.day
  }

  lemma IndexRoundTrip(d: Date)
    requires 1 <= d.month <= 12
    ensures YearOf(MonthIndex(d)) == d.year && MonthOf(MonthIndex(d)) == d.month
  {}

  lemma MonthsFollow(k: int)
    ensures MonthStart(k + 1) == MonthStart(k) + MonthLength(k)
  {}

  lemma MonthOfYear(year: int, m: nat)
    requires m < 12
    ensures MonthStart(12 * year + m + 1) == MonthStart(12 * year + m) + DaysInMonth(year, m + 1)
  {
    MonthsFollow(12 * year + m);
    assert YearOf(12 * year + m) == year && MonthOf(12 * year + m) == m + 1;
  }

  lemma Quarter(year: int, m: nat)
    requires m + 3 <= 12
    ensures MonthStart(12 * year + m + 3) - MonthStart(12 * year + m)
         == DaysInMonth(year, m + 1) + DaysInMonth(year, m + 2) + DaysInMonth(year, m + 3)
  {
    MonthOfYear(year, m);
    MonthOfYear(year, m + 1);
    MonthOfYear(year, m + 2);
  }

  /** Twelve months make a Gregorian year. */
  lemma YearLength(year: int)
    ensures MonthStart(12 * year + 12) - MonthStart(12 * year) == if IsLeap(year) then 366 else 365
  {
    Quarter(year, 0);
    Quarter(year, 3);
    Quarter(year, 6);
    Quarter(year, 9);
  }

  /** Leap years before `year`, counted from year 0. */
  function LeapsBefore(year: int): int {
    (year + 3) / 4 - (year + 99) / 100 + (year + 399) / 400
  }

  lemma LeapsFollow(year: int)
    ensures LeapsBefore(year + 1) == LeapsBefore(year) + if IsLeap(year) then 1 else 0
  {
    assert (year + 4) / 4 == (year + 3) / 4 + if year % 4 == 0 then 1 else 0;
    assert (year + 100) / 100 == (year + 99) / 100 + if year % 100 == 0 then 1 else 0;
    assert (year + 400) / 400 == (year + 399) / 400 + if year % 400 == 0 then 1 else 0;
  }

  lemma OneMoreYear(year: int, since: int)
    requires MonthStart(12 * year) - since == 365 * year + LeapsBefore(year)
    ensures MonthStart(12 * (year + 1)) - since == 365 * (year + 1) + LeapsBefore(year + 1)
  {
    YearLength(year);
    LeapsFollow(year);
    assert 12 * (year + 1) == 12 * year + 12;
  }

  /** Years add up to 365 days each and one for every leap year. */
  lemma {:induction false} YearsAddUp(year: int, n: nat)
    ensures MonthStart(12 * (year + n)) - MonthStart(12 * year) == 365 * n + LeapsBefore(year + n) - LeapsBefore(year)
  {
    if n > 0 {
      YearsAddUp(year, n - 1);
      OneMoreYear(year + n - 1, MonthStart(12 * year) - 365 * year - LeapsBefore(year));
      assert year + n - 1 + 1 == year + n;
    }
  }

  /** The Gregorian cycle: any 400 years are 146097 days. */
  lemma FourCenturies(year: int)
    ensures MonthStart(12 * (year + 400)) - MonthStart(12 * year) == 146097
  {
    YearsAddUp(year, 400);
    LeapsInACycle(year);
  }

  lemma LeapsInACycle(year: int)
    ensures LeapsBefore(year + 400) - LeapsBefore(year) == 97
  {
    Quarters(year + 3);
    Centuries(year + 99);
    Cycles(year + 399);
  }

  lemma Quarters(x: int)
    ensures (x + 400) / 4 == x / 4 + 100
  {}

  lemma Centuries(x: int)
    ensures (x + 400) / 100 == x / 100 + 4
  {}

  lemma Cycles(x: int)
    ensures (x + 400) / 400 == x / 400 + 1
  {}

  lemma {:induction false} MonthsAddUp(j: int, k: int)
    requires j <= k
    ensures MonthStart(j) + 28 * (k - j) <= MonthStart(k)
    ensures j < k ==> MonthStart(j) + MonthLength(j) <= MonthStart(k)
    decreases k - j
  {
    if j < k {
      MonthsAddUp(j, k - 1);
      MonthsFollow(k - 1);
    }
  }

  /** The calendar order of dates is the order of their day numbers. */
  lemma OrderIsDayOrder(a: Date, b: Date)
    requires Valid(a) && Valid(b)
    ensures AtMost(a, b) <==> DayNumber(a) <= DayNumber(b)
    ensures a == b <==> DayNumber(a) == DayNumber(b)
  {
    var i, j := MonthIndex(a), MonthIndex(b);
    IndexRoundTrip(a);
    IndexRoundTrip(b);
    if i < j {
      MonthsAddUp(i, j);
    } else if j < i {
      MonthsAddUp(j, i);
    }
  }

  /** Consecutive reset dates are 28 to 31 days apart, whatever the reset day. */
  lemma ConsecutiveResets(k: int, resetDay: nat)
    requires resetDay >= 1
    ensures 28 <= DayNumber(ResetDate(k + 1, resetDay)) - DayNumber(ResetDate(k, resetDay)) <= 31
  {
    MonthsFollow(k);
  }

  lemma {:induction false} ResetsApart(j: int, k: int, resetDay: nat)
    requires resetDay >= 1 && j <= k
    ensures 28 * (k - j) <= DayNumber(ResetDate(k, resetDay)) - DayNumber(ResetDate(j, resetDay)) <= 31 * (k - j)
    decreases k - j
  {
    if j < k {
      ResetsApart(j, k - 1, resetDay);
      ConsecutiveResets(k - 1, resetDay);
    }
  }

  const SUSPICIOUS_JUMP_DAYS: int := 62

  /** The jump warning fires exactly when three or more boundaries were crossed. */
  lemma SuspiciousJumpIff(j: int, k: int, resetDay: nat)
    requires resetDay >= 1 && j <= k
    ensures DayNumber(ResetDate(k, resetDay)) - DayNumber(ResetDate(j, resetDay)) > SUSPICIOUS_JUMP_DAYS
       <==> k - j >= 3
  {
    ResetsApart(j, k, resetDay);
  }

  // ---------------------------------------------------------------------
  // What a period start is
  // ---------------------------------------------------------------------

  predicate IsResetDate(d: Date, resetDay: nat) {
    && Valid(d)
    && (d.day == resetDay || (d.day < resetDay && d.day == DaysInMonth(d.year, d.month)))
  }

  /** The month whose reset opened the period `today` falls in. */
  function PeriodIndex(today: Date, resetDay: nat): int {
    if today.day >= ResetDayOf(DaysInMonth(today.year, today.month), resetDay)
    then MonthIndex(today) else MonthIndex(today) - 1
  }

  /** The only dates without a period start: no reset day at all, and the first
      days of the earliest January there is. */
  predicate HasPeriod(today: Date, resetDay: nat) {
    resetDay >= 1 && !(today.year == MIN_YEAR && today.month == 1 && today.day < resetDay && today.day < 31)
  }

  lemma PeriodStartIsAReset(today: Date, resetDay: nat)
    requires Valid(today)
    ensures PeriodStart(today, resetDay).Ok? <==> HasPeriod(today, resetDay)
    ensures HasPeriod(today, resetDay) ==>
              PeriodStart(today, resetDay).value == ResetDate(PeriodIndex(today, resetDay), resetDay)
  {}

  /** A month's reset lies within it: after the month before has ended, and no
      later than its own last day. */
  lemma ResetWithin(k: int, resetDay: nat)
    requires resetDay >= 1
    ensures MonthStart(k) < DayNumber(ResetDate(k, resetDay)) <= MonthStart(k + 1)
  {
    ResetInsideMonth(k, resetDay);
    MonthsFollow(k);
  }

  lemma DayWithin(d: Date)
    requires Valid(d)
    ensures MonthStart(MonthIndex(d)) < DayNumber(d) <= MonthStart(MonthIndex(d) + 1)
  {
    DayInsideMonth(d);
    MonthsFollow(MonthIndex(d));
  }

  /** Inside one month, days and the reset compare by their day of the month. */
  lemma DayAgainstReset(d: Date, resetDay: nat)
    requires Valid(d) && resetDay >= 1
    ensures DayNumber(ResetDate(MonthIndex(d), resetDay)) <= DayNumber(d)
       <==> ResetDayOf(DaysInMonth(d.year, d.month), resetDay) <= d.day
  {
    DayInsideMonth(d);
    ResetInsideMonth(MonthIndex(d), resetDay);
  }

  /** The start's day is the reset day if its month has that many days, and the
      month's last day otherwise; its month is today's if today has reached that day
      of it, and the one before otherwise. */
  lemma PeriodStartInDays(today: Date, resetDay: nat)
    requires Valid(today) && HasPeriod(today, resetDay)
    ensures PeriodStart(today, resetDay).Ok?
    ensures var start := PeriodStart(today, resetDay).value;
            var length := DaysInMonth(start.year, start.month);
            && (if resetDay <= length then start.day == resetDay else start.day == length)
            && (start.year == today.year && start.month == today.month
                <==> today.day >= resetDay || today.day == DaysInMonth(today.year, today.month))
            && (start.month != today.month ==>
              if today.month == 1 then start.year == today.year - 1 && start.month == 12
              else start.year == today.year && start.month == today.month - 1)
  {}

  /** The lengths of the months of a common year. */
  const MONTH_LENGTHS: seq<int> := [31, 28, 31, 30, 31, 30, 31, 31, 30, 31, 30, 31]

  lemma MonthLengths(year: int, month: int)
    requires 1 <= month <= 12
    ensures DaysInMonth(year, month) == MONTH_LENGTHS[month - 1] + if month == 2 && IsLeap(year) then 1 else 0
  {}

  /** `today` lies in its period: on or after its start, before the next one. */
  lemma PeriodHoldsToday(today: Date, resetDay: nat)
    requires Valid(today) && resetDay >= 1
    ensures var k := PeriodIndex(today, resetDay);
            DayNumber(ResetDate(k, resetDay)) <= DayNumber(today) < DayNumber(ResetDate(k + 1, resetDay))
  {
    var m := MonthIndex(today);
    ResetWithin(m - 1, resetDay);
    ResetWithin(m + 1, resetDay);
    DayWithin(today);
    DayAgainstReset(today, resetDay);
  }

  lemma ResetInsideMonth(k: int, resetDay: nat)
    requires resetDay >= 1
    ensures DayNumber(ResetDate(k, resetDay)) == MonthStart(k) + ResetDayOf(MonthLength(k), resetDay)
    ensures 1 <= ResetDayOf(MonthLength(k), resetDay) <= MonthLength(k)
  {}

  lemma DayInsideMonth(d: Date)
    requires Valid(d)
    ensures YearOf(MonthIndex(d)) == d.year && MonthOf(MonthIndex(d)) == d.month
    ensures 1 <= d.day <= MonthLength(MonthIndex(d))
  {
    IndexRoundTrip(d);
  }

  /** The period start is the latest reset date not after today. */
  lemma PeriodStartIsLatest(today: Date, resetDay: nat, other: Date)
    requires Valid(today) && HasPeriod(today, resetDay)
    ensures PeriodStart(today, resetDay).Ok?
    ensures var start := PeriodStart(today, resetDay).value;
            && IsResetDate(start, resetDay) && AtMost(start, today)
            && (IsResetDate(other, resetDay) && AtMost(other, today) ==> AtMost(other, start))
  {}

  /** Later dates fall in the same or a later period. */
  lemma PeriodStartMonotone(a: Date, b: Date, resetDay: nat)
    requires Valid(a) && Valid(b) && HasPeriod(a, resetDay) && AtMost(a, b)
    ensures PeriodStart(a, resetDay).Ok? && PeriodStart(b, resetDay).Ok?
    ensures AtMost(PeriodStart(a, resetDay).value, PeriodStart(b, resetDay).value)
    ensures PeriodIndex(a, resetDay) <= PeriodIndex(b, resetDay)
  {
    PeriodStartIsAReset(a, resetDay);
    PeriodStartIsAReset(b, resetDay);
    var start := PeriodStart(a, resetDay).value;
    PeriodStartIsLatest(a, resetDay, start);
    AtMostTransitive(start, a, b);
    PeriodStartIsLatest(b, resetDay, start);
  }

  lemma AtMostTransitive(a: Date, b: Date, c: Date)
    requires AtMost(a, b) && AtMost(b, c)
    ensures AtMost(a, c)
  {}

  /** A period's first day starts that very period. */
  lemma PeriodStartIdempotent(today: Date, resetDay: nat)
    requires Valid(today) && HasPeriod(today, resetDay)
    ensures PeriodStart(today, resetDay).Ok?
    ensures PeriodStart(PeriodStart(today, resetDay).value, resetDay) == PeriodStart(today, resetDay)
  {}

  /** A reset day past the end of February falls on its last day, leap year or
      not, and holds until March reaches the reset day or its own end. */
  lemma ShortFebruary(year: int, day: int, resetDay: nat)
    requires MIN_YEAR <= year <= MAX_YEAR && 29 <= resetDay && 1 <= day <= 31 && day < resetDay
    ensures PeriodStart(Date(year, 3, day), resetDay)
         == if day == 31 then Ok(Date(year, 3, 31)) else Ok(Date(year, 2, if IsLeap(year) then 29 else 28))
  {}

  /** Before a reset day in January the period began in December. */
  lemma JanuaryReachesBack(year: int, day: int, resetDay: nat)
    requires MIN_YEAR < year <= MAX_YEAR && 1 <= day < resetDay <= 31
    ensures PeriodStart(Date(year, 1, day), resetDay) == Ok(Date(year - 1, 12, resetDay))
  {}

  /** An accepted reset day and a date it has no period for. */
  lemma EarliestJanuaryFails()
    ensures Valid(Date(-9999, 1, 1)) && PeriodStart(Date(-9999, 1, 1), 2).Err?
    ensures Valid(Date(9999, 12, 31)) && PeriodStart(Date(9999, 12, 31), 31) == Ok(Date(9999, 12, 31))
  {}
}
