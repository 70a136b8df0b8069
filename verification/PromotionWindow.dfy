/**
 The rolling promotion window (`subtractUtcMonths`, `getPromotionWindow`,
 lib/agent-promotion.ts) on UTC calendar days, numbered as in section 21.4.1 of ECMA-262.
 */
module PromotionWindow {
  import opened Wrappers

  const WINDOW_MONTHS := 12
  const MS_PER_DAY := 86_400_000

  datatype Day = Day(year: int, month: int, day: int)

  predicate IsLeap(year: int) {
    year % 4 == 0 && (year % 100 != 0 || year % 400 == 0)
  }

  function DaysInMonth(year: int, month: int): int {
    if month == 2 then (if IsLeap(year) then 29 else 28)
    else if month == 4 || month == 6 || month == 9 || month == 11 then 30
    else 31
  }

  predicate IsDay(d: Day) {
    1 <= d.month <= 12 && 1 <= d.day <= DaysInMonth(d.year, d.month)
  }

  // ---------- the code ----------

  // `setUTCMonth(month)` on the first of a month: months outside the year carry over.
  function CarryMonth(year: int, month: int): (int, int) {
    (year + (month - 1) / 12, (month - 1) % 12 + 1)
  }

  function Clamp(year: int, month: int, day: int): Day {
    Day(year, month, if day <= DaysInMonth(year, month) then day else DaysInMonth(year, month))
  }

  function Subtract(value: Day, months: int): Day {
    var (year, month) := CarryMonth(value.year, value.month - months);
    Clamp(year, month, value.day)
  }

  // Goes through the first of the month, so no intermediate date overflows.
  method SubtractUtcMonths(value: Day, months: int) returns (result: Day)
    requires IsDay(value)
    ensures result == Subtract(value, months) && IsDay(result)
    ensures 12 * result.year + result.month == 12 * value.year + value.month - months
    ensures result.day == value.day || (result.day == DaysInMonth(result.year, result.month) && result.day < value.day)
  {
    result := value;
    var originalDay := result.day;
    result := result.(day := 1);
    var (year, month) := CarryMonth(result.year, result.month - months);
    result := result.(year := year, month := month);
    var lastDay := DaysInMonth(result.year, result.month);
    result := result.(day := if originalDay < lastDay then originalDay else lastDay);
  }

  // ---------- day numbers ----------

  function DayFromYear(year: int): int {
    365 * (year - 1970) + (year - 1969) / 4 - (year - 1901) / 100 + (year - 1601) / 400
  }

  function DaysBefore(year: int, month: int): int
    requires 1 <= month <= 13
  {
    if month == 1 then 0 else DaysBefore(year, month - 1) + DaysInMonth(year, month - 1)
  }

  // Days since 1 January 1970.
  function DayNumber(d: Day): int
    requires 1 <= d.month <= 12
  {
    DayFromYear(d.year) + DaysBefore(d.year, d.month) + d.day - 1
  }

  // The instants that count for day d: all of both boundary days.
  predicate InWindow(recognizedAt: Time, d: Day)
    requires IsDay(d)
  {
    var start := Subtract(d, WINDOW_MONTHS);
    DayNumber(start) * MS_PER_DAY <= recognizedAt <= DayNumber(d) * MS_PER_DAY + MS_PER_DAY - 1
  }

  // ---------- the calendar ----------

  lemma YearLength(year: int)
    ensures DayFromYear(year + 1) - DayFromYear(year) == if IsLeap(year) then 366 else 365
  {
    MultiplesPassed(year, 492, 4);
    MultiplesPassed(year, 19, 100);
    MultiplesPassed(year, 4, 400);
    MultiplesNest(year);
  }

  lemma MultiplesNest(year: int)
    ensures year % 100 == 0 ==> year % 4 == 0
    ensures year % 400 == 0 ==> year % 100 == 0
  {
  }

  // One more multiple of k, counted from k * c, is passed exactly in the years k divides.
  lemma MultiplesPassed(year: int, c: int, k: int)
    requires k > 1
    ensures (year - k * c) / k == (year - k * c - 1) / k + (if year % k == 0 then 1 else 0)
  {
    QuotientStep(year - k * c - 1, k);
    assert year - k * c == k * (year / k - c) + year % k;
    DivUnique(year - k * c, k, year / k - c, year % k);
  }

  lemma QuotientStep(n: int, k: int)
    requires k > 1
    ensures (n + 1) / k == n / k + (if (n + 1) % k == 0 then 1 else 0)
  {
    var q, r := n / k, n % k;
    assert n == k * q + r;
    if r == k - 1 {
      assert n + 1 == k * (q + 1);
      DivUnique(n + 1, k, q + 1, 0);
    } else {
      DivUnique(n + 1, k, q, r + 1);
    }
  }

  lemma DivUnique(n: int, k: int, q: int, r: int)
    requires k > 0 && n == k * q + r && 0 <= r < k
    ensures n / k == q && n % k == r
  {
    var d := n / k - q;
    assert k * d == r - n % k;
  }

  lemma {:induction false} DaysBeforeGrows(year: int, m: int, n: int)
    requires 1 <= m <= n <= 13
    ensures DaysBefore(year, m) + 28 * (n - m) <= DaysBefore(year, n)
    ensures m < n ==> DaysBefore(year, m) + DaysInMonth(year, m) <= DaysBefore(year, n)
    decreases n
  {
    if m < n {
      DaysBeforeGrows(year, m, n - 1);
    }
  }

  lemma YearTotal(year: int)
    ensures DaysBefore(year, 13) == if IsLeap(year) then 366 else 365
  {
    var february := DaysInMonth(year, 2);
    assert DaysBefore(year, 2) == 31;
    assert DaysBefore(year, 3) == 31 + february;
    assert DaysBefore(year, 5) == 92 + february;
    assert DaysBefore(year, 7) == 153 + february;
    assert DaysBefore(year, 9) == 215 + february;
    assert DaysBefore(year, 11) == 276 + february;
  }

  // The day after: the next of the month, else the first of the next month or year.
  function Tomorrow(d: Day): Day {
    if d.day < DaysInMonth(d.year, d.month) then d.(day := d.day + 1)
    else if d.month < 12 then Day(d.year, d.month + 1, 1)
    else Day(d.year + 1, 1, 1)
  }

  lemma EpochIsDayZero()
    ensures IsDay(Day(1970, 1, 1)) && DayNumber(Day(1970, 1, 1)) == 0
  {
  }

  lemma NewYear(year: int)
    ensures DayNumber(Day(year + 1, 1, 1)) == DayNumber(Day(year, 12, 31)) + 1
  {
    YearTotal(year);
    YearLength(year);
  }

  // Days are counted one by one, over months, years and leap days.
  lemma DaysAreCounted(d: Day)
    requires IsDay(d)
    ensures IsDay(Tomorrow(d)) && DayNumber(Tomorrow(d)) == DayNumber(d) + 1
  {
    if d.month == 12 && d.day == 31 {
      NewYear(d.year);
    }
  }

  lemma Shifted(n: int, k: int, q: int)
    requires k > 0
    ensures (n + k * q) / k == n / k + q && (n + k * q) % k == n % k
  {
    assert n + k * q == k * (n / k + q) + n % k;
    DivUnique(n + k * q, k, n / k + q, n % k);
  }

  lemma LeapYearsRepeat(year: int)
    ensures IsLeap(year + 400) == IsLeap(year)
  {
    Shifted(year, 4, 100);
    Shifted(year, 100, 4);
    Shifted(year, 400, 1);
  }

  lemma YearsRepeat(year: int)
    ensures DayFromYear(year + 400) == DayFromYear(year) + 146_097
  {
    Shifted(year - 1969, 4, 100);
    Shifted(year - 1901, 100, 4);
    Shifted(year - 1601, 400, 1);
  }

  // Four centuries have 97 leap days: the calendar repeats after 146,097 days.
  lemma FourCenturies(d: Day)
    requires IsDay(d)
    ensures IsDay(Day(d.year + 400, d.month, d.day))
    ensures DayNumber(Day(d.year + 400, d.month, d.day)) == DayNumber(d) + 146_097
  {
    LeapYearsRepeat(d.year);
    YearsRepeat(d.year);
    SameMonthsApart(d.year, d.year + 400, d.month);
  }

  // Calendar order of valid days.
  predicate NotAfter(a: Day, b: Day) {
    a.year < b.year || (a.year == b.year && (a.month < b.month || (a.month == b.month && a.day <= b.day)))
  }

  lemma LaterDayNumber(a: Day, b: Day)
    requires IsDay(a) && IsDay(b) && NotAfter(a, b) && a != b
    ensures DayNumber(a) < DayNumber(b)
  {
    if a.year < b.year {
      DaysBeforeGrows(a.year, a.month, 13);
      DaysBeforeGrows(b.year, 1, b.month);
      YearTotal(a.year);
      YearLength(a.year);
      YearsGrow(a.year + 1, b.year);
    } else {
      DaysBeforeGrows(a.year, a.month, b.month);
    }
  }

  lemma YearsGrow(y: int, z: int)
    requires y <= z
    ensures DayFromYear(y) <= DayFromYear(z)
  {
  }

  // Day numbers follow the calendar, in both directions.
  lemma DayNumberIsMonotone(a: Day, b: Day)
    requires IsDay(a) && IsDay(b)
    ensures NotAfter(a, b) <==> DayNumber(a) <= DayNumber(b)
  {
    if a != b && NotAfter(a, b) {
      LaterDayNumber(a, b);
    } else if a != b {
      LaterDayNumber(b, a);
    }
  }

  // ---------- the window ----------

  // Clamping keeps the calendar order, for any number of months.
  lemma SubtractIsMonotone(a: Day, b: Day, months: int)
    requires IsDay(a) && IsDay(b) && NotAfter(a, b)
    ensures IsDay(Subtract(a, months)) && IsDay(Subtract(b, months))
    ensures NotAfter(Subtract(a, months), Subtract(b, months))
  {
  }

  lemma TwelveMonthsIsOneYear(d: Day)
    requires IsDay(d)
    ensures Subtract(d, WINDOW_MONTHS) == Clamp(d.year - 1, d.month, d.day)
  {
  }

  lemma {:induction false} SameMonthsApart(y: int, z: int, m: int)
    requires 1 <= m <= 13
    ensures DaysBefore(z, m) - DaysBefore(y, m)
         == if m <= 2 || IsLeap(z) == IsLeap(y) then 0 else if IsLeap(z) then 1 else -1
  {
    if m > 1 {
      SameMonthsApart(y, z, m - 1);
    }
  }

  lemma NoTwoLeapYears(year: int)
    ensures !(IsLeap(year) && IsLeap(year - 1))
  {
  }

  // The same day of two consecutive years.
  lemma YearsApart(y: int, m: int)
    requires 1 <= m <= 12
    ensures
      var apart := DayFromYear(y) + DaysBefore(y, m) - DayFromYear(y - 1) - DaysBefore(y - 1, m);
      apart == 365 || (apart == 366 && (if m <= 2 then IsLeap(y - 1) else IsLeap(y)))
  {
    YearLength(y - 1);
    SameMonthsApart(y - 1, y, m);
    NoTwoLeapYears(y);
  }

  // The window always opens 365 or 366 days before its last day.
  lemma WindowIsAYear(d: Day)
    requires IsDay(d)
    ensures IsDay(Subtract(d, WINDOW_MONTHS))
    ensures DayNumber(d) - DayNumber(Subtract(d, WINDOW_MONTHS)) == 365
         || DayNumber(d) - DayNumber(Subtract(d, WINDOW_MONTHS)) == 366
  {
    TwelveMonthsIsOneYear(d);
    NoTwoLeapYears(d.year);
    YearsApart(d.year, d.month);
  }

  // Both boundary days count in full: only the UTC day of a credit matters.
  lemma WholeDaysCount(recognizedAt: Time, d: Day)
    requires IsDay(d)
    ensures InWindow(recognizedAt, d)
        <==> DayNumber(Subtract(d, WINDOW_MONTHS)) <= recognizedAt / MS_PER_DAY <= DayNumber(d)
  {
  }

  // A credit that has left the window never returns to it.
  lemma ExpiredStaysExpired(recognizedAt: Time, a: Day, b: Day)
    requires IsDay(a) && IsDay(b) && NotAfter(a, b)
    requires recognizedAt < DayNumber(Subtract(a, WINDOW_MONTHS)) * MS_PER_DAY
    ensures !InWindow(recognizedAt, a) && !InWindow(recognizedAt, b)
  {
    SubtractIsMonotone(a, b, WINDOW_MONTHS);
    DayNumberIsMonotone(Subtract(a, WINDOW_MONTHS), Subtract(b, WINDOW_MONTHS));
  }
}
