/** The proleptic Gregorian calendar behind Python's `date`: year, month and day against the day
    number (`date.toordinal`, 0001-01-01 being day 1). */
module Gregorian {
  import opened Common

  predicate IsLeap(year: int) {
    year % 4 == 0 && (year % 100 != 0 || year % 400 == 0)
  }

  function DaysInMonth(year: int, month: int): int
    requires 1 <= month <= 12
  {
    if month == 2 then (if IsLeap(year) then 29 else 28)
    else if month == 4 || month == 6 || month == 9 || month == 11 then 30
    else 31
  }

  function DaysBeforeMonth(year: int, month: int): int
    requires 1 <= month <= 12
  {
    if month == 1 then 0 else DaysBeforeMonth(year, month - 1) + DaysInMonth(year, month - 1)
  }

  function DaysInYear(year: int): int {
    if IsLeap(year) then 366 else 365
  }

  function DaysBeforeYear(year: int): (n: int)
    ensures n >= 0
  {
    if year <= 1 then 0 else DaysBeforeYear(year - 1) + DaysInYear(year - 1)
  }

  datatype Date = Date(year: int, month: int, day: int) {
    predicate Valid() {
      year >= 1 && 1 <= month <= 12 && 1 <= day <= DaysInMonth(year, month)
    }
  }

  function Ordinal(d: Date): Day
    requires d.Valid()
  {
    DaysBeforeYear(d.year) + DaysBeforeMonth(d.year, d.month) + d.day
  }

  const FIRST_DATE := Date(1, 1, 1)

  function NextMonth(year: int, month: int): Date {
    if month == 12 then Date(year + 1, 1, 1) else Date(year, month + 1, 1)
  }

  function NextDay(d: Date): (e: Date)
    requires d.Valid()
    ensures e.Valid()
  {
    if d.day < DaysInMonth(d.year, d.month) then d.(day := d.day + 1) else NextMonth(d.year, d.month)
  }

  function PreviousDay(d: Date): (e: Date)
    requires d.Valid() && d != FIRST_DATE
    ensures e.Valid()
  {
    if d.day > 1 then d.(day := d.day - 1)
    else if d.month > 1 then Date(d.year, d.month - 1, DaysInMonth(d.year, d.month - 1))
    else Date(d.year - 1, 12, 31)
  }

  /** `date.fromordinal`. */
  function FromOrdinal(n: Day): (d: Date)
    requires n >= 1
    ensures d.Valid()
  {
    if n == 1 then FIRST_DATE else NextDay(FromOrdinal(n - 1))
  }

  lemma QuotientStep(y: int, k: int)
    requires k > 0
    ensures (y + 1) / k == y / k + (if (y + 1) % k == 0 then 1 else 0)
  {
    var q, r := y / k, y % k;
    assert y == k * q + r;
    if r + 1 == k {
      assert y + 1 == k * (q + 1);
      QuotientIs(y + 1, k, q + 1, 0);
    } else {
      QuotientIs(y + 1, k, q, r + 1);
    }
  }

  lemma QuotientIs(x: int, k: int, q: int, r: int)
    requires k > 0 && x == k * q + r && 0 <= r < k
    ensures x / k == q && x % k == r
  {
    var gap := x / k - q;
    assert k * gap == r - x % k;
    assert gap >= 1 ==> k * gap >= k;
    assert gap <= -1 ==> k * gap <= -k;
  }

  /** The length of the first `y` years, in closed form. */
  function YearsLength(y: int): int {
    y * 365 + y / 4 - y / 100 + y / 400
  }

  lemma OneMoreYear(y: int)
    ensures YearsLength(y + 1) == YearsLength(y) + DaysInYear(y + 1)
  {
    QuotientStep(y, 4);
    QuotientStep(y, 100);
    QuotientStep(y, 400);
    Nested(y + 1);
  }

  /** Counting the leap years one by one gives the closed form behind `date.toordinal`. */
  lemma {:induction false} DaysBeforeYearClosedForm(year: int)
    requires year >= 1
    ensures DaysBeforeYear(year) == YearsLength(year - 1)
  {
    if year > 1 {
      hide YearsLength, DaysInYear;
      DaysBeforeYearClosedForm(year - 1);
      OneMoreYear(year - 2);
    }
  }

  lemma Nested(year: int)
    ensures year % 400 == 0 ==> year % 100 == 0
    ensures year % 100 == 0 ==> year % 4 == 0
  {
    if year % 400 == 0 {
      QuotientIs(year, 100, 4 * (year / 400), 0);
    }
    if year % 100 == 0 {
      QuotientIs(year, 4, 25 * (year / 100), 0);
    }
  }

  lemma MonthsOfYear(year: int)
    ensures DaysBeforeMonth(year, 12) == if IsLeap(year) then 335 else 334
  {
    var leap := if IsLeap(year) then 1 else 0;
    assert DaysBeforeMonth(year, 2) == 31;
    assert DaysBeforeMonth(year, 3) == 59 + leap;
    assert DaysBeforeMonth(year, 4) == 90 + leap;
    assert DaysBeforeMonth(year, 5) == 120 + leap;
    assert DaysBeforeMonth(year, 6) == 151 + leap;
    assert DaysBeforeMonth(year, 7) == 181 + leap;
    assert DaysBeforeMonth(year, 8) == 212 + leap;
    assert DaysBeforeMonth(year, 9) == 243 + leap;
    assert DaysBeforeMonth(year, 10) == 273 + leap;
    assert DaysBeforeMonth(year, 11) == 304 + leap;
  }

  /** The first of the next month comes one month's length after the first of this one, across
      year ends too. */
  lemma NextMonthStarts(year: int, month: int)
    requires year >= 1 && 1 <= month <= 12
    ensures NextMonth(year, month).Valid()
    ensures Ordinal(NextMonth(year, month)) == Ordinal(Date(year, month, 1)) + DaysInMonth(year, month)
  {
    if month == 12 {
      MonthsOfYear(year);
    }
  }

  lemma NextDayIsNext(d: Date)
    requires d.Valid()
    ensures Ordinal(NextDay(d)) == Ordinal(d) + 1
  {
    NextMonthStarts(d.year, d.month);
  }

  lemma PreviousThenNext(d: Date)
    requires d.Valid() && d != FIRST_DATE
    ensures NextDay(PreviousDay(d)) == d
  {
  }

  lemma {:induction false} OrdinalOfFromOrdinal(n: Day)
    requires n >= 1
    ensures Ordinal(FromOrdinal(n)) == n
  {
    if n > 1 {
      OrdinalOfFromOrdinal(n - 1);
      NextDayIsNext(FromOrdinal(n - 1));
    }
  }

  lemma OrdinalIsPositive(d: Date)
    requires d.Valid()
    ensures Ordinal(d) >= 1
    ensures Ordinal(d) == 1 ==> d == FIRST_DATE
  {
    assert d.year > 1 ==> DaysBeforeYear(d.year) >= 365;
    MonthsBeforeGrow(d.year, d.month);
  }

  lemma {:induction false} MonthsBeforeGrow(year: int, month: int)
    requires 1 <= month <= 12
    ensures DaysBeforeMonth(year, month) >= 28 * (month - 1)
  {
    if month > 1 {
      MonthsBeforeGrow(year, month - 1);
    }
  }

  /** Dates and day numbers correspond one to one. */
  lemma {:induction false} FromOrdinalOfOrdinal(d: Date)
    requires d.Valid()
    ensures Ordinal(d) >= 1 && FromOrdinal(Ordinal(d)) == d
    decreases Ordinal(d)
  {
    OrdinalIsPositive(d);
    if d != FIRST_DATE {
      var p := PreviousDay(d);
      PreviousThenNext(d);
      NextDayIsNext(p);
      FromOrdinalOfOrdinal(p);
    }
  }

  lemma {:induction false} MonthsFitTheYear(year: int, month: int)
    requires 1 <= month <= 12
    ensures DaysBeforeMonth(year, month) + DaysInMonth(year, month) <= DaysInYear(year)
    decreases 12 - month
  {
    if month == 12 {
      MonthsOfYear(year);
    } else {
      MonthsFitTheYear(year, month + 1);
    }
  }

  lemma YearHoldsDay(n: Day)
    requires n >= 1
    ensures var year := FromOrdinal(n).year;
      year >= 1 && DaysBeforeYear(year) < n <= DaysBeforeYear(year) + DaysInYear(year)
  {
    var d := FromOrdinal(n);
    OrdinalOfFromOrdinal(n);
    MonthsBeforeGrow(d.year, d.month);
    MonthsFitTheYear(d.year, d.month);
  }

  lemma {:induction false} YearsFollow(year: int, later: int)
    requires 1 <= year < later
    ensures DaysBeforeYear(year) + DaysInYear(year) <= DaysBeforeYear(later)
    decreases later
  {
    if year < later - 1 {
      YearsFollow(year, later - 1);
    }
  }

  /** `d + timedelta(days=k)`. */
  function AddDays(d: Date, k: int): Date
    requires d.Valid() && Ordinal(d) + k >= 1
  {
    FromOrdinal(Ordinal(d) + k)
  }

  /** `date.weekday()`: Monday is 0. */
  function Weekday(n: Day): int {
    (n + 6) % 7
  }

  /** A weekend is two days long. */
  lemma WeekdayAhead(today: Day) returns (d: Day)
    ensures today <= d <= today + 2 && Weekday(d) < 5
  {
    d := if Weekday(today) < 5 then today else if Weekday(today + 1) < 5 then today + 1 else today + 2;
  }

  function MondayOf(n: Day): Day {
    n - Weekday(n)
  }

  function ThursdayOf(n: Day): Day {
    MondayOf(n) + 3
  }

  /** A week belongs to the year that holds its Thursday. */
  function IsoYear(n: Day): int
    requires n >= 4
  {
    FromOrdinal(ThursdayOf(n)).year
  }

  /** The ISO week number: the week's place in its ISO year. */
  function IsoWeek(n: Day): int
    requires n >= 4
  {
    WeekOfYearDay(ThursdayOf(n) - DaysBeforeYear(IsoYear(n)) - 1)
  }

  /** The week a year's day falls in, days and weeks counted from the first one. */
  function WeekOfYearDay(day: int): int {
    day / 7 + 1
  }

  // ---------------------------------------------------------------------------
  // ISO years
  // ---------------------------------------------------------------------------

  function FirstOfYear(year: int): Day {
    DaysBeforeYear(year) + 1
  }

  /** 53 weeks in a year that starts on a Thursday, or is leap and starts on a Wednesday. */
  function WeeksInIsoYear(year: int): int {
    if Weekday(FirstOfYear(year)) == 3 || (IsLeap(year) && Weekday(FirstOfYear(year)) == 2) then 53 else 52
  }

  /** A yearly figure, added up from `year` to, not including, `later`. */
  function Total(yearly: int -> int, year: int, later: int): int
    decreases later - year
  {
    if later <= year then 0 else Total(yearly, year, later - 1) + yearly(later - 1)
  }

  function WeeksOfIsoYears(year: int, later: int): int {
    Total(WeeksInIsoYear, year, later)
  }

  lemma {:induction false} TotalAtLeast(yearly: int -> int, least: nat, year: int, later: int)
    requires forall y :: yearly(y) >= least
    ensures Total(yearly, year, later) >= 0
    ensures year < later ==> Total(yearly, year, later) >= least
    decreases later - year
  {
    if year < later {
      TotalAtLeast(yearly, least, year, later - 1);
    }
  }

  lemma AtLeast52Weeks(year: int, later: int)
    ensures WeeksOfIsoYears(year, later) >= 0
    ensures year < later ==> WeeksOfIsoYears(year, later) >= 52
  {
    TotalAtLeast(WeeksInIsoYear, 52, year, later);
  }

  /** Years that follow each other at `weeks` weeks' distance start as many weeks apart in all. */
  lemma {:induction false} StartsAddUp(starts: int -> int, weeks: int -> int, year: int, later: int)
    requires year <= later
    requires forall y :: year <= y < later ==> starts(y + 1) == starts(y) + 7 * weeks(y)
    ensures starts(later) == starts(year) + 7 * Total(weeks, year, later)
    decreases later - year
  {
    if year < later {
      StartsAddUp(starts, weeks, year, later - 1);
      assert starts((later - 1) + 1) == starts(later - 1) + 7 * weeks(later - 1);
    }
  }

  /** The first Thursday of the year that starts with day `first`. */
  function FirstThursdayFrom(first: Day): Day {
    first + (3 - Weekday(first)) % 7
  }

  lemma FirstThursdaysApart(first: Day, leap: bool)
    ensures var next := first + (if leap then 366 else 365);
      FirstThursdayFrom(next) - FirstThursdayFrom(first)
        == 7 * (if Weekday(first) == 3 || (leap && Weekday(first) == 2) then 53 else 52)
  {
  }

  function FirstThursday(year: int): Day {
    FirstThursdayFrom(FirstOfYear(year))
  }

  lemma NextFirstThursday(year: int)
    requires year >= 1
    ensures FirstThursday(year + 1) == FirstThursday(year) + 7 * WeeksInIsoYear(year)
  {
    FirstThursdaysApart(FirstOfYear(year), IsLeap(year));
  }

  lemma IsoYearsAddUp(year: int, later: int)
    requires 1 <= year <= later
    ensures FirstThursday(later) == FirstThursday(year) + 7 * WeeksOfIsoYears(year, later)
  {
    forall y | year <= y < later ensures FirstThursday(y + 1) == FirstThursday(y) + 7 * WeeksInIsoYear(y) {
      NextFirstThursday(y);
    }
    StartsAddUp(FirstThursday, WeeksInIsoYear, year, later);
  }

  lemma PlaceOfThursday(first: Day, thursday: Day)
    requires first <= thursday && Weekday(thursday) == 3
    ensures thursday == FirstThursdayFrom(first) + 7 * (WeekOfYearDay(thursday - first) - 1)
  {
    var weeks := (thursday + 6) / 7 - (first + 6) / 7;
    var gap := 3 - Weekday(first);
    assert thursday - first == 7 * weeks + gap;
    if gap >= 0 {
      QuotientIs(gap, 7, 0, gap);
      QuotientIs(thursday - first, 7, weeks, gap);
    } else {
      QuotientIs(gap, 7, -1, gap + 7);
      QuotientIs(thursday - first, 7, weeks - 1, gap + 7);
    }
  }

  /** Week `w` of an ISO year has its Thursday `w - 1` weeks after the year's first Thursday. */
  lemma WeekStarts(n: Day)
    requires n >= 4
    ensures IsoYear(n) >= 1 && MondayOf(n) + 3 == FirstThursday(IsoYear(n)) + 7 * (IsoWeek(n) - 1)
  {
    ThursdayIsThursday(n);
    hide Weekday, WeekOfYearDay, FirstThursdayFrom, DaysBeforeYear, DaysInYear, FromOrdinal;
    YearHoldsDay(ThursdayOf(n));
    PlaceOfThursday(FirstOfYear(IsoYear(n)), ThursdayOf(n));
  }

  lemma ThursdayIsThursday(n: Day)
    ensures Weekday(ThursdayOf(n)) == 3 && n - 3 <= ThursdayOf(n) <= n + 3
  {
  }

  lemma MondaysInOrder(a: Day, b: Day)
    requires a <= b
    ensures MondayOf(a) <= MondayOf(b)
  {
  }

  lemma YearsInOrder(s: Day, t: Day)
    requires 1 <= s <= t
    ensures FromOrdinal(s).year <= FromOrdinal(t).year
  {
    var year, later := FromOrdinal(s).year, FromOrdinal(t).year;
    YearHoldsDay(s);
    YearHoldsDay(t);
    if later < year {
      YearsFollow(later, year);
    }
  }

  lemma IsoYearsInOrder(a: Day, b: Day)
    requires 4 <= a <= b
    ensures IsoYear(a) <= IsoYear(b)
  {
    MondaysInOrder(a, b);
    ThursdayIsThursday(a);
    YearsInOrder(ThursdayOf(a), ThursdayOf(b));
  }

  lemma IsoWeekOfThursday(n: Day, thursday: Day, year: int)
    requires n >= 4 && thursday == ThursdayOf(n) && year == FromOrdinal(thursday).year
    ensures IsoWeek(n) == WeekOfYearDay(thursday - DaysBeforeYear(year) - 1)
  {
    hide WeekOfYearDay, DaysBeforeYear, FromOrdinal, MondayOf;
  }

  // ---------------------------------------------------------------------------
  // The month end by way of the 28th
  // ---------------------------------------------------------------------------

  /** `(value.replace(day=28) + timedelta(days=4)).replace(day=1) - timedelta(days=1)`, which the
      source computes without knowing the month's length. */
  function MonthEnd(value: Date): Date
    requires value.Valid()
  {
    OrdinalIsPositive(value.(day := 28));
    var inNextMonth := AddDays(value.(day := 28), 4);
    OrdinalIsPositive(inNextMonth.(day := 1));
    PastTheMonth(value);
    AddDays(inNextMonth.(day := 1), -1)
  }

  lemma PastTheMonth(value: Date)
    requires value.Valid()
    ensures Ordinal(value.(day := 28)) >= 1
    ensures AddDays(value.(day := 28), 4).(day := 1) == NextMonth(value.year, value.month)
    ensures NextMonth(value.year, value.month).Valid()
    ensures Ordinal(NextMonth(value.year, value.month)) >= 2
  {
    var first, next := value.(day := 1), NextMonth(value.year, value.month);
    var length := DaysInMonth(value.year, value.month);
    NextMonthStarts(value.year, value.month);
    OrdinalIsPositive(first);
    SameMonth(first, 28);
    SameMonth(next, 32 - length);
    Lands(value.(day := 28), 4, next.(day := 32 - length));
  }

  lemma Lands(d: Date, k: int, e: Date)
    requires d.Valid() && e.Valid() && Ordinal(e) == Ordinal(d) + k
    ensures Ordinal(d) + k >= 1 && AddDays(d, k) == e
  {
    FromOrdinalOfOrdinal(e);
  }

  lemma SameMonth(first: Date, day: int)
    requires first.Valid() && 1 <= day <= DaysInMonth(first.year, first.month)
    ensures first.(day := day).Valid()
    ensures Ordinal(first.(day := day)) == Ordinal(first) + day - first.day
  {
  }

  function LastDayOf(value: Date): (last: Date)
    requires value.Valid()
    ensures last.Valid()
  {
    value.(day := DaysInMonth(value.year, value.month))
  }

  /** For every month of every year it is the month's last day. */
  lemma MonthEndIsLastDay(value: Date)
    requires value.Valid()
    ensures MonthEnd(value) == LastDayOf(value)
  {
    PastTheMonth(value);
    var first := value.(day := 1);
    var length := DaysInMonth(value.year, value.month);
    NextMonthStarts(value.year, value.month);
    SameMonth(first, length);
    Lands(NextMonth(value.year, value.month), -1, value.(day := length));
  }

  /** The day numbers up to the month's last day are that month's later dates. */
  lemma DaysToMonthEnd(value: Date, n: Day)
    requires value.Valid() && Ordinal(value) <= n <= Ordinal(LastDayOf(value))
    ensures var d := value.(day := value.day + (n - Ordinal(value)));
      d.Valid() && Ordinal(d) == n
  {
    SameMonth(value, DaysInMonth(value.year, value.month));
    SameMonth(value, value.day + (n - Ordinal(value)));
  }
}
