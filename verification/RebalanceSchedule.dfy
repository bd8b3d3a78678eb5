/** When the replay rebalances (replay_debug.py, `_run_rebalance`). */
module RebalanceSchedule {
  import opened Common
  import opened Gregorian

  datatype Frequency = Daily | Weekly | Monthly | Unsupported

  /** Day numbers from the first ISO week of year 1 on, which Python's `isocalendar` covers. */
  const FIRST_ISO_DAY: Day := 4

  const DAYS_OF_52_WEEKS := 364

  function MonthKey(d: Day): (int, int)
    requires d >= FIRST_ISO_DAY
  {
    (FromOrdinal(d).year, FromOrdinal(d).month)
  }

  function Due(f: Frequency, last: Option<Day>, today: Day): bool
    requires today >= FIRST_ISO_DAY && (last.Some? ==> last.value >= FIRST_ISO_DAY)
  {
    match last
    case None => true
    case Some(day) =>
      match f
      case Daily => today > day
      case Weekly => IsoWeek(today) != IsoWeek(day)
      case Monthly => MonthKey(today) != MonthKey(day)
      case Unsupported => false
  }

  /** The date remembered after a check on each of `days`. */
  function LastRebalance(f: Frequency, days: seq<Day>): (last: Option<Day>)
    requires ValidDays(days)
    ensures last.Some? ==> last.value >= FIRST_ISO_DAY
  {
    if days == [] then None
    else
      var last := LastRebalance(f, days[..|days| - 1]);
      if Due(f, last, days[|days| - 1]) then Some(days[|days| - 1]) else last
  }

  predicate ValidDays(days: seq<Day>) {
    forall i :: 0 <= i < |days| ==> days[i] >= FIRST_ISO_DAY
  }

  /** The two days fall in one period, as the frequency's own test sees it. */
  predicate SamePeriod(f: Frequency, a: Day, b: Day)
    requires a >= FIRST_ISO_DAY && b >= FIRST_ISO_DAY
  {
    match f
    case Daily => a == b
    case Weekly => IsoWeek(a) == IsoWeek(b)
    case Monthly => MonthKey(a) == MonthKey(b)
    case Unsupported => true
  }

  /** Although a check compares with the last rebalance, for days in order it rebalances exactly
      when the day's period differs from the previous check's: once for each run of checks in one
      period, at the first of them. */
  lemma {:induction false} RebalancesAtPeriodChanges(f: Frequency, days: seq<Day>, today: Day)
    requires ValidDays(days) && NonDecreasing(days)
    requires today >= FIRST_ISO_DAY && (days != [] ==> days[|days| - 1] <= today)
    ensures days == [] ==> Due(f, LastRebalance(f, days), today)
    ensures days != [] ==> LastRebalance(f, days).Some? && SamePeriod(f, LastRebalance(f, days).value, days[|days| - 1])
    ensures days != [] ==> (Due(f, LastRebalance(f, days), today) <==> !SamePeriod(f, days[|days| - 1], today))
  {
    if days != [] {
      var front, last := days[..|days| - 1], days[|days| - 1];
      assert front != [] ==> front[|front| - 1] <= last;
      RebalancesAtPeriodChanges(f, front, last);
    }
  }

  // ---------------------------------------------------------------------------
  // Weeks by their number
  // ---------------------------------------------------------------------------

  /** `today` is in a later calendar week than `last`, and the weekly rule does not see it. */
  predicate MissesNewWeek(last: Day, today: Day)
    requires FIRST_ISO_DAY <= last <= today
  {
    MondayOf(last) != MondayOf(today) && IsoWeek(last) == IsoWeek(today)
  }

  /** The weekly rule misses a new calendar week exactly when it begins a whole number of ISO years
      after the last rebalance's: as many weeks later as the ISO years in between have, each 52 or, in
      the years that start on a Thursday or are leap and start on a Wednesday, 53. */
  lemma MissesWholeIsoYears(last: Day, today: Day)
    requires FIRST_ISO_DAY <= last <= today
    ensures 1 <= IsoYear(last) <= IsoYear(today)
    ensures MissesNewWeek(last, today) <==>
              && IsoYear(last) < IsoYear(today)
              && MondayOf(today) - MondayOf(last) == 7 * WeeksOfIsoYears(IsoYear(last), IsoYear(today))
  {
    IsoYearsInOrder(last, today);
    WeekStarts(last);
    WeekStarts(today);
    IsoYearsAddUp(IsoYear(last), IsoYear(today));
    AtLeast52Weeks(IsoYear(last), IsoYear(today));
  }

  /** For checks on days in order, a weekly check rebalances exactly when a new Monday-to-Sunday week has
      begun since the previous check, unless it began a whole number of ISO years later. */
  lemma WeeklyFollowsCalendarWeeksIff(days: seq<Day>, last: Day, today: Day)
    requires ValidDays(days + [last]) && NonDecreasing(days + [last]) && FIRST_ISO_DAY <= last <= today
    ensures (Due(Weekly, LastRebalance(Weekly, days + [last]), today) <==> MondayOf(today) != MondayOf(last))
       <==> !MissesNewWeek(last, today)
    ensures MondayOf(today) < MondayOf(last) + DAYS_OF_52_WEEKS ==> !MissesNewWeek(last, today)
  {
    RebalancesAtPeriodChanges(Weekly, days + [last], today);
    MissesWholeIsoYears(last, today);
    AtLeast52Weeks(IsoYear(last), IsoYear(today));
  }

  // ---------------------------------------------------------------------------
  // A witness
  // ---------------------------------------------------------------------------

  lemma IsoWeekByThursday(n: Day, thursday: Date)
    requires n >= FIRST_ISO_DAY && thursday.Valid() && Ordinal(thursday) == MondayOf(n) + 3
    ensures IsoWeek(n) == WeekOfYearDay(DaysBeforeMonth(thursday.year, thursday.month) + thursday.day - 1)
  {
    FromOrdinalOfOrdinal(thursday);
    IsoWeekOfThursday(n, Ordinal(thursday), thursday.year);
  }

  lemma SameNumberIsMissed(a: Day, b: Day)
    requires a >= FIRST_ISO_DAY && b >= FIRST_ISO_DAY && IsoWeek(a) == IsoWeek(b)
    ensures !Due(Weekly, LastRebalance(Weekly, [a]), b)
  {
    assert [a][..0] == [];
  }

  lemma JanuaryMonday(x: Date, n: Day)
    requires x.Valid() && x.month == 1 && 5 <= x.day <= 11 && n == Ordinal(x) && n >= FIRST_ISO_DAY && Weekday(n) == 0
    ensures MondayOf(n) == n && IsoWeek(n) == 2
  {
    IsoWeekByThursday(n, x.(day := x.day + 3));
  }

  /** Weeks are told apart by their number alone, so a calendar week is missed when it has the
      number of the week of the last rebalance; a year's distance does that, as with the Mondays
      2024-01-08 and 2025-01-06. */
  lemma WeeklyMissesSameNumberedWeek(x: Date, y: Date)
    requires x == Date(2024, 1, 8) && y == Date(2025, 1, 6)
    ensures x.Valid() && y.Valid() && FIRST_ISO_DAY <= Ordinal(x) < Ordinal(y)
    ensures MondayOf(Ordinal(x)) == Ordinal(x) && MondayOf(Ordinal(y)) == Ordinal(y)
    ensures !Due(Weekly, LastRebalance(Weekly, [Ordinal(x)]), Ordinal(y))
  {
    var a, b := Ordinal(x), Ordinal(y);
    DaysBeforeYearClosedForm(x.year);
    DaysBeforeYearClosedForm(y.year);
    assert a == 738893 && b == 739257;
    JanuaryMonday(x, a);
    JanuaryMonday(y, b);
    SameNumberIsMissed(a, b);
  }
}
