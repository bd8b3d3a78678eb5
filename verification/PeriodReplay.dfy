/** Weekly and monthly rebalancing over a replay. On the weekday calendar, because it checks at every session,
    telling weeks by their number is telling them apart; months are told apart by year and number on any
    calendar (replay_debug.py, `_run_replay` and `_run_rebalance`). */
module PeriodReplay {
  import opened Common
  import opened Gregorian
  import opened MarketCalendar
  import opened TickSchedule
  import opened Trading
  import opened ReplayRunner
  import RebalanceSchedule

  const WEEKEND_GAP := 3

  lemma {:induction false} EveryWeekdayOpens(c: Calendar, start: Day, until: Day, interval: int, d: Day)
    requires WeekdaysTrade(c) && OpensBeforeCloses(c) && interval > 0 && start <= d < until && Weekday(d) < 5
    ensures c.open(d) in AllTicks(c, start, until, interval)
  {
    assert c.isTradingDay(d);
    assert c.open(d) + 0 * interval == c.open(d);
    EveryTickIsScheduled(c, start, until, interval, d, 0);
  }

  lemma NothingBetween(ticks: seq<Instant>, k: nat, t: Instant)
    requires StrictlyIncreasing(ticks) && 0 < k < |ticks| && t in ticks
    ensures t <= ticks[k - 1] || ticks[k] <= t
  {
    var m :| 0 <= m < |ticks| && ticks[m] == t;
    assert m < k - 1 ==> ticks[m] < ticks[k - 1];
    assert k < m ==> ticks[k] < ticks[m];
  }

  /** Consecutive ticks of a weekday schedule are at most a weekend apart. */
  lemma TicksAreClose(c: Calendar, start: Day, until: Day, interval: int, k: nat)
    requires Zoned(c) && WeekdaysTrade(c) && OpensBeforeCloses(c) && interval > 0
    requires 0 < k < |AllTicks(c, start, until, interval)|
    ensures var ticks := AllTicks(c, start, until, interval);
      c.etDate(ticks[k - 1]) <= c.etDate(ticks[k]) <= c.etDate(ticks[k - 1]) + WEEKEND_GAP
  {
    hide AllTicks, WeekdaysTrade, OpensBeforeCloses, Weekday;
    var ticks := AllTicks(c, start, until, interval);
    TicksInOrder(c, start, until, interval);
    assert ticks[k - 1] < ticks[k] && ticks[k - 1] in ticks && ticks[k] in ticks;
    var last, next := c.etDate(ticks[k - 1]), c.etDate(ticks[k]);
    var d := WeekdayAhead(last + 1);
    if d < next {
      EveryWeekdayOpens(c, start, until, interval, d);
      NothingBetween(ticks, k, c.open(d));
      assert c.etDate(c.open(d)) == d;
    }
  }

  lemma CloseDaysMissNothing(last: Day, today: Day)
    requires RebalanceSchedule.FIRST_ISO_DAY <= last <= today <= last + WEEKEND_GAP
    ensures !RebalanceSchedule.MissesNewWeek(last, today)
  {
    hide MondayOf, IsoWeek, IsoYear, WeeksOfIsoYears;
    MondaysAreClose(last, today);
    RebalanceSchedule.MissesWholeIsoYears(last, today);
    AtLeast52Weeks(IsoYear(last), IsoYear(today));
  }

  lemma MondaysAreClose(last: Day, today: Day)
    requires last <= today <= last + WEEKEND_GAP
    ensures MondayOf(last) <= MondayOf(today) <= MondayOf(last) + 7
  {
  }

  lemma SameMondaySameWeek(a: Day, b: Day)
    requires a >= 4 && b >= 4 && MondayOf(a) == MondayOf(b)
    ensures IsoWeek(a) == IsoWeek(b)
  {
    hide MondayOf, WeekOfYearDay, DaysBeforeYear, FromOrdinal;
  }

  /** On any calendar, a replay that rebalances weekly does so at a tick exactly when a new week has begun
      since the tick before, if and only if that week is not one the numbers miss. */
  lemma WeeklyReplayIff(plan: Plan, c: Calendar, startDate: Day, endDate: Day, cadence: int,
                        maxTicks: Option<int>, feed: Instant -> Tick, k: nat)
    requires ValidFeed(plan.cfg, feed) && Rebalance in plan.cycles && plan.frequency == RebalanceSchedule.Weekly
    requires Zoned(c) && cadence > 0
    requires DatedByCalendar(c, feed, Capped(AllTicks(c, startDate, endDate + 1, cadence), maxTicks))
    requires 0 < k < |Capped(AllTicks(c, startDate, endDate + 1, cadence), maxTicks)|
    ensures var ticks := Capped(AllTicks(c, startDate, endDate + 1, cadence), maxTicks);
      var last, today := c.etDate(ticks[k - 1]), c.etDate(ticks[k]);
      && RebalanceSchedule.FIRST_ISO_DAY <= last <= today
      && ((RebalancesAt(plan, feed, ticks, k) <==> MondayOf(last) != MondayOf(today))
          <==> !RebalanceSchedule.MissesNewWeek(last, today))
  {
    hide RebalancesAt, AllTicks, MondayOf, IsoWeek;
    var ticks := Capped(AllTicks(c, startDate, endDate + 1, cadence), maxTicks);
    ReplayRebalances(plan, c, startDate, endDate, cadence, maxTicks, feed, k);
    TicksInOrder(c, startDate, endDate + 1, cadence);
    FedDays(plan, feed, ticks, k);
    var last, today := c.etDate(ticks[k - 1]), c.etDate(ticks[k]);
    if MondayOf(last) == MondayOf(today) {
      SameMondaySameWeek(last, today);
    }
  }

  /** A replay of the weekday calendar that rebalances weekly does so at exactly the first of its ticks in
      each Monday-to-Sunday week, whatever its dates, cadence and cap. */
  lemma WeeklyReplayFollowsWeeks(plan: Plan, c: Calendar, startDate: Day, endDate: Day, cadence: int,
                                 maxTicks: Option<int>, feed: Instant -> Tick, k: nat)
    requires ValidFeed(plan.cfg, feed) && Rebalance in plan.cycles && plan.frequency == RebalanceSchedule.Weekly
    requires Zoned(c) && WeekdaysTrade(c) && OpensBeforeCloses(c) && cadence > 0
    requires DatedByCalendar(c, feed, Capped(AllTicks(c, startDate, endDate + 1, cadence), maxTicks))
    requires k < |Capped(AllTicks(c, startDate, endDate + 1, cadence), maxTicks)|
    ensures var ticks := Capped(AllTicks(c, startDate, endDate + 1, cadence), maxTicks);
      RebalancesAt(plan, feed, ticks, k)
      <==> (k == 0 || MondayOf(c.etDate(ticks[k - 1])) != MondayOf(c.etDate(ticks[k])))
  {
    hide RebalancesAt, AllTicks, MondayOf;
    var all := AllTicks(c, startDate, endDate + 1, cadence);
    var ticks := Capped(all, maxTicks);
    if k == 0 {
      ReplayRebalances(plan, c, startDate, endDate, cadence, maxTicks, feed, k);
    } else {
      assert ticks[k - 1] == all[k - 1] && ticks[k] == all[k];
      WeeklyReplayIff(plan, c, startDate, endDate, cadence, maxTicks, feed, k);
      TicksAreClose(c, startDate, endDate + 1, cadence, k);
      CloseDaysMissNothing(c.etDate(ticks[k - 1]), c.etDate(ticks[k]));
    }
  }

  lemma FedDays(plan: Plan, feed: Instant -> Tick, ticks: seq<Instant>, k: nat)
    requires ValidFeed(plan.cfg, feed) && 0 < k < |ticks|
    ensures feed(ticks[k - 1]).day >= RebalanceSchedule.FIRST_ISO_DAY
    ensures feed(ticks[k]).day >= RebalanceSchedule.FIRST_ISO_DAY
  {
    FedIsValid(plan.cfg, feed, ticks);
    assert ValidTick(plan.cfg, Fed(feed, ticks)[k]) && ValidTick(plan.cfg, Fed(feed, ticks)[k - 1]);
  }

  /** On any calendar, a replay that rebalances monthly does so at exactly the first of its ticks in each
      calendar month, the same month of another year being another month. */
  lemma MonthlyReplayFollowsMonths(plan: Plan, c: Calendar, startDate: Day, endDate: Day, cadence: int,
                                   maxTicks: Option<int>, feed: Instant -> Tick, k: nat, last: Date, today: Date)
    requires ValidFeed(plan.cfg, feed) && Rebalance in plan.cycles && plan.frequency == RebalanceSchedule.Monthly
    requires Zoned(c) && cadence > 0
    requires DatedByCalendar(c, feed, Capped(AllTicks(c, startDate, endDate + 1, cadence), maxTicks))
    requires k < |Capped(AllTicks(c, startDate, endDate + 1, cadence), maxTicks)|
    requires var ticks := Capped(AllTicks(c, startDate, endDate + 1, cadence), maxTicks);
      && today.Valid() && Ordinal(today) == c.etDate(ticks[k])
      && (k > 0 ==> last.Valid() && Ordinal(last) == c.etDate(ticks[k - 1]))
    ensures var ticks := Capped(AllTicks(c, startDate, endDate + 1, cadence), maxTicks);
      RebalancesAt(plan, feed, ticks, k) <==> (k == 0 || last.year != today.year || last.month != today.month)
  {
    hide RebalancesAt, AllTicks, Ordinal, FromOrdinal;
    var ticks := Capped(AllTicks(c, startDate, endDate + 1, cadence), maxTicks);
    ReplayRebalances(plan, c, startDate, endDate, cadence, maxTicks, feed, k);
    if k > 0 {
      FedDays(plan, feed, ticks, k);
      FromOrdinalOfOrdinal(last);
      FromOrdinalOfOrdinal(today);
    }
  }
}
