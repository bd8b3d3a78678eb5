/** Market sessions (runtime/clock.py). The time zone is abstract: a map from instants to Eastern
    dates, with each session's boundaries on its own date. */
module MarketCalendar {
  import opened Common
  import opened Gregorian

  datatype Calendar = Calendar(
    etDate: Instant -> Day,
    open: Day -> Instant,
    close: Day -> Instant,
    eodWindow: Day -> Instant,
    isTradingDay: Day -> bool)

  /** Eastern dates do not run backwards, and a session opens and closes on its own date. */
  ghost predicate Zoned(c: Calendar) {
    && (forall a, b :: a <= b ==> c.etDate(a) <= c.etDate(b))
    && (forall d :: c.etDate(c.open(d)) == d)
    && (forall d :: c.etDate(c.close(d)) == d)
  }

  /** The historical calendar: every weekday is a session, whatever its closing time. */
  ghost predicate WeekdaysTrade(c: Calendar) {
    forall d :: c.isTradingDay(d) <==> Weekday(d) < 5
  }

  // ---------------------------------------------------------------------------
  // Bounded searches
  // ---------------------------------------------------------------------------

  const SEARCH_DAYS := 14

  /** The first session boundary after `now`, trying the days from `candidate` up to `until`. */
  function FirstAfter(c: Calendar, boundary: Day -> Instant, now: Instant, candidate: Day, until: Day): Option<Instant>
    decreases until - candidate
  {
    if candidate >= until then None
    else if c.isTradingDay(candidate) && now < boundary(candidate) then Some(boundary(candidate))
    else FirstAfter(c, boundary, now, candidate + 1, until)
  }

  function NextOpen(c: Calendar, now: Instant): Option<Instant> {
    FirstAfter(c, c.open, now, c.etDate(now), c.etDate(now) + SEARCH_DAYS)
  }

  function NextClose(c: Calendar, now: Instant): Option<Instant> {
    FirstAfter(c, c.close, now, c.etDate(now), c.etDate(now) + SEARCH_DAYS)
  }

  method NextSessionOpen(c: Calendar, now: Instant) returns (r: Option<Instant>)
    ensures r == NextOpen(c, now)
  {
    var candidate := c.etDate(now);
    for i := 0 to SEARCH_DAYS
      invariant candidate == c.etDate(now) + i
      invariant NextOpen(c, now) == FirstAfter(c, c.open, now, candidate, c.etDate(now) + SEARCH_DAYS)
    {
      if c.isTradingDay(candidate) {
        var open := c.open(candidate);
        if now < open {
          return Some(open);
        }
      }
      candidate := candidate + 1;
    }
    return None;
  }

  method NextSessionClose(c: Calendar, now: Instant) returns (r: Option<Instant>)
    ensures r == NextClose(c, now)
  {
    var candidate := c.etDate(now);
    for i := 0 to SEARCH_DAYS
      invariant candidate == c.etDate(now) + i
      invariant NextClose(c, now) == FirstAfter(c, c.close, now, candidate, c.etDate(now) + SEARCH_DAYS)
    {
      if c.isTradingDay(candidate) {
        var close := c.close(candidate);
        if now < close {
          return Some(close);
        }
      }
      candidate := candidate + 1;
    }
    return None;
  }

  /** A boundary kind: each day's boundary falls on that Eastern date. */
  ghost predicate OnItsDate(c: Calendar, boundary: Day -> Instant) {
    forall d :: c.etDate(boundary(d)) == d
  }

  lemma BoundariesFollowDays(c: Calendar, boundary: Day -> Instant, d: Day, e: Day)
    requires Zoned(c) && OnItsDate(c, boundary) && d < e
    ensures boundary(d) < boundary(e)
  {
    assert c.etDate(boundary(d)) < c.etDate(boundary(e));
  }

  /** `d` is the first day from `candidate` up to `until` with a boundary after `now`. */
  ghost predicate IsFirstAfter(c: Calendar, boundary: Day -> Instant, now: Instant, candidate: Day, until: Day, d: Day)
  {
    && candidate <= d < until
    && c.isTradingDay(d) && now < boundary(d)
    && (forall e :: candidate <= e < d && c.isTradingDay(e) ==> boundary(e) <= now)
  }

  lemma {:induction false} FirstAfterFindsFirst(c: Calendar, boundary: Day -> Instant, now: Instant, candidate: Day,
                                                until: Day)
    ensures FirstAfter(c, boundary, now, candidate, until).None? ==>
              forall d :: candidate <= d < until && c.isTradingDay(d) ==> boundary(d) <= now
    ensures FirstAfter(c, boundary, now, candidate, until).Some? ==>
              exists d :: IsFirstAfter(c, boundary, now, candidate, until, d)
                && FirstAfter(c, boundary, now, candidate, until).value == boundary(d)
    decreases until - candidate
  {
    if candidate >= until {
    } else if c.isTradingDay(candidate) && now < boundary(candidate) {
      assert IsFirstAfter(c, boundary, now, candidate, until, candidate);
    } else {
      FirstAfterFindsFirst(c, boundary, now, candidate + 1, until);
      if FirstAfter(c, boundary, now, candidate, until).Some? {
        var d :| IsFirstAfter(c, boundary, now, candidate + 1, until, d)
          && FirstAfter(c, boundary, now, candidate + 1, until).value == boundary(d);
        assert IsFirstAfter(c, boundary, now, candidate, until, d);
      }
    }
  }

  ghost predicate IsLeastAfter(c: Calendar, boundary: Day -> Instant, now: Instant, v: Instant) {
    && now < v
    && (exists d :: c.isTradingDay(d) && boundary(d) == v)
    && (forall d :: c.isTradingDay(d) && now < boundary(d) ==> v <= boundary(d))
  }

  lemma FirstFromTodayIsLeast(c: Calendar, boundary: Day -> Instant, now: Instant, until: Day, d: Day)
    requires Zoned(c) && OnItsDate(c, boundary) && IsFirstAfter(c, boundary, now, c.etDate(now), until, d)
    ensures IsLeastAfter(c, boundary, now, boundary(d))
  {
    forall e | c.isTradingDay(e) && now < boundary(e) ensures boundary(d) <= boundary(e) {
      assert c.etDate(now) <= c.etDate(boundary(e)) == e;
      if d < e {
        BoundariesFollowDays(c, boundary, d, e);
      }
    }
  }

  /** What a bounded search finds is the least boundary after now over all trading days of the
      calendar, not only those it tried; it finds none only if those it tried have none. */
  lemma SearchFindsLeast(c: Calendar, boundary: Day -> Instant, now: Instant, until: Day)
    requires Zoned(c) && OnItsDate(c, boundary)
    ensures var r := FirstAfter(c, boundary, now, c.etDate(now), until);
      && (r.Some? ==> IsLeastAfter(c, boundary, now, r.value))
      && (r.None? ==> forall d :: c.etDate(now) <= d < until && c.isTradingDay(d) ==> boundary(d) <= now)
  {
    FirstAfterFindsFirst(c, boundary, now, c.etDate(now), until);
    var r := FirstAfter(c, boundary, now, c.etDate(now), until);
    if r.Some? {
      var d :| IsFirstAfter(c, boundary, now, c.etDate(now), until, d) && r.value == boundary(d);
      FirstFromTodayIsLeast(c, boundary, now, until, d);
    }
  }

  /** On the weekday calendar the searches never fail: a weekend is two days long. */
  lemma WeekdaySearchSucceeds(c: Calendar, boundary: Day -> Instant, now: Instant)
    requires Zoned(c) && OnItsDate(c, boundary) && WeekdaysTrade(c)
    ensures FirstAfter(c, boundary, now, c.etDate(now), c.etDate(now) + SEARCH_DAYS).Some?
  {
    hide Weekday, FirstAfter;
    var today := c.etDate(now);
    SearchFindsLeast(c, boundary, now, today + SEARCH_DAYS);
    var d := WeekdayAhead(today + 1);
    assert c.isTradingDay(d);
    assert c.etDate(boundary(d)) > c.etDate(now);
  }

  /** `next_session_open` and `next_session_close` on the weekday calendar: always an answer, and
      it is the least open, or close, strictly after now over all days. */
  lemma WeekdayNextSessions(c: Calendar, now: Instant)
    requires Zoned(c) && WeekdaysTrade(c)
    ensures NextOpen(c, now).Some? && IsLeastAfter(c, c.open, now, NextOpen(c, now).value)
    ensures NextClose(c, now).Some? && IsLeastAfter(c, c.close, now, NextClose(c, now).value)
  {
    hide FirstAfter, IsLeastAfter, WeekdaysTrade;
    WeekdaySearchSucceeds(c, c.open, now);
    WeekdaySearchSucceeds(c, c.close, now);
    SearchFindsLeast(c, c.open, now, c.etDate(now) + SEARCH_DAYS);
    SearchFindsLeast(c, c.close, now, c.etDate(now) + SEARCH_DAYS);
  }

  // ---------------------------------------------------------------------------
  // Phases
  // ---------------------------------------------------------------------------

  datatype MarketPhase = PreMarket | MarketHours | PostMarket | NonTradingDay

  function Phase(c: Calendar, now: Instant): MarketPhase {
    var d := c.etDate(now);
    if !c.isTradingDay(d) then NonTradingDay
    else if now < c.open(d) then PreMarket
    else if now < c.close(d) then MarketHours
    else PostMarket
  }

  /** No session closes before it opens. */
  ghost predicate OpensBeforeCloses(c: Calendar) {
    forall d :: c.isTradingDay(d) ==> c.open(d) <= c.close(d)
  }

  /** The phase and the searches tell the same story at `now`. */
  ghost predicate PhaseAgreesWithSearch(c: Calendar, now: Instant) {
    NextOpen(c, now).Some? && NextClose(c, now).Some? ==>
      (Phase(c, now) == MarketHours <==> NextClose(c, now).value < NextOpen(c, now).value)
  }

  lemma OrderedSessionsAgree(c: Calendar, now: Instant)
    requires Zoned(c) && OpensBeforeCloses(c)
    ensures PhaseAgreesWithSearch(c, now)
  {
    hide FirstAfter, IsLeastAfter;
    if NextOpen(c, now).Some? && NextClose(c, now).Some? {
      SearchFindsLeast(c, c.open, now, c.etDate(now) + SEARCH_DAYS);
      SearchFindsLeast(c, c.close, now, c.etDate(now) + SEARCH_DAYS);
      if Phase(c, now) == MarketHours {
        CloseComesFirstInHours(c, now, NextOpen(c, now).value, NextClose(c, now).value);
      } else {
        OpenComesFirstOutOfHours(c, now, NextOpen(c, now).value, NextClose(c, now).value);
      }
    }
  }

  lemma CloseComesFirstInHours(c: Calendar, now: Instant, open: Instant, close: Instant)
    requires Zoned(c) && Phase(c, now) == MarketHours
    requires IsLeastAfter(c, c.open, now, open) && IsLeastAfter(c, c.close, now, close)
    ensures close < open
  {
    var today := c.etDate(now);
    assert close <= c.close(today);
    var d :| c.isTradingDay(d) && c.open(d) == open;
    assert c.etDate(c.open(d)) == d;
    if today < d {
      BoundariesBetween(c, today, d);
    }
  }

  lemma OpenComesFirstOutOfHours(c: Calendar, now: Instant, open: Instant, close: Instant)
    requires Zoned(c) && OpensBeforeCloses(c) && Phase(c, now) != MarketHours
    requires IsLeastAfter(c, c.open, now, open) && IsLeastAfter(c, c.close, now, close)
    ensures open <= close
  {
    var d :| c.isTradingDay(d) && c.close(d) == close;
    assert c.etDate(c.close(d)) == d && c.etDate(c.open(d)) == d;
    assert now < c.open(d) ==> open <= c.open(d) <= c.close(d);
  }

  lemma BoundariesBetween(c: Calendar, d: Day, e: Day)
    requires Zoned(c) && d < e
    ensures c.close(d) < c.open(e)
  {
    assert c.etDate(c.close(d)) < c.etDate(c.open(e));
  }

  lemma InvertedSessionDisagrees(c: Calendar, d: Day)
    requires Zoned(c) && WeekdaysTrade(c) && c.isTradingDay(d) && c.close(d) < c.open(d)
    ensures !PhaseAgreesWithSearch(c, c.close(d) - 1)
  {
    var now := c.close(d) - 1;
    WeekdayNextSessions(c, now);
    var open := NextOpen(c, now).value;
    assert NextClose(c, now).value == c.close(d);
    var e :| c.isTradingDay(e) && c.open(e) == open;
    assert c.etDate(c.open(e)) == e && c.etDate(c.close(d)) == d;
    assert open != c.close(d);
    var today := c.etDate(now);
    assert today <= d;
    if today < d {
      BoundariesFollowDays(c, c.close, today, d);
    }
  }

  /** On the weekday calendar, "market hours" means exactly "the next close precedes the next open"
      at every instant if and only if no session, early close or not, closes before it opens. */
  lemma PhaseAgreesIffSessionsOrdered(c: Calendar)
    requires Zoned(c) && WeekdaysTrade(c)
    ensures (forall now :: PhaseAgreesWithSearch(c, now)) <==> OpensBeforeCloses(c)
  {
    if OpensBeforeCloses(c) {
      forall now ensures PhaseAgreesWithSearch(c, now) {
        OrderedSessionsAgree(c, now);
      }
    } else {
      var d :| c.isTradingDay(d) && c.close(d) < c.open(d);
      InvertedSessionDisagrees(c, d);
    }
  }

  // ---------------------------------------------------------------------------
  // Week and month anchors, for any trading-day predicate
  // ---------------------------------------------------------------------------

  predicate AnyTradingDay(c: Calendar, from: Day, until: Day) {
    exists d :: from <= d < until && c.isTradingDay(d)
  }

  predicate IsFirstTradingDayOfWeek(c: Calendar, value: Day) {
    c.isTradingDay(value) && !AnyTradingDay(c, MondayOf(value), value)
  }

  predicate IsLastTradingDayOfMonth(c: Calendar, value: Date)
    requires value.Valid()
  {
    c.isTradingDay(Ordinal(value)) && !AnyTradingDay(c, Ordinal(value) + 1, Ordinal(MonthEnd(value)) + 1)
  }

  lemma SameWeek(d: Day, monday: Day)
    requires Weekday(monday) == 0
    ensures MondayOf(d) == monday <==> monday <= d < monday + 7
    ensures Weekday(MondayOf(d)) == 0
  {
  }

  lemma {:induction false} EarliestTradingDay(c: Calendar, from: Day, until: Day) returns (d: Day)
    requires AnyTradingDay(c, from, until)
    ensures from <= d < until && c.isTradingDay(d) && !AnyTradingDay(c, from, d)
    decreases until - from
  {
    if AnyTradingDay(c, from, until - 1) {
      d := EarliestTradingDay(c, from, until - 1);
    } else {
      d := until - 1;
    }
  }

  lemma {:induction false} LatestTradingDay(c: Calendar, from: Day, until: Day) returns (d: Day)
    requires AnyTradingDay(c, from, until)
    ensures from <= d < until && c.isTradingDay(d) && !AnyTradingDay(c, d + 1, until)
    decreases until - from
  {
    if AnyTradingDay(c, from + 1, until) {
      d := LatestTradingDay(c, from + 1, until);
    } else {
      d := from;
    }
  }

  /** Each Monday-to-Sunday week with a session has exactly one first trading day, its earliest. */
  lemma WeekHasOneFirstTradingDay(c: Calendar, monday: Day)
    requires Weekday(monday) == 0 && AnyTradingDay(c, monday, monday + 7)
    ensures exists first :: monday <= first < monday + 7 && IsFirstTradingDayOfWeek(c, first)
              && (forall d :: monday <= d < monday + 7 && c.isTradingDay(d) ==> first <= d)
              && (forall d :: monday <= d < monday + 7 && IsFirstTradingDayOfWeek(c, d) ==> d == first)
  {
    var first := EarliestTradingDay(c, monday, monday + 7);
    forall d | monday <= d < monday + 7 ensures MondayOf(d) == monday {
      SameWeek(d, monday);
    }
    assert IsFirstTradingDayOfWeek(c, first);
  }

  predicate InMonthOf(d: Date, year: int, month: int) {
    d.Valid() && d.year == year && d.month == month
  }

  /** `last` is the one date of its month that the predicate accepts, and the month's latest
      session. */
  ghost predicate IsMonthsAnchor(c: Calendar, last: Date)
    requires last.Valid()
  {
    && c.isTradingDay(Ordinal(last))
    && (forall d: Date :: InMonthOf(d, last.year, last.month) && c.isTradingDay(Ordinal(d)) ==> d.day <= last.day)
    && (forall d: Date :: InMonthOf(d, last.year, last.month) ==> (IsLastTradingDayOfMonth(c, d) <==> d == last))
  }

  /** Each calendar month with a session has exactly one last trading day, its latest, for every
      month of every year. */
  lemma MonthHasOneLastTradingDay(c: Calendar, year: int, month: int)
    requires exists d: Date :: InMonthOf(d, year, month) && c.isTradingDay(Ordinal(d))
    ensures exists last: Date :: InMonthOf(last, year, month) && IsMonthsAnchor(c, last)
  {
    var some: Date :| InMonthOf(some, year, month) && c.isTradingDay(Ordinal(some));
    var last := LatestOfMonth(c, some);
    forall d: Date | InMonthOf(d, year, month)
      ensures c.isTradingDay(Ordinal(d)) ==> d.day <= last.day
      ensures IsLastTradingDayOfMonth(c, d) <==> d == last
    {
      AnchorOfMonth(c, some.(day := 1), last, d);
    }
    assert IsMonthsAnchor(c, last);
  }

  lemma LatestOfMonth(c: Calendar, some: Date) returns (last: Date)
    requires some.Valid() && c.isTradingDay(Ordinal(some))
    ensures InMonthOf(last, some.year, some.month) && c.isTradingDay(Ordinal(last))
    ensures !AnyTradingDay(c, Ordinal(last) + 1, Ordinal(LastDayOf(some)) + 1)
  {
    var first := some.(day := 1);
    var start, end := Ordinal(first), Ordinal(LastDayOf(first));
    InMonth(first, some);
    var n := LatestTradingDay(c, start, end + 1);
    DaysToMonthEnd(first, n);
    last := first.(day := first.day + (n - start));
  }

  lemma AnchorOfMonth(c: Calendar, first: Date, last: Date, d: Date)
    requires InMonthOf(first, d.year, d.month) && InMonthOf(last, d.year, d.month) && InMonthOf(d, d.year, d.month)
    requires first.day == 1 && c.isTradingDay(Ordinal(last))
    requires !AnyTradingDay(c, Ordinal(last) + 1, Ordinal(LastDayOf(first)) + 1)
    ensures c.isTradingDay(Ordinal(d)) ==> d.day <= last.day
    ensures IsLastTradingDayOfMonth(c, d) <==> d == last
  {
    hide Ordinal, MonthEnd, LastDayOf, DaysInMonth;
    MonthEndIsLastDay(d);
    InMonth(first, d);
    InMonth(first, last);
  }

  lemma InMonth(first: Date, d: Date)
    requires first.Valid() && first.day == 1 && d.Valid() && d.year == first.year && d.month == first.month
    ensures Ordinal(d) == Ordinal(first) + d.day - 1
    ensures Ordinal(first) <= Ordinal(d) <= Ordinal(LastDayOf(first))
    ensures LastDayOf(d) == LastDayOf(first)
  {
    SameMonth(first, d.day);
    SameMonth(first, DaysInMonth(first.year, first.month));
  }
}
