/** Whether a scheduled cycle runs, waits or is skipped (scheduler/session_safety.py), and the
    waiting time (runtime/clock.py, `seconds_until_next_session_open`). */
module SessionSafety {
  import opened Common
  import opened Gregorian
  import opened MarketCalendar

  datatype Closure = Weekend | Holiday

  /** `closure_reason`: why a date has no session. */
  function ClosureReason(c: Calendar, d: Day): Option<Closure> {
    if c.isTradingDay(d) then None
    else if Weekday(d) >= 5 then Some(Weekend)
    else Some(Holiday)
  }

  /** `int(...)` of a duration: truncation toward zero, in whole seconds. */
  function WholeSeconds(micros: int): int {
    if micros >= 0 then micros / MICROS_PER_SECOND else -((-micros) / MICROS_PER_SECOND)
  }

  lemma WholeSecondsBounds(micros: int)
    requires micros >= 0
    ensures 0 <= WholeSeconds(micros) * MICROS_PER_SECOND <= micros
    ensures micros < WholeSeconds(micros) * MICROS_PER_SECOND + MICROS_PER_SECOND
  {
  }

  function NonNegative(n: int): nat {
    if n < 0 then 0 else n
  }

  const SECONDS_PER_DAY: nat := 86400

  /** `seconds_until_next_session_open`, whose outer search is over the days `candidate` up to `until`. */
  function SecondsUntilOpen(c: Calendar, now: Instant, candidate: Day, until: Day): nat
    decreases until - candidate
  {
    if candidate >= until then SECONDS_PER_DAY
    else if c.isTradingDay(candidate) then
      match NextOpen(c, now)
      case Some(open) => NonNegative(WholeSeconds(open - now))
      case None => NonNegative(WholeSeconds(c.open(candidate) - now))
    else SecondsUntilOpen(c, now, candidate + 1, until)
  }

  function SecondsUntilNextSessionOpen(c: Calendar, now: Instant): nat {
    SecondsUntilOpen(c, now, c.etDate(now), c.etDate(now) + SEARCH_DAYS)
  }

  datatype Action = Run | Delay | Skip

  datatype Reason = SessionAllowed | PremarketWait | PostCloseWait | MarketHoliday | MarketWeekend | InvalidWindow

  datatype Decision = Decision(shouldRun: bool, action: Action, reason: Reason, delaySeconds: Option<nat>)

  function Evaluate(c: Calendar, now: Instant, allowed: set<MarketPhase>): Decision {
    var phase := Phase(c, now);
    if phase in allowed then Decision(true, Run, SessionAllowed, None)
    else
      var delay := Some(SecondsUntilNextSessionOpen(c, now));
      var closure := ClosureReason(c, c.etDate(now));
      if phase == PreMarket then Decision(false, Delay, PremarketWait, delay)
      else if phase == PostMarket then Decision(false, Delay, PostCloseWait, delay)
      else if closure == Some(Holiday) then Decision(false, Skip, MarketHoliday, delay)
      else if closure == Some(Weekend) then Decision(false, Skip, MarketWeekend, delay)
      else Decision(false, Skip, InvalidWindow, delay)
  }

  lemma {:induction false} WaitIsForNextOpen(c: Calendar, now: Instant, candidate: Day, until: Day)
    requires NextOpen(c, now).Some?
    requires exists d :: candidate <= d < until && c.isTradingDay(d)
    ensures SecondsUntilOpen(c, now, candidate, until) == NonNegative(WholeSeconds(NextOpen(c, now).value - now))
    decreases until - candidate
  {
    if candidate < until && !c.isTradingDay(candidate) {
      WaitIsForNextOpen(c, now, candidate + 1, until);
    }
  }

  lemma DelayIsToNextOpen(c: Calendar, now: Instant)
    requires Zoned(c) && WeekdaysTrade(c)
    ensures NextOpen(c, now).Some? && NextOpen(c, now).value > now
    ensures SecondsUntilNextSessionOpen(c, now) == WholeSeconds(NextOpen(c, now).value - now)
  {
    hide Weekday, WholeSeconds, FirstAfter, SecondsUntilOpen;
    WeekdayNextSessions(c, now);
    var today := c.etDate(now);
    var d := WeekdayAhead(today);
    assert c.isTradingDay(d);
    WaitIsForNextOpen(c, now, today, today + SEARCH_DAYS);
    WholeSecondsBounds(NextOpen(c, now).value - now);
  }

  /** On the weekday calendar a cycle that may not run now is told to wait until the next open: the
      wait never passes the open and stops short of it by less than a second. */
  lemma DelayReachesNextOpen(c: Calendar, now: Instant, allowed: set<MarketPhase>)
    requires Zoned(c) && WeekdaysTrade(c)
    ensures NextOpen(c, now).Some?
    ensures var r := Evaluate(c, now, allowed);
      && (r.shouldRun <==> Phase(c, now) in allowed)
      && (r.shouldRun <==> r.delaySeconds.None?)
      && (r.delaySeconds.Some? ==>
            var wake := now + r.delaySeconds.value * MICROS_PER_SECOND;
            now <= wake <= NextOpen(c, now).value < wake + MICROS_PER_SECOND)
  {
    DelayIsToNextOpen(c, now);
    WholeSecondsBounds(NextOpen(c, now).value - now);
  }

  lemma {:induction false} WaitWithoutOpen(c: Calendar, now: Instant, candidate: Day, until: Day)
    requires NextOpen(c, now) == None
    requires c.etDate(now) <= candidate && until <= c.etDate(now) + SEARCH_DAYS
    ensures SecondsUntilOpen(c, now, candidate, until)
         == if exists d :: candidate <= d < until && c.isTradingDay(d) then 0 else SECONDS_PER_DAY
    decreases until - candidate
  {
    hide FirstAfter;
    FirstAfterFindsFirst(c, c.open, now, c.etDate(now), c.etDate(now) + SEARCH_DAYS);
    if candidate < until && !c.isTradingDay(candidate) {
      WaitWithoutOpen(c, now, candidate + 1, until);
    }
  }

  lemma OpenIsOnSession(c: Calendar, now: Instant)
    requires NextOpen(c, now).Some?
    ensures exists d :: c.etDate(now) <= d < c.etDate(now) + SEARCH_DAYS && c.isTradingDay(d)
    ensures NextOpen(c, now).value > now
  {
    FirstAfterFindsFirst(c, c.open, now, c.etDate(now), c.etDate(now) + SEARCH_DAYS);
  }

  /** On any calendar the wait is the whole seconds to the next open where there is one; else, within the
      fourteen days tried, nothing when there is a session, which has then opened already, and a day when
      there is none. */
  lemma WaitOnAnyCalendar(c: Calendar, now: Instant)
    ensures var today, open := c.etDate(now), NextOpen(c, now);
      SecondsUntilNextSessionOpen(c, now)
        == if open.Some? then (open.value - now) / MICROS_PER_SECOND
           else if exists d :: today <= d < today + 14 && c.isTradingDay(d) then 0 else 86400
  {
    hide FirstAfter, SecondsUntilOpen;
    var today := c.etDate(now);
    if NextOpen(c, now).Some? {
      OpenIsOnSession(c, now);
      WaitIsForNextOpen(c, now, today, today + SEARCH_DAYS);
    } else {
      WaitWithoutOpen(c, now, today, today + SEARCH_DAYS);
    }
  }

  /** Nothing opens while waiting: no session's open lies strictly between now and the wake-up. */
  lemma NoOpenIsSleptThrough(c: Calendar, now: Instant, allowed: set<MarketPhase>, d: Day)
    requires Zoned(c) && WeekdaysTrade(c) && c.isTradingDay(d)
    requires Evaluate(c, now, allowed).delaySeconds.Some?
    ensures !(now < c.open(d) < now + Evaluate(c, now, allowed).delaySeconds.value * MICROS_PER_SECOND)
  {
    DelayReachesNextOpen(c, now, allowed);
    WeekdayNextSessions(c, now);
  }

  /** "Wait" is advised exactly on session days outside hours; a skip names the closure, and the
      catch-all reason is left for a session in progress that the caller did not allow. */
  lemma ActionMatchesPhase(c: Calendar, now: Instant, allowed: set<MarketPhase>)
    ensures var r := Evaluate(c, now, allowed);
      && (r.action == Delay <==> Phase(c, now) !in allowed && Phase(c, now) in {PreMarket, PostMarket})
      && (r.reason == InvalidWindow <==> Phase(c, now) == MarketHours && MarketHours !in allowed)
      && (r.reason == MarketWeekend <==>
            Phase(c, now) !in allowed && !c.isTradingDay(c.etDate(now)) && Weekday(c.etDate(now)) >= 5)
      && (r.reason == MarketHoliday <==>
            Phase(c, now) !in allowed && !c.isTradingDay(c.etDate(now)) && Weekday(c.etDate(now)) < 5)
  {
  }

  /** The open the wait ends at: a pre-market wait ends at the same date's open, every other one at a
      later date's. */
  lemma NextOpenIsTodayIff(c: Calendar, now: Instant)
    requires Zoned(c) && WeekdaysTrade(c)
    ensures NextOpen(c, now).Some?
    ensures Phase(c, now) == PreMarket <==> NextOpen(c, now).value == c.open(c.etDate(now))
    ensures Phase(c, now) != PreMarket ==> c.etDate(NextOpen(c, now).value) > c.etDate(now)
  {
    WeekdayNextSessions(c, now);
    var today, open := c.etDate(now), NextOpen(c, now).value;
    var d :| c.isTradingDay(d) && c.open(d) == open;
    assert c.etDate(c.open(d)) == d >= today;
    if Phase(c, now) == PreMarket && today < d {
      BoundariesFollowDays(c, c.open, today, d);
    }
  }

  /** Each reason names what is waited for: the pre-market wait today's open, the wait after the close and
      the weekend or holiday skip a later date's, with no session today in the latter case; and the
      catch-all reason is left for a session in progress that the caller did not allow. */
  lemma ReasonNamesTheOpen(c: Calendar, now: Instant, allowed: set<MarketPhase>)
    requires Zoned(c) && WeekdaysTrade(c)
    ensures NextOpen(c, now).Some?
    ensures var r, open, today := Evaluate(c, now, allowed), NextOpen(c, now).value, c.etDate(now);
      && (r.action == Run <==> r.reason == SessionAllowed)
      && (r.action == Delay <==> r.reason == PremarketWait || r.reason == PostCloseWait)
      && (r.reason == PremarketWait ==> open == c.open(today))
      && (r.reason == PostCloseWait ==> c.close(today) <= now && c.isTradingDay(today) && c.etDate(open) > today)
      && (r.reason == MarketWeekend ==> Weekday(today) >= 5 && c.etDate(open) > today)
      && r.reason != MarketHoliday
      && (r.reason == InvalidWindow <==> Phase(c, now) == MarketHours && MarketHours !in allowed)
  {
    NextOpenIsTodayIff(c, now);
    ActionMatchesPhase(c, now, allowed);
  }
}
