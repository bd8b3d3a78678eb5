/** The calendar's own tick generator (runtime/clock.py, `scheduled_times`). */
module TickSchedule {
  import opened Common
  import opened MarketCalendar

  /** The ticks of one session: its open and every `interval` after it up to and including the end. */
  function DayTicks(tick: Instant, end: Instant, interval: int): seq<Instant>
    requires interval > 0
    decreases end - tick
  {
    if tick > end then [] else [tick] + DayTicks(tick + interval, end, interval)
  }

  /** The ticks of every session from `start` up to, not including, `until`. */
  function AllTicks(c: Calendar, start: Day, until: Day, interval: int): seq<Instant>
    requires interval > 0
    decreases until - start
  {
    if start >= until then []
    else
      AllTicks(c, start, until - 1, interval)
      + if c.isTradingDay(until - 1) then DayTicks(c.open(until - 1), c.close(until - 1), interval) else []
  }

  /** At most `cap` of them, when there is a cap. */
  function Capped(ticks: seq<Instant>, cap: Option<int>): seq<Instant> {
    match cap
    case None => ticks
    case Some(n) => if n <= 0 then [] else if n < |ticks| then ticks[..n] else ticks
  }

  /** A cap keeps the earliest ticks, as many as it allows: none when it is not positive. */
  lemma CappedAreFirst(ticks: seq<Instant>, cap: Option<int>)
    ensures Capped(ticks, cap) <= ticks
    ensures Capped(ticks, None) == ticks
    ensures cap.Some? ==>
              |Capped(ticks, cap)| == if cap.value < 0 then 0 else if |ticks| < cap.value then |ticks| else cap.value
  {
  }

  predicate ReachedCap(count: nat, cap: Option<int>) {
    cap.Some? && count >= cap.value
  }

  method ScheduledTimes(c: Calendar, start: Day, end: Day, interval: int, maxTicks: Option<int>)
    returns (ticks: seq<Instant>)
    requires interval > 0
    ensures ticks == Capped(AllTicks(c, start, end + 1, interval), maxTicks)
  {
    ticks := [];
    var current := start;
    while current <= end
      invariant start <= current && (current <= end + 1 || current == start)
      invariant ticks == AllTicks(c, start, current, interval)
      invariant UnderCap(|ticks|, maxTicks)
      decreases end - current
    {
      NextDayTicks(c, start, current, interval);
      if c.isTradingDay(current) {
        var tick, sessionEnd := c.open(current), c.close(current);
        while tick <= sessionEnd
          invariant AllTicks(c, start, current + 1, interval) == ticks + DayTicks(tick, sessionEnd, interval)
          invariant UnderCap(|ticks|, maxTicks)
          decreases sessionEnd - tick
        {
          if ReachedCap(|ticks|, maxTicks) {
            CappedHere(c, start, current + 1, end + 1, interval, maxTicks, ticks);
            return;
          }
          NextTick(ticks, tick, sessionEnd, interval);
          ticks := ticks + [tick];
          tick := tick + interval;
        }
      }
      current := current + 1;
    }
    assert end < start ==> AllTicks(c, start, end + 1, interval) == ticks;
  }

  /** No more ticks than the cap, which a cap that is not positive makes none. */
  predicate UnderCap(count: nat, cap: Option<int>) {
    cap.Some? ==> count == 0 || count <= cap.value
  }

  lemma NextDayTicks(c: Calendar, start: Day, day: Day, interval: int)
    requires interval > 0 && start <= day
    ensures AllTicks(c, start, day + 1, interval) == AllTicks(c, start, day, interval)
              + if c.isTradingDay(day) then DayTicks(c.open(day), c.close(day), interval) else []
  {
  }

  lemma NextTick(done: seq<Instant>, tick: Instant, end: Instant, interval: int)
    requires interval > 0 && tick <= end
    ensures done + DayTicks(tick, end, interval) == done + [tick] + DayTicks(tick + interval, end, interval)
  {
  }

  /** Once the cap is reached, what has been produced is all there will be. */
  lemma CappedHere(c: Calendar, start: Day, mid: Day, until: Day, interval: int, cap: Option<int>, ticks: seq<Instant>)
    requires interval > 0 && mid <= until
    requires ticks <= AllTicks(c, start, mid, interval) && ReachedCap(|ticks|, cap) && UnderCap(|ticks|, cap)
    ensures ticks == Capped(AllTicks(c, start, until, interval), cap)
  {
    PrefixOfLater(c, start, mid, until, interval);
  }

  lemma {:induction false} PrefixOfLater(c: Calendar, start: Day, mid: Day, until: Day, interval: int)
    requires interval > 0 && mid <= until
    ensures AllTicks(c, start, mid, interval) <= AllTicks(c, start, until, interval)
    decreases until - mid
  {
    if mid < until && start < until {
      PrefixOfLater(c, start, mid, until - 1, interval);
    }
  }

  // ---------------------------------------------------------------------------
  // Order and completeness
  // ---------------------------------------------------------------------------

  predicate StrictlyIncreasing(ticks: seq<Instant>) {
    forall i, j :: 0 <= i < j < |ticks| ==> ticks[i] < ticks[j]
  }

  lemma PrependEarlier(tick: Instant, rest: seq<Instant>, end: Instant)
    requires tick <= end && StrictlyIncreasing(rest)
    requires forall i :: 0 <= i < |rest| ==> tick < rest[i] <= end
    ensures StrictlyIncreasing([tick] + rest)
    ensures forall i :: 0 <= i < |[tick] + rest| ==> tick <= ([tick] + rest)[i] <= end
  {
  }

  lemma {:induction false} DayTicksOrdered(tick: Instant, end: Instant, interval: int)
    requires interval > 0
    ensures StrictlyIncreasing(DayTicks(tick, end, interval))
    ensures forall i :: 0 <= i < |DayTicks(tick, end, interval)| ==> tick <= DayTicks(tick, end, interval)[i] <= end
    decreases end - tick
  {
    if tick <= end {
      DayTicksOrdered(tick + interval, end, interval);
      PrependEarlier(tick, DayTicks(tick + interval, end, interval), end);
    }
  }

  lemma OneMoreInterval(k: int, interval: int)
    ensures k * interval == (k - 1) * interval + interval
  {
  }

  lemma {:induction false} DayTickAt(tick: Instant, end: Instant, interval: int, k: nat)
    requires interval > 0 && k < |DayTicks(tick, end, interval)|
    ensures DayTicks(tick, end, interval)[k] == tick + k * interval
    decreases k
  {
    if k > 0 {
      DayTickAt(tick + interval, end, interval, k - 1);
      OneMoreInterval(k, interval);
    }
  }

  lemma {:induction false} DayTicksReach(tick: Instant, end: Instant, interval: int, k: nat)
    requires interval > 0 && tick + k * interval <= end
    ensures k < |DayTicks(tick, end, interval)|
    decreases k
  {
    if k > 0 {
      OneMoreInterval(k, interval);
      assert (k - 1) * interval >= 0;
      DayTicksReach(tick + interval, end, interval, k - 1);
    }
  }

  /** `t` is the `k`-th tick of the session of `d`. */
  predicate IsTickOf(c: Calendar, interval: int, d: Day, k: nat, t: Instant) {
    c.isTradingDay(d) && t == c.open(d) + k * interval && t <= c.close(d)
  }

  lemma {:induction false} TicksInOrder(c: Calendar, start: Day, until: Day, interval: int)
    requires interval > 0 && Zoned(c)
    ensures StrictlyIncreasing(AllTicks(c, start, until, interval))
    ensures forall t :: t in AllTicks(c, start, until, interval) ==>
              exists d: Day, k: nat :: start <= d < until && IsTickOf(c, interval, d, k, t)
    ensures forall t :: t in AllTicks(c, start, until, interval) ==> start <= c.etDate(t) < until
    decreases until - start
  {
    if start < until {
      var d := until - 1;
      var before := AllTicks(c, start, d, interval);
      TicksInOrder(c, start, d, interval);
      if c.isTradingDay(d) {
        var session := DayTicks(c.open(d), c.close(d), interval);
        DayTicksOrdered(c.open(d), c.close(d), interval);
        SessionTicksOnDate(c, d, interval);
        assert c.etDate(c.open(d)) == d;
        forall i, j | 0 <= i < |before| && 0 <= j < |session| ensures before[i] < session[j] {
          assert before[i] in before;
          assert session[j] in session;
        }
        forall t | t in session ensures exists k: nat :: IsTickOf(c, interval, d, k, t) {
          var k :| 0 <= k < |session| && session[k] == t;
          DayTickAt(c.open(d), c.close(d), interval, k);
          assert IsTickOf(c, interval, d, k, t);
        }
      }
    }
  }

  lemma SessionTicksOnDate(c: Calendar, d: Day, interval: int)
    requires interval > 0 && Zoned(c)
    ensures forall t :: t in DayTicks(c.open(d), c.close(d), interval) ==>
              c.etDate(t) == d && c.open(d) <= t <= c.close(d)
  {
    DayTicksOrdered(c.open(d), c.close(d), interval);
    forall t | t in DayTicks(c.open(d), c.close(d), interval) ensures c.etDate(t) == d {
      assert c.etDate(c.open(d)) <= c.etDate(t) <= c.etDate(c.close(d));
    }
  }

  lemma {:induction false} EveryTickIsScheduled(c: Calendar, start: Day, until: Day, interval: int, d: Day, k: nat)
    requires interval > 0
    requires start <= d < until && IsTickOf(c, interval, d, k, c.open(d) + k * interval)
    ensures c.open(d) + k * interval in AllTicks(c, start, until, interval)
    decreases until - start
  {
    if d == until - 1 {
      DayTicksReach(c.open(d), c.close(d), interval, k);
      DayTickAt(c.open(d), c.close(d), interval, k);
    } else {
      EveryTickIsScheduled(c, start, until - 1, interval, d, k);
    }
  }

  /** The ticks of a range of days are exactly the instants open + k * interval up to the close of
      its sessions, each once, in time order. */
  lemma TicksAreExactly(c: Calendar, start: Day, until: Day, interval: int, t: Instant)
    requires interval > 0 && Zoned(c)
    ensures StrictlyIncreasing(AllTicks(c, start, until, interval))
    ensures t in AllTicks(c, start, until, interval) <==>
              exists d: Day, k: nat :: start <= d < until && IsTickOf(c, interval, d, k, t)
  {
    TicksInOrder(c, start, until, interval);
    if exists d: Day, k: nat :: start <= d < until && IsTickOf(c, interval, d, k, t) {
      var d: Day, k: nat :| start <= d < until && IsTickOf(c, interval, d, k, t);
      EveryTickIsScheduled(c, start, until, interval, d, k);
    }
  }
}
