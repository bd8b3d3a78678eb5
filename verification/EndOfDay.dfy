/** The end-of-day gate and the polling loop around it (runtime/clock.py, `is_eod_eligible`;
    cli/commands/runtime_soak_loop.py). */
module EndOfDay {
  import opened Common
  import opened Gregorian
  import opened MarketCalendar

  function IsEodEligible(c: Calendar, now: Instant, lastEodDate: Option<Day>): bool {
    var today := c.etDate(now);
    if !c.isTradingDay(today) then false
    else if Phase(c, now) != PostMarket then false
    else if now < c.eodWindow(today) then false
    else lastEodDate != Some(today)
  }

  /** How an eligible poll ends: another runner holds the lock, the chain is interrupted, the runner
      itself fails, or the chain is done with for the day and the date of its start is recorded. */
  datatype Outcome = LockTaken | Interrupted | RunnerFailed | Finished(started: Instant)

  /** A poll of the loop, and how the job would end if it were called. */
  datatype Poll = Poll(now: Instant, outcome: Outcome)

  /** Both the close and the end-of-day window of the poll's own session have passed. */
  predicate AfterCloseAndWindow(c: Calendar, now: Instant) {
    var today := c.etDate(now);
    c.isTradingDay(today) && Phase(c, now) == PostMarket && now >= c.eodWindow(today)
  }

  /** What the runner remembers: the recorded Eastern date of the last run, and the runs. */
  datatype State = State(done: Option<Day>, runs: seq<Poll>)

  const FRESH := State(None, [])

  function AfterPoll(c: Calendar, s: State, p: Poll): State {
    if IsEodEligible(c, p.now, s.done) && p.outcome.Finished?
    then State(Some(c.etDate(p.outcome.started)), s.runs + [p])
    else s
  }

  function AfterPolls(c: Calendar, polls: seq<Poll>): State {
    if polls == [] then FRESH else AfterPoll(c, AfterPolls(c, polls[..|polls| - 1]), polls[|polls| - 1])
  }

  /** The polls at which the job ran to its end. */
  function Runs(c: Calendar, polls: seq<Poll>): seq<Poll> {
    AfterPolls(c, polls).runs
  }

  /** The runner: it polls, runs the job when eligible and records the date. */
  class Runner {
    var eodDoneFor: Option<Day>
    var runs: seq<Poll>

    constructor ()
      ensures eodDoneFor == None && runs == []
    {
      eodDoneFor, runs := None, [];
    }

    method PollOnce(c: Calendar, p: Poll)
      modifies this
      ensures State(eodDoneFor, runs) == AfterPoll(c, old(State(eodDoneFor, runs)), p)
    {
      if IsEodEligible(c, p.now, eodDoneFor) {
        match p.outcome
        case Finished(started) =>
          runs := runs + [p];
          eodDoneFor := Some(c.etDate(started));
        case _ =>
      }
    }

    method PollAll(c: Calendar, polls: seq<Poll>)
      requires eodDoneFor == None && runs == []
      modifies this
      ensures State(eodDoneFor, runs) == AfterPolls(c, polls)
    {
      for i := 0 to |polls|
        invariant State(eodDoneFor, runs) == AfterPolls(c, polls[..i])
      {
        assert polls[..i + 1][..i] == polls[..i];
        PollOnce(c, polls[i]);
      }
      assert polls[..|polls|] == polls;
    }
  }

  // ---------------------------------------------------------------------------
  // Any order of polls
  // ---------------------------------------------------------------------------

  /** The polls that would finish the job were nothing recorded. */
  predicate IsDue(c: Calendar, p: Poll) {
    AfterCloseAndWindow(c, p.now) && p.outcome.Finished?
  }

  function DuePolls(c: Calendar, polls: seq<Poll>): (due: seq<Poll>)
    ensures forall p :: p in due <==> p in polls && IsDue(c, p)
  {
    if polls == [] then []
    else
      var front, last := DuePolls(c, polls[..|polls| - 1]), polls[|polls| - 1];
      assert forall p :: p in polls <==> p in polls[..|polls| - 1] || p == last;
      if IsDue(c, last) then front + [last] else front
  }

  function DateOf(c: Calendar, p: Poll): Day {
    c.etDate(p.now)
  }

  /** The date a finished poll's job records. */
  function RecordOf(c: Calendar, p: Poll): Day {
    if p.outcome.Finished? then c.etDate(p.outcome.started) else DateOf(c, p)
  }

  /** Whether the last of the due polls runs: the first one does, and a later one does when its date is
      not the one recorded before it. That is what its predecessor recorded if that one ran, and the
      predecessor's own date if not. */
  predicate Carries(c: Calendar, due: seq<Poll>)
    requires due != []
    decreases |due|, 0
  {
    var front, last := due[..|due| - 1], due[|due| - 1];
    front == [] || RecordAfter(c, front) != DateOf(c, last)
  }

  /** The date recorded after the due polls. */
  function RecordAfter(c: Calendar, due: seq<Poll>): Day
    requires due != []
    decreases |due|, 1
  {
    var last := due[|due| - 1];
    if Carries(c, due) then RecordOf(c, last) else DateOf(c, last)
  }

  /** The due polls that run. */
  function Carriers(c: Calendar, due: seq<Poll>): seq<Poll> {
    if due == [] then []
    else
      var front := Carriers(c, due[..|due| - 1]);
      if Carries(c, due) then front + [due[|due| - 1]] else front
  }

  /** What the due polls alone say the state is. */
  function StateOf(c: Calendar, due: seq<Poll>): State {
    State(if due == [] then None else Some(RecordAfter(c, due)), Carriers(c, due))
  }

  lemma OneMoreDuePoll(c: Calendar, due: seq<Poll>, p: Poll)
    ensures AfterPoll(c, StateOf(c, due), p) == StateOf(c, if IsDue(c, p) then due + [p] else due)
  {
    assert (due + [p])[..|due|] == due;
  }

  lemma NothingDue(c: Calendar)
    ensures StateOf(c, []) == FRESH
  {
  }

  /** For polls in any order, jobs starting whenever they do: the due polls decide which of them run and
      what is recorded. */
  lemma {:induction false} RunsAtCarryingPolls(c: Calendar, polls: seq<Poll>)
    ensures AfterPolls(c, polls) == StateOf(c, DuePolls(c, polls))
  {
    hide AfterPoll, IsDue, StateOf;
    if polls == [] {
      NothingDue(c);
    } else {
      RunsAtCarryingPolls(c, polls[..|polls| - 1]);
      OneMoreDuePoll(c, DuePolls(c, polls[..|polls| - 1]), polls[|polls| - 1]);
    }
  }

  /** A due poll of the date runs. */
  predicate CarriedOn(c: Calendar, due: seq<Poll>, d: Day) {
    exists i :: 0 <= i < |due| && DateOf(c, due[i]) == d && Carries(c, due[..i + 1])
  }

  /** Two due polls of one date run. */
  predicate CarriesTwice(c: Calendar, due: seq<Poll>) {
    exists i, k :: 0 <= i < k < |due| && DateOf(c, due[i]) == DateOf(c, due[k])
      && Carries(c, due[..i + 1]) && Carries(c, due[..k + 1])
  }

  lemma {:induction false} CarriersCarry(c: Calendar, due: seq<Poll>, p: Poll)
    ensures p in Carriers(c, due) <==> exists i :: 0 <= i < |due| && due[i] == p && Carries(c, due[..i + 1])
  {
    if due != [] {
      var front := due[..|due| - 1];
      CarriersCarry(c, front, p);
      assert due[..|due|] == due;
      assert forall i :: 0 <= i < |front| ==> front[i] == due[i] && front[..i + 1] == due[..i + 1];
    }
  }

  lemma CarriedDates(c: Calendar, due: seq<Poll>, d: Day)
    ensures HasDate(c, Carriers(c, due), d) <==> CarriedOn(c, due, d)
  {
    forall p ensures p in Carriers(c, due) <==> exists i :: 0 <= i < |due| && due[i] == p && Carries(c, due[..i + 1]) {
      CarriersCarry(c, due, p);
    }
  }

  lemma OneMoreCarrier(c: Calendar, due: seq<Poll>)
    requires due != []
    ensures var front, last := due[..|due| - 1], due[|due| - 1];
      CarriesTwice(c, due) <==> CarriesTwice(c, front) || (Carries(c, due) && CarriedOn(c, front, DateOf(c, last)))
  {
    var front := due[..|due| - 1];
    assert due[..|due|] == due;
    assert forall i :: 0 <= i < |front| ==> front[i] == due[i] && front[..i + 1] == due[..i + 1];
  }

  lemma {:induction false} OnceUnlessCarriedTwice(c: Calendar, due: seq<Poll>)
    ensures OnceADate(c, Carriers(c, due)) <==> !CarriesTwice(c, due)
  {
    if due != [] {
      hide OnceADate, CarriesTwice, HasDate, CarriedOn, Carries, DateOf;
      var front, last := due[..|due| - 1], due[|due| - 1];
      OnceUnlessCarriedTwice(c, front);
      OneMoreCarrier(c, due);
      NewDateOnce(c, Carriers(c, front), last);
      CarriedDates(c, front, DateOf(c, last));
    }
  }

  // ---------------------------------------------------------------------------
  // Jobs that start on their poll's date
  // ---------------------------------------------------------------------------

  /** Every poll whose predecessor has another date. */
  function DateChanges(c: Calendar, polls: seq<Poll>): seq<Poll> {
    if polls == [] then []
    else
      var front, last := polls[..|polls| - 1], polls[|polls| - 1];
      if front != [] && DateOf(c, front[|front| - 1]) == DateOf(c, last) then DateChanges(c, front)
      else DateChanges(c, front) + [last]
  }

  /** The job starts on the date of the poll that calls it. */
  predicate StartsAtOnce(c: Calendar, polls: seq<Poll>) {
    forall p :: p in polls && p.outcome.Finished? ==> RecordOf(c, p) == DateOf(c, p)
  }

  function LastDate(c: Calendar, polls: seq<Poll>): Option<Day> {
    if polls == [] then None else Some(DateOf(c, polls[|polls| - 1]))
  }

  lemma {:induction false} CarriersAreDateChanges(c: Calendar, due: seq<Poll>)
    requires StartsAtOnce(c, due)
    ensures StateOf(c, due) == State(LastDate(c, due), DateChanges(c, due))
  {
    if due != [] {
      CarriersAreDateChanges(c, due[..|due| - 1]);
    }
  }

  /** For polls in any order whose jobs start on their dates: the recorded date is that of the last due
      poll, and the job runs at exactly the due polls whose predecessor among them has another date. */
  lemma RunsAtDateChanges(c: Calendar, polls: seq<Poll>)
    requires StartsAtOnce(c, DuePolls(c, polls))
    ensures AfterPolls(c, polls) == State(LastDate(c, DuePolls(c, polls)), DateChanges(c, DuePolls(c, polls)))
  {
    RunsAtCarryingPolls(c, polls);
    CarriersAreDateChanges(c, DuePolls(c, polls));
  }

  predicate OnceADate(c: Calendar, polls: seq<Poll>) {
    forall i, j :: 0 <= i < j < |polls| ==> DateOf(c, polls[i]) != DateOf(c, polls[j])
  }

  /** The polls of one date come one after the other. */
  predicate Contiguous(c: Calendar, polls: seq<Poll>) {
    forall i, j, k :: 0 <= i < j < k < |polls| && DateOf(c, polls[i]) == DateOf(c, polls[k]) ==>
      DateOf(c, polls[j]) == DateOf(c, polls[i])
  }

  ghost predicate HasDate(c: Calendar, polls: seq<Poll>, d: Day) {
    exists p :: p in polls && DateOf(c, p) == d
  }

  lemma {:induction false} DateChangesKeepDates(c: Calendar, polls: seq<Poll>)
    ensures forall p :: p in DateChanges(c, polls) ==> p in polls
    ensures forall p :: p in polls ==> HasDate(c, DateChanges(c, polls), DateOf(c, p))
  {
    if polls != [] {
      var front, last := polls[..|polls| - 1], polls[|polls| - 1];
      DateChangesKeepDates(c, front);
      var changes := DateChanges(c, polls);
      forall p | p in polls ensures HasDate(c, changes, DateOf(c, p)) {
        if p in front || changes == DateChanges(c, front) {
          var q := if p in front then p else front[|front| - 1];
          var r :| r in DateChanges(c, front) && DateOf(c, r) == DateOf(c, q);
          assert r in changes;
        } else {
          assert last in changes;
        }
      }
    }
  }

  lemma NewDateIsContiguous(c: Calendar, front: seq<Poll>, last: Poll)
    requires front != [] ==> DateOf(c, front[|front| - 1]) != DateOf(c, last)
    ensures Contiguous(c, front + [last]) <==> Contiguous(c, front) && !HasDate(c, front, DateOf(c, last))
  {
    var all := front + [last];
    if Contiguous(c, all) {
      forall i, j, k | 0 <= i < j < k < |front| && DateOf(c, front[i]) == DateOf(c, front[k])
        ensures DateOf(c, front[j]) == DateOf(c, front[i])
      {
        assert all[i] == front[i] && all[j] == front[j] && all[k] == front[k];
      }
      forall i | 0 <= i < |front| ensures DateOf(c, front[i]) != DateOf(c, last) {
        assert all[i] == front[i] && all[|front| - 1] == front[|front| - 1] && all[|front|] == last;
      }
    }
  }

  lemma SameDateIsContiguous(c: Calendar, front: seq<Poll>, last: Poll)
    requires front != [] && DateOf(c, front[|front| - 1]) == DateOf(c, last)
    ensures Contiguous(c, front + [last]) <==> Contiguous(c, front)
  {
    var all := front + [last];
    if Contiguous(c, all) {
      forall i, j, k | 0 <= i < j < k < |front| && DateOf(c, front[i]) == DateOf(c, front[k])
        ensures DateOf(c, front[j]) == DateOf(c, front[i])
      {
        assert all[i] == front[i] && all[j] == front[j] && all[k] == front[k];
      }
    }
  }

  lemma NewDateOnce(c: Calendar, front: seq<Poll>, last: Poll)
    ensures OnceADate(c, front + [last]) <==> OnceADate(c, front) && !HasDate(c, front, DateOf(c, last))
  {
    var all := front + [last];
    if OnceADate(c, all) {
      assert forall i :: 0 <= i < |front| ==> all[i] == front[i];
      assert all[|front|] == last;
    }
  }

  lemma DatesAreKept(c: Calendar, polls: seq<Poll>, d: Day)
    ensures HasDate(c, DateChanges(c, polls), d) <==> HasDate(c, polls, d)
  {
    DateChangesKeepDates(c, polls);
  }

  lemma {:induction false} ChangesOnceIffContiguous(c: Calendar, polls: seq<Poll>)
    ensures OnceADate(c, DateChanges(c, polls)) <==> Contiguous(c, polls)
  {
    if polls != [] {
      hide OnceADate, Contiguous, HasDate, DateOf;
      var front, last := polls[..|polls| - 1], polls[|polls| - 1];
      assert polls == front + [last];
      ChangesOnceIffContiguous(c, front);
      if front != [] && DateOf(c, front[|front| - 1]) == DateOf(c, last) {
        SameDateIsContiguous(c, front, last);
      } else {
        NewDateIsContiguous(c, front, last);
        NewDateOnce(c, DateChanges(c, front), last);
        DatesAreKept(c, front, DateOf(c, last));
      }
    }
  }

  ghost predicate RunsOn(c: Calendar, polls: seq<Poll>, d: Day) {
    HasDate(c, Runs(c, polls), d)
  }

  /** Some poll of the date comes after its close and window, and its job finishes. */
  ghost predicate PolledAfterClose(c: Calendar, polls: seq<Poll>, d: Day) {
    HasDate(c, DuePolls(c, polls), d)
  }

  /** For polls in any order, jobs starting whenever they do: a date's job runs if and only if one of its
      due polls carries, no date's job runs twice if and only if no two due polls of a date carry, and runs
      come after their close and window. When jobs start on their polls' dates, this is to say that a date's
      job runs if and only if it is due at some poll, and no date's twice if and only if each date's due
      polls come one after the other among the due polls. */
  lemma NoDateTwiceIff(c: Calendar, polls: seq<Poll>)
    ensures var due := DuePolls(c, polls);
      && (OnceADate(c, Runs(c, polls)) <==> !CarriesTwice(c, due))
      && (forall d :: RunsOn(c, polls, d) <==> CarriedOn(c, due, d))
      && (StartsAtOnce(c, due) ==> (OnceADate(c, Runs(c, polls)) <==> Contiguous(c, due)))
      && (StartsAtOnce(c, due) ==> forall d :: RunsOn(c, polls, d) <==> PolledAfterClose(c, polls, d))
    ensures forall p :: p in Runs(c, polls) ==> p in polls && AfterCloseAndWindow(c, p.now)
  {
    var due := DuePolls(c, polls);
    RunsAtCarryingPolls(c, polls);
    OnceUnlessCarriedTwice(c, due);
    forall d ensures RunsOn(c, polls, d) <==> CarriedOn(c, due, d) {
      CarriedDates(c, due, d);
    }
    forall p | p in Runs(c, polls) ensures p in due {
      CarriersCarry(c, due, p);
    }
    if StartsAtOnce(c, due) {
      RunsAtDateChanges(c, polls);
      ChangesOnceIffContiguous(c, due);
      DateChangesKeepDates(c, due);
    }
  }

  // ---------------------------------------------------------------------------
  // Polls in time order
  // ---------------------------------------------------------------------------

  predicate InTimeOrder(polls: seq<Poll>) {
    forall i, j :: 0 <= i < j < |polls| ==> polls[i].now <= polls[j].now
  }

  /** Polls in time order, each job starting between its poll and the next one. */
  predicate StartsInTurn(polls: seq<Poll>) {
    && InTimeOrder(polls)
    && (forall i :: 0 <= i < |polls| && polls[i].outcome.Finished? ==> polls[i].now <= polls[i].outcome.started)
    && (forall i, j :: 0 <= i < j < |polls| && polls[i].outcome.Finished? ==> polls[i].outcome.started <= polls[j].now)
  }

  /** No job starts on a date before its poll's, or after a later poll's. */
  predicate DatesInTurn(c: Calendar, polls: seq<Poll>) {
    && (forall i :: 0 <= i < |polls| ==> DateOf(c, polls[i]) <= RecordOf(c, polls[i]))
    && (forall i, j :: 0 <= i < j < |polls| ==> RecordOf(c, polls[i]) <= DateOf(c, polls[j]))
  }

  lemma TimesInTurn(c: Calendar, polls: seq<Poll>)
    requires Zoned(c) && (StartsInTurn(polls) || (InTimeOrder(polls) && StartsAtOnce(c, polls)))
    ensures DatesInTurn(c, polls)
  {
    forall i | 0 <= i < |polls| ensures DateOf(c, polls[i]) <= RecordOf(c, polls[i]) {
      assert polls[i] in polls;
    }
    forall i, j | 0 <= i < j < |polls| ensures RecordOf(c, polls[i]) <= DateOf(c, polls[j]) {
      assert polls[i] in polls;
      assert c.etDate(polls[i].now) <= c.etDate(polls[j].now);
    }
  }

  lemma {:induction false} DueInTurn(c: Calendar, polls: seq<Poll>)
    requires DatesInTurn(c, polls)
    ensures DatesInTurn(c, DuePolls(c, polls))
  {
    if polls != [] {
      var front, last := polls[..|polls| - 1], polls[|polls| - 1];
      DueInTurn(c, front);
      var due := DuePolls(c, front);
      forall i | 0 <= i < |due| ensures RecordOf(c, due[i]) <= DateOf(c, last) {
        assert due[i] in front;
        var k :| 0 <= k < |front| && front[k] == due[i];
        assert polls[k] == front[k];
      }
    }
  }

  /** Each of the polls that run comes on a later date than the one recorded before it. */
  predicate RunInTurn(c: Calendar, runs: seq<Poll>) {
    && (forall i :: 0 <= i < |runs| ==> DateOf(c, runs[i]) <= RecordOf(c, runs[i]))
    && (forall i, j :: 0 <= i < j < |runs| ==> RecordOf(c, runs[i]) < DateOf(c, runs[j]))
  }

  function LastRecord(c: Calendar, runs: seq<Poll>): Day
    requires runs != []
  {
    RecordOf(c, runs[|runs| - 1])
  }

  lemma OneMoreRun(c: Calendar, runs: seq<Poll>, last: Poll)
    requires RunInTurn(c, runs) && DateOf(c, last) <= RecordOf(c, last)
    requires runs != [] ==> RecordOf(c, runs[|runs| - 1]) < DateOf(c, last)
    ensures RunInTurn(c, runs + [last])
  {
    hide RecordOf, DateOf;
    assert forall i :: 0 <= i < |runs| - 1 ==> RecordOf(c, runs[i]) < DateOf(c, runs[|runs| - 1]);
  }

  lemma LastRunInTurn(c: Calendar, front: seq<Poll>, last: Poll, run: Poll)
    requires DatesInTurn(c, front + [last]) && run in front
    ensures RecordOf(c, run) <= DateOf(c, last)
  {
    var due := front + [last];
    var k :| 0 <= k < |front| && front[k] == run;
    assert due[k] == run && due[|front|] == last;
  }

  lemma CarrierStep(c: Calendar, front: seq<Poll>, last: Poll, runs: seq<Poll>)
    requires DatesInTurn(c, front + [last]) && RunInTurn(c, runs) && forall p :: p in runs ==> p in front
    requires runs != [] ==> LastRecord(c, runs) != DateOf(c, last)
    ensures RunInTurn(c, runs + [last])
  {
    assert (front + [last])[|front|] == last;
    if runs != [] {
      LastRunInTurn(c, front, last, runs[|runs| - 1]);
    }
    OneMoreRun(c, runs, last);
  }

  /** In turn, the polls that run do so in turn, and the last one's record is what is remembered. */
  lemma {:induction false} CarriersInTurn(c: Calendar, due: seq<Poll>)
    requires DatesInTurn(c, due)
    ensures RunInTurn(c, Carriers(c, due))
    ensures forall p :: p in Carriers(c, due) ==> p in due
    ensures due != [] ==> Carriers(c, due) != [] && RecordAfter(c, due) == LastRecord(c, Carriers(c, due))
  {
    if due != [] {
      hide RunInTurn, DateOf, RecordOf;
      var front, last := due[..|due| - 1], due[|due| - 1];
      CarriersInTurn(c, front);
      if Carries(c, due) {
        assert due == front + [last];
        CarrierStep(c, front, last, Carriers(c, front));
      }
    }
  }

  lemma RunsAreLater(c: Calendar, due: seq<Poll>, i: nat, j: nat)
    requires DatesInTurn(c, due) && i < j < |Carriers(c, due)|
    ensures var runs := Carriers(c, due);
      DateOf(c, runs[i]) <= RecordOf(c, runs[i]) < DateOf(c, runs[j])
  {
    CarriersInTurn(c, due);
  }

  /** The date is recorded by a due poll of an earlier date that runs. */
  predicate Overtaken(c: Calendar, due: seq<Poll>, d: Day) {
    exists i :: 0 <= i < |due| && DateOf(c, due[i]) < d == RecordOf(c, due[i]) && Carries(c, due[..i + 1])
  }

  lemma OvertakenByCarrier(c: Calendar, due: seq<Poll>, d: Day)
    ensures Overtaken(c, due, d) <==> exists p :: p in Carriers(c, due) && DateOf(c, p) < d == RecordOf(c, p)
  {
    forall p ensures p in Carriers(c, due) <==> exists i :: 0 <= i < |due| && due[i] == p && Carries(c, due[..i + 1]) {
      CarriersCarry(c, due, p);
    }
  }

  lemma {:induction false} DueRunsUnlessOvertaken(c: Calendar, due: seq<Poll>, p: Poll)
    requires DatesInTurn(c, due) && p in due
    ensures exists q :: q in Carriers(c, due)
              && (DateOf(c, q) == DateOf(c, p) || DateOf(c, q) < DateOf(c, p) == RecordOf(c, q))
  {
    var front, last := due[..|due| - 1], due[|due| - 1];
    var before, after := Carriers(c, front), Carriers(c, due);
    assert forall q :: q in before ==> q in after;
    if p in front {
      DueRunsUnlessOvertaken(c, front, p);
      var q :| q in before && (DateOf(c, q) == DateOf(c, p) || DateOf(c, q) < DateOf(c, p) == RecordOf(c, q));
      assert q in after;
    } else if Carries(c, due) {
      assert last in after;
    } else {
      CarriersInTurn(c, front);
      assert before[|before| - 1] in after;
    }
  }

  lemma RunIsNotOvertaken(c: Calendar, due: seq<Poll>, p: Poll, q: Poll)
    requires DatesInTurn(c, due) && p in Carriers(c, due) && q in Carriers(c, due) && DateOf(c, q) < DateOf(c, p)
    ensures RecordOf(c, q) != DateOf(c, p)
  {
    var runs := Carriers(c, due);
    var i :| 0 <= i < |runs| && runs[i] == q;
    var j :| 0 <= j < |runs| && runs[j] == p;
    if i < j {
      RunsAreLater(c, due, i, j);
    } else {
      RunsAreLater(c, due, j, i);
    }
  }

  lemma DueInTurnRunsIff(c: Calendar, due: seq<Poll>, d: Day)
    requires DatesInTurn(c, due)
    ensures HasDate(c, Carriers(c, due), d) <==> HasDate(c, due, d) && !Overtaken(c, due, d)
    ensures OnceADate(c, Carriers(c, due))
  {
    hide DatesInTurn, DateOf, RecordOf, Carriers, Overtaken;
    CarriersInTurn(c, due);
    OvertakenByCarrier(c, due, d);
    if HasDate(c, Carriers(c, due), d) {
      var p :| p in Carriers(c, due) && DateOf(c, p) == d;
      forall q | q in Carriers(c, due) && DateOf(c, q) < d ensures RecordOf(c, q) != d {
        RunIsNotOvertaken(c, due, p, q);
      }
    } else if HasDate(c, due, d) {
      var p :| p in due && DateOf(c, p) == d;
      DueRunsUnlessOvertaken(c, due, p);
    }
    forall i, j | 0 <= i < j < |Carriers(c, due)|
      ensures DateOf(c, Carriers(c, due)[i]) != DateOf(c, Carriers(c, due)[j])
    {
      RunsAreLater(c, due, i, j);
    }
  }

  /** In time order, even when jobs start past midnight, no date's job runs twice, and a date's job runs if
      and only if it is due at some poll and no due poll of an earlier date that runs records it. */
  lemma PastMidnightSkipsIff(c: Calendar, polls: seq<Poll>, d: Day)
    requires DatesInTurn(c, polls)
    ensures OnceADate(c, Runs(c, polls))
    ensures RunsOn(c, polls, d) <==> PolledAfterClose(c, polls, d) && !Overtaken(c, DuePolls(c, polls), d)
  {
    RunsAtCarryingPolls(c, polls);
    DueInTurn(c, polls);
    DueInTurnRunsIff(c, DuePolls(c, polls), d);
  }

  lemma StartsAtOnceIsNotOvertaken(c: Calendar, polls: seq<Poll>, d: Day)
    requires StartsAtOnce(c, polls)
    ensures !Overtaken(c, DuePolls(c, polls), d)
  {
    assert forall i :: 0 <= i < |DuePolls(c, polls)| ==> DuePolls(c, polls)[i] in polls;
  }

  lemma AfterBoth(c: Calendar, now: Instant)
    requires AfterCloseAndWindow(c, now)
    ensures c.isTradingDay(c.etDate(now)) && now >= c.close(c.etDate(now)) && now >= c.eodWindow(c.etDate(now))
  {
  }

  /** In time order each date's job runs exactly once if it is due at some poll, unless a job that started
      past midnight has recorded the date, and not at all otherwise; never before its close and window. */
  lemma EndOfDayRunsExactlyOnce(c: Calendar, polls: seq<Poll>, d: Day)
    requires Zoned(c) && (StartsInTurn(polls) || (InTimeOrder(polls) && StartsAtOnce(c, polls)))
    ensures OnceADate(c, Runs(c, polls))
    ensures RunsOn(c, polls, d) <==> PolledAfterClose(c, polls, d) && !Overtaken(c, DuePolls(c, polls), d)
    ensures StartsAtOnce(c, polls) ==> !Overtaken(c, DuePolls(c, polls), d)
    ensures forall p :: p in Runs(c, polls) && DateOf(c, p) == d ==>
              c.isTradingDay(d) && p.now >= c.close(d) && p.now >= c.eodWindow(d)
  {
    hide StartsInTurn, InTimeOrder, StartsAtOnce, Overtaken, OnceADate, AfterCloseAndWindow;
    hide CarriesTwice, CarriedOn, Contiguous, Runs;
    TimesInTurn(c, polls);
    PastMidnightSkipsIff(c, polls, d);
    NoDateTwiceIff(c, polls);
    if StartsAtOnce(c, polls) {
      StartsAtOnceIsNotOvertaken(c, polls, d);
    }
    forall p | p in Runs(c, polls) && DateOf(c, p) == d
      ensures c.isTradingDay(d) && p.now >= c.close(d) && p.now >= c.eodWindow(d)
    {
      AfterBoth(c, p.now);
    }
  }

  // ---------------------------------------------------------------------------
  // Failures
  // ---------------------------------------------------------------------------

  lemma {:induction false} AllAreDue(c: Calendar, polls: seq<Poll>)
    requires forall p :: p in polls ==> IsDue(c, p)
    ensures DuePolls(c, polls) == polls
  {
    if polls != [] {
      AllAreDue(c, polls[..|polls| - 1]);
    }
  }

  /** With a clock that goes back to a date recorded before another one, that date runs again. */
  lemma ClockGoingBackRunsTwice(c: Calendar, polls: seq<Poll>, p: Poll, q: Poll)
    requires polls == [p, q, p] && IsDue(c, p) && IsDue(c, q) && StartsAtOnce(c, polls) && DateOf(c, p) != DateOf(c, q)
    ensures !OnceADate(c, Runs(c, polls))
  {
    AllAreDue(c, polls);
    NoDateTwiceIff(c, polls);
    assert !Contiguous(c, polls) by {
      assert DateOf(c, polls[0]) == DateOf(c, polls[2]) != DateOf(c, polls[1]);
    }
  }

  /** A job whose poll is on one date and whose start on the next: the next date is due, and never run. */
  lemma LateJobSkipsNextDate(c: Calendar, polls: seq<Poll>, p: Poll, q: Poll)
    requires polls == [p, q] && IsDue(c, p) && IsDue(c, q)
    requires DateOf(c, p) < DateOf(c, q) == RecordOf(c, p)
    ensures PolledAfterClose(c, polls, DateOf(c, q)) && !RunsOn(c, polls, DateOf(c, q))
  {
    AllAreDue(c, polls);
    RunsAtCarryingPolls(c, polls);
    assert polls[..1] == [p] && [p][..0] == [];
    assert RecordAfter(c, [p]) == RecordOf(c, p);
    assert Carriers(c, polls) == Carriers(c, [p]) == [p];
    assert q in polls;
  }

  const HOUR: int := 3_600_000_000

  const FULL_DAY: int := 86_400_000_000

  /** Weekday sessions from 9:30 to 16:00 and a window from 18:00, on a clock without time zones. */
  function PlainCalendar(): Calendar {
    Calendar((i: Instant) => i / FULL_DAY,
             (d: Day) => d * FULL_DAY + 9 * HOUR + HOUR / 2,
             (d: Day) => d * FULL_DAY + 16 * HOUR,
             (d: Day) => d * FULL_DAY + 18 * HOUR,
             (d: Day) => Weekday(d) < 5)
  }

  lemma PlainIsZoned()
    ensures Zoned(PlainCalendar()) && WeekdaysTrade(PlainCalendar()) && OpensBeforeCloses(PlainCalendar())
  {
  }

  lemma PlainDate(d: Day, late: int)
    requires 0 <= late < FULL_DAY
    ensures PlainCalendar().etDate(d * FULL_DAY + late) == d
  {
    assert (d * FULL_DAY + late) / FULL_DAY == d;
  }

  lemma PlainPollIsDue(d: Day, late: int, outcome: Outcome)
    requires Weekday(d) < 5 && 18 * HOUR <= late < FULL_DAY && outcome.Finished?
    ensures var p := Poll(d * FULL_DAY + late, outcome);
      IsDue(PlainCalendar(), p) && DateOf(PlainCalendar(), p) == d
  {
    PlainDate(d, late);
  }

  /** A poll a microsecond before midnight, whose job starts at midnight. */
  function LatePoll(d: Day): Poll {
    Poll(d * FULL_DAY + (FULL_DAY - 1), Finished((d + 1) * FULL_DAY + 0))
  }

  /** The next day's poll at six, whose job starts right away. */
  function EveningPoll(d: Day): Poll {
    Poll((d + 1) * FULL_DAY + 18 * HOUR, Finished((d + 1) * FULL_DAY + 18 * HOUR))
  }

  lemma LatePollRecordsNextDay(d: Day)
    ensures RecordOf(PlainCalendar(), LatePoll(d)) == d + 1
  {
    PlainDate(d + 1, 0);
  }

  lemma LateThenEvening(d: Day)
    ensures StartsInTurn([LatePoll(d), EveningPoll(d)])
  {
  }

  lemma LatePollIsDue(d: Day)
    requires Weekday(d) < 5
    ensures IsDue(PlainCalendar(), LatePoll(d)) && DateOf(PlainCalendar(), LatePoll(d)) == d
  {
    PlainPollIsDue(d, FULL_DAY - 1, LatePoll(d).outcome);
  }

  lemma EveningPollIsDue(d: Day)
    requires Weekday(d + 1) < 5
    ensures IsDue(PlainCalendar(), EveningPoll(d)) && DateOf(PlainCalendar(), EveningPoll(d)) == d + 1
  {
    PlainPollIsDue(d + 1, 18 * HOUR, EveningPoll(d).outcome);
  }

  /** Such polls exist on the weekday calendar: one late on a weekday makes the end of the next weekday be
      skipped, although it is due at six. */
  lemma SkippedWeekday(d: Day)
    requires Weekday(d) < 5 && Weekday(d + 1) < 5
    ensures var c, polls := PlainCalendar(), [LatePoll(d), EveningPoll(d)];
      && Zoned(c) && WeekdaysTrade(c) && StartsInTurn(polls)
      && PolledAfterClose(c, polls, d + 1) && !RunsOn(c, polls, d + 1)
  {
    hide Zoned, WeekdaysTrade, OpensBeforeCloses, PlainCalendar, LatePoll, EveningPoll;
    hide IsDue, RecordOf, DateOf, StartsInTurn;
    PlainIsZoned();
    LatePollIsDue(d);
    EveningPollIsDue(d);
    LatePollRecordsNextDay(d);
    LateThenEvening(d);
    LateJobSkipsNextDate(PlainCalendar(), [LatePoll(d), EveningPoll(d)], LatePoll(d), EveningPoll(d));
  }
}
