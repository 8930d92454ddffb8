/** The scheduler's decisions as functions of the log: whether to recover a job now, which past days
    to run again, and which periods have passed without a success or a notice. */
module SchedulerVerdicts {
  import opened Calendar
  import opened SchedulerEvents
  import opened SchedulerTime
  import opened Wrappers

  /** What tells one process from the next: its mark and the second it started in. */
  datatype BootMark = BootMark(id: nat, at: Stamp)

  const FIRST_DAY := 40

  function CountFor(config: JobConfig, events: seq<Event>, job: string, period: PeriodKey, boot: BootMark): int {
    ExecutionCount(events, job, period, boot.id, boot.at, config.rerunIfInterrupted, config.maxInterruptedReruns)
  }

  predicate AtLimit(config: JobConfig, events: seq<Event>, job: string, period: PeriodKey, boot: BootMark) {
    CountFor(config, events, job, period, boot) >= config.maxExecutions
  }

  /** Less than the gap has passed since the latest failed attempt; starts count too unless the job
      reruns interrupted runs. */
  predicate WithinGap(config: JobConfig, events: seq<Event>, job: string, period: PeriodKey, now: Instant) {
    config.recoveryMinGapMinutes.Some? &&
    var latest := LatestAttempt(events, job, period, !config.rerunIfInterrupted, SkippedRuns(events));
    latest.Some? && now < (latest.value + config.recoveryMinGapMinutes.value * 60) * SECOND
  }

  /** A job that is not running is recovered once the delay after its scheduled time is over and before the
      deadline, if its period has no success, is below its limit and is out of the gap. */
  predicate ShouldRecover(config: JobConfig, events: seq<Event>, running: bool, job: string, boot: BootMark,
                          now: Instant)
    requires config.Valid() && DayOf(now) >= FIRST_DAY
  {
    && !running
    && config.hour.Some? && config.minute.Some?
    && var basis := ScheduledForRecovery(config, now);
       && basis.Some? && now >= basis.value + config.recoveryDelayMinutes * 60 * SECOND
       && !IsPastRecoveryUntil(config, now)
       && var period := PeriodOf(config, now);
          && !HasSuccess(events, job, period)
          && !AtLimit(config, events, job, period, boot)
          && !WithinGap(config, events, job, period, now)
  }

  // ----- earlier days to run again -----

  predicate IsScheduledDay(config: JobConfig, day: int) {
    config.weekdays == {} || Weekday(day) in config.weekdays
  }

  /** A scheduled day without success and below its limit of runs. */
  predicate DayMissed(config: JobConfig, events: seq<Event>, job: string, boot: BootMark, day: int) {
    IsScheduledDay(config, day) && !HasSuccess(events, job, DayKey(day))
        && !AtLimit(config, events, job, DayKey(day), boot)
  }

  /** The chosen days among the last `lookback` before today, latest first. */
  function DaysBack(chosen: int -> bool, today: int, lookback: nat): seq<PeriodKey> {
    if lookback == 0 then []
    else DaysBack(chosen, today, lookback - 1) + (if chosen(today - lookback) then [DayKey(today - lookback)] else [])
  }

  function DayMissedIn(config: JobConfig, events: seq<Event>, job: string, boot: BootMark): int -> bool {
    day => DayMissed(config, events, job, boot, day)
  }

  /** The missed days of a daily job that is run again for earlier days; none for any other job. */
  function MissedPastPeriods(config: JobConfig, events: seq<Event>, job: string, boot: BootMark, today: int,
                             lookback: nat): seq<PeriodKey> {
    if config.period == Daily
        && config.backfill then DaysBack(DayMissedIn(config, events, job, boot), today, lookback) else []
  }

  predicate LatestFirst(days: seq<PeriodKey>, above: int) {
    && (forall i :: 0 <= i < |days| ==> days[i].DayKey? && days[i].day > above)
    && forall i, j :: 0 <= i < j < |days| ==> days[i].DayKey? && days[j].DayKey? && days[i].day > days[j].day
  }

  /** Exactly the chosen days of the range, each once, latest first. */
  lemma {:induction false} DaysBackAre(chosen: int -> bool, today: int, lookback: nat, p: PeriodKey)
    ensures p in DaysBack(chosen, today, lookback) <==> p.DayKey? && today - lookback <= p.day < today && chosen(p.day)
    ensures LatestFirst(DaysBack(chosen, today, lookback), today - lookback - 1)
  {
    if lookback > 0 {
      DaysBackAre(chosen, today, lookback - 1, p);
    }
  }

  /** The days that are run again are exactly the days of the range on a configured weekday of which the log
      has no success and fewer executions than the limit, each once, latest first. */
  lemma PastPeriodsAreMissed(config: JobConfig, events: seq<Event>, job: string, boot: BootMark, today: int,
                             lookback: nat, p: PeriodKey)
    ensures p in MissedPastPeriods(config, events, job, boot, today, lookback) <==>
              && config.period == Daily && config.backfill
              && p.DayKey? && today - lookback <= p.day < today
              && (config.weekdays == {} || Weekday(p.day) in config.weekdays)
              && (forall i :: 0 <= i < |events| && Concerns(events[i], job, p) ==> events[i].status != Success)
              && CountFor(config, events, job, p, boot) < config.maxExecutions
    ensures LatestFirst(MissedPastPeriods(config, events, job, boot, today, lookback), today - lookback - 1)
  {
    DaysBackAre(DayMissedIn(config, events, job, boot), today, lookback, p);
  }

  // ----- notices -----

  /** The stamp that orders an event: its end, else its start, else its time. */
  function OrderStamp(e: Event): Option<Stamp> {
    if e.finishedAt.Some? then e.finishedAt
    else if e.startedAt.Some? then e.startedAt
    else e.timestamp
  }

  /** The day of the oldest retained event with a stamp. */
  function OldestDay(events: seq<Event>): Option<int> {
    if events == [] then None
    else
      match OrderStamp(events[0])
      case Some(s) => Some(StampDay(s))
      case None => OldestDay(events[1..])
  }

  predicate StillUnreported(sent: set<(string, PeriodKey)>, events: seq<Event>, job: string, period: PeriodKey) {
    (job, period) !in sent && !HasSuccess(events, job, period) && !HasMark(events, job, period)
  }

  /** Of the given days, those after the oldest retained day without success or notice. */
  function PastDaysWithoutSuccess(sent: set<(string, PeriodKey)>, events: seq<Event>, job: string,
                                  days: seq<int>): (r: seq<int>)
    ensures forall d :: d in r <==> d in days && OldestDay(events).Some? && d > OldestDay(events).value
                                    && StillUnreported(sent, events, job, DayKey(d))
  {
    if days == [] then []
    else
      var d, rest := days[|days| - 1], PastDaysWithoutSuccess(sent, events, job, days[..|days| - 1]);
      var oldest := OldestDay(events);
      if oldest.Some? && d > oldest.value && StillUnreported(sent, events, job, DayKey(d)) then rest + [d] else rest
  }

  /** Today is after the last day on which the week of `day` could still be recovered. */
  predicate WeekRecoveryEnded(config: JobConfig, day: int, today: int) {
    && config.period == Weekly && config.weekdays != {}
    && today > MondayOf(day) + (if config.recoverRestOfWeek then 6 else LastWeekdayFrom(config.weekdays, 6))
  }

  predicate WeekMissed(config: JobConfig, sent: set<(string, PeriodKey)>, events: seq<Event>, job: string, day: int,
                       today: int)
    requires day >= FIRST_DAY - 7
  {
    && OldestDay(events).Some? && MondayOf(day) > OldestDay(events).value
    && WeekRecoveryEnded(config, day, today)
    && StillUnreported(sent, events, job, PeriodOfDay(config.period, day))
  }

  /** The older of last week and this week whose recovery days are over without success or notice. */
  function EndedWeek(config: JobConfig, sent: set<(string, PeriodKey)>, events: seq<Event>, job: string,
                     today: int): Option<PeriodKey>
    requires today >= FIRST_DAY
  {
    if WeekMissed(config, sent, events, job, today - 7, today) then Some(PeriodOfDay(config.period, today - 7))
    else if WeekMissed(config, sent, events, job, today, today) then Some(PeriodOfDay(config.period, today))
    else None
  }

  /** The current period, once its recovery delay is over, if it has no success and no notice. */
  function PeriodWithoutSuccess(config: JobConfig, running: bool, sent: set<(string, PeriodKey)>, events: seq<Event>,
                                job: string, now: Instant): Option<PeriodKey>
    requires config.Valid() && DayOf(now) >= FIRST_DAY && config.hour.Some? && config.minute.Some?
  {
    var basis := ScheduledForRecovery(config, now);
    if running || basis.None? || now < basis.value + config.recoveryDelayMinutes * 60 * SECOND then None
    else if StillUnreported(sent, events, job, PeriodOf(config, now)) then Some(PeriodOf(config, now))
    else None
  }

  /** A week given up at the limit of its runs. */
  function CappedPeriod(config: JobConfig, running: bool, sent: set<(string, PeriodKey)>, events: seq<Event>,
                        job: string, boot: BootMark, now: Instant): Option<PeriodKey>
    requires config.Valid() && DayOf(now) >= FIRST_DAY && config.hour.Some? && config.minute.Some?
  {
    var period := PeriodWithoutSuccess(config.(recoverRestOfWeek := true), running, sent, events, job, now);
    if period.Some? && AtLimit(config, events, job, period.value, boot) then period else None
  }

  /** A business day given up at the limit of its runs or at the deadline. */
  function MissedDay(config: JobConfig, isBusinessDay: bool, running: bool, sent: set<(string, PeriodKey)>,
                     events: seq<Event>, job: string, boot: BootMark, now: Instant): Option<PeriodKey>
    requires config.Valid() && DayOf(now) >= FIRST_DAY && config.hour.Some? && config.minute.Some?
  {
    if !isBusinessDay then None
    else
      var period := PeriodWithoutSuccess(config, running, sent, events, job, now);
      if period.Some?
          && (AtLimit(config, events, job, period.value, boot) || IsPastRecoveryUntil(config, now)) then period
      else None
  }

  // ----- what a notice is about -----

  function DayKeys(days: seq<int>): (r: seq<PeriodKey>)
    ensures |r| == |days| && forall i :: 0 <= i < |r| ==> r[i] == DayKey(days[i])
  {
    seq(|days|, i requires 0 <= i < |days| => DayKey(days[i]))
  }

  /** What a process remembers of a notice. */
  function Marks(job: string, periods: seq<PeriodKey>): set<(string, PeriodKey)> {
    set period | period in periods :: (job, period)
  }

  // ----- truncation raises no false alarm -----

  /** Events are in the order of their stamps, and all have one. */
  predicate StampOrdered(events: seq<Event>) {
    && (forall i :: 0 <= i < |events| ==> OrderStamp(events[i]).Some?)
    && forall i, j :: 0 <= i <= j < |events| ==> OrderStamp(events[i]).value <= OrderStamp(events[j]).value
  }

  /** Weaker, and enough to read days off the log: no event is of an earlier day than one before it. */
  predicate DayOrdered(events: seq<Event>) {
    && (forall i :: 0 <= i < |events| ==> OrderStamp(events[i]).Some?)
    && forall i, j ::
        0 <= i <= j < |events| ==> StampDay(OrderStamp(events[i]).value) <= StampDay(OrderStamp(events[j]).value)
  }

  lemma StampOrderIsDayOrder(events: seq<Event>)
    requires StampOrdered(events)
    ensures DayOrdered(events)
  {
    forall i, j | 0 <= i <= j < |events|
      ensures StampDay(OrderStamp(events[i]).value) <= StampDay(OrderStamp(events[j]).value)
    {
      LaterStampLaterDay(OrderStamp(events[i]).value, OrderStamp(events[j]).value);
    }
  }

  lemma LaterStampLaterDay(s1: Stamp, s2: Stamp)
    requires s1 <= s2
    ensures StampDay(s1) <= StampDay(s2)
  {
  }

  /** The period begins on or before the day. */
  ghost predicate BegunBy(period: PeriodKey, day: int) {
    match period
    case DayKey(d) => d <= day
    case WeekKey(_, _) => exists d :: 7 <= d <= day && IsoWeekKey(d) == period
    case MonthKey(_, _) => true
  }

  lemma PeriodBegun(config: JobConfig, now: Instant)
    requires DayOf(now) >= FIRST_DAY
    ensures BegunBy(PeriodOf(config, now), DayOf(now))
  {
    if config.period == Weekly { assert IsoWeekKey(DayOf(now)) == PeriodOf(config, now); }
  }

  lemma BegunLater(period: PeriodKey, day: int, later: int)
    requires BegunBy(period, day) && day <= later
    ensures BegunBy(period, later)
  {
  }

  /** Every event is stamped in or after the period it is recorded for. */
  ghost predicate KeysBegun(events: seq<Event>) {
    forall i :: 0 <= i < |events| ==>
        OrderStamp(events[i]).Some? && BegunBy(events[i].period, StampDay(OrderStamp(events[i]).value))
  }

  /** Appending an event stamped no earlier than the last one keeps the order. */
  lemma AppendKeepsOrder(events: seq<Event>, e: Event, stamp: Stamp)
    requires StampOrdered(events) && KeysBegun(events)
    requires events != [] ==> OrderStamp(events[|events| - 1]).value <= stamp
    requires OrderStamp(e) == Some(stamp) && BegunBy(e.period, StampDay(stamp))
    ensures StampOrdered(events + [e]) && KeysBegun(events + [e])
  {
    var longer := events + [e];
    forall i, j | 0 <= i <= j < |longer|
      ensures OrderStamp(longer[i]).Some? && OrderStamp(longer[j]).Some?
      ensures OrderStamp(longer[i]).value <= OrderStamp(longer[j]).value
    {
      if i < |events| { UpToLast(events, i); }
    }
  }

  lemma UpToLast(events: seq<Event>, i: nat)
    requires StampOrdered(events) && i < |events|
    ensures OrderStamp(events[i]).Some? && OrderStamp(events[|events| - 1]).Some?
    ensures OrderStamp(events[i]).value <= OrderStamp(events[|events| - 1]).value
  {
  }

  /** The oldest retained day is that of the first event that has a stamp. */
  lemma {:induction false} OldestDayIs(events: seq<Event>, i: nat)
    requires i < |events| && OrderStamp(events[i]).Some? && forall j :: 0 <= j < i ==> OrderStamp(events[j]).None?
    ensures OldestDay(events) == Some(StampDay(OrderStamp(events[i]).value))
  {
    if i > 0 { OldestDayIs(events[1..], i - 1); }
  }

  lemma OldestIsFirst(events: seq<Event>)
    requires events != [] && OrderStamp(events[0]).Some?
    ensures OldestDay(events) == Some(StampDay(OrderStamp(events[0]).value))
  {
  }

  lemma LaterDayLaterEvent(history: seq<Event>, first: nat, i: nat)
    requires DayOrdered(history) && first < |history| && i < |history|
    requires StampDay(OrderStamp(history[i]).value) > StampDay(OrderStamp(history[first]).value)
    ensures i > first
  {
  }

  /** An event of a period that begins after the oldest retained day is itself retained. */
  lemma RetainedAfterOldest(history: seq<Event>, cut: nat, i: nat, start: int)
    requires DayOrdered(history) && cut <= |history| && i < |history|
    requires StampDay(OrderStamp(history[i]).value) >= start
    requires OldestDay(history[cut..]).Some? && start > OldestDay(history[cut..]).value
    ensures cut <= i && history[cut..][i - cut] == history[i]
  {
    var log := history[cut..];
    assert log != [];
    OldestIsFirst(log);
    LaterDayLaterEvent(history, cut, i);
  }

  /** Whatever was cut from the head of the log: a day after the oldest retained day that ever had a
      success or a notice still shows it, so it is not among the missed days. */
  lemma NoFalseAlarmForDay(history: seq<Event>, cut: nat, job: string, day: int, sent: set<(string, PeriodKey)>,
                           days: seq<int>)
    requires DayOrdered(history) && KeysBegun(history) && cut <= |history|
    requires HasSuccess(history, job, DayKey(day)) || HasMark(history, job, DayKey(day))
    ensures day !in PastDaysWithoutSuccess(sent, history[cut..], job, days)
  {
    var log := history[cut..];
    if OldestDay(log).Some? && day > OldestDay(log).value {
      var i :| 0 <= i < |history| && Concerns(history[i], job, DayKey(day))
               && (history[i].status == Success || history[i].status == CapNoticeSent);
      RetainedAfterOldest(history, cut, i, day);
    }
  }

  lemma WeekBegins(day: int, d: int)
    requires day >= 7 && d >= 7 && IsoWeekKey(d) == IsoWeekKey(day)
    ensures d >= MondayOf(day)
  {
    IsoWeekIsMonday(d, day);
    MondayFacts(d);
  }

  lemma DayOfWeekKey(day: int, last: int) returns (d: int)
    requires day >= FIRST_DAY - 7 && BegunBy(IsoWeekKey(day), last)
    ensures 7 <= d <= last && IsoWeekKey(d) == IsoWeekKey(day)
  {
    d :| 7 <= d <= last && IsoWeekKey(d) == IsoWeekKey(day);
  }

  /** The same for weeks: a week whose Monday is after the oldest retained day and that ever had a
      success or a notice is not reported as ended without one. */
  lemma NoFalseAlarmForWeek(config: JobConfig, history: seq<Event>, cut: nat, job: string, day: int, today: int,
                            sent: set<(string, PeriodKey)>)
    requires DayOrdered(history) && KeysBegun(history) && cut <= |history| && day >= FIRST_DAY - 7
    requires config.period == Weekly
    requires HasSuccess(history, job, IsoWeekKey(day)) || HasMark(history, job, IsoWeekKey(day))
    ensures !WeekMissed(config, sent, history[cut..], job, day, today)
  {
    hide IsoWeekKey;
    var log := history[cut..];
    if OldestDay(log).Some? && MondayOf(day) > OldestDay(log).value {
      var i :| 0 <= i < |history| && Concerns(history[i], job, IsoWeekKey(day))
               && (history[i].status == Success || history[i].status == CapNoticeSent);
      var d := DayOfWeekKey(day, StampDay(OrderStamp(history[i]).value));
      WeekBegins(day, d);
      RetainedAfterOldest(history, cut, i, MondayOf(day));
    }
  }

  // ----- one scan a day is enough -----

  /** The log at a later time: more events appended, and no fewer cut. */
  ghost predicate LaterLog(history: seq<Event>, cut: nat, later: seq<Event>, laterCut: nat) {
    && DayOrdered(later) && KeysBegun(later)
    && cut <= |history| && cut <= laterCut <= |later| && history <= later
  }

  lemma OldestAdvances(history: seq<Event>, cut: nat, later: seq<Event>, laterCut: nat)
    requires LaterLog(history, cut, later, laterCut)
    requires OldestDay(history[cut..]).Some? && OldestDay(later[laterCut..]).Some?
    ensures OldestDay(later[laterCut..]).value >= OldestDay(history[cut..]).value
  {
    assert history[cut..] != [] && later[laterCut..] != [];
    assert history[cut..][0] == later[cut] && later[laterCut..][0] == later[laterCut];
    OldestIsFirst(history[cut..]);
    OldestIsFirst(later[laterCut..]);
  }

  /** A period once found reported, and beginning after the oldest retained day of a later log, is
      still reported in that log. */
  lemma ReportedStays(history: seq<Event>, cut: nat, later: seq<Event>, laterCut: nat, job: string, period: PeriodKey,
                      start: int, sent: set<(string, PeriodKey)>, laterSent: set<(string, PeriodKey)>)
    requires LaterLog(history, cut, later, laterCut) && sent <= laterSent
    requires !StillUnreported(sent, history[cut..], job, period)
    requires forall i :: 0 <= i < |later| && later[i].period == period ==> StampDay(OrderStamp(later[i]).value) >= start
    requires OldestDay(later[laterCut..]).Some? && start > OldestDay(later[laterCut..]).value
    ensures !StillUnreported(laterSent, later[laterCut..], job, period)
  {
    var log := history[cut..];
    if (job, period) !in sent {
      var i :| 0 <= i < |log| && Concerns(log[i], job, period)
          && (log[i].status == Success || log[i].status == CapNoticeSent);
      assert later[cut + i] == log[i];
      RetainedAfterOldest(later, laterCut, cut + i, start);
    }
  }

  /** Once a scan of the past days found none missing, every later scan of the same days finds none,
      whatever is appended and cut in between: skipping it loses no notice. */
  lemma ScanOfDaysStaysEmpty(history: seq<Event>, cut: nat, later: seq<Event>, laterCut: nat, job: string,
                             days: seq<int>, sent: set<(string, PeriodKey)>, laterSent: set<(string, PeriodKey)>)
    requires LaterLog(history, cut, later, laterCut) && sent <= laterSent
    requires OldestDay(history[cut..]).Some? && PastDaysWithoutSuccess(sent, history[cut..], job, days) == []
    ensures PastDaysWithoutSuccess(laterSent, later[laterCut..], job, days) == []
  {
    var missed := PastDaysWithoutSuccess(laterSent, later[laterCut..], job, days);
    if missed != [] {
      var d := missed[0];
      assert d in missed;
      OldestAdvances(history, cut, later, laterCut);
      assert d !in PastDaysWithoutSuccess(sent, history[cut..], job, days);
      ReportedStays(history, cut, later, laterCut, job, DayKey(d), d, sent, laterSent);
    }
  }

  lemma WeekStaysReported(config: JobConfig, history: seq<Event>, cut: nat, later: seq<Event>, laterCut: nat,
                          job: string, day: int, today: int, sent: set<(string, PeriodKey)>,
                          laterSent: set<(string, PeriodKey)>)
    requires LaterLog(history, cut, later, laterCut) && sent <= laterSent && day >= FIRST_DAY - 7
    requires OldestDay(history[cut..]).Some? && !WeekMissed(config, sent, history[cut..], job, day, today)
    ensures !WeekMissed(config, laterSent, later[laterCut..], job, day, today)
  {
    if WeekMissed(config, laterSent, later[laterCut..], job, day, today) {
      OldestAdvances(history, cut, later, laterCut);
      forall i | 0 <= i < |later| && later[i].period == IsoWeekKey(day)
        ensures StampDay(OrderStamp(later[i]).value) >= MondayOf(day)
      {
        assert BegunBy(later[i].period, StampDay(OrderStamp(later[i]).value));
        var d :| 7 <= d <= StampDay(OrderStamp(later[i]).value) && IsoWeekKey(d) == later[i].period;
        WeekBegins(day, d);
      }
      ReportedStays(history, cut, later, laterCut, job, IsoWeekKey(day), MondayOf(day), sent, laterSent);
    }
  }

  /** The same for the scan of ended weeks within one day. */
  lemma ScanOfWeeksStaysEmpty(config: JobConfig, history: seq<Event>, cut: nat, later: seq<Event>, laterCut: nat,
                              job: string, today: int, sent: set<(string, PeriodKey)>,
                              laterSent: set<(string, PeriodKey)>)
    requires LaterLog(history, cut, later, laterCut) && sent <= laterSent && today >= FIRST_DAY
    requires OldestDay(history[cut..]).Some? && EndedWeek(config, sent, history[cut..], job, today) == None
    ensures EndedWeek(config, laterSent, later[laterCut..], job, today) == None
  {
    WeekStaysReported(config, history, cut, later, laterCut, job, today - 7, today, sent, laterSent);
    WeekStaysReported(config, history, cut, later, laterCut, job, today, today, sent, laterSent);
  }
}
