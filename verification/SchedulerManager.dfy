/** The queue manager of one process: a shared file of events, a local copy that is read again before
    every decision, and the marks the process keeps in memory. Saving a file and sending a message
    may fail; their outcomes are parameters. */
module SchedulerManager {
  import opened Calendar
  import opened Collections
  import opened RecoveryDays
  import opened SchedulerEvents
  import opened SchedulerTime
  import opened SchedulerVerdicts
  import opened Wrappers

  type Configs = map<string, JobConfig>

  class StateFile {
    var events: seq<Event>

    constructor ()
      ensures events == []
    {
      events := [];
    }
  }

  /** What the start of a run comes to. Limited and Begun write a record for the period. */
  datatype Begin = UnknownJob | PastCutoff | Busy | Limited(period: PeriodKey) | Begun(period: PeriodKey)

  function RunPeriod(config: JobConfig, explicit: Option<PeriodKey>, now: Instant): PeriodKey
    requires DayOf(now) >= FIRST_DAY
  {
    if explicit.Some? then explicit.value else PeriodOf(config, now)
  }

  function BeginVerdict(cfg: Configs, log: seq<Event>, busy: set<string>, boot: BootMark, job: string,
                        scheduled: bool, force: bool, explicit: Option<PeriodKey>, now: Instant): Begin
    requires DayOf(now) >= FIRST_DAY
  {
    if job !in cfg then UnknownJob
    else if scheduled && !force && IsPastRecoveryUntil(cfg[job], now) then PastCutoff
    else if job in busy then Busy
    else
      var period := RunPeriod(cfg[job], explicit, now);
      if !force && AtLimit(cfg[job], log, job, period, boot) then Limited(period) else Begun(period)
  }

  /** When a start comes to nothing: the job is unknown; or it is a scheduled start, not forced, at or after
      the deadline of the day; or the job is in progress. Otherwise the period is the one asked for, or
      that of now, and the start is limited or begun. */
  lemma BeginVerdictIs(cfg: Configs, log: seq<Event>, busy: set<string>, boot: BootMark, job: string,
                       scheduled: bool, force: bool, explicit: Option<PeriodKey>, now: Instant)
    requires DayOf(now) >= FIRST_DAY
    ensures
      var r := BeginVerdict(cfg, log, busy, boot, job, scheduled, force, explicit, now);
      && (r == UnknownJob <==> job !in cfg)
      && (r == PastCutoff <==> job in cfg && scheduled && !force && DeadlineOver(cfg[job], now))
      && (r == Busy <==> job in cfg && job in busy && r != PastCutoff)
      && (r.Limited? || r.Begun? ==> job in cfg && r.period == explicit.GetOr(PeriodOf(cfg[job], now)))
      && (r.Limited? ==> !force)
  {
  }

  /** The file after the start of a run. */
  function LogAfterBegin(log: seq<Event>, verdict: Begin, boot: BootMark, job: string, runId: nat, now: Instant,
                         startedAt: Instant): seq<Event> {
    match verdict
    case Limited(period) => Appended(log, SkipEvent(now, job, period))
    case Begun(period) => Appended(log, StartEvent(startedAt, boot.id, job, period, runId))
    case _ => log
  }

  /** The log after marks for the periods in turn. */
  function WithMarks(log: seq<Event>, now: Instant, job: string, periods: seq<PeriodKey>): seq<Event> {
    if periods == [] then log
    else Appended(WithMarks(log, now, job, periods[..|periods| - 1]), MarkEvent(now, job, periods[|periods| - 1]))
  }

  /** The day is one of the last `lookback` before today. */
  predicate LooksBackTo(day: int, today: int, lookback: nat) {
    today - lookback <= day < today
  }

  /** Among those days the chosen ones are the missed ones. */
  ghost predicate Chooses(chosen: int -> bool, config: JobConfig, events: seq<Event>, job: string, boot: BootMark,
                          today: int, lookback: nat) {
    forall day {:trigger LooksBackTo(day, today, lookback)} ::
      LooksBackTo(day, today, lookback) ==> chosen(day) == DayMissed(config, events, job, boot, day)
  }

  lemma OneMoreMark(log: seq<Event>, now: Instant, job: string, keys: seq<PeriodKey>, n: nat)
    requires n < |keys|
    ensures WithMarks(log, now, job, keys[..n + 1])
              == Appended(WithMarks(log, now, job, keys[..n]), MarkEvent(now, job, keys[n]))
    ensures (job, keys[n]) in Marks(job, keys)
  {
    assert keys[..n + 1][..n] == keys[..n];
  }

  /** The scan of the past days, or of the ended weeks, is done for the day or put off by a run. */
  predicate ScanSkipped(scanned: set<(string, int)>, busy: set<string>, job: string, today: int) {
    (job, today) in scanned || job in busy
  }

  /** Last week is found if it is unsettled, whichever of its days names it. */
  predicate FindsLastWeek(config: JobConfig, sent: set<(string, PeriodKey)>, events: seq<Event>, job: string,
                          today: int, found: Option<PeriodKey>) {
    forall day ::
      7 <= day <= today && MondayOf(day) + 7 <= today <= MondayOf(day) + 13
      && UnsettledWeek(config, sent, events, job, day) ==>
        found == Some(IsoWeekKey(day))
  }

  /** Of the given days exactly those after the oldest retained one without success or notice are found. */
  predicate FindsDays(sent: set<(string, PeriodKey)>, events: seq<Event>, job: string, days: seq<int>,
                      found: seq<int>) {
    && (forall d :: d in found ==> d in days)
    && forall d :: d in days ==>
         (d in found <==>
            && OldestDay(events).Some? && d > OldestDay(events).value
            && StillUnreported(sent, events, job, DayKey(d)))
  }

  lemma LastWeekIsFound(cfg: Configs, sent: set<(string, PeriodKey)>, events: seq<Event>, job: string, today: int)
    requires today >= FIRST_DAY
    ensures job in cfg && cfg[job].Valid() ==>
              FindsLastWeek(cfg[job], sent, events, job, today, EndedWeek(cfg[job], sent, events, job, today))
  {
    hide UnsettledWeek, EndedWeek, IsoWeekKey;
    forall day |
      job in cfg && cfg[job].Valid() && 7 <= day <= today && MondayOf(day) + 7 <= today <= MondayOf(day) + 13
      && UnsettledWeek(cfg[job], sent, events, job, day)
      ensures EndedWeek(cfg[job], sent, events, job, today) == Some(IsoWeekKey(day))
    {
      EndedWeekIsFound(cfg[job], sent, events, job, day, today);
    }
  }

  /** The week to report: one at its limit, else one that has ended. */
  function WeekMessage(config: JobConfig, sent: set<(string, PeriodKey)>, scanned: set<(string, int)>,
                       busy: set<string>, log: seq<Event>, job: string, boot: BootMark, now: Instant): Option<PeriodKey>
    requires config.Valid() && DayOf(now) >= FIRST_DAY && config.hour.Some? && config.minute.Some?
  {
    var capped := CappedPeriod(config, job in busy, sent, log, job, boot, now);
    if capped.Some? then capped
    else if ScanSkipped(scanned, busy, job, DayOf(now)) then None
    else EndedWeek(config, sent, log, job, DayOf(now))
  }

  /** The past days to report. */
  function DaysMessage(sent: set<(string, PeriodKey)>, scanned: set<(string, int)>, busy: set<string>,
                       log: seq<Event>, job: string, days: seq<int>, now: Instant): seq<int>
  {
    if ScanSkipped(scanned, busy, job, DayOf(now)) then [] else PastDaysWithoutSuccess(sent, log, job, days)
  }

  class SchedulerQueueManager {
    const config: Configs
    const file: StateFile
    const boot: BootMark
    var events: seq<Event>
    var inProgress: set<string>
    var warned: set<nat>
    var sent: set<(string, PeriodKey)>
    var scanned: set<(string, int)>

    constructor (config: Configs, file: StateFile, boot: BootMark)
      ensures this.config == config && this.file == file && this.boot == boot
      ensures events == file.events && inProgress == {} && warned == {} && sent == {} && scanned == {}
    {
      this.config, this.file, this.boot := config, file, boot;
      events := file.events;
      inProgress, warned, sent, scanned := {}, {}, {}, {};
    }

    method ReloadState()
      modifies this`events
      ensures events == file.events
    {
      events := file.events;
    }

    /** Append to the local copy, cut it to its newest events, save it whole. */
    method AppendEventLocked(e: Event, saved: bool)
      modifies this`events, file
      ensures events == Appended(old(events), e)
      ensures file.events == if saved then events else old(file.events)
    {
      events := events + [e];
      if |events| > MAX_EVENTS {
        events := events[|events| - MAX_EVENTS..];
      }
      if saved {
        file.events := events;
      }
    }

    /** The file gains the event and loses none that another process appended. */
    method AppendEvent(e: Event, saved: bool)
      modifies this`events, file
      ensures events == Appended(old(file.events), e)
      ensures file.events == if saved then Appended(old(file.events), e) else old(file.events)
    {
      ReloadState();
      AppendEventLocked(e, saved);
    }

    /** Counts on the local copy, and remembers the interrupted runs it has warned of. */
    method GetExecutionCount(job: string, period: PeriodKey) returns (count: int)
      modifies this`warned
      ensures job in config ==> count == CountFor(config[job], events, job, period, boot)
      ensures job !in config ==>
                count == ExecutionCount(events, job, period, boot.id, boot.at, false, DEFAULT_FORGIVEN_INTERRUPTIONS)
      ensures warned == old(warned) + InterruptedIds(events, job, period, boot.id, boot.at)
    {
      var rerun := job in config && config[job].rerunIfInterrupted;
      var quota := if job in config then config[job].maxInterruptedReruns else DEFAULT_FORGIVEN_INTERRUPTIONS;
      var interrupted;
      count, interrupted := CountExecutions(events, job, period, boot.id, boot.at, rerun, quota);
      for n := 0 to |interrupted|
        invariant warned == old(warned) + set id | id in interrupted[..n]
      {
        assert interrupted[..n + 1] == interrupted[..n] + [interrupted[n]];
        if interrupted[n] !in warned {
          warned := warned + {interrupted[n]};
        }
      }
      assert interrupted[..|interrupted|] == interrupted;
    }

    method ReachedLimit(job: string, period: PeriodKey) returns (r: bool)
      requires job in config
      modifies this`warned
      ensures r == AtLimit(config[job], events, job, period, boot)
    {
      var count := GetExecutionCount(job, period);
      r := count >= config[job].maxExecutions;
    }

    // ----- runs -----

    /** Record the limit or the start. */
    method RecordBegin(r: Begin, job: string, now: Instant, startedAt: Instant, runId: nat, saved: bool)
      requires r.Limited? || r.Begun?
      modifies this`events, this`inProgress, file
      ensures file.events == if saved then LogAfterBegin(old(events), r, boot, job, runId, now, startedAt)
                else old(file.events)
      ensures inProgress == if r.Begun? && saved then old(inProgress) + {job} else old(inProgress)
    {
      if r.Limited? {
        AppendEventLocked(SkipEvent(now, job, r.period), saved);
      } else {
        AppendEventLocked(StartEvent(startedAt, boot.id, job, r.period, runId), saved);
        if saved {
          inProgress := inProgress + {job};
        }
      }
    }

    /** What the two locks make one step: read the file, count, and record either the limit or the start. */
    method BeginLocked(job: string, force: bool, period: PeriodKey, now: Instant, startedAt: Instant, runId: nat,
                       saved: bool)
      returns (r: Begin)
      requires job in config
      modifies this`events, this`inProgress, this`warned, file
      ensures r == if !force
                && AtLimit(config[job], old(file.events), job, period, boot) then Limited(period) else Begun(period)
      ensures file.events == if saved then LogAfterBegin(old(file.events), r, boot, job, runId, now, startedAt)
                else old(file.events)
      ensures inProgress == if r.Begun? && saved then old(inProgress) + {job} else old(inProgress)
    {
      ReloadState();
      var limited := ReachedLimit(job, period);
      r := if !force && limited then Limited(period) else Begun(period);
      RecordBegin(r, job, now, startedAt, runId, saved);
    }

    /** The first half of a run, up to its start record: nothing is written unless the run is limited
        or begun, and a job is marked as in progress only when its start record was saved. */
    method BeginRun(job: string, scheduled: bool, force: bool, explicit: Option<PeriodKey>, now: Instant,
                    startedAt: Instant, runId: nat, saved: bool)
      returns (r: Begin)
      requires DayOf(now) >= FIRST_DAY
      modifies this`events, this`inProgress, this`warned, file
      ensures r == BeginVerdict(config, old(file.events), old(inProgress), boot, job, scheduled, force, explicit, now)
      ensures file.events == if saved then LogAfterBegin(old(file.events), r, boot, job, runId, now, startedAt)
                else old(file.events)
      ensures inProgress == if r.Begun? && saved then old(inProgress) + {job} else old(inProgress)
      ensures r == UnknownJob <==> job !in config
      ensures r == PastCutoff <==> job in config && scheduled && !force && DeadlineOver(config[job], now)
      ensures r == Busy <==> job in config && job in old(inProgress) && r != PastCutoff
      ensures r == UnknownJob || r == PastCutoff || r == Busy ==> file.events == old(file.events)
    {
      BeginVerdictIs(config, file.events, inProgress, boot, job, scheduled, force, explicit, now);
      if job !in config {
        return UnknownJob;
      }
      var period := if explicit.Some? then explicit.value else PeriodOf(config[job], now);
      if scheduled && !force && IsPastRecoveryUntil(config[job], now) {
        return PastCutoff;
      }
      if job in inProgress {
        return Busy;
      }
      r := BeginLocked(job, force, period, now, startedAt, runId, saved);
    }

    /** The second half: the end record, and the job is free again even if that could not be saved. */
    method EndRun(job: string, period: PeriodKey, runId: nat, startedAt: Instant, finishedAt: Instant,
                  succeeded: bool, skipRecoveryGap: bool, saved: bool)
      modifies this`events, this`inProgress, file
      ensures inProgress == old(inProgress) - {job}
      ensures file.events
              == if saved then Appended(old(file.events),
                                        FinishEvent(job, period, runId, startedAt, finishedAt, succeeded,
                                                    skipRecoveryGap))
                 else old(file.events)
    {
      AppendEvent(FinishEvent(job, period, runId, startedAt, finishedAt, succeeded, skipRecoveryGap), saved);
      inProgress := inProgress - {job};
    }

    /** The early returns before the file is read, then success, limit and gap on what was read. */
    method DecideRecovery(job: string, now: Instant) returns (recover: bool)
      requires DayOf(now) >= FIRST_DAY && (job in config ==> config[job].Valid())
      modifies this`events, this`warned
      ensures recover <==> job in config && ShouldRecover(config[job], file.events, job in inProgress, job, boot, now)
    {
      if job !in config || job in inProgress {
        return false;
      }
      var c := config[job];
      if c.hour.None? || c.minute.None? {
        return false;
      }
      var basis := ScheduledForRecovery(c, now);
      if basis.None? || now < basis.value + c.recoveryDelayMinutes * 60 * SECOND || IsPastRecoveryUntil(c, now) {
        return false;
      }
      ReloadState();
      var period := PeriodOf(c, now);
      var done := ComputeHasSuccess(events, job, period);
      if done {
        return false;
      }
      var limited := ReachedLimit(job, period);
      if limited {
        return false;
      }
      if c.recoveryMinGapMinutes.Some? {
        var latest := LastAttemptAt(events, job, period, !c.rerunIfInterrupted);
        if latest.Some? && now < (latest.value + c.recoveryMinGapMinutes.value * 60) * SECOND {
          return false;
        }
      }
      recover := true;
    }

    method IsDayMissed(job: string, day: int, ghost chosen: int -> bool, ghost today: int, ghost lookback: nat)
      returns (r: bool)
      requires job in config && Chooses(chosen, config[job], events, job, boot, today, lookback)
      requires LooksBackTo(day, today, lookback)
      modifies this`warned
      ensures r == chosen(day)
    {
      if !IsScheduledDay(config[job], day) {
        return false;
      }
      var done := ComputeHasSuccess(events, job, DayKey(day));
      if done {
        return false;
      }
      var limited := ReachedLimit(job, DayKey(day));
      r := !limited;
    }

    method GetMissedPastPeriods(job: string, lookback: nat, now: Instant) returns (missed: seq<PeriodKey>)
      modifies this`events, this`warned
      ensures missed == if job in config
                then MissedPastPeriods(config[job], file.events, job, boot, DayOf(now), lookback) else []
    {
      if job !in config || config[job].period != Daily || !config[job].backfill {
        return [];
      }
      ReloadState();
      missed := CollectMissedDays(job, DayOf(now), lookback, DayMissedIn(config[job], events, job, boot));
    }

    method CollectMissedDays(job: string, today: int, lookback: nat, ghost chosen: int -> bool)
      returns (missed: seq<PeriodKey>)
      requires job in config && Chooses(chosen, config[job], events, job, boot, today, lookback)
      modifies this`warned
      ensures missed == DaysBack(chosen, today, lookback)
    {
      missed := [];
      for back := 1 to lookback + 1
        invariant missed == DaysBack(chosen, today, back - 1)
      {
        var missing := IsDayMissed(job, today - back, chosen, today, lookback);
        if missing {
          missed := missed + [DayKey(today - back)];
        }
      }
    }

    // ----- notices -----

    method OldestEventDay() returns (day: Option<int>)
      ensures day == OldestDay(events)
    {
      for n := 0 to |events|
        invariant OldestDay(events) == OldestDay(events[n..])
      {
        assert events[n..][1..] == events[n + 1..];
        if OrderStamp(events[n]).Some? {
          return Some(StampDay(OrderStamp(events[n]).value));
        }
      }
      return None;
    }

    method IsStillUnreported(job: string, period: PeriodKey) returns (r: bool)
      ensures r == StillUnreported(sent, events, job, period)
    {
      if (job, period) in sent {
        return false;
      }
      var done := ComputeHasSuccess(events, job, period);
      r := !done && !exists i | 0 <= i < |events| ::
          Concerns(events[i], job, period) && events[i].status == CapNoticeSent;
    }

    /** The scan of the past business days, at most once a day while nothing is missing. */
    method ScanPastDays(job: string, days: seq<int>, today: int) returns (missed: seq<int>)
      modifies this`events, this`scanned
      ensures missed == if ScanSkipped(old(scanned), inProgress, job, today) then []
                        else PastDaysWithoutSuccess(sent, file.events, job, days)
      ensures scanned
                == old(scanned) + (if !ScanSkipped(old(scanned), inProgress, job, today) && missed == []
                    && OldestDay(file.events).Some?
                                         then {(job, today)} else {})
      ensures (job, today) !in old(scanned) && job !in inProgress ==> FindsDays(sent, file.events, job, days, missed)
    {
      missed := [];
      if (job, today) in scanned || job in inProgress {
        return;
      }
      ReloadState();
      var oldest := OldestEventDay();
      if oldest.None? {
        assert PastDaysWithoutSuccess(sent, events, job, days) == [] by {
          NothingRetained(sent, events, job, days);
        }
        return;
      }
      for n := 0 to |days|
        invariant events == file.events && scanned == old(scanned)
        invariant missed == PastDaysWithoutSuccess(sent, events, job, days[..n])
      {
        assert days[..n + 1][..n] == days[..n];
        if days[n] > oldest.value {
          var unreported := IsStillUnreported(job, DayKey(days[n]));
          if unreported {
            missed := missed + [days[n]];
          }
        }
      }
      assert days[..|days|] == days;
      if missed == [] {
        scanned := scanned + {(job, today)};
      }
    }

    method IsWeekMissed(job: string, day: int, today: int, oldest: int) returns (r: bool)
      requires job in config && day >= FIRST_DAY - 7 && OldestDay(events) == Some(oldest)
      ensures r == WeekMissed(config[job], sent, events, job, day, today)
    {
      if MondayOf(day) <= oldest || !WeekRecoveryEnded(config[job], day, today) {
        return false;
      }
      r := IsStillUnreported(job, PeriodOfDay(config[job].period, day));
    }

    /** The scan of last week and this week, at most once a day while nothing is missing. */
    method ScanEndedWeeks(job: string, today: int) returns (missed: Option<PeriodKey>)
      requires today >= FIRST_DAY
      modifies this`events, this`scanned
      ensures missed == if job !in config || ScanSkipped(old(scanned), inProgress, job, today) then None
                        else EndedWeek(config[job], sent, file.events, job, today)
      ensures scanned == old(scanned) + (if job in config && !ScanSkipped(old(scanned), inProgress, job, today)
                                            && missed == None && OldestDay(file.events).Some?
                                         then {(job, today)} else {})
      ensures job in config && config[job].Valid() && (job, today) !in old(scanned) && job !in inProgress ==>
                FindsLastWeek(config[job], sent, file.events, job, today, missed)
    {
      LastWeekIsFound(config, sent, file.events, job, today);
      if job !in config || (job, today) in scanned || job in inProgress {
        return None;
      }
      ReloadState();
      var oldest := OldestEventDay();
      if oldest.None? {
        return None;
      }
      var last := IsWeekMissed(job, today - 7, today, oldest.value);
      if last {
        return Some(PeriodOfDay(config[job].period, today - 7));
      }
      var current := IsWeekMissed(job, today, today, oldest.value);
      if current {
        return Some(PeriodOfDay(config[job].period, today));
      }
      scanned := scanned + {(job, today)};
      return None;
    }

    /** The current period of a schedule, once its recovery delay is over, if it is unreported. */
    method FindPeriodWithoutSuccess(job: string, schedule: JobConfig, now: Instant) returns (period: Option<PeriodKey>)
      requires schedule.Valid() && DayOf(now) >= FIRST_DAY && schedule.hour.Some? && schedule.minute.Some?
      modifies this`events
      ensures period == PeriodWithoutSuccess(schedule, job in inProgress, sent, file.events, job, now)
      ensures period.Some? ==> events == file.events
    {
      if job in inProgress {
        return None;
      }
      var basis := ScheduledForRecovery(schedule, now);
      if basis.None? || now < basis.value + schedule.recoveryDelayMinutes * 60 * SECOND {
        return None;
      }
      ReloadState();
      var unreported := IsStillUnreported(job, PeriodOf(schedule, now));
      period := if unreported then Some(PeriodOf(schedule, now)) else None;
    }

    method FindCappedPeriod(job: string, now: Instant) returns (period: Option<PeriodKey>)
      requires DayOf(now) >= FIRST_DAY
      requires job in config ==> config[job].Valid() && config[job].hour.Some? && config[job].minute.Some?
      modifies this`events, this`warned
      ensures period == if job in config
                then CappedPeriod(config[job], job in inProgress, sent, file.events, job, boot, now) else None
    {
      if job !in config {
        return None;
      }
      period := FindPeriodWithoutSuccess(job, config[job].(recoverRestOfWeek := true), now);
      if period.Some? {
        var limited := ReachedLimit(job, period.value);
        if !limited {
          period := None;
        }
      }
    }

    method FindMissedDay(job: string, isBusinessDay: bool, now: Instant) returns (period: Option<PeriodKey>)
      requires DayOf(now) >= FIRST_DAY
      requires job in config ==> config[job].Valid() && config[job].hour.Some? && config[job].minute.Some?
      modifies this`events, this`warned
      ensures period == if job in config
                then MissedDay(config[job], isBusinessDay, job in inProgress, sent, file.events, job, boot, now)
                    else None
    {
      if job !in config || !isBusinessDay {
        return None;
      }
      period := FindPeriodWithoutSuccess(job, config[job], now);
      if period.Some? {
        var limited := ReachedLimit(job, period.value);
        if !limited && !IsPastRecoveryUntil(config[job], now) {
          period := None;
        }
      }
    }

    /** Remember the notice in memory first, then save its mark. */
    method RecordSent(job: string, period: PeriodKey, now: Instant, saved: bool)
      modifies this`events, this`sent, file
      ensures sent == old(sent) + {(job, period)}
      ensures file.events == if saved then Appended(old(file.events), MarkEvent(now, job, period)) else old(file.events)
    {
      sent := sent + {(job, period)};
      AppendEvent(MarkEvent(now, job, period), saved);
    }

    /** The notice of a week: one at its limit, else one that has ended. An undelivered message leaves
        no trace. */
    method NotifyWeek(job: string, now: Instant, delivered: bool, saved: bool) returns (message: Option<PeriodKey>)
      requires DayOf(now) >= FIRST_DAY
      requires job in config ==> config[job].Valid() && config[job].hour.Some? && config[job].minute.Some?
      modifies this`events, this`warned, this`scanned, this`sent, file
      ensures message == if job in config
                         then WeekMessage(config[job], old(sent), old(scanned), inProgress, old(file.events), job,
                                          boot, now) else None
      ensures sent == old(sent) + (if message.Some? && delivered then {(job, message.value)} else {})
      ensures file.events == if message.Some? && delivered
                && saved then Appended(old(file.events), MarkEvent(now, job, message.value))
                             else old(file.events)
      ensures job in config ==>
                var capped := CappedPeriod(config[job], job in inProgress, old(sent), old(file.events), job, boot, now);
                capped.Some? ==> message == capped
      ensures job in config && (job, DayOf(now)) !in old(scanned) && job !in inProgress
              && CappedPeriod(config[job], false, old(sent), old(file.events), job, boot, now) == None ==>
                FindsLastWeek(config[job], old(sent), old(file.events), job, DayOf(now), message)
    {
      message := FindCappedPeriod(job, now);
      if message.None? {
        message := ScanEndedWeeks(job, DayOf(now));
      }
      if message.Some? && delivered {
        RecordSent(job, message.value, now, saved);
      }
    }

    method NotifyMissedDay(job: string, isBusinessDay: bool, now: Instant, delivered: bool, saved: bool)
      returns (message: Option<PeriodKey>)
      requires DayOf(now) >= FIRST_DAY
      requires job in config ==> config[job].Valid() && config[job].hour.Some? && config[job].minute.Some?
      modifies this`events, this`warned, this`sent, file
      ensures message == if job in config
                then MissedDay(config[job], isBusinessDay, job in inProgress, old(sent), old(file.events), job, boot,
                               now)
                         else None
      ensures sent == old(sent) + (if message.Some? && delivered then {(job, message.value)} else {})
      ensures file.events == if message.Some? && delivered
                && saved then Appended(old(file.events), MarkEvent(now, job, message.value))
                             else old(file.events)
    {
      message := FindMissedDay(job, isBusinessDay, now);
      if message.Some? && delivered {
        RecordSent(job, message.value, now, saved);
      }
    }

    /** Save the marks in turn until one cannot be saved. */
    method RecordAll(job: string, keys: seq<PeriodKey>, now: Instant, marksSaved: nat)
      requires Marks(job, keys) <= sent
      modifies this`events, this`sent, file
      ensures sent == old(sent)
      ensures file.events == WithMarks(old(file.events), now, job, keys[..Min(marksSaved, |keys|)])
    {
      for n := 0 to |keys|
        invariant n <= marksSaved && sent == old(sent)
        invariant file.events == WithMarks(old(file.events), now, job, keys[..n])
      {
        OneMoreMark(old(file.events), now, job, keys, n);
        assert (job, keys[n]) in sent;
        RecordSent(job, keys[n], now, n < marksSaved);
        if n >= marksSaved {
          return;
        }
      }
    }

    /** One message for all the missed days; all are remembered at once, before their marks are saved. */
    method NotifyPastDays(job: string, days: seq<int>, now: Instant, delivered: bool, marksSaved: nat)
      returns (missed: seq<int>)
      modifies this`events, this`scanned, this`sent, file
      ensures missed == DaysMessage(old(sent), old(scanned), inProgress, old(file.events), job, days, now)
      ensures sent == old(sent) + (if delivered then Marks(job, DayKeys(missed)) else {})
      ensures file.events == if delivered
                then WithMarks(old(file.events), now, job, DayKeys(missed)[..Min(marksSaved, |missed|)])
                             else old(file.events)
      ensures (job, DayOf(now)) !in old(scanned) && job !in inProgress ==>
                FindsDays(old(sent), old(file.events), job, days, missed)
    {
      missed := ScanPastDays(job, days, DayOf(now));
      if missed != [] && delivered {
        sent := sent + Marks(job, DayKeys(missed));
        RecordAll(job, DayKeys(missed), now, marksSaved);
      }
    }
  }

  lemma {:induction false} NothingRetained(sent: set<(string, PeriodKey)>, events: seq<Event>, job: string,
                                           days: seq<int>)
    requires OldestDay(events).None?
    ensures PastDaysWithoutSuccess(sent, events, job, days) == []
  {
    if days != [] { NothingRetained(sent, events, job, days[..|days| - 1]); }
  }
}
