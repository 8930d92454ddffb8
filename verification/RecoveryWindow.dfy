/** A period is reported only when it can no longer be recovered, and then is. */
module RecoveryWindow {
  import opened Calendar
  import opened RecoveryDays
  import opened RecoveryGaps
  import opened RunLedger
  import opened SchedulerEvents
  import opened SchedulerTime
  import opened SchedulerVerdicts
  import opened Wrappers

  /** On a business day whose recovery delay is over without success or notice, a job that is not
      running is either recovered now or reported now, never both; it is neither only while it waits
      for its recovery gap. */
  lemma RecoveredOrReported(config: JobConfig, sent: set<(string, PeriodKey)>, events: seq<Event>, job: string,
                            boot: BootMark, now: Instant)
    requires config.Valid() && DayOf(now) >= FIRST_DAY && config.hour.Some? && config.minute.Some?
    requires ScheduledForRecovery(config, now).Some?
    requires now >= ScheduledForRecovery(config, now).value + config.recoveryDelayMinutes * 60 * SECOND
    requires StillUnreported(sent, events, job, PeriodOf(config, now))
    ensures
      var recovered := ShouldRecover(config, events, false, job, boot, now);
      var reported := MissedDay(config, true, false, sent, events, job, boot, now).Some?;
      && !(recovered && reported)
      && (recovered || reported || WithinGap(config, events, job, PeriodOf(config, now), now))
  {
  }

  /** The same in the run ledger, exactly: such a job is recovered, reported, or held back by a run of the
      day, and a held one is reported all the same once it is at its limit or past its deadline. */
  lemma RecoveredReportedOrHeld(config: JobConfig, s: System, sent: set<(string, PeriodKey)>, job: string,
                                boot: BootMark)
    requires Recorded(s) && config.Valid() && DayOf(s.now) >= FIRST_DAY && config.hour.Some? && config.minute.Some?
    requires ScheduledForRecovery(config, s.now).Some?
    requires s.now >= ScheduledForRecovery(config, s.now).value + config.recoveryDelayMinutes * 60 * SECOND
    requires StillUnreported(sent, s.Log(), job, PeriodOf(config, s.now))
    ensures
      var recovered := ShouldRecover(config, s.Log(), false, job, boot, s.now);
      var reported := MissedDay(config, true, false, sent, s.Log(), job, boot, s.now).Some?;
      var held := exists id :: IsRunOf(s, id, job, PeriodOf(config, s.now)) && Holds(config, s, id, s.now);
      && !(recovered && (reported || held))
      && (recovered || reported || held)
  {
    RecoveredOrReported(config, sent, s.Log(), job, boot, s.now);
    WithinGapIff(config, s, job, PeriodOf(config, s.now), s.now);
  }

  /** The current week is reported neither as given up nor as ended while it would be recovered. */
  lemma NotCappedWhileRecovered(config: JobConfig, sent: set<(string, PeriodKey)>, events: seq<Event>, job: string,
                                boot: BootMark, now: Instant)
    requires config.Valid() && DayOf(now) >= FIRST_DAY && config.hour.Some? && config.minute.Some?
    requires ShouldRecover(config, events, false, job, boot, now)
    ensures CappedPeriod(config, false, sent, events, job, boot, now) == None
    ensures !WeekMissed(config, sent, events, job, DayOf(now), DayOf(now))
  {
    if config.period == Weekly && config.weekdays != {} {
      MondayFacts(DayOf(now));
      EndedIffNoRecoveryLeft(config, DayOf(now), DayOf(now));
    }
  }
}
