/** The days on which a period may be recovered and the times of a recovery, in calendar terms. */
module RecoveryDays {
  import opened Arithmetic
  import opened Calendar
  import opened SchedulerEvents
  import opened SchedulerTime
  import opened SchedulerVerdicts
  import opened Wrappers

  lemma {:induction false} FirstWeekdayIs(weekdays: set<int>, from: int, w: int)
    requires 0 <= from <= w <= 6 && w in weekdays
    ensures FirstWeekdayFrom(weekdays, from) in weekdays && FirstWeekdayFrom(weekdays, from) <= w
    decreases w - from
  {
    if from !in weekdays { FirstWeekdayIs(weekdays, from + 1, w); }
  }

  lemma {:induction false} LastWeekdayIs(weekdays: set<int>, from: int, w: int)
    requires 0 <= w <= from <= 6 && w in weekdays
    ensures LastWeekdayFrom(weekdays, from) in weekdays && w <= LastWeekdayFrom(weekdays, from)
    decreases from - w
  {
    if from !in weekdays { LastWeekdayIs(weekdays, from - 1, w); }
  }

  lemma NoWeekday(weekdays: set<int>)
    requires forall w :: w in weekdays ==> 0 <= w <= 6
    requires FirstWeekdayFrom(weekdays, 0) !in weekdays
    ensures weekdays == {}
  {
    forall w | w in weekdays
      ensures false
    {
      FirstWeekdayIs(weekdays, 0, w);
    }
  }

  lemma SomeWeekday(config: JobConfig) returns (w: int)
    requires config.Valid() && config.weekdays != {}
    ensures 0 <= w <= 6 && w in config.weekdays
  {
    w := FirstWeekdayFrom(config.weekdays, 0);
    if w !in config.weekdays { NoWeekday(config.weekdays); }
  }

  lemma WeekdayInWeek(day: int, d: int)
    requires MondayOf(day) <= d <= MondayOf(day) + 6
    ensures Weekday(d) == d - MondayOf(day) && MondayOf(d) == MondayOf(day)
  {
    SameStretch(day, d);
  }

  /** A weekly job that is recovered for the rest of the week: there is a recovery day exactly when a
      scheduled day of this week has come, and it is the first one. */
  lemma RestOfWeekFromFirstDay(config: JobConfig, today: int, d: int)
    requires config.Valid() && RestOfWeek(config) && today >= 1
    requires MondayOf(today) <= d <= MondayOf(today) + 6 && Weekday(d) in config.weekdays
    ensures d <= today ==> RecoveryDay(config, today).Some? && RecoveryDay(config, today).value <= d
    ensures RecoveryDay(config, today).Some? ==>
              var first := RecoveryDay(config, today).value;
              MondayOf(today) <= first <= today && Weekday(first) in config.weekdays
  {
    MondayFacts(today);
    WeekdayInWeek(today, d);
    FirstWeekdayIs(config.weekdays, 0, Weekday(d));
    if RecoveryDay(config, today).Some? { WeekdayInWeek(today, RecoveryDay(config, today).value); }
  }

  /** A monthly job: from its day of the month to the end of that month, based on that day. */
  lemma MonthFromScheduledDay(config: JobConfig, today: int)
    requires config.Valid() && config.period == Monthly && today >= 1
    ensures RecoveryDay(config, today).Some?
            <==> (config.weekdays == {} || Weekday(today) in config.weekdays) && DayOfMonth(today) >= config.dayOfMonth
    ensures RecoveryDay(config, today).Some? ==>
              var day := RecoveryDay(config, today).value;
              && 1 <= day <= today && YearOf(day) == YearOf(today) && MonthOf(day) == MonthOf(today)
              && DayOfMonth(day) == config.dayOfMonth
  {
    var day := RecoveryDay(config, today);
    if day.Some? { EarlierInMonth(today, day.value, config.dayOfMonth); }
  }

  /** The last day on which the week of `day` can be recovered. */
  function LastRecoveryDay(config: JobConfig, day: int): int {
    MondayOf(day) + (if config.recoverRestOfWeek then 6 else LastWeekdayFrom(config.weekdays, 6))
  }

  lemma LastDayRecovers(config: JobConfig, day: int)
    requires config.Valid() && config.period == Weekly && config.weekdays != {} && day >= 7
    ensures MondayOf(day) <= LastRecoveryDay(config, day) <= MondayOf(day) + 6
    ensures RecoveryDay(config, LastRecoveryDay(config, day)).Some?
  {
    MondayFacts(day);
    var w := SomeWeekday(config);
    LastWeekdayIs(config.weekdays, 6, w);
    FirstWeekdayIs(config.weekdays, 0, w);
    WeekdayInWeek(day, LastRecoveryDay(config, day));
  }

  lemma NoLaterRecovers(config: JobConfig, day: int, d: int)
    requires config.Valid() && config.period == Weekly && config.weekdays != {} && day >= 7
    requires LastRecoveryDay(config, day) < d <= MondayOf(day) + 6
    ensures RecoveryDay(config, d).None?
  {
    MondayFacts(day);
    var w := SomeWeekday(config);
    LastWeekdayIs(config.weekdays, 6, w);
    WeekdayInWeek(day, d);
    if Weekday(d) in config.weekdays { LastWeekdayIs(config.weekdays, 6, Weekday(d)); }
  }

  /** A week's recovery counts as ended exactly when no day of it, from today on, is one on which a
      recovery would be considered. */
  lemma EndedIffNoRecoveryLeft(config: JobConfig, day: int, today: int)
    requires config.Valid() && config.period == Weekly && config.weekdays != {} && day >= 7
    ensures WeekRecoveryEnded(config, day, today)
            <==> forall d :: MondayOf(day) <= d <= MondayOf(day) + 6 && d >= today ==> RecoveryDay(config, d).None?
  {
    LastDayRecovers(config, day);
    if WeekRecoveryEnded(config, day, today) {
      forall d | MondayOf(day) <= d <= MondayOf(day) + 6 && d >= today
        ensures RecoveryDay(config, d).None?
      {
        NoLaterRecovers(config, day, d);
      }
    }
  }

  // ----- weeks that ended -----

  /** A week after the oldest retained day without success or notice, in the log or in memory. */
  predicate UnsettledWeek(config: JobConfig, sent: set<(string, PeriodKey)>, events: seq<Event>, job: string, day: int)
    requires day >= 7
  {
    && config.period == Weekly && config.weekdays != {}
    && OldestDay(events).Some? && MondayOf(day) > OldestDay(events).value
    && StillUnreported(sent, events, job, IsoWeekKey(day))
  }

  /** No later day of this week, nor today, is scheduled. */
  predicate NoScheduledDayLeft(config: JobConfig, today: int) {
    forall d :: today <= d <= MondayOf(today) + 6 ==> Weekday(d) !in config.weekdays
  }

  /** This week has ended on its scheduled days alone, and not for a job that is recovered until Sunday. */
  lemma ThisWeekEndedIff(config: JobConfig, today: int)
    requires config.Valid() && config.period == Weekly && config.weekdays != {} && today >= 7
    ensures WeekRecoveryEnded(config, today, today) <==>
              !config.recoverRestOfWeek && NoScheduledDayLeft(config, today)
  {
    MondayFacts(today);
    var w := SomeWeekday(config);
    LastWeekdayIs(config.weekdays, 6, w);
    var last := MondayOf(today) + LastWeekdayFrom(config.weekdays, 6);
    WeekdayInWeek(today, last);
    forall d | today <= d <= MondayOf(today) + 6 && Weekday(d) in config.weekdays
      ensures d <= last
    {
      WeekdayInWeek(today, d);
      LastWeekdayIs(config.weekdays, 6, Weekday(d));
    }
  }

  /** On each of the seven days after it, a week is the last week. */
  lemma LastWeekKey(day: int, today: int)
    requires day >= 7 && today >= FIRST_DAY && MondayOf(day) + 7 <= today <= MondayOf(day) + 13
    ensures today - 7 >= 7 && MondayOf(today - 7) == MondayOf(day) && IsoWeekKey(today - 7) == IsoWeekKey(day)
  {
    MondayFacts(day);
    SameStretch(day, today - 7);
    IsoWeekIsMonday(today - 7, day);
  }

  /** Exactly what the scan of ended weeks finds: last week if it is unsettled, else this week if it is
      unsettled and over for the job. */
  lemma EndedWeekIs(config: JobConfig, sent: set<(string, PeriodKey)>, events: seq<Event>, job: string, today: int)
    requires config.Valid() && today >= FIRST_DAY
    ensures EndedWeek(config, sent, events, job, today)
            == if UnsettledWeek(config, sent, events, job, today - 7) then Some(IsoWeekKey(today - 7))
               else if UnsettledWeek(config, sent, events, job, today) && !config.recoverRestOfWeek
                       && NoScheduledDayLeft(config, today) then Some(IsoWeekKey(today))
               else None
  {
    hide IsoWeekKey, StillUnreported, NoScheduledDayLeft;
    MondayFacts(today - 7);
    if config.period == Weekly && config.weekdays != {} { ThisWeekEndedIff(config, today); }
  }

  /** No ended week is missed: one without success or notice that begins after the oldest retained day is
      found on each of the seven days after it. */
  lemma EndedWeekIsFound(config: JobConfig, sent: set<(string, PeriodKey)>, events: seq<Event>, job: string, day: int,
                         today: int)
    requires config.Valid() && today >= FIRST_DAY && day >= 7 && MondayOf(day) + 7 <= today <= MondayOf(day) + 13
    requires UnsettledWeek(config, sent, events, job, day)
    ensures EndedWeek(config, sent, events, job, today) == Some(IsoWeekKey(day))
  {
    hide IsoWeekKey, StillUnreported;
    LastWeekKey(day, today);
    EndedWeekIs(config, sent, events, job, today);
  }

  // ----- the scheduled day -----

  /** The scheduled day that a recovery today belongs to. A weekly job that is recovered for the rest of
      the week: the first scheduled weekday of this week, once it has come. Any other job: today must be
      a scheduled weekday; a monthly one belongs to its day of this month, once that has come, the
      others to today. */
  predicate BelongsTo(config: JobConfig, day: int, today: int)
    requires day >= 1 && today >= 1
  {
    day <= today &&
    if config.period == Weekly && config.recoverRestOfWeek && config.weekdays != {} then
      && MondayOf(day) == MondayOf(today) && Weekday(day) in config.weekdays
      && forall d :: MondayOf(today) <= d < day ==> Weekday(d) !in config.weekdays
    else
      && (config.weekdays == {} || Weekday(today) in config.weekdays)
      && if config.period == Monthly
         then YearOf(day) == YearOf(today) && MonthOf(day) == MonthOf(today) && DayOfMonth(day) == config.dayOfMonth
         else day == today
  }

  lemma FirstOfWeek(config: JobConfig, today: int, day: int)
    requires config.Valid() && RestOfWeek(config) && today >= 7 && day >= 1
    ensures RecoveryDay(config, today) == Some(day) <==> BelongsTo(config, day, today)
  {
    MondayFacts(today);
    MondayFacts(day);
    var w := FirstWeekdayFrom(config.weekdays, 0);
    var first := MondayOf(today) + w;
    WeekdayInWeek(today, first);
    var some := SomeWeekday(config);
    FirstWeekdayIs(config.weekdays, 0, some);
    if RecoveryDay(config, today) == Some(day) {
      forall d | MondayOf(today) <= d < day
        ensures Weekday(d) !in config.weekdays
      {
        WeekdayInWeek(today, d);
        if Weekday(d) in config.weekdays { FirstWeekdayIs(config.weekdays, 0, Weekday(d)); }
      }
    }
    if BelongsTo(config, day, today) {
      WeekdayInWeek(today, day);
      FirstWeekdayIs(config.weekdays, 0, Weekday(day));
    }
  }

  lemma SameDayOfMonth(today: int, day: int, dayOfMonth: int)
    requires today >= 1 && day >= 1 && 1 <= dayOfMonth
    ensures
      YearOf(day) == YearOf(today) && MonthOf(day) == MonthOf(today) && DayOfMonth(day) == dayOfMonth && day <= today
      <==> DayOfMonth(today) >= dayOfMonth && day == today - (DayOfMonth(today) - dayOfMonth)
  {
    if DayOfMonth(today) >= dayOfMonth && day == today - (DayOfMonth(today) - dayOfMonth) {
      EarlierInMonth(today, day, dayOfMonth);
    }
  }

  /** The day that a recovery decision is based on is the scheduled day that the recovery belongs to. */
  lemma RecoveryDayIs(config: JobConfig, today: int, day: int)
    requires config.Valid() && today >= 7 && day >= 1
    ensures RecoveryDay(config, today) == Some(day) <==> BelongsTo(config, day, today)
  {
    if RestOfWeek(config) {
      FirstOfWeek(config, today, day);
    } else {
      SameDayOfMonth(today, day, config.dayOfMonth);
    }
  }

  // ----- the time -----

  /** A time of a day lies in it, so many hours and minutes after its beginning. */
  lemma TimeOfDay(day: int, hour: int, minute: int)
    requires 0 <= hour < 24 && 0 <= minute < 60
    ensures DayOf(AtTime(day, hour, minute)) == day
    ensures AtTime(day, hour, minute) % DAY == hour * (60 * 60 * SECOND) + minute * (60 * SECOND)
  {
    QuotientUnique(AtTime(day, hour, minute), DAY, day, (hour * 3600 + minute * 60) * SECOND);
  }

  /** The basis of a recovery decision is the hour and minute of the scheduled day it belongs to. */
  lemma BasisIsScheduledTime(config: JobConfig, now: Instant)
    requires config.Valid() && DayOf(now) >= FIRST_DAY && config.hour.Some? && config.minute.Some?
    ensures
      var basis := ScheduledForRecovery(config, now);
      && (basis.Some? <==> exists day :: day >= 1 && BelongsTo(config, day, DayOf(now)))
      && (basis.Some? ==>
            && DayOf(basis.value) >= 1 && BelongsTo(config, DayOf(basis.value), DayOf(now))
            && basis.value % DAY == config.hour.value * (60 * 60 * SECOND) + config.minute.value * (60 * SECOND))
  {
    var today := DayOf(now);
    var day := RecoveryDay(config, today);
    RecoveryDaySamePeriod(config, today);
    if day.Some? {
      RecoveryDayIs(config, today, day.value);
      TimeOfDay(day.value, config.hour.value, config.minute.value);
    }
    if exists d :: d >= 1 && BelongsTo(config, d, today) {
      var d :| d >= 1 && BelongsTo(config, d, today);
      RecoveryDayIs(config, today, d);
    }
  }

  /** It is at or after a deadline of the day. */
  predicate DeadlineOver(config: JobConfig, now: Instant) {
    config.recoveryUntil.Some? && now >= AtTime(DayOf(now), config.recoveryUntil.value.0, config.recoveryUntil.value.1)
  }

  /** A recovery may start now as far as the time goes: the delay after the scheduled time it belongs to is
      over, and the deadline of today is not. */
  ghost predicate InTime(config: JobConfig, now: Instant)
    requires DayOf(now) >= FIRST_DAY
  {
    && config.hour.Some? && config.minute.Some?
    && (exists day ::
        && day >= 1 && BelongsTo(config, day, DayOf(now))
        && now >= AtTime(day, config.hour.value, config.minute.value) + config.recoveryDelayMinutes * 60 * SECOND)
    && !DeadlineOver(config, now)
  }

  lemma InTimeIff(config: JobConfig, now: Instant)
    requires config.Valid() && DayOf(now) >= FIRST_DAY
    ensures InTime(config, now) <==>
              && config.hour.Some? && config.minute.Some? && ScheduledForRecovery(config, now).Some?
              && now >= ScheduledForRecovery(config, now).value + config.recoveryDelayMinutes * 60 * SECOND
              && !IsPastRecoveryUntil(config, now)
  {
    hide BelongsTo, AtTime;
    var today := DayOf(now);
    var day := RecoveryDay(config, today);
    RecoveryDaySamePeriod(config, today);
    if day.Some? { RecoveryDayIs(config, today, day.value); }
    if InTime(config, now) {
      var d :| d >= 1 && BelongsTo(config, d, today)
        && now >= AtTime(d, config.hour.value, config.minute.value) + config.recoveryDelayMinutes * 60 * SECOND;
      RecoveryDayIs(config, today, d);
    }
  }
}
