/** Instants, period keys, the time a recovery decision is based on, and the recovery deadline.
    An instant counts microseconds of Japan time from the start of calendar day 0; recorded stamps
    are cut to whole seconds. */
module SchedulerTime {
  import opened Arithmetic
  import opened Calendar
  import opened SchedulerEvents
  import opened Wrappers

  type Instant = int

  const SECOND := 1_000_000
  const DAY_SECONDS := 86_400
  const DAY := DAY_SECONDS * SECOND

  function StampOf(t: Instant): Stamp {
    t / SECOND
  }

  function DayOf(t: Instant): int {
    t / DAY
  }

  /** The day of a recorded stamp. */
  function StampDay(s: Stamp): int {
    s / DAY_SECONDS
  }

  lemma StampKeepsDay(t: Instant)
    ensures StampDay(StampOf(t)) == DayOf(t)
  {
    var d, r := t / DAY, t % DAY;
    assert t == d * DAY + r;
    QuotientUnique(t, SECOND, d * DAY_SECONDS + r / SECOND, r % SECOND);
    QuotientUnique(t / SECOND, DAY_SECONDS, d, r / SECOND);
  }

  lemma StampsAscend(t1: Instant, t2: Instant)
    requires t1 <= t2
    ensures StampOf(t1) <= StampOf(t2) && DayOf(t1) <= DayOf(t2)
  {
  }

  // ----- the records of the log -----

  function StartEvent(now: Instant, bootId: nat, job: string, period: PeriodKey, runId: nat): Event {
    Event(job, period, Started, Some(runId), Some(bootId), Some(StampOf(now)), None, None, false)
  }

  function FinishEvent(job: string, period: PeriodKey, runId: nat, startedAt: Instant, finishedAt: Instant,
                       succeeded: bool, skipRecoveryGap: bool): Event
  {
    Event(job, period, if succeeded then Success else Error, Some(runId), None,
          Some(StampOf(startedAt)), Some(StampOf(finishedAt)), None, !succeeded && skipRecoveryGap)
  }

  function SkipEvent(now: Instant, job: string, period: PeriodKey): Event {
    Event(job, period, SkippedLimit, None, None, Some(StampOf(now)), Some(StampOf(now)), None, false)
  }

  function MarkEvent(now: Instant, job: string, period: PeriodKey): Event {
    Event(job, period, CapNoticeSent, None, None, Some(StampOf(now)), Some(StampOf(now)), None, false)
  }

  function RetryEvent(job: string, period: PeriodKey, now: Instant): Event {
    Event(job, period, Retry, None, None, None, None, Some(StampOf(now)), false)
  }

  // ----- job configurations -----

  datatype PeriodKind = Daily | Weekly | Monthly

  datatype JobConfig = JobConfig(
    period: PeriodKind, weekdays: set<int>, dayOfMonth: int, hour: Option<int>, minute: Option<int>,
    recoveryDelayMinutes: int, recoveryUntil: Option<(int, int)>, maxExecutions: nat,
    rerunIfInterrupted: bool, maxInterruptedReruns: nat, recoverRestOfWeek: bool,
    recoveryMinGapMinutes: Option<int>, backfill: bool, longRecovery: bool, autoSchedule: bool)
  {
    /** An empty set of weekdays means every day. */
    predicate Valid() {
      && (forall w :: w in weekdays ==> 0 <= w <= 6)
      && 1 <= dayOfMonth <= 31
      && (hour.Some? ==> 0 <= hour.value < 24) && (minute.Some? ==> 0 <= minute.value < 60)
    }

    function ForgivenQuota(): nat {
      if rerunIfInterrupted then maxInterruptedReruns else 0
    }
  }

  // ----- period keys -----

  function MondayOf(day: int): int {
    day - Weekday(day)
  }

  /** The ISO 8601 week: the year and the number of the week are those of its Thursday
      (section 4.1.4 of ISO 8601:2004). */
  function IsoWeekKey(day: int): PeriodKey
    requires day >= 7
  {
    var thursday := MondayOf(day) + THURSDAY;
    WeekKey(YearOf(thursday), (thursday - DaysBeforeYear(YearOf(thursday)) - 1) / 7 + 1)
  }

  function MonthFrom(day: int, year: int, from: int): (m: int)
    requires 1 <= from <= 12
    requires Ordinal(year, from, 1) <= day
    ensures from <= m <= 12 && Ordinal(year, m, 1) <= day
    ensures m < 12 ==> day < Ordinal(year, m + 1, 1)
    decreases 12 - from
  {
    if from == 12 || day < Ordinal(year, from + 1, 1) then from else MonthFrom(day, year, from + 1)
  }

  function MonthOf(day: int): (m: int)
    requires day >= 1
    ensures 1 <= m <= 12 && Ordinal(YearOf(day), m, 1) <= day
    ensures m < 12 ==> day < Ordinal(YearOf(day), m + 1, 1)
  {
    MonthFrom(day, YearOf(day), 1)
  }

  function DayOfMonth(day: int): (d: int)
    requires day >= 1
    ensures d >= 1
  {
    day - Ordinal(YearOf(day), MonthOf(day), 1) + 1
  }

  function PeriodOfDay(kind: PeriodKind, day: int): PeriodKey
    requires day >= 7
  {
    match kind
    case Daily => DayKey(day)
    case Weekly => IsoWeekKey(day)
    case Monthly => MonthKey(YearOf(day), MonthOf(day))
  }

  function PeriodOf(config: JobConfig, t: Instant): PeriodKey
    requires DayOf(t) >= 7
  {
    PeriodOfDay(config.period, DayOf(t))
  }

  lemma MondayFacts(day: int)
    ensures Weekday(MondayOf(day)) == MONDAY
    ensures MondayOf(day) <= day <= MondayOf(day) + 6
    ensures (MondayOf(day) + 6) % 7 == 0
  {
    var w := (day + 6) / 7;
    assert day + 6 == 7 * w + Weekday(day);
    QuotientUnique(MondayOf(day) + 6, 7, w, 0);
  }

  /** Days of one Monday-to-Sunday stretch have one Monday. */
  lemma SameStretch(day: int, other: int)
    requires MondayOf(day) <= other <= MondayOf(day) + 6
    ensures MondayOf(other) == MondayOf(day)
  {
    MondayFacts(day);
    var w := (MondayOf(day) + 6) / 7;
    assert MondayOf(day) + 6 == 7 * w;
    QuotientUnique(other + 6, 7, w, other - MondayOf(day));
  }

  /** Two days have the same ISO week key exactly when they lie in the same week. */
  lemma IsoWeekIsMonday(day1: int, day2: int)
    requires day1 >= 7 && day2 >= 7
    ensures IsoWeekKey(day1) == IsoWeekKey(day2) <==> MondayOf(day1) == MondayOf(day2)
  {
    MondayFacts(day1);
    MondayFacts(day2);
    if IsoWeekKey(day1) == IsoWeekKey(day2) {
      var t1, t2 := MondayOf(day1) + THURSDAY, MondayOf(day2) + THURSDAY;
      SameWeekNumber(t1, t2, DaysBeforeYear(YearOf(t1)));
    }
  }

  lemma SameWeekNumber(t1: int, t2: int, base: int)
    requires (t1 - base - 1) / 7 == (t2 - base - 1) / 7
    requires (t1 + 3) % 7 == 0 && (t2 + 3) % 7 == 0
    ensures t1 == t2
  {
    var x1, x2 := t1 - base - 1, t2 - base - 1;
    assert x1 == 7 * (x1 / 7) + x1 % 7 && x2 == 7 * (x2 / 7) + x2 % 7;
    assert t1 + 3 == 7 * ((t1 + 3) / 7) && t2 + 3 == 7 * ((t2 + 3) / 7);
    assert -7 < t1 - t2 < 7;
    assert t1 - t2 == 7 * ((t1 + 3) / 7 - (t2 + 3) / 7);
  }

  // ----- recovery time -----

  function FirstWeekdayFrom(weekdays: set<int>, from: int): (w: int)
    requires 0 <= from <= 6
    ensures from <= w <= 6
    decreases 6 - from
  {
    if from in weekdays || from == 6 then from else FirstWeekdayFrom(weekdays, from + 1)
  }

  function LastWeekdayFrom(weekdays: set<int>, from: int): (w: int)
    requires 0 <= from <= 6
    ensures 0 <= w <= from
    decreases from
  {
    if from in weekdays || from == 0 then from else LastWeekdayFrom(weekdays, from - 1)
  }

  function AtTime(day: int, hour: int, minute: int): Instant {
    day * DAY + (hour * 3600 + minute * 60) * SECOND
  }

  predicate RestOfWeek(config: JobConfig) {
    config.weekdays != {} && config.period == Weekly && config.recoverRestOfWeek
  }

  /** The scheduled day that a recovery decision today is based on; None on a day without recovery. */
  function RecoveryDay(config: JobConfig, today: int): Option<int>
    requires today >= 1
  {
    if RestOfWeek(config) then
      var late := Weekday(today) - FirstWeekdayFrom(config.weekdays, 0);
      if late < 0 then None else Some(today - late)
    else if config.weekdays != {} && Weekday(today) !in config.weekdays then None
    else if config.period == Monthly then
      if DayOfMonth(today) < config.dayOfMonth then None else Some(today - (DayOfMonth(today) - config.dayOfMonth))
    else Some(today)
  }

  /** The scheduled time that a recovery decision now is based on. */
  function ScheduledForRecovery(config: JobConfig, now: Instant): Option<Instant>
    requires config.Valid() && DayOf(now) >= 1
    requires config.hour.Some? && config.minute.Some?
  {
    match RecoveryDay(config, DayOf(now))
    case None => None
    case Some(day) => Some(AtTime(day, config.hour.value, config.minute.value))
  }

  function IsPastRecoveryUntil(config: JobConfig, now: Instant): bool {
    match config.recoveryUntil
    case None => false
    case Some((hour, minute)) => now >= AtTime(DayOf(now), hour, minute)
  }

  lemma DayOfTime(day: int, hour: int, minute: int)
    requires 0 <= hour < 24 && 0 <= minute < 60
    ensures DayOf(AtTime(day, hour, minute)) == day
  {
    QuotientUnique(AtTime(day, hour, minute), DAY, day, (hour * 3600 + minute * 60) * SECOND);
  }

  /** An earlier or equal day of the month lies in the same month. */
  lemma EarlierInMonth(today: int, day: int, dayOfMonth: int)
    requires today >= 1 && 1 <= dayOfMonth <= DayOfMonth(today) && day == today - (DayOfMonth(today) - dayOfMonth)
    ensures day >= 1 && YearOf(day) == YearOf(today) && MonthOf(day) == MonthOf(today)
  {
    FromFirstOfMonth(today, day, dayOfMonth);
    SameMonth(day, today);
  }

  lemma FromFirstOfMonth(today: int, day: int, dayOfMonth: int)
    requires today >= 1 && 1 <= dayOfMonth <= DayOfMonth(today) && day == today - (DayOfMonth(today) - dayOfMonth)
    ensures Ordinal(YearOf(today), MonthOf(today), 1) <= day <= today
  {
  }

  lemma SameMonth(day: int, today: int)
    requires today >= 1 && Ordinal(YearOf(today), MonthOf(today), 1) <= day <= today
    ensures day >= 1 && YearOf(day) == YearOf(today) && MonthOf(day) == MonthOf(today)
  {
    FirstOfMonth(YearOf(today), MonthOf(today));
    SameYear(day, today);
    MonthUnique(day, YearOf(today), MonthOf(today));
  }

  lemma SameYear(day: int, today: int)
    requires today >= 1 && DaysBeforeYear(YearOf(today)) < day <= today
    ensures day >= 1 && YearOf(day) == YearOf(today)
  {
    YearsAscend(1, YearOf(today));
    YearUnique(day, YearOf(today));
  }

  lemma FirstOfMonth(year: int, month: int)
    requires year >= 1 && 1 <= month <= 12
    ensures Ordinal(year, month, 1) > DaysBeforeYear(year)
  {
    MonthsAscend(year, 1, month);
  }

  lemma MonthUnique(day: int, year: int, month: int)
    requires day >= 1 && YearOf(day) == year && 1 <= month <= 12 && Ordinal(year, month, 1) <= day
    requires month < 12 ==> day < Ordinal(year, month + 1, 1)
    ensures MonthOf(day) == month
  {
    MonthFromUnique(day, year, 1, month);
  }

  lemma {:induction false} MonthFromUnique(day: int, year: int, from: int, month: int)
    requires 1 <= from <= month <= 12 && Ordinal(year, from, 1) <= day && Ordinal(year, month, 1) <= day
    requires month < 12 ==> day < Ordinal(year, month + 1, 1)
    ensures MonthFrom(day, year, from) == month
    decreases month - from
  {
    hide DaysBeforeYear, DaysBeforeMonth;
    if from < month {
      MonthsAscend(year, from + 1, month);
      MonthFromUnique(day, year, from + 1, month);
    }
  }

  lemma {:induction false} MonthsAscend(year: int, m1: int, m2: int)
    requires 1 <= m1 <= m2 <= 12
    ensures DaysBeforeMonth(year, m1) <= DaysBeforeMonth(year, m2)
    decreases m2 - m1
  {
    if m1 < m2 { MonthsAscend(year, m1, m2 - 1); }
  }

  lemma MonthLength(day: int)
    requires day >= 1
    ensures DayOfMonth(day) <= 31
  {
    var year, month := YearOf(day), MonthOf(day);
    if month == 12 {
      MonthStarts(year);
      YearLength(year);
    } else {
      assert DaysBeforeMonth(year, month + 1) == DaysBeforeMonth(year, month) + DaysInMonth(year, month);
    }
  }

  lemma RecoveryDaySamePeriod(config: JobConfig, today: int)
    requires config.Valid() && today >= 40
    ensures
      var day := RecoveryDay(config, today);
      day.Some? ==>
          7 <= day.value <= today && PeriodOfDay(config.period, day.value) == PeriodOfDay(config.period, today)
  {
    var day := RecoveryDay(config, today);
    if day.Some? {
      if RestOfWeek(config) {
        MondayFacts(today);
        SameStretch(today, day.value);
        IsoWeekIsMonday(today, day.value);
      } else if config.period == Monthly {
        EarlierInMonth(today, day.value, config.dayOfMonth);
        MonthLength(today);
      }
    }
  }

  /** The basis of a recovery decision lies in the very period that the run would be recorded under,
      and not on a later day. */
  lemma BasisInSamePeriod(config: JobConfig, now: Instant)
    requires config.Valid() && DayOf(now) >= 40 && config.hour.Some? && config.minute.Some?
    ensures
      var basis := ScheduledForRecovery(config, now);
      basis.Some? ==> 7 <= DayOf(basis.value) <= DayOf(now) && PeriodOf(config, basis.value) == PeriodOf(config, now)
  {
    var day := RecoveryDay(config, DayOf(now));
    if day.Some? {
      DayOfTime(day.value, config.hour.value, config.minute.value);
      RecoveryDaySamePeriod(config, DayOf(now));
    }
  }

  /** Two days have one period key exactly when they are the same day, in the same week, or in the same month. */
  lemma SamePeriodIff(kind: PeriodKind, day1: int, day2: int)
    requires day1 >= 7 && day2 >= 7
    ensures PeriodOfDay(kind, day1) == PeriodOfDay(kind, day2) <==>
              match kind
              case Daily => day1 == day2
              case Weekly => MondayOf(day1) == MondayOf(day2)
              case Monthly => YearOf(day1) == YearOf(day2) && MonthOf(day1) == MonthOf(day2)
  {
    hide IsoWeekKey;
    IsoWeekIsMonday(day1, day2);
  }

  /** The week of a key is the nth of its year, that whose Thursday is the nth Thursday of the year. */
  lemma WeekNumberIsOfThursday(day: int)
    requires day >= 7
    ensures
      var thursday, key := MondayOf(day) + THURSDAY, IsoWeekKey(day);
      && InYear(thursday, key.year) && Weekday(thursday) == THURSDAY
      && DaysBeforeYear(key.year) + 7 * (key.week - 1) < thursday <= DaysBeforeYear(key.year) + 7 * key.week
  {
    MondayFacts(day);
    SameStretch(day, MondayOf(day) + THURSDAY);
  }
}
