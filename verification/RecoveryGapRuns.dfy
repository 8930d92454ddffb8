/** The recovery gap over whole runs of the ledger: what every recovery keeps, exactly when one may
    start, and runs in which one starts within the gap of a failed run because the end of that run was
    cut to its second, could not be recorded, or was cut from the log. */
module RecoveryGapRuns {
  import opened Calendar
  import opened RecoveryCauses
  import opened RecoveryDays
  import opened RecoveryGaps
  import opened RunLedger
  import opened RunLedgerExactness
  import opened RunLedgerSafety
  import opened SchedulerEvents
  import opened SchedulerTime
  import opened SchedulerVerdicts
  import opened Collections
  import opened Wrappers

  /** In every run of the ledger, a recovery starts no sooner than the gap after the end of each failed
      run of its period that ended before it was decided, unless that end had been cut from the log or
      is exempt. An end that was never recorded is no such end. */
  lemma EveryRecoveryKeepsGap(cfg: Configs, s: System, actions: seq<Action>, start: Instant, k: nat, id: nat)
    requires ValidConfigs(cfg) && ReachableBy(cfg, s, actions, start) && k < |s.recoveries|
    ensures
      var rec := s.recoveries[k];
      && rec.job in cfg
      && (cfg[rec.job].recoveryMinGapMinutes.Some? && IsRunOf(s, id, rec.job, rec.period)
          && s.runs[id].status.Ended? && !s.runs[id].status.succeeded && s.runs[id].status.at < rec.decidedOn ==>
            || GapOver(rec.at, s.runs[id].status.end, cfg[rec.job].recoveryMinGapMinutes.value)
            || s.runs[id].status.at < rec.cut || s.runs[id].status.exempt)
  {
    EveryRunIsSafe(cfg, s, actions, start);
    assert GapKept(cfg, s, s.recoveries[k]);
  }

  /** What a recovery of the current period needs, in terms of times and runs: its time has come and its
      deadline has not, the log shows no run of the period that succeeded, fewer than the limit are
      visible and not forgiven, and none holds it back. */
  ghost predicate RecoveryOpen(config: JobConfig, s: System, job: string, boot: BootMark)
    requires DayOf(s.now) >= FIRST_DAY
  {
    var period := PeriodOf(config, s.now);
    && InTime(config, s.now)
    && (forall id :: IsRunOf(s, id, job, period) ==> !SuccessRetained(s, id) && !Holds(config, s, id, s.now))
    && |VisibleRuns(s, job, period)| - Forgiven(config, s, job, period, boot) < config.maxExecutions
  }

  lemma RecoversIff(config: JobConfig, s: System, job: string, boot: BootMark)
    requires config.Valid() && Recorded(s) && DayOf(s.now) >= FIRST_DAY
    ensures ShouldRecover(config, s.Log(), false, job, boot, s.now) <==> RecoveryOpen(config, s, job, boot)
  {
    hide InTime, HasSuccess, WithinGap, CountFor, Holds, SuccessRetained, VisibleRuns, Forgiven, Recorded;
    var period := PeriodOf(config, s.now);
    InTimeIff(config, s.now);
    SuccessIffRun(s, job, period);
    CountIsVisibleRuns(config, s, job, period, boot);
    WithinGapIff(config, s, job, period, s.now);
  }

  /** A recovery of a job that is not running may start if and only if it is open. */
  lemma RecoveryStartsIff(cfg: Configs, s: System, b: nat, job: string, runId: nat)
    requires ValidConfigs(cfg) && Recorded(s) && DayOf(s.now) >= FIRST_DAY && job in cfg
    requires b in s.processes && s.processes[b].alive && runId !in s.runs && !Running(s, b, job)
    ensures Enabled(cfg, s, Start(b, job, PeriodOf(cfg[job], s.now), ToRecover, false, s.now, runId))
            <==> RecoveryOpen(cfg[job], s, job, s.processes[b].boot)
  {
    hide RecoveryOpen, Recorded, InTime;
    RecoversIff(cfg[job], s, job, s.processes[b].boot);
  }

  // ----- building runs -----

  lemma Extend(cfg: Configs, s: System, actions: seq<Action>, start: Instant, a: Action)
    requires ValidConfigs(cfg) && ReachableBy(cfg, s, actions, start)
    requires s.LogValid() && DayOf(s.now) >= FIRST_DAY && Enabled(cfg, s, a)
    ensures ReachableBy(cfg, Apply(cfg, s, a), actions + [a], start)
  {
    assert (actions + [a])[..|actions + [a]| - 1] == actions;
  }

  lemma NothingYet(cfg: Configs, start: Instant)
    requires ValidConfigs(cfg) && DayOf(start) >= FIRST_DAY
    ensures ReachableBy(cfg, Initial(start), [], start)
  {
  }

  lemma TickTo(cfg: Configs, s: System, actions: seq<Action>, start: Instant, to: Instant)
    requires ValidConfigs(cfg) && ReachableBy(cfg, s, actions, start)
    requires s.LogValid() && DayOf(s.now) >= FIRST_DAY && to >= s.now
    ensures DayOf(to) >= FIRST_DAY
    ensures ReachableBy(cfg, s.(now := to), actions + [Tick(to)], start)
  {
    hide ReachableBy;
    StampsAscend(s.now, to);
    Extend(cfg, s, actions, start, Tick(to));
  }

  /** n retries later: only the log has changed, and of its former events at most MAX_EVENTS - n are left. */
  lemma {:induction false} AfterRetries(cfg: Configs, s: System, actions: seq<Action>, start: Instant, e: Event, n: nat)
      returns (t: System, more: seq<Action>)
    requires ValidConfigs(cfg) && ReachableBy(cfg, s, actions, start)
    requires s.LogValid() && DayOf(s.now) >= FIRST_DAY && NoteAllowed(s, e) && e.status == Retry
    ensures ReachableBy(cfg, t, more, start) && t.LogValid()
    ensures t == s.(history := t.history, cut := t.cut) && |t.history| == |s.history| + n && s.history <= t.history
    ensures n > 0 ==> t.cut + MAX_EVENTS >= |s.history| + n
  {
    hide ReachableBy, Enabled;
    t, more := s, actions;
    if n > 0 {
      t, more := AfterRetries(cfg, s, actions, start, e, n - 1);
      Extend(cfg, t, more, start, Note(e));
      t, more := Append(t, e), more + [Note(e)];
      assert |t.Log()| <= MAX_EVENTS;
    }
  }

  /** No run of the period succeeded, fewer than the limit are visible, and none holds: the recovery starts. */
  lemma RecoverNow(cfg: Configs, s: System, actions: seq<Action>, start: Instant, b: nat, job: string, runId: nat)
    requires ValidConfigs(cfg) && ReachableBy(cfg, s, actions, start)
    requires s.LogValid() && DayOf(s.now) >= FIRST_DAY && job in cfg && InTime(cfg[job], s.now)
    requires b in s.processes && s.processes[b].alive && runId !in s.runs && !Running(s, b, job)
    requires |VisibleRuns(s, job, PeriodOf(cfg[job], s.now))| < cfg[job].maxExecutions
    requires forall id :: IsRunOf(s, id, job, PeriodOf(cfg[job], s.now)) ==>
               !(s.runs[id].status.Ended? && s.runs[id].status.succeeded) && !Holds(cfg[job], s, id, s.now)
    ensures
      var a := Start(b, job, PeriodOf(cfg[job], s.now), ToRecover, false, s.now, runId);
      Enabled(cfg, s, a) && ReachableBy(cfg, Apply(cfg, s, a), actions + [a], start)
  {
    hide ReachableBy, InTime;
    EveryRunIsSafe(cfg, s, actions, start);
    RecoveryStartsIff(cfg, s, b, job, runId);
    Extend(cfg, s, actions, start, Start(b, job, PeriodOf(cfg[job], s.now), ToRecover, false, s.now, runId));
  }

  /** A process boots and starts a run of the job. */
  lemma FirstRun(cfg: Configs, job: string, t0: Instant) returns (s: System, actions: seq<Action>)
    requires ValidConfigs(cfg) && job in cfg && cfg[job].maxExecutions >= 1 && DayOf(t0) >= FIRST_DAY
    ensures ReachableBy(cfg, s, actions, t0) && s.LogValid() && s.now == t0 && s.recoveries == []
    ensures s.processes == map[0 := Process(BootMark(0, StampOf(t0)), true, {})] && |s.history| == 1 && s.cut == 0
    ensures s.runs == map[0 := Run(job, PeriodOf(cfg[job], t0), 0, OtherReason, false, t0, t0, 0, Live)]
  {
    hide ReachableBy;
    var s0, period := Initial(t0), PeriodOf(cfg[job], t0);
    NothingYet(cfg, t0);
    Extend(cfg, s0, [], t0, Boot(0));
    var s1 := Apply(cfg, s0, Boot(0));
    assert LiveRuns(s0) == {};
    var a := Start(0, job, period, OtherReason, false, t0, 0);
    EveryRunIsSafe(cfg, s1, [] + [Boot(0)], t0);
    CountIsVisibleRuns(cfg[job], s1, job, period, s1.processes[0].boot);
    assert VisibleRuns(s1, job, period) == {};
    Extend(cfg, s1, [] + [Boot(0)], t0, a);
    s, actions := Apply(cfg, s1, a), [] + [Boot(0)] + [a];
  }

  /** The live run 0 ends in failure now, recorded or not. */
  lemma EndInFailure(cfg: Configs, s: System, actions: seq<Action>, start: Instant, recorded: bool)
      returns (t: System, more: seq<Action>)
    requires ValidConfigs(cfg) && ReachableBy(cfg, s, actions, start) && s.LogValid() && DayOf(s.now) >= FIRST_DAY
    requires 0 in s.runs && s.runs[0].status == Live
    ensures ReachableBy(cfg, t, more, start) && t.LogValid()
    ensures t == s.(history := t.history, cut := t.cut, runs := t.runs) && |t.history| <= |s.history| + 1
    ensures |s.history| < MAX_EVENTS ==> t.cut == s.cut
    ensures t.runs
              == s.runs[0 := s.runs[0].(status := if recorded then Ended(|s.history|, s.now, false, false)
                  else Unrecorded(s.now, false))]
  {
    hide ReachableBy;
    var a := if recorded then Finish(0, false, false) else LoseFinish(0, false);
    Extend(cfg, s, actions, start, a);
    t, more := Apply(cfg, s, a), actions + [a];
  }

  /** A run that starts at t0 fails at t1, recorded or not. */
  lemma FailedRun(cfg: Configs, job: string, t0: Instant, t1: Instant, recorded: bool)
    returns (s: System, actions: seq<Action>)
    requires ValidConfigs(cfg) && job in cfg && cfg[job].maxExecutions >= 1 && DayOf(t0) >= FIRST_DAY && t0 <= t1
    ensures ReachableBy(cfg, s, actions, t0) && s.LogValid() && s.now == t1 && DayOf(t1) >= FIRST_DAY
              && s.recoveries == []
    ensures s.processes == map[0 := Process(BootMark(0, StampOf(t0)), true, {})] && s.cut == 0
    ensures s.runs == map[0 := Run(job, PeriodOf(cfg[job], t0), 0, OtherReason, false, t0, t0, 0,
                                   if recorded then Ended(1, t1, false, false) else Unrecorded(t1, false))]
  {
    hide ReachableBy;
    s, actions := FirstRun(cfg, job, t0);
    TickTo(cfg, s, actions, t0, t1);
    s, actions := EndInFailure(cfg, s.(now := t1), actions + [Tick(t1)], t0, recorded);
  }

  lemma OneVisible(s: System, job: string, period: PeriodKey, id: nat)
    requires s.runs.Keys == {id}
    ensures |VisibleRuns(s, job, period)| <= 1
  {
    SubsetSize(VisibleRuns(s, job, period), {id});
  }

  /** After the one failed run, time passes to `at` and the job is recovered. */
  lemma RecoverAt(cfg: Configs, s: System, actions: seq<Action>, start: Instant, job: string, at: Instant)
      returns (t: System, more: seq<Action>)
    requires ValidConfigs(cfg) && ReachableBy(cfg, s, actions, start) && s.LogValid() && DayOf(s.now) >= FIRST_DAY
    requires job in cfg && s.now <= at && DayOf(at) >= FIRST_DAY && InTime(cfg[job], at)
    requires 0 in s.processes && s.processes[0].alive && s.runs.Keys == {0}
    requires s.runs[0].status.Unrecorded? || (s.runs[0].status.Ended? && !s.runs[0].status.succeeded)
    requires |VisibleRuns(s, job, PeriodOf(cfg[job], at))| < cfg[job].maxExecutions && !Holds(cfg[job], s, 0, at)
    ensures ReachableBy(cfg, t, more, start) && 0 in t.runs && t.runs[0] == s.runs[0]
    ensures t.recoveries == s.recoveries + [Recovery(job, PeriodOf(cfg[job], at), at, |s.history|, s.cut)]
  {
    hide ReachableBy, InTime;
    TickTo(cfg, s, actions, start, at);
    var waited := s.(now := at);
    assert VisibleRuns(waited, job, PeriodOf(cfg[job], at)) == VisibleRuns(s, job, PeriodOf(cfg[job], at));
    RecoverNow(cfg, waited, actions + [Tick(at)], start, 0, job, 1);
    var a := Start(0, job, PeriodOf(cfg[job], at), ToRecover, false, at, 1);
    t, more := Apply(cfg, waited, a), actions + [Tick(at)] + [a];
  }

  // ----- three ways to start within the gap -----

  /** The one recovery of s, at `at`, follows a failed run of its period, run 0. */
  predicate RecoveredOnce(s: System, job: string, at: Instant) {
    && 0 in s.runs && s.runs[0].job == job
    && |s.recoveries| == 1 && s.recoveries[0].job == job && s.recoveries[0].period == s.runs[0].period
        && s.recoveries[0].at == at
  }

  /** The times of a run, of its failure and of a recovery of the same period. */
  ghost predicate InTurn(config: JobConfig, t0: Instant, t1: Instant, t2: Instant)
    requires config.Valid()
  {
    && DayOf(t0) >= FIRST_DAY && DayOf(t2) >= FIRST_DAY && t0 <= t1 <= t2
    && PeriodOf(config, t0) == PeriodOf(config, t2) && InTime(config, t2)
  }

  /** A failed run that ended within a second: its recovery may start up to that much before the gap is
      over. With MicrosecondGapIff this can happen after a run exactly if it did not end on a full second. */
  lemma TooSoonWithinSecond(cfg: Configs, job: string, t0: Instant, t1: Instant, t2: Instant)
    returns (s: System, actions: seq<Action>)
    requires ValidConfigs(cfg) && job in cfg && InTurn(cfg[job], t0, t1, t2)
    requires cfg[job].maxExecutions >= 2 && cfg[job].recoveryMinGapMinutes.Some?
    requires GapOver(t2, t1, cfg[job].recoveryMinGapMinutes.value)
              && t2 < t1 + cfg[job].recoveryMinGapMinutes.value * 60 * SECOND
    ensures ReachableBy(cfg, s, actions, t0) && RecoveredOnce(s, job, t2)
    ensures s.runs[0].status == Ended(1, t1, false, false) && s.recoveries[0].cut == 0
    ensures s.recoveries[0].at < s.runs[0].status.end + cfg[job].recoveryMinGapMinutes.value * 60 * SECOND
  {
    hide ReachableBy, InTime;
    s, actions := FailedRun(cfg, job, t0, t1, true);
    StampsAscend(t0, t1);
    OneVisible(s, job, PeriodOf(cfg[job], t2), 0);
    EveryRunIsSafe(cfg, s, actions, t0);
    assert RunRecorded(s, 0);
    s, actions := RecoverAt(cfg, s, actions, t0, job, t2);
  }

  /** A run whose end is not in the log can only hold by its start. */
  lemma LostEndHolds(config: JobConfig, s: System, id: nat, now: Instant)
    requires id in s.runs && s.runs[id].status.Unrecorded?
    ensures Holds(config, s, id, now) <==>
              && config.recoveryMinGapMinutes.Some? && !config.rerunIfInterrupted && s.runs[id].start >= s.cut
              && !GapOver(now, s.runs[id].startedAt, config.recoveryMinGapMinutes.value)
  {
  }

  /** A failed run whose end could not be recorded: where only failures count, its recovery may start at
      once; where starts count too, as soon as the gap after its start is over. */
  lemma TooSoonAfterLostEnd(cfg: Configs, job: string, t0: Instant, t1: Instant, t2: Instant)
    returns (s: System, actions: seq<Action>)
    requires ValidConfigs(cfg) && job in cfg && InTurn(cfg[job], t0, t1, t2)
    requires cfg[job].maxExecutions >= 2 && cfg[job].recoveryMinGapMinutes.Some?
    requires cfg[job].rerunIfInterrupted || GapOver(t2, t0, cfg[job].recoveryMinGapMinutes.value)
    ensures ReachableBy(cfg, s, actions, t0) && RecoveredOnce(s, job, t2)
    ensures s.runs[0].status == Unrecorded(t1, false)
  {
    hide ReachableBy, InTime;
    s, actions := FailedRun(cfg, job, t0, t1, false);
    LostEndHolds(cfg[job], s, 0, t2);
    OneVisible(s, job, PeriodOf(cfg[job], t2), 0);
    s, actions := RecoverAt(cfg, s, actions, t0, job, t2);
  }

  /** A failed run whose records were cut by MAX_EVENTS later ones: its recovery may start at once. */
  lemma TooSoonAfterCut(cfg: Configs, job: string, t0: Instant, t1: Instant, t2: Instant)
    returns (s: System, actions: seq<Action>)
    requires ValidConfigs(cfg) && job in cfg && InTurn(cfg[job], t0, t1, t2)
    requires cfg[job].maxExecutions >= 1 && cfg[job].recoveryMinGapMinutes.Some?
    ensures ReachableBy(cfg, s, actions, t0) && RecoveredOnce(s, job, t2)
    ensures s.runs[0].status == Ended(1, t1, false, false) && s.runs[0].status.at < s.recoveries[0].cut
  {
    hide ReachableBy, InTime;
    s, actions := FailedRun(cfg, job, t0, t1, true);
    EveryRunIsSafe(cfg, s, actions, t0);
    assert RunRecorded(s, 0);
    s, actions := AfterRetries(cfg, s, actions, t0, RetryEvent(job, PeriodOf(cfg[job], t0), t1), MAX_EVENTS);
    assert VisibleRuns(s, job, PeriodOf(cfg[job], t2)) == {};
    s, actions := RecoverAt(cfg, s, actions, t0, job, t2);
  }

  // ----- an instance -----

  /** The weekly regime job: Saturdays at 6:30, recovered until Sunday with four hours between runs. */
  const REGIME_LEVERAGE_WEEKLY :=
    JobConfig(Weekly, {SATURDAY}, 1, Some(6), Some(30), 30, None, 12, false, DEFAULT_FORGIVEN_INTERRUPTIONS, true,
              Some(240),
              false, false, true)

  lemma TimesOfDay(day: int)
    requires day >= FIRST_DAY
    ensures DayOf(AtTime(day, 6, 30)) == day && DayOf(AtTime(day, 10, 40)) == day
    ensures StampOf(AtTime(day, 6, 40) + SECOND / 2) == day * DAY_SECONDS + 6 * 3600 + 40 * 60
  {
    DayOfTime(day, 6, 30);
    DayOfTime(day, 10, 40);
  }

  lemma SaturdayInTurn(day: int)
    requires day >= FIRST_DAY && Weekday(day) == SATURDAY
    ensures InTurn(REGIME_LEVERAGE_WEEKLY, AtTime(day, 6, 30), AtTime(day, 6, 40) + SECOND / 2, AtTime(day, 10, 40))
  {
    TimesOfDay(day);
    InTimeIff(REGIME_LEVERAGE_WEEKLY, AtTime(day, 10, 40));
  }

  /** On any Saturday: it fails at 6:40 and half a second, and is recovered at 10:40 sharp. */
  lemma SaturdayRecoveredTooSoon(day: int) returns (s: System, actions: seq<Action>)
    requires day >= FIRST_DAY && Weekday(day) == SATURDAY
    ensures
      var cfg := map["regime_leverage_weekly" := REGIME_LEVERAGE_WEEKLY];
      && ValidConfigs(cfg) && ReachableBy(cfg, s, actions, AtTime(day, 6, 30))
      && RecoveredOnce(s, "regime_leverage_weekly", AtTime(day, 10, 40))
      && s.runs[0].status == Ended(1, AtTime(day, 6, 40) + SECOND / 2, false, false)
      && s.recoveries[0].at < s.runs[0].status.end + 240 * 60 * SECOND
  {
    hide InTurn, ReachableBy, RecoveredOnce;
    SaturdayInTurn(day);
    TimesOfDay(day);
    s, actions := TooSoonWithinSecond(map["regime_leverage_weekly" := REGIME_LEVERAGE_WEEKLY], "regime_leverage_weekly",
                                      AtTime(day, 6, 30), AtTime(day, 6, 40) + SECOND / 2, AtTime(day, 10, 40));
  }
}
