/** The recovery gap in terms of runs: exactly which earlier runs of a period hold a recovery back, and
    for how long. */
module RecoveryGaps {
  import opened RunLedger
  import opened SchedulerEvents
  import opened SchedulerTime
  import opened SchedulerVerdicts
  import opened Wrappers

  predicate IsRunOf(s: System, id: nat, job: string, period: PeriodKey) {
    id in s.runs && s.runs[id].job == job && s.runs[id].period == period
  }

  /** The gap after an instant is over, as the source counts it: from the second of the instant. */
  predicate GapOver(at: Instant, since: Instant, gapMinutes: int) {
    at >= (StampOf(since) + gapMinutes * 60) * SECOND
  }

  predicate EndRetained(s: System, id: nat)
    requires id in s.runs
  {
    s.runs[id].status.Ended? && s.runs[id].status.at >= s.cut
  }

  /** The log shows that the run failed without any need of a gap. */
  predicate ExemptInLog(s: System, id: nat)
    requires id in s.runs
  {
    EndRetained(s, id) && !s.runs[id].status.succeeded && s.runs[id].status.exempt
  }

  /** The log shows the failed end of the run, and the gap after it is not over. */
  predicate HeldByEnd(s: System, id: nat, gapMinutes: int, now: Instant)
    requires id in s.runs
  {
    EndRetained(s, id) && !s.runs[id].status.succeeded && !s.runs[id].status.exempt
    && !GapOver(now, s.runs[id].status.end, gapMinutes)
  }

  /** The log shows the start of the run, and the gap after it is not over. */
  predicate HeldByStart(s: System, id: nat, gapMinutes: int, now: Instant)
    requires id in s.runs
  {
    s.runs[id].start >= s.cut && !ExemptInLog(s, id) && !GapOver(now, s.runs[id].startedAt, gapMinutes)
  }

  /** The run holds back a recovery: by its end, or by its start unless the job reruns interrupted runs. */
  predicate Holds(config: JobConfig, s: System, id: nat, now: Instant)
    requires id in s.runs
  {
    config.recoveryMinGapMinutes.Some? &&
    var gap := config.recoveryMinGapMinutes.value;
    HeldByEnd(s, id, gap, now) || (!config.rerunIfInterrupted && HeldByStart(s, id, gap, now))
  }

  // ----- the records of a run -----

  lemma {:induction false} SkippedRunsFrom(events: seq<Event>, id: Option<nat>) returns (i: nat)
    requires id in SkippedRuns(events)
    ensures i < |events| && events[i].skipRecoveryGap && events[i].runId == id
  {
    var e := events[|events| - 1];
    if e.skipRecoveryGap && e.runId == id {
      i := |events| - 1;
    } else {
      i := SkippedRunsFrom(events[..|events| - 1], id);
    }
  }

  lemma {:induction false} SkippedRunsHas(events: seq<Event>, i: nat)
    requires i < |events| && events[i].skipRecoveryGap
    ensures events[i].runId in SkippedRuns(events)
  {
    if i < |events| - 1 { SkippedRunsHas(events[..|events| - 1], i); }
  }

  lemma SkippedIffExempt(s: System, id: nat)
    requires Recorded(s) && id in s.runs
    ensures Some(id) in SkippedRuns(s.Log()) <==> ExemptInLog(s, id)
  {
    assert RunRecorded(s, id);
    if Some(id) in SkippedRuns(s.Log()) {
      var i := SkippedRunsFrom(s.Log(), Some(id));
      EventInHistory(s, i);
    }
    if ExemptInLog(s, id) {
      EventInHistory(s, s.runs[id].status.at - s.cut);
      SkippedRunsHas(s.Log(), s.runs[id].status.at - s.cut);
    }
  }

  lemma EndIsAttempt(s: System, id: nat, job: string, period: PeriodKey, includeStarted: bool)
    requires Recorded(s) && IsRunOf(s, id, job, period)
    requires EndRetained(s, id) && !s.runs[id].status.succeeded && !s.runs[id].status.exempt
    ensures
      var i := s.runs[id].status.at - s.cut;
      && i < |s.Log()|
      && AttemptAt(s.Log()[i], job, period, includeStarted, SkippedRuns(s.Log()))
          == Some(StampOf(s.runs[id].status.end))
  {
    assert RunRecorded(s, id);
    SkippedIffExempt(s, id);
    EventInHistory(s, s.runs[id].status.at - s.cut);
  }

  lemma StartIsAttempt(s: System, id: nat, job: string, period: PeriodKey)
    requires Recorded(s) && IsRunOf(s, id, job, period) && s.runs[id].start >= s.cut && !ExemptInLog(s, id)
    ensures
      var i := s.runs[id].start - s.cut;
      i < |s.Log()|
          && AttemptAt(s.Log()[i], job, period, true, SkippedRuns(s.Log())) == Some(StampOf(s.runs[id].startedAt))
  {
    assert RunRecorded(s, id);
    SkippedIffExempt(s, id);
    EventInHistory(s, s.runs[id].start - s.cut);
  }

  /** Every attempt that the log shows is the failed end of a run, or its start where starts count. */
  lemma AttemptIsOfRun(s: System, i: nat, job: string, period: PeriodKey, includeStarted: bool) returns (id: nat)
    requires Recorded(s) && i < |s.Log()|
    requires AttemptAt(s.Log()[i], job, period, includeStarted, SkippedRuns(s.Log())).Some?
    ensures IsRunOf(s, id, job, period) && !ExemptInLog(s, id)
    ensures
      var a := AttemptAt(s.Log()[i], job, period, includeStarted, SkippedRuns(s.Log())).value;
      || (EndRetained(s, id) && !s.runs[id].status.succeeded && a == StampOf(s.runs[id].status.end))
      || (includeStarted && s.runs[id].start >= s.cut && a == StampOf(s.runs[id].startedAt))
  {
    EventInHistory(s, i);
    id := s.Log()[i].runId.value;
    assert RunRecorded(s, id);
    SkippedIffExempt(s, id);
  }

  // ----- the exact condition -----

  /** A recovery waits for its gap exactly when some run of the period holds it back. A failed run whose
      end was cut from the log, could not be recorded or is exempt does not, by its end. */
  lemma WithinGapIff(config: JobConfig, s: System, job: string, period: PeriodKey, now: Instant)
    requires Recorded(s)
    ensures WithinGap(config, s.Log(), job, period, now) <==>
              exists id :: IsRunOf(s, id, job, period) && Holds(config, s, id, now)
  {
    if WithinGap(config, s.Log(), job, period, now) {
      var id := SomeRunHolds(config, s, job, period, now);
    }
    if exists id :: IsRunOf(s, id, job, period) && Holds(config, s, id, now) {
      var id :| IsRunOf(s, id, job, period) && Holds(config, s, id, now);
      HoldingIsWithin(config, s, job, period, now, id);
    }
  }

  lemma SomeRunHolds(config: JobConfig, s: System, job: string, period: PeriodKey, now: Instant) returns (id: nat)
    requires Recorded(s) && WithinGap(config, s.Log(), job, period, now)
    ensures IsRunOf(s, id, job, period) && Holds(config, s, id, now)
  {
    var starts, skipped := !config.rerunIfInterrupted, SkippedRuns(s.Log());
    var latest := LatestAttempt(s.Log(), job, period, starts, skipped);
    var i :| 0 <= i < |s.Log()| && AttemptAt(s.Log()[i], job, period, starts, skipped) == latest;
    id := AttemptIsOfRun(s, i, job, period, starts);
  }

  lemma HoldingIsWithin(config: JobConfig, s: System, job: string, period: PeriodKey, now: Instant, id: nat)
    requires Recorded(s) && IsRunOf(s, id, job, period) && Holds(config, s, id, now)
    ensures WithinGap(config, s.Log(), job, period, now)
  {
    if HeldByEnd(s, id, config.recoveryMinGapMinutes.value, now) {
      EndIsAttempt(s, id, job, period, !config.rerunIfInterrupted);
    } else {
      StartIsAttempt(s, id, job, period);
    }
  }

  // ----- what a recovery keeps -----

  /** A failed run whose end stood in the log from `cut` to `decidedOn`, and is not exempt. */
  predicate FailedWithin(s: System, id: nat, cut: nat, decidedOn: nat)
    requires id in s.runs
  {
    var status := s.runs[id].status;
    status.Ended? && !status.succeeded && !status.exempt && cut <= status.at < decidedOn
  }

  /** The recovery keeps its distance from the end of every failed run of its period that was recorded,
      retained and not exempt when it was decided. */
  predicate GapKept(cfg: Configs, s: System, rec: Recovery) {
    && rec.cut <= rec.decidedOn <= |s.history| && rec.job in cfg
    && (cfg[rec.job].recoveryMinGapMinutes.Some? ==>
          forall id ::
              id in s.runs && IsRunOf(s, id, rec.job, rec.period) && FailedWithin(s, id, rec.cut, rec.decidedOn) ==>
            GapOver(rec.at, s.runs[id].status.end, cfg[rec.job].recoveryMinGapMinutes.value))
  }

  predicate GapsKept(cfg: Configs, s: System) {
    forall k :: 0 <= k < |s.recoveries| ==> GapKept(cfg, s, s.recoveries[k])
  }

  lemma RecoveryKeepsGap(cfg: Configs, s: System, a: Action)
    requires ValidConfigs(cfg) && Recorded(s) && DayOf(s.now) >= FIRST_DAY && a.Start? && a.reason == ToRecover
              && Enabled(cfg, s, a)
    ensures GapKept(cfg, s, Recovery(a.job, a.period, s.now, |s.history|, s.cut))
  {
    var config := cfg[a.job];
    forall id | IsRunOf(s, id, a.job, a.period) && FailedWithin(s, id, s.cut, |s.history|)
        && config.recoveryMinGapMinutes.Some?
      ensures GapOver(s.now, s.runs[id].status.end, config.recoveryMinGapMinutes.value)
    {
      if Holds(config, s, id, s.now) { HoldingIsWithin(config, s, a.job, a.period, s.now, id); }
    }
  }

  /** The ends within a history are those of runs that stay as they are. */
  predicate EndsStay(s: System, r: System) {
    && s.history <= r.history
    && forall id :: id in r.runs && r.runs[id].status.Ended? && r.runs[id].status.at < |s.history| ==>
         id in s.runs && s.runs[id] == r.runs[id]
  }

  /** Later ends lie behind the decision and do not matter to it. */
  lemma GapKeptLater(cfg: Configs, s: System, r: System, rec: Recovery)
    requires GapKept(cfg, s, rec) && EndsStay(s, r)
    ensures GapKept(cfg, r, rec)
  {
  }

  lemma CrashEndsStay(runs: map<nat, Run>, b: nat)
    ensures AfterCrash(runs, b).Keys == runs.Keys
    ensures forall id :: id in runs && AfterCrash(runs, b)[id].status.Ended? ==> AfterCrash(runs, b)[id] == runs[id]
  {
  }

  lemma EndsAppend(cfg: Configs, s: System, a: Action)
    requires ValidConfigs(cfg) && Recorded(s) && DayOf(s.now) >= FIRST_DAY && Enabled(cfg, s, a)
    ensures EndsStay(s, Apply(cfg, s, a))
  {
    if a.Crash? { CrashEndsStay(s.runs, a.bootId); }
  }

  lemma StepGapsKept(cfg: Configs, s: System, a: Action)
    requires ValidConfigs(cfg) && Recorded(s) && DayOf(s.now) >= FIRST_DAY && Enabled(cfg, s, a) && GapsKept(cfg, s)
    ensures GapsKept(cfg, Apply(cfg, s, a))
  {
    var r := Apply(cfg, s, a);
    EndsAppend(cfg, s, a);
    forall k | 0 <= k < |r.recoveries|
      ensures GapKept(cfg, r, r.recoveries[k])
    {
      if k < |s.recoveries| {
        GapKeptLater(cfg, s, r, s.recoveries[k]);
      } else {
        RecoveryKeepsGap(cfg, s, a);
        GapKeptLater(cfg, s, r, Recovery(a.job, a.period, s.now, |s.history|, s.cut));
      }
    }
  }

  // ----- the gap to the second -----

  /** In whole seconds a kept gap is a full gap: from the second the failed run ended in to the second
      the recovery starts in. It falls short of the gap in microseconds by less than a second. */
  lemma GapInSeconds(at: Instant, ended: Instant, gapMinutes: int)
    ensures GapOver(at, ended, gapMinutes) <==> StampOf(at) - StampOf(ended) >= gapMinutes * 60
    ensures GapOver(at, ended, gapMinutes) ==> at > ended + gapMinutes * 60 * SECOND - SECOND
  {
  }

  /** In microseconds the gap is always kept after a run exactly when it ended on a full second. */
  lemma MicrosecondGapIff(ended: Instant, gapMinutes: int)
    ensures (forall at :: GapOver(at, ended, gapMinutes) ==> at >= ended + gapMinutes * 60 * SECOND)
              <==> ended % SECOND == 0
  {
    var earliest := (StampOf(ended) + gapMinutes * 60) * SECOND;
    assert GapOver(earliest, ended, gapMinutes);
    assert ended == StampOf(ended) * SECOND + ended % SECOND;
  }
}
