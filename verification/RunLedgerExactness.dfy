/** What the execution count means: in every state of the run ledger it is the number of runs of which
    the log still holds a record, less the forgiven interrupted ones. */
module RunLedgerExactness {
  import opened Calendar
  import opened Collections
  import opened RecoveryCauses
  import opened RecoveryGaps
  import opened RunLedger
  import opened RunLedgerSafety
  import opened SchedulerEvents
  import opened SchedulerTime
  import opened SchedulerVerdicts
  import opened Wrappers

  predicate StartRetained(s: System, id: nat)
    requires id in s.runs
  {
    s.runs[id].start >= s.cut
  }

  /** The runs of a period of which the log still has a record. */
  function VisibleRuns(s: System, job: string, period: PeriodKey): set<nat> {
    set id | id in RunsOf(s, job, period) && (StartRetained(s, id) || EndRetained(s, id))
  }

  lemma StartedAreRuns(s: System, job: string, period: PeriodKey, id: nat)
    requires Recorded(s)
    ensures id in StartedIds(s.Log(), job, period) <==> id in RunsOf(s, job, period) && StartRetained(s, id)
  {
    StartedIdsIs(s.Log(), job, period, id);
    if id in StartedIds(s.Log(), job, period) {
      var i :| 0 <= i < |s.Log()| && StartsIdAt(s.Log(), job, period, id, i);
      EventInHistory(s, i);
      assert RunRecorded(s, id);
    }
    if id in RunsOf(s, job, period) && StartRetained(s, id) {
      assert RunRecorded(s, id);
      var i := s.runs[id].start - s.cut;
      EventInHistory(s, i);
      assert StartsIdAt(s.Log(), job, period, id, i);
    }
  }

  lemma FinishedAreRuns(s: System, job: string, period: PeriodKey, id: nat)
    requires Recorded(s)
    ensures id in FinishedIds(s.Log(), job, period) <==> id in RunsOf(s, job, period) && EndRetained(s, id)
  {
    if id in FinishedIds(s.Log(), job, period) {
      var i := FinishedIdsFrom(s.Log(), job, period, id);
      EventInHistory(s, i);
    }
    if id in RunsOf(s, job, period) && EndRetained(s, id) {
      assert RunRecorded(s, id);
      var i := s.runs[id].status.at - s.cut;
      EventInHistory(s, i);
      FinishedIdsHas(s.Log(), job, period, id, i);
    }
  }

  predicate IsEnd(e: Event, job: string, period: PeriodKey) {
    Concerns(e, job, period) && (e.status == Success || e.status == Error)
  }

  /** Every end record is a run's, and no two are the same run's. */
  predicate EndsDistinct(events: seq<Event>, job: string, period: PeriodKey) {
    && (forall i :: 0 <= i < |events| && IsEnd(events[i], job, period) ==> events[i].runId.Some?)
    && forall i, j :: 0 <= i < j < |events| && IsEnd(events[i], job, period) && IsEnd(events[j], job, period) ==>
         events[i].runId != events[j].runId
  }

  lemma LogEndsDistinct(s: System, job: string, period: PeriodKey)
    requires Recorded(s)
    ensures EndsDistinct(s.Log(), job, period)
  {
    var log := s.Log();
    forall i | 0 <= i < |log| && IsEnd(log[i], job, period)
      ensures log[i].runId.Some? && log[i].runId.value in s.runs && s.runs[log[i].runId.value].status.Ended?
      ensures s.runs[log[i].runId.value].status.at == s.cut + i
    {
      EventInHistory(s, i);
    }
  }

  lemma {:induction false} EndsAreCounted(events: seq<Event>, job: string, period: PeriodKey)
    requires EndsDistinct(events, job, period)
    ensures FinishCount(events, job, period) == |FinishedIds(events, job, period)|
  {
    if events != [] {
      FewerDistinct(events, job, period);
      EndsAreCounted(events[..|events| - 1], job, period);
      LastEndIsNew(events, job, period);
    }
  }

  lemma FewerDistinct(events: seq<Event>, job: string, period: PeriodKey)
    requires events != [] && EndsDistinct(events, job, period)
    ensures EndsDistinct(events[..|events| - 1], job, period)
  {
    var shorter := events[..|events| - 1];
    forall i | 0 <= i < |shorter|
      ensures shorter[i] == events[i]
    {
    }
  }

  lemma LastEndIsNew(events: seq<Event>, job: string, period: PeriodKey)
    requires events != [] && EndsDistinct(events, job, period)
    ensures
      var e := events[|events| - 1];
      IsEnd(e, job, period) ==> e.runId.Some? && e.runId.value !in FinishedIds(events[..|events| - 1], job, period)
  {
    var e := events[|events| - 1];
    if IsEnd(e, job, period) && e.runId.value in FinishedIds(events[..|events| - 1], job, period) {
      var i := FinishedIdsFrom(events[..|events| - 1], job, period, e.runId.value);
      assert IsEnd(events[i], job, period);
    }
  }

  /** The runs that a process takes for interrupted: of another process, begun in a second before its
      boot second, with a start but no end in the log. */
  function InterruptedRuns(s: System, job: string, period: PeriodKey, boot: BootMark): set<nat> {
    set id | id in RunsOf(s, job, period) && StartRetained(s, id) && !EndRetained(s, id)
             && s.runs[id].boot != boot.id && StampOf(s.runs[id].startedAt) < boot.at
  }

  lemma FirstStartOfRun(s: System, job: string, period: PeriodKey, id: nat)
    requires Recorded(s) && id in StartedIds(s.Log(), job, period)
    ensures id in s.runs
    ensures FirstStart(s.Log(), job, period, id).bootId == Some(s.runs[id].boot)
    ensures FirstStart(s.Log(), job, period, id).startedAt == Some(StampOf(s.runs[id].startedAt))
  {
    var e := FirstStart(s.Log(), job, period, id);
    var i :| 0 <= i < |s.Log()| && s.Log()[i] == e;
    EventInHistory(s, i);
    assert RunRecorded(s, id);
  }

  lemma InterruptedAreRuns(s: System, job: string, period: PeriodKey, boot: BootMark)
    requires Recorded(s)
    ensures InterruptedIds(s.Log(), job, period, boot.id, boot.at) == InterruptedRuns(s, job, period, boot)
  {
    forall id: nat
      ensures id in InterruptedIds(s.Log(), job, period, boot.id, boot.at) <==>
                id in InterruptedRuns(s, job, period, boot)
    {
      StartedAreRuns(s, job, period, id);
      FinishedAreRuns(s, job, period, id);
      if id in StartedIds(s.Log(), job, period) { FirstStartOfRun(s, job, period, id); }
    }
  }

  /** The interrupted runs that are not counted. */
  function Forgiven(config: JobConfig, s: System, job: string, period: PeriodKey, boot: BootMark): nat {
    if config.rerunIfInterrupted then Min(|InterruptedRuns(s, job, period, boot)|, config.maxInterruptedReruns) else 0
  }

  /** The count is exact, forced runs, lost records and a truncated log included. */
  lemma CountIsVisibleRuns(config: JobConfig, s: System, job: string, period: PeriodKey, boot: BootMark)
    requires Recorded(s)
    ensures CountFor(config, s.Log(), job, period, boot)
              == |VisibleRuns(s, job, period)| - Forgiven(config, s, job, period, boot)
  {
    LogEndsDistinct(s, job, period);
    InterruptedAreRuns(s, job, period, boot);
    EndsAreCounted(s.Log(), job, period);
    var started, finished := StartedIds(s.Log(), job, period), FinishedIds(s.Log(), job, period);
    VisibleAreRecorded(s, job, period, started, finished);
    UnionSize(started, finished);
  }

  lemma VisibleAreRecorded(s: System, job: string, period: PeriodKey, started: set<nat>, finished: set<nat>)
    requires Recorded(s) && started == StartedIds(s.Log(), job, period) && finished == FinishedIds(s.Log(), job, period)
    ensures VisibleRuns(s, job, period) == finished + started
  {
    forall id: nat
      ensures id in finished + started <==> id in VisibleRuns(s, job, period)
    {
      StartedAreRuns(s, job, period, id);
      FinishedAreRuns(s, job, period, id);
    }
  }

  lemma UnionSize(started: set<nat>, finished: set<nat>)
    ensures |finished + started| == |finished| + |started - finished|
  {
    assert finished + started == finished + (started - finished);
  }

  /** While no event of the period was cut, every run counts. */
  lemma CountIsAllRuns(config: JobConfig, s: System, job: string, period: PeriodKey, boot: BootMark)
    requires Recorded(s) && Complete(s, job, period)
    ensures
      CountFor(config, s.Log(), job, period, boot)
      == |RunsOf(s, job, period)| - Forgiven(config, s, job, period, boot)
  {
    CountIsVisibleRuns(config, s, job, period, boot);
    forall id | id in RunsOf(s, job, period)
      ensures StartRetained(s, id)
    {
      assert RunRecorded(s, id);
      assert Concerns(s.history[s.runs[id].start], job, period);
    }
    assert VisibleRuns(s, job, period) == RunsOf(s, job, period);
  }

  /** In terms of runs: an earlier day is run again exactly if it is a configured day of the range of which the
      log shows no run that succeeded, and fewer than the limit are visible and not forgiven. */
  lemma BackfillIffRuns(config: JobConfig, s: System, job: string, boot: BootMark, today: int, lookback: nat, day: int)
    requires Recorded(s)
    ensures DayKey(day) in MissedPastPeriods(config, s.Log(), job, boot, today, lookback) <==>
              && config.period == Daily && config.backfill && today - lookback <= day < today
              && (config.weekdays == {} || Weekday(day) in config.weekdays)
              && (forall id :: IsRunOf(s, id, job, DayKey(day)) ==> !SuccessRetained(s, id))
              && |VisibleRuns(s, job, DayKey(day))| - Forgiven(config, s, job, DayKey(day), boot) < config.maxExecutions
  {
    hide RunRecorded, EventOfRun, VisibleRuns, Forgiven, CountFor, MissedPastPeriods, SuccessRetained;
    PastPeriodsAreMissed(config, s.Log(), job, boot, today, lookback, DayKey(day));
    SuccessIffRun(s, job, DayKey(day));
    CountIsVisibleRuns(config, s, job, DayKey(day), boot);
  }
}
