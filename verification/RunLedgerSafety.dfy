/** What the run ledger keeps over every run of the protocol: the bound on non-forced runs, who is
    ever taken for interrupted, the recovery gap, and the order of the log. */
module RunLedgerSafety {
  import opened Calendar
  import opened RecoveryCauses
  import opened RecoveryDays
  import opened RecoveryGaps
  import opened RunLedger
  import opened SchedulerEvents
  import opened SchedulerTime
  import opened SchedulerVerdicts
  import opened Collections
  import opened Wrappers

  // ----- membership -----

  predicate StartsIdAt(events: seq<Event>, job: string, period: PeriodKey, id: nat, i: nat)
    requires i < |events|
  {
    StartsRun(events[i], job, period) && events[i].runId == Some(id)
  }

  lemma {:induction false} StartedIdsIs(events: seq<Event>, job: string, period: PeriodKey, id: nat)
    ensures id in StartedIds(events, job, period) <==>
              exists i :: 0 <= i < |events| && StartsIdAt(events, job, period, id, i)
  {
    if events != [] {
      var shorter := events[..|events| - 1];
      StartedIdsIs(shorter, job, period, id);
      if exists i :: 0 <= i < |shorter| && StartsIdAt(shorter, job, period, id, i) {
        var i :| 0 <= i < |shorter| && StartsIdAt(shorter, job, period, id, i);
        assert StartsIdAt(events, job, period, id, i);
      }
      if exists i :: 0 <= i < |events| && StartsIdAt(events, job, period, id, i) {
        var i :| 0 <= i < |events| && StartsIdAt(events, job, period, id, i);
        if i < |shorter| { assert StartsIdAt(shorter, job, period, id, i); }
      }
      if StartsRun(events[|events| - 1], job, period) && events[|events| - 1].runId == Some(id) {
        assert StartsIdAt(events, job, period, id, |events| - 1);
      }
    }
  }

  lemma {:induction false} FinishedIdsHas(events: seq<Event>, job: string, period: PeriodKey, id: nat, i: nat)
    requires i < |events| && FinishesRun(events[i], job, period) && events[i].runId == Some(id)
    ensures id in FinishedIds(events, job, period)
  {
    if i < |events| - 1 { FinishedIdsHas(events[..|events| - 1], job, period, id, i); }
  }

  lemma {:induction false} FinishedIdsFrom(events: seq<Event>, job: string, period: PeriodKey, id: nat) returns (i: nat)
    requires id in FinishedIds(events, job, period)
    ensures i < |events| && FinishesRun(events[i], job, period) && events[i].runId == Some(id)
  {
    var e := events[|events| - 1];
    if FinishesRun(e, job, period) && e.runId == Some(id) {
      i := |events| - 1;
    } else {
      i := FinishedIdsFrom(events[..|events| - 1], job, period, id);
    }
  }

  // ----- the bound on non-forced runs -----

  /** No event of the period was cut from the log. */
  predicate Complete(s: System, job: string, period: PeriodKey)
    requires s.LogValid()
  {
    forall i :: 0 <= i < s.cut ==> !Concerns(s.history[i], job, period)
  }

  function RunsOf(s: System, job: string, period: PeriodKey): set<nat> {
    set id | id in s.runs && s.runs[id].job == job && s.runs[id].period == period
  }

  function NonForced(s: System, job: string, period: PeriodKey): set<nat> {
    set id | id in s.runs && s.runs[id].job == job && s.runs[id].period == period && !s.runs[id].forced
  }

  predicate BoundedFor(config: JobConfig, s: System, job: string, period: PeriodKey)
    requires s.LogValid()
  {
    Complete(s, job, period) ==> |NonForced(s, job, period)| <= config.maxExecutions + config.ForgivenQuota()
  }

  ghost predicate Bounded(cfg: Configs, s: System)
    requires s.LogValid()
  {
    forall job, period :: job in cfg ==> BoundedFor(cfg[job], s, job, period)
  }

  /** Every run of a period whose events are all retained is seen by the count. */
  lemma RunsAreStarted(s: System, job: string, period: PeriodKey)
    requires Recorded(s) && Complete(s, job, period)
    ensures RunsOf(s, job, period) <= StartedIds(s.Log(), job, period)
  {
    forall id | id in RunsOf(s, job, period)
      ensures id in StartedIds(s.Log(), job, period)
    {
      assert RunRecorded(s, id);
      var i := s.runs[id].start;
      assert Concerns(s.history[i], job, period);
      assert s.Log()[i - s.cut] == s.history[i];
      assert StartsIdAt(s.Log(), job, period, id, i - s.cut);
      StartedIdsIs(s.Log(), job, period, id);
    }
  }

  /** A start that was let through: counting it, the runs of the period stay within limit and quota. */
  lemma RoomForOneMore(config: JobConfig, s: System, job: string, period: PeriodKey, boot: BootMark)
    requires Recorded(s) && Complete(s, job, period)
    requires !AtLimit(config, s.Log(), job, period, boot)
    ensures |NonForced(s, job, period)| + 1 <= config.maxExecutions + config.ForgivenQuota()
  {
    RunsAreStarted(s, job, period);
    SubsetSize(NonForced(s, job, period), RunsOf(s, job, period));
    SubsetSize(RunsOf(s, job, period), StartedIds(s.Log(), job, period));
    CountCoversStarts(s.Log(), job, period, boot.id, boot.at, config.rerunIfInterrupted, config.maxInterruptedReruns);
  }

  lemma CompleteBefore(s: System, r: System, job: string, period: PeriodKey)
    requires s.LogValid() && r.LogValid() && s.history <= r.history && s.cut <= r.cut && Complete(r, job, period)
    ensures Complete(s, job, period)
  {
    forall i | 0 <= i < s.cut
      ensures !Concerns(s.history[i], job, period)
    {
      assert r.history[i] == s.history[i];
    }
  }

  /** Every action but a start keeps which runs there are, and for which period. */
  lemma RunsAfter(cfg: Configs, s: System, a: Action)
    requires ValidConfigs(cfg) && s.LogValid() && DayOf(s.now) >= FIRST_DAY && Enabled(cfg, s, a)
    ensures
      var r := Apply(cfg, s, a);
      if a.Start? then
        && r.runs.Keys == s.runs.Keys + {a.runId} && (forall id :: id in s.runs ==> r.runs[id] == s.runs[id])
        && r.runs[a.runId].job == a.job && r.runs[a.runId].period == a.period && r.runs[a.runId].forced == a.forced
      else
        && r.runs.Keys == s.runs.Keys
        && forall id :: id in s.runs ==> r.runs[id].(status := Live) == s.runs[id].(status := Live)
  {
    hide AtLimit, ShouldRecover, PeriodFor, NoteAllowed, InStampOrder, Appended, AfterCrash, LiveRuns, Running,
         IsPastRecoveryUntil;
    if a.Crash? {
      CrashKeepsRuns(s.runs, a.bootId);
    } else if a.Start? {
      StartAddsRun(cfg, s, a);
    }
  }

  lemma StartAddsRun(cfg: Configs, s: System, a: Action)
    requires ValidConfigs(cfg) && s.LogValid() && DayOf(s.now) >= FIRST_DAY && a.Start? && Enabled(cfg, s, a)
    ensures
      var r := Apply(cfg, s, a);
      && r.runs.Keys == s.runs.Keys + {a.runId} && (forall id :: id in s.runs ==> r.runs[id] == s.runs[id])
      && r.runs[a.runId].job == a.job && r.runs[a.runId].period == a.period && r.runs[a.runId].forced == a.forced
  {
    hide AtLimit, ShouldRecover, PeriodFor, Appended, Running, IsPastRecoveryUntil;
  }

  lemma CrashKeepsRuns(runs: map<nat, Run>, bootId: nat)
    ensures
      var r := AfterCrash(runs, bootId);
      r.Keys == runs.Keys && forall id :: id in runs ==> r[id].(status := Live) == runs[id].(status := Live)
  {
  }

  /** Only a non-forced start of the period adds to its non-forced runs. */
  lemma NonForcedGrows(cfg: Configs, s: System, a: Action, job: string, period: PeriodKey)
    requires ValidConfigs(cfg) && s.LogValid() && DayOf(s.now) >= FIRST_DAY && Enabled(cfg, s, a)
    ensures NonForced(Apply(cfg, s, a), job, period)
            == NonForced(s, job, period)
               + (if a.Start? && a.job == job && a.period == period && !a.forced then {a.runId} else {})
  {
    RunsAfter(cfg, s, a);
    NonForcedOf(s, Apply(cfg, s, a), a, job, period);
  }

  lemma NonForcedOf(s: System, r: System, a: Action, job: string, period: PeriodKey)
    requires
      if a.Start? then
        && r.runs.Keys == s.runs.Keys + {a.runId} && (forall id :: id in s.runs ==> r.runs[id] == s.runs[id])
        && r.runs[a.runId].job == a.job && r.runs[a.runId].period == a.period && r.runs[a.runId].forced == a.forced
      else
        && r.runs.Keys == s.runs.Keys
        && forall id :: id in s.runs ==> r.runs[id].(status := Live) == s.runs[id].(status := Live)
    ensures NonForced(r, job, period)
            == NonForced(s, job, period)
               + (if a.Start? && a.job == job && a.period == period && !a.forced then {a.runId} else {})
  {
  }

  lemma HistoryGrows(cfg: Configs, s: System, a: Action)
    requires ValidConfigs(cfg) && s.LogValid() && DayOf(s.now) >= FIRST_DAY && Enabled(cfg, s, a)
    ensures s.history <= Apply(cfg, s, a).history && s.cut <= Apply(cfg, s, a).cut
  {
  }

  lemma StepBounded(cfg: Configs, s: System, a: Action)
    requires ValidConfigs(cfg) && Recorded(s) && DayOf(s.now) >= FIRST_DAY && Enabled(cfg, s, a) && Bounded(cfg, s)
    ensures Bounded(cfg, Apply(cfg, s, a))
  {
    forall job, period | job in cfg
      ensures BoundedFor(cfg[job], Apply(cfg, s, a), job, period)
    {
      StepBoundedFor(cfg, s, a, Apply(cfg, s, a), job, period);
    }
  }

  lemma StepBoundedFor(cfg: Configs, s: System, a: Action, r: System, job: string, period: PeriodKey)
    requires ValidConfigs(cfg) && Recorded(s) && DayOf(s.now) >= FIRST_DAY && Enabled(cfg, s, a)
    requires job in cfg && BoundedFor(cfg[job], s, job, period) && r == Apply(cfg, s, a)
    ensures BoundedFor(cfg[job], r, job, period)
  {
    if Complete(r, job, period) {
      HistoryGrows(cfg, s, a);
      CompleteBefore(s, r, job, period);
      NonForcedGrows(cfg, s, a, job, period);
      if a.Start? && a.job == job && a.period == period && !a.forced {
        RoomForOneMore(cfg[job], s, job, period, s.processes[a.bootId].boot);
      }
    }
  }

  // ----- order of the log -----

  lemma PeriodForBegun(config: JobConfig, period: PeriodKey, now: Instant)
    requires DayOf(now) >= FIRST_DAY && PeriodFor(config, period, now)
    ensures BegunBy(period, DayOf(now))
  {
    if !period.DayKey? {
      var asked :| asked <= now && DayOf(asked) >= FIRST_DAY && period == PeriodOf(config, asked);
      PeriodBegun(config, asked);
      StampsAscend(asked, now);
      BegunLater(period, DayOf(asked), DayOf(now));
    }
  }

  lemma AppendStamped(s: System, e: Event, at: Instant)
    requires Stamped(s) && s.LogValid() && at <= s.now && InStampOrder(s, at)
    requires OrderStamp(e) == Some(StampOf(at)) && BegunBy(e.period, DayOf(at))
    ensures Stamped(Append(s, e))
  {
    StampKeepsDay(at);
    StampsAscend(at, s.now);
    AppendKeepsOrder(s.history, e, StampOf(at));
  }

  lemma NowInOrder(s: System)
    requires Stamped(s)
    ensures InStampOrder(s, s.now)
  {
  }

  lemma TickStamped(s: System, to: Instant)
    requires Stamped(s) && to >= s.now
    ensures Stamped(s.(now := to))
  {
    StampsAscend(s.now, to);
    forall id | id in s.runs
      ensures BegunBy(s.runs[id].period, DayOf(to))
    {
      BegunLater(s.runs[id].period, DayOf(s.now), DayOf(to));
    }
  }

  lemma StartStamped(cfg: Configs, s: System, a: Action)
    requires ValidConfigs(cfg) && s.LogValid() && Stamped(s) && DayOf(s.now) >= FIRST_DAY && a.Start?
              && Enabled(cfg, s, a)
    ensures Stamped(Apply(cfg, s, a))
  {
    hide AtLimit, ShouldRecover, PeriodFor, BegunBy, StampOrdered, KeysBegun, InStampOrder, Appended;
    PeriodForBegun(cfg[a.job], a.period, s.now);
    var e := StartEvent(s.now, a.bootId, a.job, a.period, a.runId);
    NowInOrder(s);
    AppendStamped(s, e, s.now);
    MoreRunsStamped(Append(s, e), Apply(cfg, s, a));
  }

  lemma FinishStamped(cfg: Configs, s: System, a: Action)
    requires ValidConfigs(cfg) && s.LogValid() && Stamped(s) && DayOf(s.now) >= FIRST_DAY && a.Finish?
              && Enabled(cfg, s, a)
    ensures Stamped(Apply(cfg, s, a))
  {
    hide AtLimit, ShouldRecover, PeriodFor, BegunBy, StampOrdered, KeysBegun, InStampOrder, Appended;
    var e := FinishEvent(s.runs[a.runId].job, s.runs[a.runId].period, a.runId, s.runs[a.runId].startedAt, s.now,
                         a.succeeded, a.skipRecoveryGap);
    NowInOrder(s);
    AppendStamped(s, e, s.now);
    MoreRunsStamped(Append(s, e), Apply(cfg, s, a));
  }

  lemma StepStamped(cfg: Configs, s: System, a: Action)
    requires ValidConfigs(cfg) && s.LogValid() && Stamped(s) && DayOf(s.now) >= FIRST_DAY && Enabled(cfg, s, a)
    ensures Stamped(Apply(cfg, s, a))
  {
    match a
    case Tick(to) => TickStamped(s, to);
    case Start(_, _, _, _, _, _, _) => StartStamped(cfg, s, a);
    case Skip(_, job, period, asked) =>
      PeriodForBegun(cfg[job], period, asked);
      AppendStamped(s, SkipEvent(asked, job, period), asked);
    case Finish(_, _, _) => FinishStamped(cfg, s, a);
    case Note(e) => AppendStamped(s, e, s.now);
    case Boot(_) => SameRunsStamped(s, Apply(cfg, s, a));
    case Crash(_) => SameRunsStamped(s, Apply(cfg, s, a));
    case LoseFinish(_, _) => SameRunsStamped(s, Apply(cfg, s, a));
  }

  lemma SameRunsStamped(s: System, r: System)
    requires Stamped(s) && r.history == s.history && r.now == s.now && r.runs.Keys == s.runs.Keys
    requires forall id :: id in s.runs ==> r.runs[id].period == s.runs[id].period
    ensures Stamped(r)
  {
  }

  lemma MoreRunsStamped(s: System, r: System)
    requires Stamped(s) && r.history == s.history && r.now == s.now
    requires forall id :: id in r.runs ==> BegunBy(r.runs[id].period, DayOf(s.now))
    ensures Stamped(r)
  {
  }

  // ----- interrupted runs -----

  /** What the log says of a run that some process takes for interrupted. */
  lemma InterruptedIsOpen(s: System, job: string, period: PeriodKey, boot: BootMark, id: nat)
    requires Recorded(s) && id in InterruptedIds(s.Log(), job, period, boot.id, boot.at)
    ensures id in s.runs && s.runs[id].job == job && s.runs[id].period == period
    ensures s.runs[id].boot != boot.id && StampOf(s.runs[id].startedAt) < boot.at
    ensures !s.runs[id].status.Ended?
  {
    var log := s.Log();
    var e := FirstStart(log, job, period, id);
    var i :| 0 <= i < |log| && log[i] == e;
    assert s.history[s.cut + i] == e;
    assert EventOfRun(s, s.cut + i);
    assert RunRecorded(s, id);
    if s.runs[id].status.Ended? {
      var at := s.runs[id].status.at;
      assert log[at - s.cut] == s.history[at];
      FinishedIdsHas(log, job, period, id, at - s.cut);
    }
  }

  lemma FinishedInLog(s: System, job: string, period: PeriodKey, id: nat)
    requires Recorded(s) && id in FinishedIds(s.Log(), job, period)
    ensures id in s.runs && s.runs[id].status.Ended?
  {
    var i := FinishedIdsFrom(s.Log(), job, period, id);
    assert s.history[s.cut + i] == s.Log()[i];
    assert EventOfRun(s, s.cut + i);
  }

  /** A process never takes a run of its own for interrupted. */
  lemma OwnRunNeverInterrupted(s: System, job: string, period: PeriodKey, b: nat, id: nat)
    requires Recorded(s) && BootsKnown(s) && b in s.processes && id in s.runs && s.runs[id].boot == b
    ensures id !in InterruptedIds(s.Log(), job, period, s.processes[b].boot.id, s.processes[b].boot.at)
  {
    if id in InterruptedIds(s.Log(), job, period, s.processes[b].boot.id, s.processes[b].boot.at) {
      InterruptedIsOpen(s, job, period, s.processes[b].boot, id);
    }
  }

  /** A run taken for interrupted really is over, without a record of its end, unless it was being
      executed by another process at the very moment this process booted. */
  lemma InterruptedReallyDied(s: System, job: string, period: PeriodKey, b: nat, id: nat)
    requires Recorded(s) && BootsKnown(s) && b in s.processes
    requires id in InterruptedIds(s.Log(), job, period, s.processes[b].boot.id, s.processes[b].boot.at)
    ensures id in s.runs && s.runs[id].boot != b
    ensures s.runs[id].status == Died || s.runs[id].status.Unrecorded?
            || (s.runs[id].status == Live && id in s.processes[b].liveAtBoot)
    ensures s.processes[b].liveAtBoot == {} ==> s.runs[id].status == Died || s.runs[id].status.Unrecorded?
  {
    InterruptedIsOpen(s, job, period, s.processes[b].boot, id);
  }

  /** Exactly when a live run is taken for interrupted: it belongs to another process, its start record
      is retained, and it started in a second before this process's boot second. */
  lemma LiveRunInterruptedIff(s: System, job: string, period: PeriodKey, b: nat, id: nat)
    requires Recorded(s) && BootsKnown(s) && b in s.processes && id in s.runs && s.runs[id].status == Live
    requires s.runs[id].job == job && s.runs[id].period == period
    ensures id in InterruptedIds(s.Log(), job, period, s.processes[b].boot.id, s.processes[b].boot.at) <==>
              s.runs[id].boot != b && s.cut <= s.runs[id].start
                && StampOf(s.runs[id].startedAt) < s.processes[b].boot.at
  {
    var log, boot, run := s.Log(), s.processes[b].boot, s.runs[id];
    assert RunRecorded(s, id);
    StartedIdsIs(log, job, period, id);
    if id in FinishedIds(log, job, period) { FinishedInLog(s, job, period, id); }
    if s.cut <= run.start {
      assert log[run.start - s.cut] == s.history[run.start];
      assert StartsIdAt(log, job, period, id, run.start - s.cut);
    }
    if id in StartedIds(log, job, period) {
      var e := FirstStart(log, job, period, id);
      var i :| 0 <= i < |log| && log[i] == e;
      assert s.history[s.cut + i] == e;
      assert EventOfRun(s, s.cut + i);
    }
  }

  // ----- every run of the protocol -----

  ghost predicate Safe(cfg: Configs, s: System) {
    && Recorded(s) && BootsKnown(s) && Stamped(s) && Bounded(cfg, s) && DayOf(s.now) >= FIRST_DAY
    && GapsKept(cfg, s) && StartsInTime(cfg, s) && RecoveriesCaused(cfg, s)
  }

  lemma StepSafe(cfg: Configs, s: System, a: Action)
    requires ValidConfigs(cfg) && Safe(cfg, s) && Enabled(cfg, s, a)
    ensures Safe(cfg, Apply(cfg, s, a))
  {
    StampsAscend(s.now, Apply(cfg, s, a).now);
    StepRecorded(cfg, s, a);
    StepBootsKnown(cfg, s, a);
    StepStamped(cfg, s, a);
    StepBounded(cfg, s, a);
    StepGapsKept(cfg, s, a);
    StepStartsInTime(cfg, s, a);
    StepRecoveriesCaused(cfg, s, a);
  }

  /** Over every interleaving of starts, ends, crashes, boots and forced runs: the non-forced runs of a
      period whose events are all retained stay within limit and quota; records, stamps and boots stay
      in order; scheduled starts keep their deadline; and every recovery is due and keeps its gap. */
  lemma {:induction false} EveryRunIsSafe(cfg: Configs, s: System, actions: seq<Action>, start: Instant)
    requires ValidConfigs(cfg) && ReachableBy(cfg, s, actions, start)
    ensures Safe(cfg, s)
    decreases |actions|
  {
    if actions == [] {
      forall job, period | job in cfg
        ensures BoundedFor(cfg[job], s, job, period)
      {
        assert NonForced(s, job, period) == {};
      }
    } else {
      var before: System :| ReachableBy(cfg, before, actions[..|actions| - 1], start)
        && before.LogValid() && DayOf(before.now) >= FIRST_DAY
        && Enabled(cfg, before, actions[|actions| - 1]) && s == Apply(cfg, before, actions[|actions| - 1]);
      EveryRunIsSafe(cfg, before, actions[..|actions| - 1], start);
      StepSafe(cfg, before, actions[|actions| - 1]);
    }
  }

  /** The bound, for one job and period of a reachable state. */
  lemma NonForcedRunsBounded(cfg: Configs, s: System, actions: seq<Action>, start: Instant, job: string,
                             period: PeriodKey)
    requires ValidConfigs(cfg) && ReachableBy(cfg, s, actions, start) && job in cfg
    ensures s.LogValid()
    ensures Complete(s, job, period) ==>
              |NonForced(s, job, period)| <= cfg[job].maxExecutions
                + (if cfg[job].rerunIfInterrupted then cfg[job].maxInterruptedReruns else 0)
  {
    EveryRunIsSafe(cfg, s, actions, start);
    assert BoundedFor(cfg[job], s, job, period);
  }

  /** In no run of the protocol was a scheduled start that is not forced asked for at or after the
      deadline of its day. */
  lemma NoStartPastDeadline(cfg: Configs, s: System, actions: seq<Action>, start: Instant, id: nat)
    requires ValidConfigs(cfg) && ReachableBy(cfg, s, actions, start) && id in s.runs
    ensures
      var run := s.runs[id];
      && run.job in cfg
      && (run.reason == OnSchedule && !run.forced && cfg[run.job].recoveryUntil.Some? ==>
            var (hour, minute) := cfg[run.job].recoveryUntil.value;
            run.asked < AtTime(DayOf(run.asked), hour, minute))
  {
    EveryRunIsSafe(cfg, s, actions, start);
    assert StartInTime(cfg, s.runs[id]);
  }

  /** In every run of the protocol, a recovery is of the period of its time, starts when the delay after
      its scheduled time is over and its deadline is not, and no run of the period is known to have
      succeeded: none of which the log held the end when the recovery was decided. */
  lemma EveryRecoveryIsDue(cfg: Configs, s: System, actions: seq<Action>, start: Instant, k: nat, id: nat)
    requires ValidConfigs(cfg) && ReachableBy(cfg, s, actions, start) && k < |s.recoveries|
    ensures
      var rec := s.recoveries[k];
      && rec.job in cfg && DayOf(rec.at) >= FIRST_DAY
      && rec.period == PeriodOf(cfg[rec.job], rec.at) && InTime(cfg[rec.job], rec.at)
      && (IsRunOf(s, id, rec.job, rec.period) && s.runs[id].status.Ended? && s.runs[id].status.succeeded ==>
            s.runs[id].status.at < rec.cut || s.runs[id].status.at >= rec.decidedOn)
  {
    EveryRunIsSafe(cfg, s, actions, start);
    assert RecoveryCaused(cfg, s, s.recoveries[k]);
  }

  /** No reachable log gives a false alarm: a day or week that ever had a success or a notice is not
      reported as missed, however much of the log was cut since. */
  lemma NoFalseAlarm(cfg: Configs, s: System, actions: seq<Action>, start: Instant, job: string, day: int, today: int,
                     days: seq<int>, sent: set<(string, PeriodKey)>, cut: nat)
    requires ValidConfigs(cfg) && ReachableBy(cfg, s, actions, start) && cut <= |s.history|
    ensures HasSuccess(s.history, job, DayKey(day)) || HasMark(s.history, job, DayKey(day)) ==>
              day !in PastDaysWithoutSuccess(sent, s.history[cut..], job, days)
    ensures job in cfg && cfg[job].period == Weekly && day >= FIRST_DAY - 7
            && (HasSuccess(s.history, job, IsoWeekKey(day)) || HasMark(s.history, job, IsoWeekKey(day))) ==>
              !WeekMissed(cfg[job], sent, s.history[cut..], job, day, today)
  {
    EveryRunIsSafe(cfg, s, actions, start);
    StampOrderIsDayOrder(s.history);
    if HasSuccess(s.history, job, DayKey(day)) || HasMark(s.history, job, DayKey(day)) {
      NoFalseAlarmForDay(s.history, cut, job, day, sent, days);
    }
    if job in cfg && cfg[job].period == Weekly && day >= FIRST_DAY - 7
       && (HasSuccess(s.history, job, IsoWeekKey(day)) || HasMark(s.history, job, IsoWeekKey(day))) {
      NoFalseAlarmForWeek(cfg[job], s.history, cut, job, day, today, sent);
    }
  }
}
