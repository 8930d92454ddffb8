/** The methods of the queue manager are actions of the run ledger: what is proved of every run of the
    protocol holds of processes that call them. */
module SchedulerManagerRefinement {
  import opened RecoveryDays
  import opened RunLedger
  import opened RunLedgerExactness
  import opened SchedulerEvents
  import opened SchedulerManager
  import opened SchedulerTime
  import opened SchedulerVerdicts
  import opened Wrappers

  /** The manager of one live process as the protocol sees it: its file is the shared log, and the
      jobs it holds in progress are its live runs, one a job. */
  ghost predicate Mirrors(s: System, log: seq<Event>, busy: set<string>, boot: BootMark) {
    && s.LogValid() && s.Log() == log
    && boot.id in s.processes && s.processes[boot.id].alive && s.processes[boot.id].boot == boot
    && (forall job :: job in busy <==> Running(s, boot.id, job))
    && forall id1, id2 ::
         IsLiveRun(s, id1, boot.id) && IsLiveRun(s, id2, boot.id) && s.runs[id1].job == s.runs[id2].job ==>
           id1 == id2
  }

  predicate IsLiveRun(s: System, id: nat, bootId: nat) {
    id in s.runs && s.runs[id].boot == bootId && s.runs[id].status == Live
  }

  ghost predicate MayBegin(cfg: RunLedger.Configs, s: System, job: string, explicit: Option<PeriodKey>, runId: nat) {
    && ValidConfigs(cfg) && DayOf(s.now) >= FIRST_DAY && runId !in s.runs
    && (job in cfg && explicit.Some? ==> PeriodFor(cfg[job], explicit.value, s.now))
  }

  lemma RunPeriodFits(config: JobConfig, explicit: Option<PeriodKey>, now: Instant)
    requires DayOf(now) >= FIRST_DAY && (explicit.Some? ==> PeriodFor(config, explicit.value, now))
    ensures PeriodFor(config, RunPeriod(config, explicit, now), now)
  {
  }

  lemma AppendedMirrors(s: System, log: seq<Event>, busy: set<string>, boot: BootMark, e: Event)
    requires Mirrors(s, log, busy, boot)
    ensures Mirrors(Append(s, e), Appended(log, e), busy, boot)
  {
    hide Running, IsLiveRun;
    SameRuns(s, Append(s, e), log, busy, boot);
  }

  lemma SkipKeepsMirror(cfg: RunLedger.Configs, s: System, log: seq<Event>, busy: set<string>, boot: BootMark,
                        a: Action)
    requires Mirrors(s, log, busy, boot) && s.LogValid() && ValidConfigs(cfg) && DayOf(s.now) >= FIRST_DAY
    requires a.Skip? && Enabled(cfg, s, a)
    ensures Mirrors(Apply(cfg, s, a), Appended(log, SkipEvent(a.asked, a.job, a.period)), busy, boot)
  {
    hide Mirrors, Enabled, Append;
    AppendedMirrors(s, log, busy, boot, SkipEvent(a.asked, a.job, a.period));
  }

  lemma SkipEnabled(cfg: RunLedger.Configs, s: System, busy: set<string>, boot: BootMark, job: string,
                    scheduled: bool, explicit: Option<PeriodKey>, asked: Instant)
    requires ValidConfigs(cfg) && s.LogValid() && DayOf(s.now) >= FIRST_DAY
    requires boot.id in s.processes && s.processes[boot.id].alive && s.processes[boot.id].boot == boot
    requires asked <= s.now && DayOf(asked) >= FIRST_DAY && InStampOrder(s, asked)
    requires job in cfg && explicit.Some? ==> PeriodFor(cfg[job], explicit.value, asked)
    requires BeginVerdict(cfg, s.Log(), busy, boot, job, scheduled, false, explicit, asked).Limited?
    ensures
      var r := BeginVerdict(cfg, s.Log(), busy, boot, job, scheduled, false, explicit, asked);
      Enabled(cfg, s, Skip(boot.id, job, r.period, asked))
  {
    hide PeriodFor, AtLimit, RunPeriod, IsPastRecoveryUntil;
    RunPeriodFits(cfg[job], explicit, asked);
  }

  /** A limited start is the protocol's Skip, and leaves the manager its mirror. Its record carries the
      clock read before the locks were taken. */
  lemma LimitedIsSkip(cfg: RunLedger.Configs, s: System, log: seq<Event>, busy: set<string>, boot: BootMark,
                      job: string, scheduled: bool, explicit: Option<PeriodKey>, runId: nat, asked: Instant)
    requires Mirrors(s, log, busy, boot) && ValidConfigs(cfg) && DayOf(s.now) >= FIRST_DAY
    requires asked <= s.now && DayOf(asked) >= FIRST_DAY && InStampOrder(s, asked)
    requires job in cfg && explicit.Some? ==> PeriodFor(cfg[job], explicit.value, asked)
    requires BeginVerdict(cfg, log, busy, boot, job, scheduled, false, explicit, asked).Limited?
    ensures
      var r := BeginVerdict(cfg, log, busy, boot, job, scheduled, false, explicit, asked);
      var a := Skip(boot.id, job, r.period, asked);
      && Enabled(cfg, s, a)
      && Mirrors(Apply(cfg, s, a), LogAfterBegin(log, r, boot, job, runId, asked, s.now), busy, boot)
  {
    var r := BeginVerdict(cfg, log, busy, boot, job, scheduled, false, explicit, asked);
    SkipEnabled(cfg, s, busy, boot, job, scheduled, explicit, asked);
    SkipKeepsMirror(cfg, s, log, busy, boot, Skip(boot.id, job, r.period, asked));
  }

  lemma SameRuns(s: System, t: System, log: seq<Event>, busy: set<string>, boot: BootMark)
    requires Mirrors(s, log, busy, boot) && t.LogValid() && t.runs == s.runs && t.processes == s.processes
    ensures Mirrors(t, t.Log(), busy, boot)
  {
    forall job
      ensures Running(t, boot.id, job) == Running(s, boot.id, job)
    {
    }
    forall id
      ensures IsLiveRun(t, id, boot.id) == IsLiveRun(s, id, boot.id)
    {
    }
  }

  /** A begun run is the protocol's Start, forced or not. The clock is read before the locks are
      taken, for the period and the deadline, and again under them, for the start record. */
  lemma BegunIsStart(cfg: RunLedger.Configs, s: System, log: seq<Event>, busy: set<string>, boot: BootMark,
                     job: string, scheduled: bool, force: bool, explicit: Option<PeriodKey>, runId: nat,
                     asked: Instant)
    requires Mirrors(s, log, busy, boot) && MayBegin(cfg, s, job, explicit, runId)
    requires asked <= s.now && DayOf(asked) >= FIRST_DAY
    requires BeginVerdict(cfg, log, busy, boot, job, scheduled, force, explicit, asked).Begun?
    ensures
      var r := BeginVerdict(cfg, log, busy, boot, job, scheduled, force, explicit, asked);
      var a := Start(boot.id, job, r.period, if scheduled then OnSchedule else OtherReason, force, asked, runId);
      && Enabled(cfg, s, a)
      && Mirrors(Apply(cfg, s, a), LogAfterBegin(log, r, boot, job, runId, asked, s.now), busy + {job}, boot)
  {
    var r := BeginVerdict(cfg, log, busy, boot, job, scheduled, force, explicit, asked);
    var a := Start(boot.id, job, r.period, if scheduled then OnSchedule else OtherReason, force, asked, runId);
    OneMoreRun(s, Apply(cfg, s, a), log, busy, boot, job, runId);
  }

  /** Exactly when a run begins, in terms of times and runs: the job is known and not being executed by this
      process, a scheduled start comes before the deadline, and unless it is forced fewer runs of the
      period than the limit are visible and not forgiven. */
  lemma BegunIff(cfg: RunLedger.Configs, s: System, log: seq<Event>, busy: set<string>, boot: BootMark,
                 job: string, scheduled: bool, force: bool, explicit: Option<PeriodKey>, asked: Instant)
    requires Mirrors(s, log, busy, boot) && Recorded(s) && DayOf(asked) >= FIRST_DAY
    ensures
      BeginVerdict(cfg, log, busy, boot, job, scheduled, force, explicit, asked).Begun? <==>
        && job in cfg && !Running(s, boot.id, job)
        && (scheduled && !force ==> !DeadlineOver(cfg[job], asked))
        && var period := explicit.GetOr(PeriodOf(cfg[job], asked));
           (!force ==>
              |VisibleRuns(s, job, period)| - Forgiven(cfg[job], s, job, period, boot) < cfg[job].maxExecutions)
  {
    hide Recorded, VisibleRuns, Forgiven, CountFor, Running, IsLiveRun;
    BeginVerdictIs(cfg, log, busy, boot, job, scheduled, force, explicit, asked);
    if job in cfg {
      CountIsVisibleRuns(cfg[job], s, job, explicit.GetOr(PeriodOf(cfg[job], asked)), boot);
    }
  }

  lemma OneMoreRun(s: System, t: System, log: seq<Event>, busy: set<string>, boot: BootMark, job: string, runId: nat)
    requires Mirrors(s, log, busy, boot) && t.LogValid() && t.processes == s.processes && job !in busy
              && runId !in s.runs
    requires t.runs.Keys == s.runs.Keys + {runId} && IsLiveRun(t, runId, boot.id) && t.runs[runId].job == job
    requires forall id :: id in s.runs ==> t.runs[id] == s.runs[id]
    ensures Mirrors(t, t.Log(), busy + {job}, boot)
  {
    forall id
      ensures IsLiveRun(t, id, boot.id) <==> id == runId || IsLiveRun(s, id, boot.id)
    {
    }
    forall other
      ensures Running(t, boot.id, other) <==> other == job || Running(s, boot.id, other)
    {
      RunningIffLive(s, boot.id, other);
      RunningIffLive(t, boot.id, other);
      if Running(s, boot.id, other) {
        var id :| IsLiveRun(s, id, boot.id) && s.runs[id].job == other;
        assert IsLiveRun(t, id, boot.id) && t.runs[id].job == other;
      }
    }
    RunningIffLive(s, boot.id, job);
  }

  lemma RunningIffLive(s: System, bootId: nat, job: string)
    ensures Running(s, bootId, job) <==> exists id :: IsLiveRun(s, id, bootId) && s.runs[id].job == job
  {
    if Running(s, bootId, job) {
      var id :| id in s.runs && s.runs[id].boot == bootId && s.runs[id].job == job && s.runs[id].status == Live;
      assert IsLiveRun(s, id, bootId);
    }
  }

  /** A recovery is decided as the protocol's recovering Start requires. */
  lemma RecoveryIsStart(cfg: RunLedger.Configs, s: System, log: seq<Event>, busy: set<string>, boot: BootMark,
                        job: string, runId: nat)
    requires Mirrors(s, log, busy, boot) && MayBegin(cfg, s, job, None, runId) && job in cfg
    requires ShouldRecover(cfg[job], log, job in busy, job, boot, s.now)
    ensures Enabled(cfg, s, Start(boot.id, job, PeriodOf(cfg[job], s.now), ToRecover, false, s.now, runId))
    ensures BeginVerdict(cfg, log, busy, boot, job, false, false, None, s.now) == Begun(PeriodOf(cfg[job], s.now))
  {
  }

  /** An earlier day that is run again is one the protocol lets be started, and below its limit. */
  lemma BackfillIsStart(cfg: RunLedger.Configs, s: System, log: seq<Event>, busy: set<string>, boot: BootMark,
                        job: string, lookback: nat, period: PeriodKey, runId: nat)
    requires Mirrors(s, log, busy, boot) && MayBegin(cfg, s, job, None, runId) && job in cfg && job !in busy
    requires period in MissedPastPeriods(cfg[job], log, job, boot, DayOf(s.now), lookback)
    ensures BeginVerdict(cfg, log, busy, boot, job, false, false, Some(period), s.now) == Begun(period)
    ensures Enabled(cfg, s, Start(boot.id, job, period, OtherReason, false, s.now, runId))
  {
    PastPeriodsAreMissed(cfg[job], log, job, boot, DayOf(s.now), lookback, period);
  }

  /** The end of a run is the protocol's Finish, or its lost record. */
  lemma EndIsFinish(cfg: RunLedger.Configs, s: System, log: seq<Event>, busy: set<string>, boot: BootMark, runId: nat,
                    succeeded: bool, skipRecoveryGap: bool, saved: bool)
    requires ValidConfigs(cfg) && Mirrors(s, log, busy, boot) && DayOf(s.now) >= FIRST_DAY
              && IsLiveRun(s, runId, boot.id)
    ensures
      var run := s.runs[runId];
      var a := if saved then Finish(runId, succeeded, skipRecoveryGap) else LoseFinish(runId, succeeded);
      var after := if saved
          then Appended(log,
                        FinishEvent(run.job, run.period, runId, run.startedAt, s.now, succeeded, skipRecoveryGap))
                            else log;
      && Enabled(cfg, s, a) && Mirrors(Apply(cfg, s, a), after, busy - {run.job}, boot)
  {
    var a := if saved then Finish(runId, succeeded, skipRecoveryGap) else LoseFinish(runId, succeeded);
    OneLessRun(s, Apply(cfg, s, a), log, busy, boot, runId);
  }

  lemma OneLessRun(s: System, t: System, log: seq<Event>, busy: set<string>, boot: BootMark, runId: nat)
    requires Mirrors(s, log, busy, boot) && t.LogValid() && t.processes == s.processes && IsLiveRun(s, runId, boot.id)
    requires t.runs.Keys == s.runs.Keys && t.runs[runId].status != Live
    requires forall id :: id in s.runs && id != runId ==> t.runs[id] == s.runs[id]
    ensures Mirrors(t, t.Log(), busy - {s.runs[runId].job}, boot)
  {
    forall id
      ensures IsLiveRun(t, id, boot.id) <==> id != runId && IsLiveRun(s, id, boot.id)
    {
    }
    forall job
      ensures Running(t, boot.id, job) <==> job != s.runs[runId].job && Running(s, boot.id, job)
    {
      RunningIffLive(s, boot.id, job);
      RunningIffLive(t, boot.id, job);
      if job != s.runs[runId].job && Running(s, boot.id, job) {
        var id :| IsLiveRun(s, id, boot.id) && s.runs[id].job == job;
        assert IsLiveRun(t, id, boot.id) && t.runs[id].job == job;
      }
    }
  }

  /** A manager just constructed mirrors a process just booted. */
  lemma BootMirrors(cfg: RunLedger.Configs, s: System, bootId: nat)
    requires ValidConfigs(cfg) && s.LogValid() && BootsKnown(s) && DayOf(s.now) >= FIRST_DAY
              && Enabled(cfg, s, Boot(bootId))
    ensures Mirrors(Apply(cfg, s, Boot(bootId)), s.Log(), {}, BootMark(bootId, StampOf(s.now)))
  {
  }

  /** The process that acts, if it is one; time, boots and notes are nobody's. */
  function ActorOf(s: System, a: Action): Option<nat> {
    match a
    case Crash(b) => Some(b)
    case Start(b, _, _, _, _, _, _) => Some(b)
    case Skip(b, _, _, _) => Some(b)
    case Finish(id, _, _) => if id in s.runs then Some(s.runs[id].boot) else None
    case LoseFinish(id, _) => if id in s.runs then Some(s.runs[id].boot) else None
    case _ => None
  }

  lemma OthersKeepLive(cfg: RunLedger.Configs, s: System, bootId: nat, a: Action)
    requires ValidConfigs(cfg) && s.LogValid() && DayOf(s.now) >= FIRST_DAY && bootId in s.processes
    requires Enabled(cfg, s, a) && ActorOf(s, a) != Some(bootId)
    ensures
      var t := Apply(cfg, s, a);
      && bootId in t.processes && t.processes[bootId] == s.processes[bootId]
      && (forall id :: IsLiveRun(t, id, bootId) <==> IsLiveRun(s, id, bootId))
      && forall id :: IsLiveRun(s, id, bootId) ==> id in t.runs && t.runs[id] == s.runs[id]
  {
    hide AtLimit, ShouldRecover, PeriodFor, NoteAllowed, InStampOrder, Appended, Running, LiveRuns,
         IsPastRecoveryUntil;
  }

  /** Whatever the others do, the manager goes on mirroring its process, on the log they leave. */
  lemma OthersKeepMirror(cfg: RunLedger.Configs, s: System, log: seq<Event>, busy: set<string>, boot: BootMark,
                         a: Action)
    requires ValidConfigs(cfg) && Mirrors(s, log, busy, boot) && DayOf(s.now) >= FIRST_DAY
    requires Enabled(cfg, s, a) && ActorOf(s, a) != Some(boot.id)
    ensures Mirrors(Apply(cfg, s, a), Apply(cfg, s, a).Log(), busy, boot)
  {
    hide Apply, Enabled, ActorOf, IsLiveRun, Running;
    OthersKeepLive(cfg, s, boot.id, a);
    SameLiveRuns(s, Apply(cfg, s, a), log, busy, boot);
  }

  lemma SameLiveRuns(s: System, t: System, log: seq<Event>, busy: set<string>, boot: BootMark)
    requires Mirrors(s, log, busy, boot) && t.LogValid()
    requires boot.id in t.processes && t.processes[boot.id] == s.processes[boot.id]
    requires forall id :: IsLiveRun(t, id, boot.id) <==> IsLiveRun(s, id, boot.id)
    requires forall id :: IsLiveRun(s, id, boot.id) ==> id in t.runs && t.runs[id] == s.runs[id]
    ensures Mirrors(t, t.Log(), busy, boot)
  {
    forall job
      ensures Running(t, boot.id, job) <==> Running(s, boot.id, job)
    {
      RunningIffLive(s, boot.id, job);
      RunningIffLive(t, boot.id, job);
    }
  }
}
