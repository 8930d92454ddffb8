/** The run ledger as a protocol: processes that boot, crash and run jobs, on their own schedule or
    by hand, around one shared log. A run of the protocol is any sequence of actions. */
module RunLedger {
  import opened SchedulerEvents
  import opened SchedulerTime
  import opened SchedulerVerdicts
  import opened Collections
  import opened Wrappers

  type Configs = map<string, JobConfig>

  predicate ValidConfigs(cfg: Configs) {
    forall job :: job in cfg ==> cfg[job].Valid()
  }

  /** Live: being executed. Ended: its end is in the history, at a position; a failure may be exempt
      from the recovery gap. Unrecorded: it ended, but the record
      could not be written. Died: its process died first. */
  datatype RunStatus =
    | Live
    | Ended(at: nat, end: Instant, succeeded: bool, exempt: bool)
    | Unrecorded(end: Instant, succeeded: bool)
    | Died

  /** Why a run is started: at its scheduled time, by a decision to recover, or for any other reason. */
  datatype Reason = OnSchedule | ToRecover | OtherReason

  /** `asked` is the clock when the start was asked for, before its locks were taken; `start` is the
      position of the start record in the history. */
  datatype Run = Run(job: string, period: PeriodKey, boot: nat, reason: Reason, forced: bool, asked: Instant,
                     startedAt: Instant, start: nat, status: RunStatus)

  /** `liveAtBoot` are the runs of other processes that were being executed when this one started. */
  datatype Process = Process(boot: BootMark, alive: bool, liveAtBoot: set<nat>)

  /** A recovery that was started: when, and what the log was when it was decided. */
  datatype Recovery = Recovery(job: string, period: PeriodKey, at: Instant, decidedOn: nat, cut: nat)

  /** `history` has every event ever appended; the shared log is what is left after `cut` events. */
  datatype System = System(now: Instant, history: seq<Event>, cut: nat, processes: map<nat, Process>,
                           runs: map<nat, Run>, recoveries: seq<Recovery>)
  {
    predicate LogValid() {
      cut <= |history|
    }

    function Log(): seq<Event>
      requires LogValid()
    {
      history[cut..]
    }
  }

  datatype Action =
    | Tick(to: Instant)
    | Boot(bootId: nat)
    | Crash(bootId: nat)
    | Start(bootId: nat, job: string, period: PeriodKey, reason: Reason, forced: bool, asked: Instant, runId: nat)
    | Skip(bootId: nat, job: string, period: PeriodKey, asked: Instant)
    | Finish(runId: nat, succeeded: bool, skipRecoveryGap: bool)
    | LoseFinish(runId: nat, succeeded: bool)
    | Note(event: Event)

  function Initial(now: Instant): System {
    System(now, [], 0, map[], map[], [])
  }

  // ----- what an action needs -----

  predicate Running(s: System, bootId: nat, job: string) {
    exists id :: id in s.runs && s.runs[id].boot == bootId && s.runs[id].job == job && s.runs[id].status == Live
  }

  /** The period is that of now, or of when the start was asked for, before its locks were taken; or,
      for a job with backfill, an earlier day. */
  ghost predicate PeriodFor(config: JobConfig, period: PeriodKey, now: Instant)
    requires DayOf(now) >= FIRST_DAY
  {
    period == PeriodOf(config, now)
    || (exists asked :: asked <= now && DayOf(asked) >= FIRST_DAY && period == PeriodOf(config, asked))
    || (config.period == Daily && config.backfill && period.DayKey? && period.day <= DayOf(now))
  }

  /** Any other event, a retry or a notice mark, stamped now for a period that has begun. */
  ghost predicate NoteAllowed(s: System, e: Event) {
    && (e.status == Retry || e.status == CapNoticeSent)
    && !e.skipRecoveryGap && e.runId == None
    && OrderStamp(e) == Some(StampOf(s.now))
    && BegunBy(e.period, DayOf(s.now))
  }

  /** A record stamped with this instant comes after those of the history, as records are taken to. */
  predicate InStampOrder(s: System, at: Instant) {
    s.history != [] ==>
      OrderStamp(s.history[|s.history| - 1]).Some? && OrderStamp(s.history[|s.history| - 1]).value <= StampOf(at)
  }

  ghost predicate Enabled(cfg: Configs, s: System, a: Action)
    requires ValidConfigs(cfg) && s.LogValid() && DayOf(s.now) >= FIRST_DAY
  {
    match a
    case Tick(to) => to >= s.now
    case Boot(bootId) => bootId !in s.processes
    case Crash(bootId) => bootId in s.processes && s.processes[bootId].alive
    case Start(bootId, job, period, reason, forced, asked, runId) =>
      && bootId in s.processes && s.processes[bootId].alive
      && job in cfg && runId !in s.runs && !Running(s, bootId, job)
      && PeriodFor(cfg[job], period, s.now) && asked <= s.now && DayOf(asked) >= FIRST_DAY
      && (reason == OnSchedule && !forced ==> !IsPastRecoveryUntil(cfg[job], asked))
      && (reason == ToRecover ==>
            && !forced && asked == s.now && period == PeriodOf(cfg[job], s.now)
            && ShouldRecover(cfg[job], s.Log(), false, job, s.processes[bootId].boot, s.now))
      && (forced || !AtLimit(cfg[job], s.Log(), job, period, s.processes[bootId].boot))
    case Skip(bootId, job, period, asked) =>
      && bootId in s.processes && s.processes[bootId].alive && job in cfg
      && asked <= s.now && DayOf(asked) >= FIRST_DAY && PeriodFor(cfg[job], period, asked) && InStampOrder(s, asked)
      && AtLimit(cfg[job], s.Log(), job, period, s.processes[bootId].boot)
    case Finish(runId, _, _) => runId in s.runs && s.runs[runId].status == Live
    case LoseFinish(runId, _) => runId in s.runs && s.runs[runId].status == Live
    case Note(e) => NoteAllowed(s, e)
  }

  // ----- what an action does -----

  /** Append to the log; the log keeps its newest events. */
  function Append(s: System, e: Event): (r: System)
    requires s.LogValid()
    ensures r.LogValid() && r.history == s.history + [e] && r.cut >= s.cut && r.cut <= |s.history|
    ensures r.Log() == Appended(s.Log(), e)
  {
    var log := Appended(s.Log(), e);
    assert s.history + [e] == s.history[..s.cut] + (s.Log() + [e]);
    s.(history := s.history + [e], cut := |s.history| + 1 - |log|)
  }

  function LiveRuns(s: System): set<nat> {
    set id | id in s.runs && s.runs[id].status == Live
  }

  function AfterCrash(runs: map<nat, Run>, bootId: nat): map<nat, Run> {
    map id | id in runs :: if runs[id].boot == bootId
        && runs[id].status == Live then runs[id].(status := Died) else runs[id]
  }

  ghost function Apply(cfg: Configs, s: System, a: Action): (r: System)
    requires ValidConfigs(cfg) && s.LogValid() && DayOf(s.now) >= FIRST_DAY && Enabled(cfg, s, a)
    ensures r.LogValid() && s.now <= r.now
  {
    match a
    case Tick(to) => s.(now := to)
    case Boot(bootId) => s.(processes := s.processes[bootId := Process(BootMark(bootId, StampOf(s.now)), true,
        LiveRuns(s))])
    case Crash(bootId) => s.(processes := s.processes[bootId := s.processes[bootId].(alive := false)],
                             runs := AfterCrash(s.runs, bootId))
    case Start(bootId, job, period, reason, forced, asked, runId) =>
      Append(s, StartEvent(s.now, bootId, job, period, runId)).(
        runs := s.runs[runId := Run(job, period, bootId, reason, forced, asked, s.now, |s.history|, Live)],
        recoveries := if reason == ToRecover then s.recoveries + [Recovery(job, period, s.now, |s.history|, s.cut)]
            else s.recoveries)
    case Skip(_, job, period, asked) => Append(s, SkipEvent(asked, job, period))
    case Finish(runId, succeeded, skipRecoveryGap) =>
      var r := s.runs[runId];
      Append(s, FinishEvent(r.job, r.period, runId, r.startedAt, s.now, succeeded, skipRecoveryGap)).(
        runs := s.runs[runId := r.(status := Ended(|s.history|, s.now, succeeded, !succeeded && skipRecoveryGap))])
    case LoseFinish(runId, succeeded) =>
      s.(runs := s.runs[runId := s.runs[runId].(status := Unrecorded(s.now, succeeded))])
    case Note(e) => Append(s, e)
  }

  /** The states of the protocol: reachable from an empty log by some sequence of actions. */
  ghost predicate ReachableBy(cfg: Configs, s: System, actions: seq<Action>, start: Instant)
    requires ValidConfigs(cfg)
    decreases |actions|
  {
    DayOf(start) >= FIRST_DAY &&
    if actions == [] then s == Initial(start)
    else exists before: System ::
      && ReachableBy(cfg, before, actions[..|actions| - 1], start)
      && before.LogValid() && DayOf(before.now) >= FIRST_DAY
      && Enabled(cfg, before, actions[|actions| - 1]) && s == Apply(cfg, before, actions[|actions| - 1])
  }

  // ----- invariants -----

  /** The record of a run's start, and of its end if that was written, at their places. */
  predicate RunRecorded(s: System, id: nat)
    requires id in s.runs
  {
    var r := s.runs[id];
    && r.start < |s.history| && r.startedAt <= s.now
    && s.history[r.start]
        == Event(r.job, r.period, Started, Some(id), Some(r.boot), Some(StampOf(r.startedAt)), None, None, false)
    && (r.status.Ended? ==>
          && r.start < r.status.at < |s.history|
          && r.startedAt <= r.status.end <= s.now
          && s.history[r.status.at]
              == FinishEvent(r.job, r.period, id, r.startedAt, r.status.end, r.status.succeeded, r.status.exempt))
  }

  /** Every start or end record in the history is that of a known run, at its place. */
  predicate EventOfRun(s: System, i: nat)
    requires i < |s.history|
  {
    var e := s.history[i];
    && (e.status == Started ==> e.runId.Some? && e.runId.value in s.runs && s.runs[e.runId.value].start == i)
    && (e.status == Success || e.status == Error ==>
          && e.runId.Some? && e.runId.value in s.runs && s.runs[e.runId.value].status.Ended?
          && s.runs[e.runId.value].status.at == i
          && e.job == s.runs[e.runId.value].job && e.period == s.runs[e.runId.value].period)
    && (e.skipRecoveryGap ==> e.status == Error)
  }

  predicate Recorded(s: System) {
    && s.LogValid()
    && (forall id :: id in s.runs ==> RunRecorded(s, id))
    && (forall i :: 0 <= i < |s.history| ==> EventOfRun(s, i))
  }

  /** Boots lie in the past; a live run that a process did not see live at its boot started in its
      boot second or later. */
  predicate BootsKnown(s: System) {
    && (forall b :: b in s.processes ==> s.processes[b].boot.id == b && s.processes[b].boot.at <= StampOf(s.now))
    && (forall id :: id in s.runs ==> s.runs[id].boot in s.processes)
    && (forall b, id ::
        b in s.processes && id in s.runs && s.runs[id].status == Live && id !in s.processes[b].liveAtBoot ==>
          StampOf(s.runs[id].startedAt) >= s.processes[b].boot.at)
  }

  /** Stamps ascend up to now, and no event is stamped before its period begins. */
  ghost predicate Stamped(s: System) {
    && StampOrdered(s.history) && KeysBegun(s.history)
    && (s.history != [] ==> OrderStamp(s.history[|s.history| - 1]).value <= StampOf(s.now))
    && (forall id :: id in s.runs ==> BegunBy(s.runs[id].period, DayOf(s.now)))
  }

  /** The log is the end of the history. */
  lemma EventInHistory(s: System, i: nat)
    requires Recorded(s) && i < |s.Log()|
    ensures s.Log()[i] == s.history[s.cut + i] && EventOfRun(s, s.cut + i)
  {
  }

  // ----- Recorded is kept -----

  lemma AppendRecorded(s: System, e: Event)
    requires Recorded(s)
    requires e.status != Started && e.status != Success && e.status != Error && !e.skipRecoveryGap
    ensures Recorded(Append(s, e))
  {
    var r := Append(s, e);
    forall id | id in r.runs
      ensures RunRecorded(r, id)
    {
      assert RunRecorded(s, id);
    }
    forall i | 0 <= i < |r.history|
      ensures EventOfRun(r, i)
    {
      if i < |s.history| { assert EventOfRun(s, i); }
    }
  }

  lemma StartRecorded(cfg: Configs, s: System, a: Action)
    requires ValidConfigs(cfg) && Recorded(s) && DayOf(s.now) >= FIRST_DAY && a.Start? && Enabled(cfg, s, a)
    ensures Recorded(Apply(cfg, s, a))
  {
    hide Appended, AtLimit, ShouldRecover, PeriodFor, Running;
    var r := Apply(cfg, s, a);
    forall id | id in r.runs
      ensures RunRecorded(r, id)
    {
      if id != a.runId { assert RunRecorded(s, id); }
    }
    forall i | 0 <= i < |r.history|
      ensures EventOfRun(r, i)
    {
      if i < |s.history| { assert EventOfRun(s, i); }
    }
  }

  lemma FinishRecorded(cfg: Configs, s: System, a: Action)
    requires ValidConfigs(cfg) && Recorded(s) && DayOf(s.now) >= FIRST_DAY && a.Finish? && Enabled(cfg, s, a)
    ensures Recorded(Apply(cfg, s, a))
  {
    hide Appended, AtLimit, ShouldRecover, PeriodFor, Running;
    var r := Apply(cfg, s, a);
    forall id | id in r.runs
      ensures RunRecorded(r, id)
    {
      assert RunRecorded(s, id);
    }
    forall i | 0 <= i < |r.history|
      ensures EventOfRun(r, i)
    {
      if i < |s.history| { assert EventOfRun(s, i); }
    }
  }

  lemma StepRecorded(cfg: Configs, s: System, a: Action)
    requires ValidConfigs(cfg) && Recorded(s) && DayOf(s.now) >= FIRST_DAY && Enabled(cfg, s, a)
    ensures Recorded(Apply(cfg, s, a))
  {
    match a
    case Start(_, _, _, _, _, _, _) => StartRecorded(cfg, s, a);
    case Finish(_, _, _) => FinishRecorded(cfg, s, a);
    case Skip(_, job, period, asked) => AppendRecorded(s, SkipEvent(asked, job, period));
    case Note(e) => AppendRecorded(s, e);
    case Tick(_) => SameHistory(s, Apply(cfg, s, a));
    case Boot(_) => SameHistory(s, Apply(cfg, s, a));
    case Crash(_) => SameHistory(s, Apply(cfg, s, a));
    case LoseFinish(_, _) => SameHistory(s, Apply(cfg, s, a));
  }

  /** Steps that append nothing: runs only leave the state Live, and not for Ended. */
  lemma SameHistory(s: System, r: System)
    requires Recorded(s) && r.LogValid() && r.history == s.history && s.now <= r.now
    requires r.runs.Keys == s.runs.Keys
    requires forall id :: id in s.runs ==>
               r.runs[id] == s.runs[id]
                   || (s.runs[id].status == Live && !r.runs[id].status.Ended?
                       && r.runs[id].(status := Live) == s.runs[id])
    ensures Recorded(r)
  {
    forall id | id in r.runs
      ensures RunRecorded(r, id)
    {
      assert RunRecorded(s, id);
    }
    forall i | 0 <= i < |r.history|
      ensures EventOfRun(r, i)
    {
      assert EventOfRun(s, i);
    }
  }

  // ----- BootsKnown is kept -----

  /** Runs that keep their process and start, and are live only if they were, keep boots known. */
  lemma SameBoots(s: System, r: System)
    requires BootsKnown(s) && s.now <= r.now && r.processes.Keys == s.processes.Keys && r.runs.Keys == s.runs.Keys
    requires forall b :: b in s.processes ==>
               r.processes[b].boot == s.processes[b].boot && r.processes[b].liveAtBoot == s.processes[b].liveAtBoot
    requires forall id :: id in s.runs ==>
               && r.runs[id].boot == s.runs[id].boot && r.runs[id].startedAt == s.runs[id].startedAt
               && (r.runs[id].status == Live ==> s.runs[id].status == Live)
    ensures BootsKnown(r)
  {
    StampsAscend(s.now, r.now);
  }

  lemma BootKnown(s: System, b: nat)
    requires BootsKnown(s) && b !in s.processes
    ensures BootsKnown(s.(processes := s.processes[b := Process(BootMark(b, StampOf(s.now)), true, LiveRuns(s))]))
  {
  }

  lemma StartKnown(s: System, r: System, id: nat, run: Run)
    requires BootsKnown(s) && r.now == s.now && r.processes == s.processes
    requires id !in s.runs && r.runs == s.runs[id := run] && run.boot in s.processes && run.startedAt == s.now
    ensures BootsKnown(r)
  {
  }

  lemma CrashKnown(s: System, b: nat)
    requires BootsKnown(s) && b in s.processes
    ensures BootsKnown(s.(processes := s.processes[b := s.processes[b].(alive := false)],
                          runs := AfterCrash(s.runs, b)))
  {
    SameBoots(s, s.(processes := s.processes[b := s.processes[b].(alive := false)], runs := AfterCrash(s.runs, b)));
  }

  lemma LeaveKnown(s: System, r: System, id: nat)
    requires BootsKnown(s) && r.now == s.now && r.processes == s.processes && id in s.runs && id in r.runs
    requires r.runs == s.runs[id := s.runs[id].(status := r.runs[id].status)] && r.runs[id].status != Live
    ensures BootsKnown(r)
  {
    SameBoots(s, r);
  }

  lemma StepBootsKnown(cfg: Configs, s: System, a: Action)
    requires ValidConfigs(cfg) && s.LogValid() && BootsKnown(s) && DayOf(s.now) >= FIRST_DAY && Enabled(cfg, s, a)
    ensures BootsKnown(Apply(cfg, s, a))
  {
    match a
    case Boot(b) => BootKnown(s, b);
    case Start(bootId, job, period, reason, forced, asked, runId) =>
      StartKnown(s, Apply(cfg, s, a), runId,
                 Run(job, period, bootId, reason, forced, asked, s.now, |s.history|, Live));
    case Crash(b) => CrashKnown(s, b);
    case Finish(id, _, _) => LeaveKnown(s, Apply(cfg, s, a), id);
    case LoseFinish(id, _) => LeaveKnown(s, Apply(cfg, s, a), id);
    case _ => SameBoots(s, Apply(cfg, s, a));
  }
}
