/** What lets a run start: no scheduled start past its deadline, and no recovery but of a period that is
    due and that no run is known to have finished. */
module RecoveryCauses {
  import opened RecoveryDays
  import opened RecoveryGaps
  import opened RunLedger
  import opened SchedulerEvents
  import opened SchedulerTime
  import opened SchedulerVerdicts
  import opened Wrappers

  // ----- success -----

  /** The log shows that the run succeeded. */
  predicate SuccessRetained(s: System, id: nat)
    requires id in s.runs
  {
    EndRetained(s, id) && s.runs[id].status.succeeded
  }

  /** The log has a success of a period exactly when it shows that some run of the period succeeded. */
  lemma SuccessIffRun(s: System, job: string, period: PeriodKey)
    requires Recorded(s)
    ensures HasSuccess(s.Log(), job, period) <==> exists id :: IsRunOf(s, id, job, period) && SuccessRetained(s, id)
  {
    if HasSuccess(s.Log(), job, period) {
      var i :| 0 <= i < |s.Log()| && Concerns(s.Log()[i], job, period) && s.Log()[i].status == Success;
      EventInHistory(s, i);
      var id := s.Log()[i].runId.value;
      assert RunRecorded(s, id);
      assert IsRunOf(s, id, job, period) && SuccessRetained(s, id);
    }
    if exists id :: IsRunOf(s, id, job, period) && SuccessRetained(s, id) {
      var id :| IsRunOf(s, id, job, period) && SuccessRetained(s, id);
      assert RunRecorded(s, id);
      EventInHistory(s, s.runs[id].status.at - s.cut);
    }
  }

  // ----- scheduled starts -----

  /** A scheduled start that was not forced was asked for before the deadline of its day. */
  predicate StartInTime(cfg: Configs, run: Run) {
    && run.job in cfg
    && (run.reason == OnSchedule && !run.forced && cfg[run.job].recoveryUntil.Some? ==>
          var (hour, minute) := cfg[run.job].recoveryUntil.value;
          run.asked < AtTime(DayOf(run.asked), hour, minute))
  }

  predicate StartsInTime(cfg: Configs, s: System) {
    forall id :: id in s.runs ==> StartInTime(cfg, s.runs[id])
  }

  lemma StepStartsInTime(cfg: Configs, s: System, a: Action)
    requires ValidConfigs(cfg) && s.LogValid() && DayOf(s.now) >= FIRST_DAY && Enabled(cfg, s, a)
    requires StartsInTime(cfg, s)
    ensures StartsInTime(cfg, Apply(cfg, s, a))
  {
    hide AtLimit, ShouldRecover, PeriodFor, NoteAllowed, InStampOrder, Appended, AtTime;
  }

  // ----- recoveries -----

  /** No run of the period succeeded of which the log held the end from `cut` to `decidedOn`. */
  predicate NoneSucceeded(s: System, job: string, period: PeriodKey, cut: nat, decidedOn: nat) {
    forall id ::
      id in s.runs && IsRunOf(s, id, job, period) && s.runs[id].status.Ended? && s.runs[id].status.succeeded ==>
        !(cut <= s.runs[id].status.at < decidedOn)
  }

  /** The recovery was of the period of its time, in time, and of no period known to have succeeded. */
  ghost predicate RecoveryCaused(cfg: Configs, s: System, rec: Recovery) {
    && rec.cut <= rec.decidedOn <= |s.history| && rec.job in cfg
    && DayOf(rec.at) >= FIRST_DAY && rec.period == PeriodOf(cfg[rec.job], rec.at) && InTime(cfg[rec.job], rec.at)
    && NoneSucceeded(s, rec.job, rec.period, rec.cut, rec.decidedOn)
  }

  ghost predicate RecoveriesCaused(cfg: Configs, s: System) {
    forall k :: 0 <= k < |s.recoveries| ==> RecoveryCaused(cfg, s, s.recoveries[k])
  }

  lemma NewRecoveryCaused(cfg: Configs, s: System, a: Action)
    requires ValidConfigs(cfg) && Recorded(s) && DayOf(s.now) >= FIRST_DAY && a.Start? && a.reason == ToRecover
              && Enabled(cfg, s, a)
    ensures RecoveryCaused(cfg, s, Recovery(a.job, a.period, s.now, |s.history|, s.cut))
  {
    InTimeIff(cfg[a.job], s.now);
    SuccessIffRun(s, a.job, a.period);
    forall id | IsRunOf(s, id, a.job, a.period) && s.runs[id].status.Ended? && s.runs[id].status.succeeded
      ensures !(s.cut <= s.runs[id].status.at < |s.history|)
    {
      assert !SuccessRetained(s, id);
    }
  }

  /** Later ends lie behind the decision and do not matter to it. */
  lemma CausedLater(cfg: Configs, s: System, r: System, rec: Recovery)
    requires RecoveryCaused(cfg, s, rec) && EndsStay(s, r)
    ensures RecoveryCaused(cfg, r, rec)
  {
    hide InTime, PeriodOf;
  }

  lemma StepRecoveriesCaused(cfg: Configs, s: System, a: Action)
    requires ValidConfigs(cfg) && Recorded(s) && DayOf(s.now) >= FIRST_DAY && Enabled(cfg, s, a)
    requires RecoveriesCaused(cfg, s)
    ensures RecoveriesCaused(cfg, Apply(cfg, s, a))
  {
    hide RecoveryCaused, EndsStay, AtLimit, ShouldRecover, PeriodFor, NoteAllowed, InStampOrder, Appended;
    var r := Apply(cfg, s, a);
    EndsAppend(cfg, s, a);
    forall k | 0 <= k < |r.recoveries|
      ensures RecoveryCaused(cfg, r, r.recoveries[k])
    {
      if k < |s.recoveries| {
        CausedLater(cfg, s, r, s.recoveries[k]);
      } else {
        NewRecoveryCaused(cfg, s, a);
        CausedLater(cfg, s, r, Recovery(a.job, a.period, s.now, |s.history|, s.cut));
      }
    }
  }
}
