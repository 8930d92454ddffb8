/** The notice methods of the queue manager are runs of the notice protocol: what is proved of every run
    of the protocol holds of processes that call them. */
module NoticeRefinement {
  import opened Collections
  import opened NoticeRepeats
  import opened SchedulerEvents
  import opened SchedulerManager
  import opened SchedulerNotices
  import opened SchedulerTime
  import opened SchedulerVerdicts
  import opened Wrappers

  /** A reachable state in which the manager of process b reads this log and remembers these notices. */
  ghost predicate MirroredBy(cfg: SchedulerNotices.Configs, s: System, actions: seq<Action>, start: Instant, b: nat,
                             log: seq<Event>, sent: set<(string, PeriodKey)>)
  {
    && ReachableBy(cfg, s, actions, start) && s.LogValid() && DayOf(s.now) >= FIRST_DAY
    && s.Log() == log && b in s.processes && s.processes[b].alive && s.processes[b].sent == sent
  }

  /** The notice of poller p is on its way, sent, with the marks of these periods still to save. */
  predicate Delivered(s: System, b: nat, p: Poller, job: string, periods: seq<PeriodKey>) {
    && b in s.processes && p in s.processes[b].pending
    && s.processes[b].pending[p].job == job && s.processes[b].pending[p].periods == periods
        && s.processes[b].pending[p].isSent
  }

  predicate Idle(s: System, b: nat, p: Poller) {
    b in s.processes && p !in s.processes[b].pending
  }

  // ----- the steps of one notice -----

  /** A message that cannot be delivered leaves the manager as it was. */
  lemma Undelivered(cfg: SchedulerNotices.Configs, s: System, actions: seq<Action>, start: Instant, b: nat, p: Poller,
                    log: seq<Event>, sent: set<(string, PeriodKey)>)
    returns (t: System, more: seq<Action>)
    requires MirroredBy(cfg, s, actions, start, b, log, sent)
    requires p in s.processes[b].pending && !s.processes[b].pending[p].isSent
    ensures MirroredBy(cfg, t, more, start, b, log, sent) && Idle(t, b, p) && t.now == s.now
  {
    Extend(cfg, s, actions, start, Send(b, p, false));
    t, more := AfterSend(s, b, p, false), actions + [Send(b, p, false)];
  }

  /** A delivered message is remembered for all its periods. */
  lemma Deliver(cfg: SchedulerNotices.Configs, s: System, actions: seq<Action>, start: Instant, b: nat, p: Poller,
                log: seq<Event>, sent: set<(string, PeriodKey)>)
    returns (t: System, more: seq<Action>)
    requires MirroredBy(cfg, s, actions, start, b, log, sent)
    requires p in s.processes[b].pending && !s.processes[b].pending[p].isSent
    ensures
      var n := s.processes[b].pending[p];
      && MirroredBy(cfg, t, more, start, b, log, sent + Marks(n.job, n.periods)) && t.now == s.now
      && Delivered(t, b, p, n.job, n.periods)
  {
    Extend(cfg, s, actions, start, Send(b, p, true));
    t, more := AfterSend(s, b, p, true), actions + [Send(b, p, true)];
  }

  /** One mark more is saved. */
  lemma SaveOne(cfg: SchedulerNotices.Configs, s: System, actions: seq<Action>, start: Instant, b: nat, p: Poller,
                log: seq<Event>, sent: set<(string, PeriodKey)>, job: string, periods: seq<PeriodKey>)
    returns (t: System, more: seq<Action>)
    requires MirroredBy(cfg, s, actions, start, b, log, sent) && Delivered(s, b, p, job, periods) && periods != []
    ensures MirroredBy(cfg, t, more, start, b, Appended(log, MarkEvent(s.now, job, periods[0])), sent) && t.now == s.now
    ensures if |periods| == 1 then Idle(t, b, p) else Delivered(t, b, p, job, periods[1..])
  {
    Extend(cfg, s, actions, start, Record(b, p, true));
    t, more := AfterRecord(s, b, p, true), actions + [Record(b, p, true)];
  }

  /** A mark that cannot be saved gives up the rest. */
  lemma GiveUp(cfg: SchedulerNotices.Configs, s: System, actions: seq<Action>, start: Instant, b: nat, p: Poller,
               log: seq<Event>, sent: set<(string, PeriodKey)>, job: string, periods: seq<PeriodKey>)
    returns (t: System, more: seq<Action>)
    requires MirroredBy(cfg, s, actions, start, b, log, sent) && Delivered(s, b, p, job, periods) && periods != []
    ensures MirroredBy(cfg, t, more, start, b, log, sent) && Idle(t, b, p) && t.now == s.now
  {
    Extend(cfg, s, actions, start, Record(b, p, false));
    t, more := AfterRecord(s, b, p, false), actions + [Record(b, p, false)];
  }

  lemma Tail(periods: seq<PeriodKey>, n: nat)
    requires n < |periods|
    ensures |periods[n..]| == |periods| - n && periods[n..] != [] && periods[n..][0] == periods[n]
    ensures periods[n..][1..] == periods[n + 1..]
  {
  }

  /** The first n marks have been saved. */
  ghost predicate SavedUpTo(cfg: SchedulerNotices.Configs, t: System, more: seq<Action>, start: Instant, b: nat,
                            p: Poller, log: seq<Event>, sent: set<(string, PeriodKey)>, job: string,
                            periods: seq<PeriodKey>, n: nat, now: Instant)
    requires n <= |periods|
  {
    && MirroredBy(cfg, t, more, start, b, WithMarks(log, now, job, periods[..n]), sent) && t.now == now
    && if n == |periods| then Idle(t, b, p) else Delivered(t, b, p, job, periods[n..])
  }

  lemma SaveNext(cfg: SchedulerNotices.Configs, s: System, actions: seq<Action>, start: Instant, b: nat, p: Poller,
                 log: seq<Event>, sent: set<(string, PeriodKey)>, job: string, periods: seq<PeriodKey>, n: nat)
    returns (t: System, more: seq<Action>)
    requires n < |periods| && SavedUpTo(cfg, s, actions, start, b, p, log, sent, job, periods, n, s.now)
    ensures SavedUpTo(cfg, t, more, start, b, p, log, sent, job, periods, n + 1, s.now)
  {
    Tail(periods, n);
    t, more := SaveOne(cfg, s, actions, start, b, p, WithMarks(log, s.now, job, periods[..n]), sent, job, periods[n..]);
    OneMoreMark(log, s.now, job, periods, n);
  }

  lemma {:induction false} SaveSome(cfg: SchedulerNotices.Configs, s: System, actions: seq<Action>, start: Instant,
                                    b: nat, p: Poller, log: seq<Event>, sent: set<(string, PeriodKey)>, job: string,
                                    periods: seq<PeriodKey>, n: nat)
    returns (t: System, more: seq<Action>)
    requires MirroredBy(cfg, s, actions, start, b, log, sent) && Delivered(s, b, p, job, periods) && n <= |periods|
              && periods != []
    ensures SavedUpTo(cfg, t, more, start, b, p, log, sent, job, periods, n, s.now)
  {
    if n == 0 {
      t, more := s, actions;
      assert periods[0..] == periods && periods[..0] == [];
    } else {
      t, more := SaveSome(cfg, s, actions, start, b, p, log, sent, job, periods, n - 1);
      t, more := SaveNext(cfg, t, more, start, b, p, log, sent, job, periods, n - 1);
    }
  }

  /** RecordAll: the marks are saved in turn until one cannot be saved. */
  lemma SaveAll(cfg: SchedulerNotices.Configs, s: System, actions: seq<Action>, start: Instant, b: nat, p: Poller,
                log: seq<Event>, sent: set<(string, PeriodKey)>, job: string, periods: seq<PeriodKey>,
                marksSaved: nat)
    returns (t: System, more: seq<Action>)
    requires MirroredBy(cfg, s, actions, start, b, log, sent) && Delivered(s, b, p, job, periods) && periods != []
    ensures MirroredBy(cfg, t, more, start, b, WithMarks(log, s.now, job, periods[..Min(marksSaved, |periods|)]), sent)
    ensures Idle(t, b, p)
  {
    var n := Min(marksSaved, |periods|);
    t, more := SaveSome(cfg, s, actions, start, b, p, log, sent, job, periods, n);
    if n < |periods| {
      t, more := GiveUp(cfg, t, more, start, b, p, WithMarks(log, s.now, job, periods[..n]), sent, job, periods[n..]);
    }
  }

  /** From a decision to the last mark: the memory and the log are those the methods leave. */
  lemma SendAndSave(cfg: SchedulerNotices.Configs, s: System, actions: seq<Action>, start: Instant, b: nat, p: Poller,
                    log: seq<Event>, sent: set<(string, PeriodKey)>, job: string, periods: seq<PeriodKey>,
                    delivered: bool, marksSaved: nat)
    returns (t: System, more: seq<Action>)
    requires MirroredBy(cfg, s, actions, start, b, log, sent) && periods != []
    requires p in s.processes[b].pending && s.processes[b].pending[p].job == job
    requires s.processes[b].pending[p].periods == periods && !s.processes[b].pending[p].isSent
    ensures MirroredBy(cfg, t, more, start, b,
                       if delivered then WithMarks(log, s.now, job, periods[..Min(marksSaved, |periods|)]) else log,
                       sent + (if delivered then Marks(job, periods) else {}))
    ensures Idle(t, b, p)
  {
    if delivered {
      t, more := Deliver(cfg, s, actions, start, b, p, log, sent);
      t, more := SaveAll(cfg, t, more, start, b, p, log, sent + Marks(job, periods), job, periods, marksSaved);
    } else {
      t, more := Undelivered(cfg, s, actions, start, b, p, log, sent);
      assert sent + {} == sent;
    }
  }

  lemma OneMark(log: seq<Event>, now: Instant, job: string, period: PeriodKey, saved: bool)
    ensures WithMarks(log, now, job, [period][..Min(if saved then 1 else 0, 1)])
            == if saved then Appended(log, MarkEvent(now, job, period)) else log
    ensures Marks(job, [period]) == {(job, period)}
  {
    if saved {
      assert [period][..1] == [period];
      OneMoreMark(log, now, job, [period], 0);
      assert [period][..0] == [];
    }
  }

  // ----- the three methods -----

  lemma DecidedMirrors(cfg: SchedulerNotices.Configs, s: System, actions: seq<Action>, start: Instant, b: nat,
                       p: Poller, log: seq<Event>, sent: set<(string, PeriodKey)>, job: string,
                       periods: seq<PeriodKey>, guarded: bool, a: Action)
    requires MirroredBy(cfg, s, actions, start, b, log, sent) && Enabled(cfg, s, a)
    requires Apply(cfg, s, a) == Decided(s, b, p, job, periods, guarded)
    ensures MirroredBy(cfg, Apply(cfg, s, a), actions + [a], start, b, log, sent) && Apply(cfg, s, a).now == s.now
    ensures Apply(cfg, s, a).processes[b].pending[p] == Pending(job, periods, guarded, |s.history|, s.cut, false)
  {
    Extend(cfg, s, actions, start, a);
  }

  /** A period decided on by an action of the protocol, sent and marked as the methods do it. */
  lemma NotifyOne(cfg: SchedulerNotices.Configs, s: System, actions: seq<Action>, start: Instant, b: nat, p: Poller,
                  log: seq<Event>, sent: set<(string, PeriodKey)>, job: string, period: PeriodKey, guarded: bool,
                  a: Action, delivered: bool, saved: bool)
    returns (t: System, more: seq<Action>)
    requires MirroredBy(cfg, s, actions, start, b, log, sent) && Enabled(cfg, s, a)
    requires Apply(cfg, s, a) == Decided(s, b, p, job, [period], guarded)
    ensures MirroredBy(cfg, t, more, start, b,
                       if delivered && saved then Appended(log, MarkEvent(s.now, job, period)) else log,
                       sent + (if delivered then {(job, period)} else {}))
    ensures Idle(t, b, p)
  {
    DecidedMirrors(cfg, s, actions, start, b, p, log, sent, job, [period], guarded, a);
    OneMark(log, s.now, job, period, saved);
    t, more := SendAndSave(cfg, Apply(cfg, s, a), actions + [a], start, b, p, log, sent, job, [period], delivered,
                           if saved then 1 else 0);
  }

  /** NotifyWeek: deciding, sending and marking the week it reports is a run of the protocol from the
      state it mirrors to the one it leaves; without a week to report there is nothing to do. */
  lemma NotifyWeekIsRun(cfg: SchedulerNotices.Configs, s: System, actions: seq<Action>, start: Instant, b: nat,
                        p: Poller, log: seq<Event>, sent: set<(string, PeriodKey)>, scanned: set<(string, int)>,
                        busy: set<string>, job: string, boot: BootMark, delivered: bool, saved: bool)
    returns (t: System, more: seq<Action>)
    requires MirroredBy(cfg, s, actions, start, b, log, sent) && Free(cfg, s, b, p, job)
    requires cfg[job].Valid() && cfg[job].hour.Some? && cfg[job].minute.Some?
    ensures
      var message := WeekMessage(cfg[job], sent, scanned, busy, log, job, boot, s.now);
      && MirroredBy(cfg, t, more, start, b,
                    if message.Some? && delivered && saved
                    then Appended(log, MarkEvent(s.now, job, message.value)) else log,
                    sent + (if message.Some? && delivered then {(job, message.value)} else {}))
      && Idle(t, b, p)
  {
    var message := WeekMessage(cfg[job], sent, scanned, busy, log, job, boot, s.now);
    t, more := s, actions;
    if message.Some? {
      SourceDecisions(cfg[job], true, job in busy, sent, log, job, boot, s.now);
      var capped := CappedPeriod(cfg[job], job in busy, sent, log, job, boot, s.now).Some?;
      var a := if capped then DecideCurrent(b, p, job, message.value) else DecideWeek(b, p, job);
      t, more := NotifyOne(cfg, s, actions, start, b, p, log, sent, job, message.value, !capped, a, delivered, saved);
    } else {
      assert sent + {} == sent;
    }
  }

  /** NotifyMissedDay: the same for the current day. */
  lemma NotifyMissedDayIsRun(cfg: SchedulerNotices.Configs, s: System, actions: seq<Action>, start: Instant, b: nat,
                             p: Poller, log: seq<Event>, sent: set<(string, PeriodKey)>, busy: set<string>,
                             job: string, isBusinessDay: bool, boot: BootMark, delivered: bool, saved: bool)
    returns (t: System, more: seq<Action>)
    requires MirroredBy(cfg, s, actions, start, b, log, sent) && Free(cfg, s, b, p, job)
    requires cfg[job].Valid() && cfg[job].hour.Some? && cfg[job].minute.Some?
    ensures
      var message := MissedDay(cfg[job], isBusinessDay, job in busy, sent, log, job, boot, s.now);
      && MirroredBy(cfg, t, more, start, b,
                    if message.Some? && delivered && saved
                    then Appended(log, MarkEvent(s.now, job, message.value)) else log,
                    sent + (if message.Some? && delivered then {(job, message.value)} else {}))
      && Idle(t, b, p)
  {
    var message := MissedDay(cfg[job], isBusinessDay, job in busy, sent, log, job, boot, s.now);
    t, more := s, actions;
    if message.Some? {
      SourceDecisions(cfg[job], isBusinessDay, job in busy, sent, log, job, boot, s.now);
      t, more := NotifyOne(cfg, s, actions, start, b, p, log, sent, job, message.value, false,
                           DecideCurrent(b, p, job, message.value), delivered, saved);
    } else {
      assert sent + {} == sent;
    }
  }

  /** NotifyPastDays: one decision and one message for all the missed days, then their marks in turn. */
  lemma NotifyPastDaysIsRun(cfg: SchedulerNotices.Configs, s: System, actions: seq<Action>, start: Instant, b: nat,
                            p: Poller, log: seq<Event>, sent: set<(string, PeriodKey)>, scanned: set<(string, int)>,
                            busy: set<string>, job: string, days: seq<int>, delivered: bool, marksSaved: nat)
    returns (t: System, more: seq<Action>)
    requires MirroredBy(cfg, s, actions, start, b, log, sent) && Free(cfg, s, b, p, job)
    requires Distinct(days) && forall d :: d in days ==> d < DayOf(s.now)
    ensures
      var missed := DaysMessage(sent, scanned, busy, log, job, days, s.now);
      && MirroredBy(cfg, t, more, start, b,
                    if delivered then WithMarks(log, s.now, job, DayKeys(missed)[..Min(marksSaved, |missed|)]) else log,
                    sent + (if delivered then Marks(job, DayKeys(missed)) else {}))
      && Idle(t, b, p)
  {
    var missed := DaysMessage(sent, scanned, busy, log, job, days, s.now);
    t, more := s, actions;
    if missed == [] {
      assert DayKeys(missed) == [] && Marks(job, DayKeys(missed)) == {} && sent + {} == sent;
    } else {
      var a := DecideDays(b, p, job, days);
      DecidedMirrors(cfg, s, actions, start, b, p, log, sent, job, DayKeys(missed), true, a);
      t, more := SendAndSave(cfg, Apply(cfg, s, a), actions + [a], start, b, p, log, sent, job, DayKeys(missed),
                             delivered, marksSaved);
    }
  }
}
