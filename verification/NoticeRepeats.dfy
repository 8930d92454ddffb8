/** When a period is reported again by a later boot although its notice had been saved: exactly when the
    checks of the current period apply and every mark and success of it was cut from the log. */
module NoticeRepeats {
  import opened Calendar
  import opened SchedulerEvents
  import opened SchedulerNotices
  import opened SchedulerNoticesSafety
  import opened SchedulerTime
  import opened SchedulerVerdicts
  import opened Wrappers

  // ----- what the log still shows -----

  predicate Settles(e: Event, job: string, period: PeriodKey) {
    Concerns(e, job, period) && (e.status == Success || e.status == CapNoticeSent)
  }

  /** Every success and every mark of the period that was ever appended has been cut. */
  predicate AllCut(history: seq<Event>, cut: nat, job: string, period: PeriodKey) {
    forall i :: 0 <= i < |history| && Settles(history[i], job, period) ==> i < cut
  }

  lemma UnreportedIffCut(history: seq<Event>, cut: nat, sent: set<(string, PeriodKey)>, job: string, period: PeriodKey)
    requires cut <= |history|
    ensures StillUnreported(sent, history[cut..], job, period) <==>
              (job, period) !in sent && AllCut(history, cut, job, period)
  {
    var log := history[cut..];
    if HasSuccess(log, job, period) || HasMark(log, job, period) {
      var i :| 0 <= i < |log| && Settles(log[i], job, period);
      assert Settles(history[cut + i], job, period);
    }
    if !AllCut(history, cut, job, period) {
      var i :| 0 <= i < |history| && Settles(history[i], job, period) && i >= cut;
      assert log[i - cut] == history[i];
    }
  }

  // ----- the checks of the current period -----

  predicate DelayOver(config: JobConfig, now: Instant)
    requires config.Valid() && DayOf(now) >= FIRST_DAY && config.hour.Some? && config.minute.Some?
  {
    var basis := ScheduledForRecovery(config, now);
    basis.Some? && now >= basis.value + config.recoveryDelayMinutes * 60 * SECOND
  }

  /** A business day given up at its limit or its deadline. */
  predicate DayGivenUp(config: JobConfig, isBusinessDay: bool, running: bool, events: seq<Event>, job: string,
                       boot: BootMark, now: Instant)
    requires config.Valid() && DayOf(now) >= FIRST_DAY && config.hour.Some? && config.minute.Some?
  {
    && isBusinessDay && !running && DelayOver(config, now)
    && (AtLimit(config, events, job, PeriodOf(config, now), boot) || IsPastRecoveryUntil(config, now))
  }

  /** A week given up at its limit. */
  predicate WeekGivenUp(config: JobConfig, running: bool, events: seq<Event>, job: string, boot: BootMark, now: Instant)
    requires config.Valid() && DayOf(now) >= FIRST_DAY && config.hour.Some? && config.minute.Some?
  {
    && !running && DelayOver(config.(recoverRestOfWeek := true), now)
    && AtLimit(config, events, job, PeriodOf(config, now), boot)
  }

  lemma MissedDayIff(config: JobConfig, isBusinessDay: bool, running: bool, sent: set<(string, PeriodKey)>,
                     events: seq<Event>, job: string, boot: BootMark, now: Instant)
    requires config.Valid() && DayOf(now) >= FIRST_DAY && config.hour.Some? && config.minute.Some?
    ensures MissedDay(config, isBusinessDay, running, sent, events, job, boot, now)
            == if DayGivenUp(config, isBusinessDay, running, events, job, boot, now)
                  && StillUnreported(sent, events, job, PeriodOf(config, now))
               then Some(PeriodOf(config, now)) else None
  {
  }

  lemma CappedPeriodIff(config: JobConfig, running: bool, sent: set<(string, PeriodKey)>, events: seq<Event>,
                        job: string, boot: BootMark, now: Instant)
    requires config.Valid() && DayOf(now) >= FIRST_DAY && config.hour.Some? && config.minute.Some?
    ensures CappedPeriod(config, running, sent, events, job, boot, now)
            == if WeekGivenUp(config, running, events, job, boot, now)
                && StillUnreported(sent, events, job, PeriodOf(config, now))
               then Some(PeriodOf(config, now)) else None
  {
  }

  // ----- what a process remembers -----

  predicate IsMessage(m: Sent, b: nat, job: string, period: PeriodKey) {
    m.boot == b && m.job == job && m.period == period
  }

  ghost predicate HasSent(s: System, b: nat, job: string, period: PeriodKey) {
    exists k :: 0 <= k < |s.sends| && IsMessage(s.sends[k], b, job, period)
  }

  /** A process remembers only what it sent. */
  ghost predicate RememberedWereSent(s: System) {
    forall b, job, period :: b in s.processes && (job, period) in s.processes[b].sent ==> HasSent(s, b, job, period)
  }

  lemma SentLater(s: System, r: System, b: nat, job: string, period: PeriodKey)
    requires HasSent(s, b, job, period) && s.sends <= r.sends
    ensures HasSent(r, b, job, period)
  {
    var k :| 0 <= k < |s.sends| && IsMessage(s.sends[k], b, job, period);
    assert r.sends[k] == s.sends[k];
  }

  lemma DeliveryIsRemembered(s: System, b: nat, p: Poller)
    requires RememberedWereSent(s) && b in s.processes && p in s.processes[b].pending
    ensures RememberedWereSent(AfterSend(s, b, p, true))
  {
    var r, n := AfterSend(s, b, p, true), s.processes[b].pending[p];
    forall c, job, period | c in r.processes && (job, period) in r.processes[c].sent
      ensures HasSent(r, c, job, period)
    {
      if (job, period) in s.processes[c].sent {
        SentLater(s, r, c, job, period);
      } else {
        var i :| 0 <= i < |n.periods| && n.periods[i] == period;
        assert IsMessage(r.sends[|s.sends| + i], b, job, period);
      }
    }
  }

  lemma SameMemory(s: System, r: System)
    requires RememberedWereSent(s) && r.sends == s.sends
    requires forall b :: b in r.processes ==>
              r.processes[b].sent == {} || (b in s.processes && r.processes[b].sent == s.processes[b].sent)
    ensures RememberedWereSent(r)
  {
    forall b, job, period | b in r.processes && (job, period) in r.processes[b].sent
      ensures HasSent(r, b, job, period)
    {
      SentLater(s, r, b, job, period);
    }
  }

  lemma StepRemembered(cfg: Configs, s: System, a: Action)
    requires s.LogValid() && DayOf(s.now) >= FIRST_DAY && Enabled(cfg, s, a) && RememberedWereSent(s)
    ensures RememberedWereSent(Apply(cfg, s, a))
  {
    if a.Send? && a.delivered { DeliveryIsRemembered(s, a.boot, a.poller); } else { SameMemory(s, Apply(cfg, s, a)); }
  }

  lemma {:induction false} EveryMemoryWasSent(cfg: Configs, s: System, actions: seq<Action>, start: Instant)
    requires ReachableBy(cfg, s, actions, start)
    ensures RememberedWereSent(s)
    decreases |actions|
  {
    if actions != [] {
      var before: System :| ReachableBy(cfg, before, actions[..|actions| - 1], start)
        && before.LogValid() && DayOf(before.now) >= FIRST_DAY
        && Enabled(cfg, before, actions[|actions| - 1]) && s == Apply(cfg, before, actions[|actions| - 1]);
      EveryMemoryWasSent(cfg, before, actions[..|actions| - 1], start);
      StepRemembered(cfg, before, actions[|actions| - 1]);
    }
  }

  lemma RemembersIffSent(cfg: Configs, s: System, actions: seq<Action>, start: Instant, b: nat, job: string,
                         period: PeriodKey)
    requires ReachableBy(cfg, s, actions, start) && b in s.processes
    ensures (job, period) in s.processes[b].sent <==> HasSent(s, b, job, period)
  {
    EveryRunKept(cfg, s, actions, start);
    EveryMemoryWasSent(cfg, s, actions, start);
    if HasSent(s, b, job, period) {
      var k :| 0 <= k < |s.sends| && IsMessage(s.sends[k], b, job, period);
      assert SentFits(s, s.sends[k]);
    }
  }

  // ----- the exact condition -----

  /** In every reachable state a process, whichever boots were before it and whatever they saved, reports
      the current period if and only if the day or week is given up, this boot has not sent for it, and
      every success and mark of it was cut from the log. */
  lemma ReportsCurrentIff(cfg: Configs, s: System, actions: seq<Action>, start: Instant, b: nat, job: string,
                          isBusinessDay: bool, running: bool, boot: BootMark)
    requires ReachableBy(cfg, s, actions, start) && b in s.processes && job in cfg && s.LogValid()
              && DayOf(s.now) >= FIRST_DAY
    requires cfg[job].Valid() && cfg[job].hour.Some? && cfg[job].minute.Some?
    ensures
      var period := PeriodOf(cfg[job], s.now);
      var free := !HasSent(s, b, job, period) && AllCut(s.history, s.cut, job, period);
      && (MissedDay(cfg[job], isBusinessDay, running, s.processes[b].sent, s.Log(), job, boot, s.now) == Some(period)
          <==> DayGivenUp(cfg[job], isBusinessDay, running, s.Log(), job, boot, s.now) && free)
      && (CappedPeriod(cfg[job], running, s.processes[b].sent, s.Log(), job, boot, s.now) == Some(period)
          <==> WeekGivenUp(cfg[job], running, s.Log(), job, boot, s.now) && free)
  {
    var period, sent := PeriodOf(cfg[job], s.now), s.processes[b].sent;
    RemembersIffSent(cfg, s, actions, start, b, job, period);
    UnreportedIffCut(s.history, s.cut, sent, job, period);
    MissedDayIff(cfg[job], isBusinessDay, running, sent, s.Log(), job, boot, s.now);
    CappedPeriodIff(cfg[job], running, sent, s.Log(), job, boot, s.now);
  }

  // ----- a run with two notices -----

  lemma Extend(cfg: Configs, s: System, actions: seq<Action>, start: Instant, a: Action)
    requires ReachableBy(cfg, s, actions, start) && s.LogValid() && DayOf(s.now) >= FIRST_DAY && Enabled(cfg, s, a)
    ensures ReachableBy(cfg, Apply(cfg, s, a), actions + [a], start)
  {
    assert (actions + [a])[..|actions + [a]| - 1] == actions;
  }

  lemma NothingYet(cfg: Configs, start: Instant)
    requires DayOf(start) >= FIRST_DAY
    ensures ReachableBy(cfg, Initial(start), [], start)
  {
  }

  /** t is s n retries later: only the log has changed, and of the former events at most MAX_EVENTS - n
      are left. */
  predicate Retried(s: System, t: System, e: Event, n: nat) {
    && t == s.(history := t.history, cut := t.cut) && t.LogValid()
    && |t.history| == |s.history| + n && s.history <= t.history
    && (forall i :: |s.history| <= i < |t.history| ==> t.history[i] == e)
    && (n > 0 ==> t.cut + MAX_EVENTS >= |s.history| + n)
  }

  lemma RetriedOnce(s: System, t: System, e: Event, n: nat)
    requires Retried(s, t, e, n)
    ensures Retried(s, Append(t, e), e, n + 1)
  {
    assert |Append(t, e).Log()| <= MAX_EVENTS;
  }

  lemma {:induction false} AfterRetries(cfg: Configs, s: System, actions: seq<Action>, start: Instant, e: Event, n: nat)
      returns (t: System, more: seq<Action>)
    requires ReachableBy(cfg, s, actions, start) && s.LogValid() && DayOf(s.now) >= FIRST_DAY
    requires e.status == Retry && OrderStamp(e) == Some(StampOf(s.now)) && BegunBy(e.period, DayOf(s.now))
    ensures ReachableBy(cfg, t, more, start) && Retried(s, t, e, n)
  {
    hide ReachableBy, Enabled;
    t, more := s, actions;
    if n > 0 {
      t, more := AfterRetries(cfg, s, actions, start, e, n - 1);
      Extend(cfg, t, more, start, Other(e));
      RetriedOnce(s, t, e, n - 1);
      t, more := Append(t, e), more + [Other(e)];
    }
  }

  lemma BootNow(cfg: Configs, s: System, actions: seq<Action>, start: Instant, b: nat)
    requires ReachableBy(cfg, s, actions, start) && s.LogValid() && DayOf(s.now) >= FIRST_DAY && b !in s.processes
    ensures ReachableBy(cfg, SetProcess(s, b, Process(|s.history|, true, {}, map[])), actions + [Boot(b)], start)
  {
    Extend(cfg, s, actions, start, Boot(b));
  }

  lemma DecideNow(cfg: Configs, s: System, actions: seq<Action>, start: Instant, b: nat, p: Poller, job: string,
                  period: PeriodKey)
    requires ReachableBy(cfg, s, actions, start) && s.LogValid() && DayOf(s.now) >= FIRST_DAY
              && BegunBy(period, DayOf(s.now))
    requires Free(cfg, s, b, p, job) && s.processes[b].sent == {} && AllCut(s.history, s.cut, job, period)
    ensures ReachableBy(cfg, Decided(s, b, p, job, [period], false), actions + [DecideCurrent(b, p, job, period)],
                        start)
  {
    UnreportedIffCut(s.history, s.cut, {}, job, period);
    Extend(cfg, s, actions, start, DecideCurrent(b, p, job, period));
  }

  lemma DecidedAfterBoot(s: System, b: nat, p: Poller, job: string, period: PeriodKey)
    ensures Decided(SetProcess(s, b, Process(|s.history|, true, {}, map[])), b, p, job, [period], false)
            == s.(processes := s.processes[
                 b := Process(|s.history|, true, {},
                              map[p := Pending(job, [period], false, |s.history|, s.cut, false)])])
  {
    var none: map<Poller, Pending> := map[];
    assert none[p := Pending(job, [period], false, |s.history|, s.cut, false)]
        == map[p := Pending(job, [period], false, |s.history|, s.cut, false)];
  }

  /** A process boots and finds the period unreported. */
  lemma BootAndDecide(cfg: Configs, s: System, actions: seq<Action>, start: Instant, b: nat, p: Poller, job: string,
                      period: PeriodKey)
    returns (t: System, more: seq<Action>)
    requires ReachableBy(cfg, s, actions, start) && s.LogValid() && DayOf(s.now) >= FIRST_DAY
    requires b !in s.processes && job in cfg && Polls(p, cfg[job]) && BegunBy(period, DayOf(s.now))
    requires AllCut(s.history, s.cut, job, period)
    ensures ReachableBy(cfg, t, more, start)
    ensures t == s.(processes := s.processes[
                 b := Process(|s.history|, true, {},
                              map[p := Pending(job, [period], false, |s.history|, s.cut, false)])])
  {
    BootNow(cfg, s, actions, start, b);
    var booted := SetProcess(s, b, Process(|s.history|, true, {}, map[]));
    DecideNow(cfg, booted, actions + [Boot(b)], start, b, p, job, period);
    DecidedAfterBoot(s, b, p, job, period);
    t, more := Decided(booted, b, p, job, [period], false), actions + [Boot(b)] + [DecideCurrent(b, p, job, period)];
  }

  /** And sends. */
  lemma BootAndSend(cfg: Configs, s: System, actions: seq<Action>, start: Instant, b: nat, p: Poller, job: string,
                    period: PeriodKey)
    returns (t: System, more: seq<Action>)
    requires ReachableBy(cfg, s, actions, start) && s.LogValid() && DayOf(s.now) >= FIRST_DAY
    requires b !in s.processes && job in cfg && Polls(p, cfg[job]) && BegunBy(period, DayOf(s.now))
    requires AllCut(s.history, s.cut, job, period)
    ensures ReachableBy(cfg, t, more, start)
    ensures t == s.(processes := t.processes, sends := s.sends + [Sent(b, job, period, false, |s.history|, s.cut)])
    ensures t.processes.Keys == s.processes.Keys + {b}
    ensures t.processes[b].alive && p in t.processes[b].pending
            && t.processes[b].pending[p] == Pending(job, [period], false, |s.history|, s.cut, true)
  {
    hide ReachableBy;
    t, more := BootAndDecide(cfg, s, actions, start, b, p, job, period);
    Extend(cfg, t, more, start, Send(b, p, true));
    assert Messages(b, t.processes[b].pending[p]) == [Sent(b, job, period, false, |s.history|, s.cut)];
    t, more := AfterSend(t, b, p, true), more + [Send(b, p, true)];
  }

  /** The mark of that notice is saved. */
  lemma SaveMark(cfg: Configs, s: System, actions: seq<Action>, start: Instant, b: nat, p: Poller, job: string,
                 period: PeriodKey)
    returns (t: System, more: seq<Action>)
    requires ReachableBy(cfg, s, actions, start) && s.LogValid() && DayOf(s.now) >= FIRST_DAY
    requires b in s.processes && s.processes[b].alive && p in s.processes[b].pending
    requires s.processes[b].pending[p].job == job && s.processes[b].pending[p].periods == [period]
              && s.processes[b].pending[p].isSent
    ensures ReachableBy(cfg, t, more, start) && t.LogValid() && t.now == s.now && t.sends == s.sends
    ensures t.history == s.history + [MarkEvent(s.now, job, period)] && t.processes.Keys == s.processes.Keys
  {
    Extend(cfg, s, actions, start, Record(b, p, true));
    t, more := Apply(cfg, s, Record(b, p, true)), actions + [Record(b, p, true)];
  }

  /** A first boot sends and saves its mark. */
  lemma FirstNotice(cfg: Configs, job: string, p: Poller, period: PeriodKey, start: Instant)
    returns (s: System, actions: seq<Action>)
    requires job in cfg && Polls(p, cfg[job]) && DayOf(start) >= FIRST_DAY && BegunBy(period, DayOf(start))
    ensures ReachableBy(cfg, s, actions, start) && s.LogValid() && s.now == start && s.processes.Keys == {0}
    ensures s.history == [MarkEvent(start, job, period)] && s.sends == [Sent(0, job, period, false, 0, 0)]
  {
    hide ReachableBy;
    NothingYet(cfg, start);
    s, actions := BootAndSend(cfg, Initial(start), [], start, 0, p, job, period);
    s, actions := SaveMark(cfg, s, actions, start, 0, p, job, period);
  }

  /** The two notices of a run, by two boots for one period, with a saved mark between them. */
  predicate ReportedTwice(s: System, job: string, period: PeriodKey) {
    && |s.sends| == 2 && IsMessage(s.sends[0], 0, job, period) && IsMessage(s.sends[1], 1, job, period)
    && s.sends[0].decidedOn <= s.sends[1].cut <= s.sends[1].decidedOn <= |s.history|
    && exists i :: s.sends[0].decidedOn <= i < s.sends[1].cut && Concerns(s.history[i], job, period)
        && s.history[i].status == CapNoticeSent
  }

  /** For every configured job and period that has begun: a first boot sends and saves its mark, MAX_EVENTS
      retries follow, and the next boot sends again. */
  lemma ForgottenMarkIsSentAgain(cfg: Configs, job: string, p: Poller, period: PeriodKey, start: Instant)
      returns (s: System, actions: seq<Action>)
    requires job in cfg && Polls(p, cfg[job]) && DayOf(start) >= FIRST_DAY && BegunBy(period, DayOf(start))
    ensures ReachableBy(cfg, s, actions, start) && ReportedTwice(s, job, period)
    ensures s.sends[0].decidedOn == 0 && s.sends[0].cut == 0
    ensures forall i :: s.sends[1].cut <= i < s.sends[1].decidedOn ==> s.history[i] == RetryEvent(job, period, start)
  {
    hide ReachableBy;
    s, actions := FirstNotice(cfg, job, p, period, start);
    var marked := s;
    s, actions := AfterRetries(cfg, s, actions, start, RetryEvent(job, period, start), MAX_EVENTS);
    assert s.history[0] == marked.history[0];
    assert Concerns(s.history[0], job, period) && s.history[0].status == CapNoticeSent;
    s, actions := BootAndSend(cfg, s, actions, start, 1, p, job, period);
  }

  // ----- both notices are the source's -----

  /** The daily order job: Monday to Friday at 8:50, recovered until 9:30. */
  const DAILY_AUTO_ORDER :=
    JobConfig(Daily, {0, 1, 2, 3, 4}, 1, Some(8), Some(50), 10, Some((9, 30)), 1, false,
              DEFAULT_FORGIVEN_INTERRUPTIONS, false, None,
              false, false, true)

  lemma PastDeadline(day: int)
    requires day >= FIRST_DAY && Weekday(day) <= 4
    ensures DayOf(AtTime(day, 12, 0)) == day && IsPastRecoveryUntil(DAILY_AUTO_ORDER, AtTime(day, 12, 0))
    ensures DelayOver(DAILY_AUTO_ORDER, AtTime(day, 12, 0))
  {
    DayOfTime(day, 12, 0);
  }

  /** On any business day: the order job missed its deadline, both boots decide to report the day on the
      logs they read, and both notices go out. */
  lemma AutoOrderReportedTwice(day: int, boot0: BootMark, boot1: BootMark) returns (s: System, actions: seq<Action>)
    requires day >= FIRST_DAY && Weekday(day) <= 4
    ensures ReachableBy(map["daily_auto_order" := DAILY_AUTO_ORDER], s, actions, AtTime(day, 12, 0))
    ensures ReportedTwice(s, "daily_auto_order", DayKey(day))
    ensures s.sends[0].cut <= s.sends[0].decidedOn <= |s.history|
              && s.sends[1].cut <= s.sends[1].decidedOn <= |s.history|
    ensures DayOf(AtTime(day, 12, 0)) == day && DAILY_AUTO_ORDER.Valid()
    ensures MissedDay(DAILY_AUTO_ORDER, true, false, {}, s.history[s.sends[0].cut..s.sends[0].decidedOn],
                      "daily_auto_order", boot0,
                      AtTime(day, 12, 0)) == Some(DayKey(day))
    ensures MissedDay(DAILY_AUTO_ORDER, true, false, {}, s.history[s.sends[1].cut..s.sends[1].decidedOn],
                      "daily_auto_order", boot1,
                      AtTime(day, 12, 0)) == Some(DayKey(day))
  {
    var cfg, job, now := map["daily_auto_order" := DAILY_AUTO_ORDER], "daily_auto_order", AtTime(day, 12, 0);
    PastDeadline(day);
    s, actions := ForgottenMarkIsSentAgain(cfg, job, CutoffPoller, DayKey(day), now);
    var log := s.history[s.sends[1].cut..s.sends[1].decidedOn];
    forall i | 0 <= i < |log|
      ensures log[i].status == Retry
    {
      assert log[i] == s.history[s.sends[1].cut + i];
    }
    MissedDayIff(DAILY_AUTO_ORDER, true, false, {}, s.history[s.sends[0].cut..s.sends[0].decidedOn], job, boot0, now);
    MissedDayIff(DAILY_AUTO_ORDER, true, false, {}, log, job, boot1, now);
  }
}
