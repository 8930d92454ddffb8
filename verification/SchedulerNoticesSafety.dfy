/** Notices at most once: per process never twice for one period, and never again once a saved mark
    can still be seen. */
module SchedulerNoticesSafety {
  import opened Calendar
  import opened Collections
  import opened SchedulerEvents
  import opened SchedulerNotices
  import opened SchedulerTime
  import opened SchedulerVerdicts
  import opened Wrappers

  // ----- what is kept -----

  /** A decision was justified: every mark of the period that had been saved by then was cut from the
      log, and on the guarded paths there had been none at all. */
  predicate Justified(history: seq<Event>, job: string, period: PeriodKey, guarded: bool, decidedOn: nat, cut: nat) {
    && cut <= decidedOn <= |history|
    && forall i :: 0 <= i < decidedOn && Concerns(history[i], job, period) && history[i].status == CapNoticeSent ==>
         !guarded && i < cut
  }

  /** A notice on its way, decided by its job's own poller, not yet sent by this process. */
  predicate PendingFits(cfg: Configs, s: System, b: nat, p: Poller)
    requires b in s.processes && p in s.processes[b].pending
  {
    var process, n := s.processes[b], s.processes[b].pending[p];
    && n.job in cfg && Polls(p, cfg[n.job])
    && process.bootedOn <= n.decidedOn
    && (!n.isSent ==>
          && Distinct(n.periods)
          && (forall i :: 0 <= i < |n.periods| ==> (n.job, n.periods[i]) !in process.sent)
          && (forall i ::
              0 <= i < |n.periods| ==> Justified(s.history, n.job, n.periods[i], n.guarded, n.decidedOn, n.cut)))
  }

  predicate ProcessFits(cfg: Configs, s: System, b: nat)
    requires b in s.processes
  {
    && s.processes[b].bootedOn <= |s.history|
    && forall p :: p in s.processes[b].pending ==> PendingFits(cfg, s, b, p)
  }

  /** A message that went out is remembered by its process and was justified. */
  predicate SentFits(s: System, m: Sent) {
    && m.boot in s.processes && (m.job, m.period) in s.processes[m.boot].sent
    && s.processes[m.boot].bootedOn <= m.decidedOn
    && Justified(s.history, m.job, m.period, m.guarded, m.decidedOn, m.cut)
  }

  predicate SamePeriod(m: Sent, n: Sent) {
    m.boot == n.boot && m.job == n.job && m.period == n.period
  }

  predicate NoneTwice(sends: seq<Sent>) {
    forall i, j :: 0 <= i < j < |sends| ==> !SamePeriod(sends[i], sends[j])
  }

  ghost predicate LogInOrder(s: System) {
    && s.LogValid() && StampOrdered(s.history) && KeysBegun(s.history) && DayOf(s.now) >= FIRST_DAY
    && (s.history != [] ==> OrderStamp(s.history[|s.history| - 1]).value <= StampOf(s.now))
  }

  ghost predicate Kept(cfg: Configs, s: System) {
    && LogInOrder(s)
    && (forall b :: b in s.processes ==> ProcessFits(cfg, s, b))
    && (forall i :: 0 <= i < |s.sends| ==> SentFits(s, s.sends[i]))
    && NoneTwice(s.sends)
    && PeriodsBegun(s)
  }

  /** Periods on their way have begun, so that their marks may be stamped. */
  ghost predicate PeriodsBegun(s: System) {
    forall b, p :: b in s.processes && p in s.processes[b].pending ==>
      forall i :: 0 <= i < |s.processes[b].pending[p].periods| ==>
          BegunBy(s.processes[b].pending[p].periods[i], DayOf(s.now))
  }

  // ----- decisions are justified -----

  lemma UnreportedJustified(s: System, job: string, period: PeriodKey, sent: set<(string, PeriodKey)>)
    requires s.LogValid() && StillUnreported(sent, s.Log(), job, period)
    ensures Justified(s.history, job, period, false, |s.history|, s.cut)
  {
    forall i | 0 <= i < |s.history| && Concerns(s.history[i], job, period) && s.history[i].status == CapNoticeSent
      ensures i < s.cut
    {
      if i >= s.cut { MarkInLog(s, job, period, i); }
    }
  }

  lemma MarkInLog(s: System, job: string, period: PeriodKey, i: nat)
    requires s.LogValid() && s.cut <= i < |s.history|
    requires Concerns(s.history[i], job, period) && s.history[i].status == CapNoticeSent
    ensures HasMark(s.Log(), job, period)
  {
    assert s.Log()[i - s.cut] == s.history[i];
  }

  lemma NoMarkJustified(s: System, job: string, period: PeriodKey, guarded: bool)
    requires s.LogValid() && !HasMark(s.history, job, period)
    ensures Justified(s.history, job, period, guarded, |s.history|, s.cut)
  {
  }

  lemma PastDayJustified(s: System, job: string, days: seq<int>, sent: set<(string, PeriodKey)>, day: int)
    requires LogInOrder(s) && day in PastDaysWithoutSuccess(sent, s.Log(), job, days)
    ensures Justified(s.history, job, DayKey(day), true, |s.history|, s.cut)
  {
    StampOrderIsDayOrder(s.history);
    if HasMark(s.history, job, DayKey(day)) { NoFalseAlarmForDay(s.history, s.cut, job, day, sent, days); }
    NoMarkJustified(s, job, DayKey(day), true);
  }

  lemma WeekJustified(s: System, config: JobConfig, job: string, sent: set<(string, PeriodKey)>)
    requires LogInOrder(s) && EndedWeek(config, sent, s.Log(), job, DayOf(s.now)).Some?
    ensures
      var week := EndedWeek(config, sent, s.Log(), job, DayOf(s.now)).value;
      && Justified(s.history, job, week, true, |s.history|, s.cut)
      && StillUnreported(sent, s.Log(), job, week) && BegunBy(week, DayOf(s.now))
  {
    StampOrderIsDayOrder(s.history);
    var today := DayOf(s.now);
    var day := if WeekMissed(config, sent, s.Log(), job, today - 7, today) then today - 7 else today;
    var week := IsoWeekKey(day);
    if HasMark(s.history, job, week) { NoFalseAlarmForWeek(config, s.history, s.cut, job, day, today, sent); }
    NoMarkJustified(s, job, week, true);
    assert IsoWeekKey(day) == week;
  }

  /** Days without success are listed once if they were given once. */
  lemma {:induction false} PastDaysDistinct(sent: set<(string, PeriodKey)>, events: seq<Event>, job: string,
                                            days: seq<int>)
    requires Distinct(days)
    ensures Distinct(PastDaysWithoutSuccess(sent, events, job, days))
    ensures Distinct(DayKeys(PastDaysWithoutSuccess(sent, events, job, days)))
  {
    if days != [] {
      var shorter, d := days[..|days| - 1], days[|days| - 1];
      PastDaysDistinct(sent, events, job, shorter);
      var rest := PastDaysWithoutSuccess(sent, events, job, shorter);
      assert forall i :: 0 <= i < |rest| ==> rest[i] in rest;
    }
  }

  // ----- steps -----

  lemma JustifiedLater(history: seq<Event>, longer: seq<Event>, job: string, period: PeriodKey, guarded: bool,
                       decidedOn: nat, cut: nat)
    requires Justified(history, job, period, guarded, decidedOn, cut) && history <= longer
    ensures Justified(longer, job, period, guarded, decidedOn, cut)
  {
  }

  /** Fitting depends on the process itself and on what the history already had. */
  lemma ProcessFitsLater(cfg: Configs, s: System, r: System, b: nat)
    requires b in s.processes && b in r.processes && s.processes[b] == r.processes[b] && s.history <= r.history
    requires ProcessFits(cfg, s, b)
    ensures ProcessFits(cfg, r, b)
  {
    forall p | p in r.processes[b].pending
      ensures PendingFits(cfg, r, b, p)
    {
      assert PendingFits(cfg, s, b, p);
      var n := s.processes[b].pending[p];
      forall i | 0 <= i < |n.periods| && !n.isSent
        ensures Justified(r.history, n.job, n.periods[i], n.guarded, n.decidedOn, n.cut)
      {
        JustifiedLater(s.history, r.history, n.job, n.periods[i], n.guarded, n.decidedOn, n.cut);
      }
    }
  }

  lemma SentFitsLater(s: System, r: System, m: Sent)
    requires SentFits(s, m) && s.history <= r.history && m.boot in r.processes
    requires s.processes[m.boot].sent <= r.processes[m.boot].sent
              && r.processes[m.boot].bootedOn == s.processes[m.boot].bootedOn
    ensures SentFits(r, m)
  {
    JustifiedLater(s.history, r.history, m.job, m.period, m.guarded, m.decidedOn, m.cut);
  }

  lemma AppendInOrder(s: System, e: Event)
    requires LogInOrder(s) && OrderStamp(e) == Some(StampOf(s.now)) && BegunBy(e.period, DayOf(s.now))
    ensures LogInOrder(Append(s, e))
  {
    StampKeepsDay(s.now);
    AppendKeepsOrder(s.history, e, StampOf(s.now));
  }

  lemma TickKept(cfg: Configs, s: System, to: Instant)
    requires Kept(cfg, s) && to >= s.now
    ensures Kept(cfg, s.(now := to))
  {
    var r := s.(now := to);
    StampsAscend(s.now, to);
    forall b | b in r.processes
      ensures ProcessFits(cfg, r, b)
    {
      ProcessFitsLater(cfg, s, r, b);
    }
    forall b, p | b in r.processes && p in r.processes[b].pending
      ensures forall i ::
                0 <= i < |r.processes[b].pending[p].periods| ==>
                    BegunBy(r.processes[b].pending[p].periods[i], DayOf(to))
    {
      forall i | 0 <= i < |r.processes[b].pending[p].periods|
        ensures BegunBy(r.processes[b].pending[p].periods[i], DayOf(to))
      {
        BegunLater(s.processes[b].pending[p].periods[i], DayOf(s.now), DayOf(to));
      }
    }
    SendsLater(s, r);
  }

  /** Replace one process by another that fits and remembers no less. */
  lemma ProcessReplaced(cfg: Configs, s: System, r: System, b: nat)
    requires Kept(cfg, s) && LogInOrder(r) && s.history <= r.history && r.now == s.now && r.sends == s.sends
    requires b in r.processes && r.processes == s.processes[b := r.processes[b]]
    requires ProcessFits(cfg, r, b)
    requires b in s.processes ==>
              s.processes[b].sent <= r.processes[b].sent && r.processes[b].bootedOn == s.processes[b].bootedOn
    requires forall p :: p in r.processes[b].pending ==>
               forall i :: 0 <= i < |r.processes[b].pending[p].periods| ==>
                   BegunBy(r.processes[b].pending[p].periods[i], DayOf(s.now))
    ensures Kept(cfg, r)
  {
    forall c | c in r.processes
      ensures ProcessFits(cfg, r, c)
    {
      if c != b { ProcessFitsLater(cfg, s, r, c); }
    }
    SendsLater(s, r);
  }

  lemma SendsLater(s: System, r: System)
    requires forall i :: 0 <= i < |s.sends| ==> SentFits(s, s.sends[i])
    requires s.history <= r.history && r.sends == s.sends
    requires forall b :: b in s.processes ==>
               b in r.processes && s.processes[b].sent <= r.processes[b].sent
                   && r.processes[b].bootedOn == s.processes[b].bootedOn
    ensures forall i :: 0 <= i < |r.sends| ==> SentFits(r, r.sends[i])
  {
    forall i | 0 <= i < |r.sends|
      ensures SentFits(r, r.sends[i])
    {
      SentFitsLater(s, r, s.sends[i]);
    }
  }

  lemma OtherKept(cfg: Configs, s: System, e: Event)
    requires Kept(cfg, s) && OrderStamp(e) == Some(StampOf(s.now)) && BegunBy(e.period, DayOf(s.now))
    ensures Kept(cfg, Append(s, e))
  {
    var r := Append(s, e);
    AppendInOrder(s, e);
    forall b | b in r.processes
      ensures ProcessFits(cfg, r, b)
    {
      ProcessFitsLater(cfg, s, r, b);
    }
    SendsLater(s, r);
  }

  /** A decision of a free poller on periods that its process has not sent. */
  lemma DecidedKept(cfg: Configs, s: System, b: nat, p: Poller, job: string, periods: seq<PeriodKey>, guarded: bool)
    requires Kept(cfg, s) && Free(cfg, s, b, p, job) && Distinct(periods)
    requires forall i :: 0 <= i < |periods| ==>
               && (job, periods[i]) !in s.processes[b].sent && BegunBy(periods[i], DayOf(s.now))
               && Justified(s.history, job, periods[i], guarded, |s.history|, s.cut)
    ensures Kept(cfg, Decided(s, b, p, job, periods, guarded))
  {
    var r := Decided(s, b, p, job, periods, guarded);
    assert ProcessFits(cfg, s, b);
    forall q | q in r.processes[b].pending
      ensures PendingFits(cfg, r, b, q)
    {
      if q != p { assert PendingFits(cfg, s, b, q); }
    }
    ProcessReplaced(cfg, s, r, b);
  }

  lemma DroppedKept(cfg: Configs, s: System, b: nat, p: Poller)
    requires Kept(cfg, s) && b in s.processes
    ensures Kept(cfg, SetProcess(s, b, s.processes[b].(pending := s.processes[b].pending - {p})))
  {
    var r := SetProcess(s, b, s.processes[b].(pending := s.processes[b].pending - {p}));
    assert ProcessFits(cfg, s, b);
    forall q | q in r.processes[b].pending
      ensures PendingFits(cfg, r, b, q)
    {
      assert PendingFits(cfg, s, b, q);
    }
    ProcessReplaced(cfg, s, r, b);
  }

  /** Delivery: the process now remembers the periods; the notices of its other pollers are for other
      jobs, since each job has one poller. */
  lemma RememberedFits(cfg: Configs, s: System, r: System, b: nat, p: Poller)
    requires Kept(cfg, s) && b in s.processes && p in s.processes[b].pending && !s.processes[b].pending[p].isSent
    requires r == AfterSend(s, b, p, true)
    ensures ProcessFits(cfg, r, b)
  {
    var n := s.processes[b].pending[p];
    assert ProcessFits(cfg, s, b);
    assert PendingFits(cfg, s, b, p);
    forall q | q in r.processes[b].pending
      ensures PendingFits(cfg, r, b, q)
    {
      assert PendingFits(cfg, s, b, q);
      if q != p {
        var m := s.processes[b].pending[q];
        OnePollerEach(cfg[n.job], p, q);
        assert m.job != n.job;
      }
    }
  }

  lemma MessagesFit(cfg: Configs, s: System, r: System, b: nat, p: Poller)
    requires Kept(cfg, s) && b in s.processes && p in s.processes[b].pending && !s.processes[b].pending[p].isSent
    requires r == AfterSend(s, b, p, true)
    ensures forall i :: 0 <= i < |r.sends| ==> SentFits(r, r.sends[i])
    ensures NoneTwice(r.sends)
  {
    var n := s.processes[b].pending[p];
    var messages := Messages(b, n);
    assert ProcessFits(cfg, s, b);
    assert PendingFits(cfg, s, b, p);
    forall i | 0 <= i < |r.sends|
      ensures SentFits(r, r.sends[i])
    {
      if i < |s.sends| {
        SentFitsLater(s, r, s.sends[i]);
      } else {
        assert r.sends[i] == messages[i - |s.sends|];
      }
    }
    forall i, j | 0 <= i < j < |r.sends|
      ensures !SamePeriod(r.sends[i], r.sends[j])
    {
      if j >= |s.sends| {
        assert r.sends[j] == messages[j - |s.sends|];
        if i < |s.sends| { assert SentFits(s, s.sends[i]); }
      }
    }
  }

  lemma SendKept(cfg: Configs, s: System, b: nat, p: Poller)
    requires Kept(cfg, s) && b in s.processes && p in s.processes[b].pending && !s.processes[b].pending[p].isSent
    ensures Kept(cfg, AfterSend(s, b, p, true))
  {
    var r := AfterSend(s, b, p, true);
    RememberedFits(cfg, s, r, b, p);
    MessagesFit(cfg, s, r, b, p);
    forall c | c in r.processes
      ensures ProcessFits(cfg, r, c)
    {
      if c != b { ProcessFitsLater(cfg, s, r, c); }
    }
  }

  /** The mark of the first period is saved, and others are left. */
  lemma AdvancedKept(cfg: Configs, s: System, b: nat, p: Poller)
    requires Kept(cfg, s) && b in s.processes && p in s.processes[b].pending && s.processes[b].pending[p].isSent
    requires s.processes[b].pending[p].periods != []
    ensures
      var process, n := s.processes[b], s.processes[b].pending[p];
      Kept(cfg, SetProcess(s, b, process.(pending := process.pending[p := n.(periods := n.periods[1..])])))
  {
    hide SentFits, NoneTwice, Justified;
    var process, n := s.processes[b], s.processes[b].pending[p];
    var r := SetProcess(s, b, process.(pending := process.pending[p := n.(periods := n.periods[1..])]));
    assert ProcessFits(cfg, s, b);
    forall q | q in r.processes[b].pending
      ensures PendingFits(cfg, r, b, q)
    {
      assert PendingFits(cfg, s, b, q);
    }
    ProcessReplaced(cfg, s, r, b);
  }

  lemma RecordKept(cfg: Configs, s: System, b: nat, p: Poller)
    requires Kept(cfg, s) && b in s.processes && p in s.processes[b].pending && s.processes[b].pending[p].isSent
    requires s.processes[b].pending[p].periods != []
    ensures Kept(cfg, AfterRecord(s, b, p, true))
  {
    hide LogInOrder, ProcessFits, SentFits, NoneTwice;
    var n := s.processes[b].pending[p];
    var e := MarkEvent(s.now, n.job, n.periods[0]);
    OtherKept(cfg, s, e);
    if |n.periods| == 1 {
      DroppedKept(cfg, Append(s, e), b, p);
    } else {
      AdvancedKept(cfg, Append(s, e), b, p);
    }
  }

  lemma StepKept(cfg: Configs, s: System, a: Action)
    requires Kept(cfg, s) && Enabled(cfg, s, a)
    ensures Kept(cfg, Apply(cfg, s, a))
  {
    match a
    case Tick(to) => TickKept(cfg, s, to);
    case Boot(b) => ProcessReplaced(cfg, s, Apply(cfg, s, a), b);
    case Crash(b) => CrashKept(cfg, s, b);
    case Other(e) => OtherKept(cfg, s, e);
    case DecideCurrent(b, p, job, period) =>
      UnreportedJustified(s, job, period, s.processes[b].sent);
      DecidedKept(cfg, s, b, p, job, [period], false);
    case DecideWeek(b, p, job) =>
      WeekJustified(s, cfg[job], job, s.processes[b].sent);
      DecidedKept(cfg, s, b, p, job, [EndedWeek(cfg[job], s.processes[b].sent, s.Log(), job, DayOf(s.now)).value],
                  true);
    case DecideDays(b, p, job, days) => DaysKept(cfg, s, b, p, job, days);
    case Send(b, p, delivered) => if delivered { SendKept(cfg, s, b, p); } else { DroppedKept(cfg, s, b, p); }
    case Record(b, p, saved) => if saved { RecordKept(cfg, s, b, p); } else { DroppedKept(cfg, s, b, p); }
  }

  lemma CrashKept(cfg: Configs, s: System, b: nat)
    requires Kept(cfg, s) && b in s.processes
    ensures Kept(cfg, SetProcess(s, b, s.processes[b].(alive := false)))
  {
    var r := SetProcess(s, b, s.processes[b].(alive := false));
    assert ProcessFits(cfg, s, b);
    forall q | q in r.processes[b].pending
      ensures PendingFits(cfg, r, b, q)
    {
      assert PendingFits(cfg, s, b, q);
    }
    ProcessReplaced(cfg, s, r, b);
  }

  lemma DaysKept(cfg: Configs, s: System, b: nat, p: Poller, job: string, days: seq<int>)
    requires Kept(cfg, s) && Free(cfg, s, b, p, job) && Distinct(days) && forall d :: d in days ==> d < DayOf(s.now)
    ensures Kept(cfg,
                 Decided(s, b, p, job, DayKeys(PastDaysWithoutSuccess(s.processes[b].sent, s.Log(), job, days)), true))
  {
    var sent := s.processes[b].sent;
    var missed := PastDaysWithoutSuccess(sent, s.Log(), job, days);
    PastDaysDistinct(sent, s.Log(), job, days);
    forall i | 0 <= i < |missed|
      ensures (job, DayKey(missed[i])) !in sent && BegunBy(DayKey(missed[i]), DayOf(s.now))
      ensures Justified(s.history, job, DayKey(missed[i]), true, |s.history|, s.cut)
    {
      assert missed[i] in missed;
      PastDayJustified(s, job, days, sent, missed[i]);
    }
    DecidedKept(cfg, s, b, p, job, DayKeys(missed), true);
  }

  // ----- every run -----

  lemma {:induction false} EveryRunKept(cfg: Configs, s: System, actions: seq<Action>, start: Instant)
    requires ReachableBy(cfg, s, actions, start)
    ensures Kept(cfg, s)
    decreases |actions|
  {
    if actions != [] {
      var before: System :| ReachableBy(cfg, before, actions[..|actions| - 1], start)
        && before.LogValid() && DayOf(before.now) >= FIRST_DAY
        && Enabled(cfg, before, actions[|actions| - 1]) && s == Apply(cfg, before, actions[|actions| - 1]);
      EveryRunKept(cfg, before, actions[..|actions| - 1], start);
      StepKept(cfg, before, actions[|actions| - 1]);
    }
  }

  /** In every run: no process sends twice for one job and period, although a job's missed days and its
      current day are looked at on different paths; and no message goes out while a saved mark of its
      period can be seen, on the guarded paths not even when the mark has been cut from the log. */
  lemma NoticesAtMostOnce(cfg: Configs, s: System, actions: seq<Action>, start: Instant, i: nat, j: nat)
    requires ReachableBy(cfg, s, actions, start) && i < j < |s.sends|
    ensures !SamePeriod(s.sends[i], s.sends[j])
  {
    EveryRunKept(cfg, s, actions, start);
  }

  /** A process that booted after a mark was saved sends for that period again only if it is the current
      period of an unguarded path and the mark had been cut from the log by then. */
  lemma NoNoticeAfterSavedMark(cfg: Configs, s: System, actions: seq<Action>, start: Instant, k: nat, i: nat)
    requires ReachableBy(cfg, s, actions, start) && k < |s.sends| && i < |s.history|
    requires Concerns(s.history[i], s.sends[k].job, s.sends[k].period) && s.history[i].status == CapNoticeSent
    ensures s.sends[k].boot in s.processes
    ensures i < s.processes[s.sends[k].boot].bootedOn ==> !s.sends[k].guarded && i < s.sends[k].cut
  {
    EveryRunKept(cfg, s, actions, start);
    assert SentFits(s, s.sends[k]);
  }
}
