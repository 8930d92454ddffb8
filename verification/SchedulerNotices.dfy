/** Notices of missed periods as a protocol: three pollers a process look at the log, send a message
    and save a mark, while anything else is appended around them and processes boot and crash. */
module SchedulerNotices {
  import opened Calendar
  import opened Collections
  import opened SchedulerEvents
  import opened SchedulerTime
  import opened SchedulerVerdicts
  import opened Wrappers

  type Configs = map<string, JobConfig>

  // ----- the three pollers -----

  datatype Poller = PlainPoller | CutoffPoller | LongPoller

  /** The job filter of a poll: with or without a deadline, long or not, None for either. */
  predicate Selects(config: JobConfig, withCutoff: Option<bool>, longRecovery: Option<bool>) {
    && config.autoSchedule
    && (withCutoff.Some? ==> config.recoveryUntil.Some? == withCutoff.value)
    && (longRecovery.Some? ==> config.longRecovery == longRecovery.value)
  }

  /** The filters that the three pollers are registered with. */
  predicate Polls(p: Poller, config: JobConfig) {
    match p
    case PlainPoller => Selects(config, Some(false), Some(false))
    case CutoffPoller => Selects(config, Some(true), None)
    case LongPoller => Selects(config, Some(false), Some(true))
  }

  /** Each auto-scheduled job belongs to exactly one poller. */
  lemma OnePollerEach(config: JobConfig, p: Poller, q: Poller)
    ensures Polls(p, config) && Polls(q, config) ==> p == q
    ensures config.autoSchedule <==>
              Polls(PlainPoller, config) || Polls(CutoffPoller, config) || Polls(LongPoller, config)
  {
  }

  /** One poll: the selected jobs in the order they are recovered, those with a deadline first. */
  method PollOrder(jobs: seq<(string, JobConfig)>, withCutoff: Option<bool>, longRecovery: Option<bool>)
    returns (polled: seq<string>)
    ensures polled == Picked(jobs, withCutoff, longRecovery, true) + Picked(jobs, withCutoff, longRecovery, false)
  {
    polled := [];
    var later := [];
    for n := 0 to |jobs|
      invariant polled == Picked(jobs[..n], withCutoff, longRecovery, true)
      invariant later == Picked(jobs[..n], withCutoff, longRecovery, false)
    {
      assert jobs[..n + 1][..n] == jobs[..n];
      var (job, config) := jobs[n];
      if Selects(config, withCutoff, longRecovery) {
        if config.recoveryUntil.Some? {
          polled := polled + [job];
        } else {
          later := later + [job];
        }
      }
    }
    assert jobs[..|jobs|] == jobs;
    polled := polled + later;
  }

  /** The selected jobs with, or without, a deadline in their configured order. */
  function Picked(jobs: seq<(string, JobConfig)>, withCutoff: Option<bool>, longRecovery: Option<bool>,
                  deadline: bool): seq<string> {
    if jobs == [] then []
    else
      var (job, config) := jobs[|jobs| - 1];
      Picked(jobs[..|jobs| - 1], withCutoff, longRecovery, deadline)
      + (if Selects(config, withCutoff, longRecovery) && config.recoveryUntil.Some? == deadline then [job] else [])
  }

  predicate InGroup(config: JobConfig, withCutoff: Option<bool>, longRecovery: Option<bool>, deadline: bool) {
    Selects(config, withCutoff, longRecovery) && config.recoveryUntil.Some? == deadline
  }

  /** A job is visited in a group exactly when the poll selects it there. */
  lemma {:induction false} PickedAre(jobs: seq<(string, JobConfig)>, withCutoff: Option<bool>,
                                     longRecovery: Option<bool>, deadline: bool, job: string)
    ensures job in Picked(jobs, withCutoff, longRecovery, deadline) <==>
              exists i :: 0 <= i < |jobs| && jobs[i].0 == job && InGroup(jobs[i].1, withCutoff, longRecovery, deadline)
  {
    if jobs != [] {
      var shorter, last := jobs[..|jobs| - 1], |jobs| - 1;
      PickedAre(shorter, withCutoff, longRecovery, deadline, job);
      assert forall i :: 0 <= i < |shorter| ==> jobs[i] == shorter[i];
      if jobs[last].0 == job && InGroup(jobs[last].1, withCutoff, longRecovery, deadline) {
        assert job in Picked(jobs, withCutoff, longRecovery, deadline);
      }
    }
  }

  /** The jobs of a group keep their configured order. */
  lemma {:induction false} PickedInOrder(jobs: seq<(string, JobConfig)>, withCutoff: Option<bool>,
                                         longRecovery: Option<bool>, deadline: bool)
    ensures InOrderOf(Picked(jobs, withCutoff, longRecovery, deadline), Names(jobs))
  {
    if jobs != [] {
      var shorter := jobs[..|jobs| - 1];
      var (job, config) := jobs[|jobs| - 1];
      PickedInOrder(shorter, withCutoff, longRecovery, deadline);
      OneMoreName(jobs);
      var part := Picked(shorter, withCutoff, longRecovery, deadline);
      if InGroup(config, withCutoff, longRecovery, deadline) {
        assert (part + [job])[..|part|] == part;
      } else {
        assert part + [] == part;
      }
    }
  }

  lemma OneMoreName(jobs: seq<(string, JobConfig)>)
    requires jobs != []
    ensures Names(jobs)[..|jobs| - 1] == Names(jobs[..|jobs| - 1]) && Names(jobs)[|jobs| - 1] == jobs[|jobs| - 1].0
  {
  }

  function Names(jobs: seq<(string, JobConfig)>): (r: seq<string>)
    ensures |r| == |jobs|
  {
    seq(|jobs|, i requires 0 <= i < |jobs| => jobs[i].0)
  }

  /** What is left of a list when some of its elements are dropped. */
  predicate InOrderOf(part: seq<string>, whole: seq<string>) {
    if part == [] then true
    else if whole == [] then false
    else
      var rest := whole[..|whole| - 1];
      (part[|part| - 1] == whole[|whole| - 1] && InOrderOf(part[..|part| - 1], rest)) || InOrderOf(part, rest)
  }

  // ----- the protocol -----

  /** A notice on its way: decided on the first `decidedOn` events with `cut` of them gone; `guarded`
      if only periods after the oldest retained day were looked at. */
  datatype Pending = Pending(job: string, periods: seq<PeriodKey>, guarded: bool, decidedOn: nat, cut: nat,
                             isSent: bool)

  datatype Process = Process(bootedOn: nat, alive: bool, sent: set<(string, PeriodKey)>, pending: map<Poller, Pending>)

  /** A message that went out. */
  datatype Sent = Sent(boot: nat, job: string, period: PeriodKey, guarded: bool, decidedOn: nat, cut: nat)

  datatype System = System(now: Instant, history: seq<Event>, cut: nat, processes: map<nat, Process>,
                           sends: seq<Sent>) {
    predicate LogValid() {
      cut <= |history|
    }

    function Log(): seq<Event>
      requires LogValid()
    {
      history[cut..]
    }
  }

  datatype Action =
    | Tick(to: Instant)
    | Boot(boot: nat)
    | Crash(boot: nat)
    | Other(event: Event)
    | DecideCurrent(boot: nat, poller: Poller, job: string, period: PeriodKey)
    | DecideWeek(boot: nat, poller: Poller, job: string)
    | DecideDays(boot: nat, poller: Poller, job: string, days: seq<int>)
    | Send(boot: nat, poller: Poller, delivered: bool)
    | Record(boot: nat, poller: Poller, saved: bool)

  function Initial(now: Instant): System {
    System(now, [], 0, map[], [])
  }

  predicate Free(cfg: Configs, s: System, b: nat, p: Poller, job: string) {
    b in s.processes && s.processes[b].alive && p !in s.processes[b].pending && job in cfg && Polls(p, cfg[job])
  }

  ghost predicate Enabled(cfg: Configs, s: System, a: Action)
    requires s.LogValid() && DayOf(s.now) >= FIRST_DAY
  {
    match a
    case Tick(to) => to >= s.now
    case Boot(b) => b !in s.processes
    case Crash(b) => b in s.processes && s.processes[b].alive
    case Other(e) => OrderStamp(e) == Some(StampOf(s.now)) && BegunBy(e.period, DayOf(s.now))
        && e.status != CapNoticeSent
    case DecideCurrent(b, p, job, period) =>
      Free(cfg, s, b, p, job) && BegunBy(period, DayOf(s.now))
          && StillUnreported(s.processes[b].sent, s.Log(), job, period)
    case DecideWeek(b, p, job) =>
      Free(cfg, s, b, p, job) && EndedWeek(cfg[job], s.processes[b].sent, s.Log(), job, DayOf(s.now)).Some?
    case DecideDays(b, p, job, days) =>
      && Free(cfg, s, b, p, job) && Distinct(days) && (forall d :: d in days ==> d < DayOf(s.now))
      && PastDaysWithoutSuccess(s.processes[b].sent, s.Log(), job, days) != []
    case Send(b, p, _) => b in s.processes && s.processes[b].alive && p in s.processes[b].pending
        && !s.processes[b].pending[p].isSent
    case Record(b, p, _) =>
      b in s.processes && s.processes[b].alive && p in s.processes[b].pending && s.processes[b].pending[p].isSent
      && s.processes[b].pending[p].periods != []
  }

  function Append(s: System, e: Event): (r: System)
    requires s.LogValid()
    ensures r.LogValid() && r.history == s.history + [e] && s.cut <= r.cut <= |s.history|
    ensures r.Log() == Appended(s.Log(), e)
  {
    var log := Appended(s.Log(), e);
    assert s.history + [e] == s.history[..s.cut] + (s.Log() + [e]);
    s.(history := s.history + [e], cut := |s.history| + 1 - |log|)
  }

  function SetProcess(s: System, b: nat, p: Process): System {
    s.(processes := s.processes[b := p])
  }

  function Decided(s: System, b: nat, p: Poller, job: string, periods: seq<PeriodKey>, guarded: bool): System
    requires b in s.processes
  {
    var process := s.processes[b];
    SetProcess(s, b,
               process.(pending := process.pending[p := Pending(job, periods, guarded, |s.history|, s.cut, false)]))
  }

  function Messages(b: nat, n: Pending): (r: seq<Sent>)
    ensures |r| == |n.periods|
    ensures forall i :: 0 <= i < |r| ==> r[i] == Sent(b, n.job, n.periods[i], n.guarded, n.decidedOn, n.cut)
  {
    seq(|n.periods|, i requires 0 <= i < |n.periods| => Sent(b, n.job, n.periods[i], n.guarded, n.decidedOn, n.cut))
  }

  /** A delivered message is remembered at once for all its periods; an undelivered one is forgotten. */
  function AfterSend(s: System, b: nat, p: Poller, delivered: bool): System
    requires b in s.processes && p in s.processes[b].pending
  {
    var process, n := s.processes[b], s.processes[b].pending[p];
    if delivered then
      SetProcess(s, b,
                 process.(sent := process.sent + Marks(n.job, n.periods),
                          pending := process.pending[p := n.(isSent := true)]))
        .(sends := s.sends + Messages(b, n))
    else SetProcess(s, b, process.(pending := process.pending - {p}))
  }

  /** Save the mark of the next period; a failure to save gives up the rest. */
  function AfterRecord(s: System, b: nat, p: Poller, saved: bool): System
    requires s.LogValid() && b in s.processes && p in s.processes[b].pending && s.processes[b].pending[p].periods != []
  {
    var process, n := s.processes[b], s.processes[b].pending[p];
    if saved then
      var rest := if |n.periods| == 1 then process.pending - {p}
          else process.pending[p := n.(periods := n.periods[1..])];
      SetProcess(Append(s, MarkEvent(s.now, n.job, n.periods[0])), b, process.(pending := rest))
    else SetProcess(s, b, process.(pending := process.pending - {p}))
  }

  ghost function Apply(cfg: Configs, s: System, a: Action): (r: System)
    requires s.LogValid() && DayOf(s.now) >= FIRST_DAY && Enabled(cfg, s, a)
    ensures r.LogValid() && s.now <= r.now
  {
    match a
    case Tick(to) => s.(now := to)
    case Boot(b) => SetProcess(s, b, Process(|s.history|, true, {}, map[]))
    case Crash(b) => SetProcess(s, b, s.processes[b].(alive := false))
    case Other(e) => Append(s, e)
    case DecideCurrent(b, p, job, period) => Decided(s, b, p, job, [period], false)
    case DecideWeek(b, p, job) =>
      Decided(s, b, p, job, [EndedWeek(cfg[job], s.processes[b].sent, s.Log(), job, DayOf(s.now)).value], true)
    case DecideDays(b, p, job, days) =>
      Decided(s, b, p, job, DayKeys(PastDaysWithoutSuccess(s.processes[b].sent, s.Log(), job, days)), true)
    case Send(b, p, delivered) => AfterSend(s, b, p, delivered)
    case Record(b, p, saved) => AfterRecord(s, b, p, saved)
  }

  ghost predicate ReachableBy(cfg: Configs, s: System, actions: seq<Action>, start: Instant)
    decreases |actions|
  {
    DayOf(start) >= FIRST_DAY &&
    if actions == [] then s == Initial(start)
    else exists before: System ::
      && ReachableBy(cfg, before, actions[..|actions| - 1], start)
      && before.LogValid() && DayOf(before.now) >= FIRST_DAY
      && Enabled(cfg, before, actions[|actions| - 1]) && s == Apply(cfg, before, actions[|actions| - 1])
  }

  /** The decisions of the source are decisions of the protocol: each path only reports unreported
      periods, and the guarded ones only after the oldest retained day. */
  lemma SourceDecisions(config: JobConfig, isBusinessDay: bool, running: bool, sent: set<(string, PeriodKey)>,
                        events: seq<Event>, job: string, boot: BootMark, now: Instant)
    requires config.Valid() && DayOf(now) >= FIRST_DAY && config.hour.Some? && config.minute.Some?
    ensures
      var capped := CappedPeriod(config, running, sent, events, job, boot, now);
      var missed := MissedDay(config, isBusinessDay, running, sent, events, job, boot, now);
      && (capped.Some? ==>
          !running && StillUnreported(sent, events, job, capped.value) && BegunBy(capped.value, DayOf(now))
                           && AtLimit(config, events, job, capped.value, boot))
      && (missed.Some? ==>
          !running && isBusinessDay && StillUnreported(sent, events, job, missed.value)
              && BegunBy(missed.value, DayOf(now)))
  {
    PeriodBegun(config, now);
  }
}
