/** The scheduler's event log and the verdicts read off it: how often a job ran in a period, which
    runs were interrupted, whether one succeeded, and whether a failed run is too recent. */
module SchedulerEvents {
  import opened Collections
  import opened Wrappers

  /** Whole seconds since the epoch, the resolution of the recorded stamps. */
  type Stamp = int

  datatype Status = Started | Success | Error | Retry | SkippedLimit | CapNoticeSent

  /** A day by its ordinal, an ISO week by year and number, a month by year and number. */
  datatype PeriodKey = DayKey(day: int) | WeekKey(year: int, week: int) | MonthKey(year: int, month: int)

  datatype Event = Event(job: string, period: PeriodKey, status: Status, runId: Option<nat>, bootId: Option<nat>,
                         startedAt: Option<Stamp>, finishedAt: Option<Stamp>, timestamp: Option<Stamp>,
                         skipRecoveryGap: bool)

  const MAX_EVENTS := 5000
  const DEFAULT_FORGIVEN_INTERRUPTIONS := 1

  predicate Concerns(e: Event, job: string, period: PeriodKey) {
    e.job == job && e.period == period
  }

  /** Append, then cut the log to its newest MAX_EVENTS events. */
  function Appended(log: seq<Event>, e: Event): (r: seq<Event>)
    ensures 0 < |r| <= MAX_EVENTS && r[|r| - 1] == e
    ensures |r| <= |log| + 1 && r == (log + [e])[|log| + 1 - |r|..]
  {
    var longer := log + [e];
    if |longer| > MAX_EVENTS then longer[|longer| - MAX_EVENTS..] else longer
  }

  // ----- counting runs -----

  /** Number of success and error records of the period. */
  function FinishCount(events: seq<Event>, job: string, period: PeriodKey): nat {
    if events == [] then 0
    else
      var e := events[|events| - 1];
      FinishCount(events[..|events| - 1], job, period)
      + (if Concerns(e, job, period) && (e.status == Success || e.status == Error) then 1 else 0)
  }

  predicate FinishesRun(e: Event, job: string, period: PeriodKey) {
    Concerns(e, job, period) && (e.status == Success || e.status == Error) && e.runId.Some?
  }

  predicate StartsRun(e: Event, job: string, period: PeriodKey) {
    Concerns(e, job, period) && e.status == Started && e.runId.Some?
  }

  function FinishedIds(events: seq<Event>, job: string, period: PeriodKey): set<nat> {
    if events == [] then {}
    else
      var e := events[|events| - 1];
      FinishedIds(events[..|events| - 1], job, period) + (if FinishesRun(e, job, period) then {e.runId.value} else {})
  }

  function StartedIds(events: seq<Event>, job: string, period: PeriodKey): set<nat> {
    if events == [] then {}
    else
      var e := events[|events| - 1];
      StartedIds(events[..|events| - 1], job, period) + (if StartsRun(e, job, period) then {e.runId.value} else {})
  }

  /** The first start record of a run. */
  function FirstStart(events: seq<Event>, job: string, period: PeriodKey, id: nat): (e: Event)
    requires id in StartedIds(events, job, period)
    ensures StartsRun(e, job, period) && e.runId == Some(id)
    ensures e in events
  {
    var shorter := events[..|events| - 1];
    if id in StartedIds(shorter, job, period) then FirstStart(shorter, job, period, id) else events[|events| - 1]
  }

  /** Runs with a start record and no end record. */
  function OpenIds(events: seq<Event>, job: string, period: PeriodKey): set<nat> {
    StartedIds(events, job, period) - FinishedIds(events, job, period)
  }

  /** A start record of another boot, from a second before this boot's. */
  predicate FromEarlierBoot(e: Event, bootId: nat, bootedAt: Stamp) {
    e.bootId.Some? && e.bootId.value != bootId && e.startedAt.Some? && e.startedAt.value < bootedAt
  }

  /** The open runs that a process takes for interrupted. */
  function InterruptedIds(events: seq<Event>, job: string, period: PeriodKey, bootId: nat, bootedAt: Stamp): set<nat> {
    set id | id in OpenIds(events, job, period)
        && FromEarlierBoot(FirstStart(events, job, period, id), bootId, bootedAt)
  }

  function Min(a: nat, b: nat): nat { if a <= b then a else b }

  /** The execution count: all recorded ends and all open runs, less the forgiven interrupted ones. */
  function ExecutionCount(events: seq<Event>, job: string, period: PeriodKey, bootId: nat, bootedAt: Stamp,
                          rerunIfInterrupted: bool, maxForgiven: nat): int
  {
    FinishCount(events, job, period) + |OpenIds(events, job, period)|
    - (if rerunIfInterrupted then Min(|InterruptedIds(events, job, period, bootId, bootedAt)|, maxForgiven) else 0)
  }

  /** The collected starts after one more event: a run's first start record is kept. */
  function CollectStart(started: map<nat, Event>, e: Event, job: string, period: PeriodKey): map<nat, Event> {
    if StartsRun(e, job, period) && e.runId.value !in started then started[e.runId.value := e] else started
  }

  /** `started` maps every started run of the events to its first start record. */
  ghost predicate CollectsStarts(events: seq<Event>, job: string, period: PeriodKey, started: map<nat, Event>) {
    && started.Keys == StartedIds(events, job, period)
    && forall id :: id in started ==> started[id] == FirstStart(events, job, period, id)
  }

  lemma CollectOneMore(events: seq<Event>, n: nat, job: string, period: PeriodKey, started: map<nat, Event>)
    requires n < |events| && CollectsStarts(events[..n], job, period, started)
    ensures CollectsStarts(events[..n + 1], job, period, CollectStart(started, events[n], job, period))
  {
    assert events[..n + 1][..n] == events[..n];
  }

  /** `order` lists the keys of the map, each once. */
  ghost predicate ListsKeys(order: seq<nat>, started: map<nat, Event>) {
    Distinct(order) && forall id :: id in order <==> id in started
  }

  /** The first loop of the source: over the events of the period, collecting the start records in
      the order of their first appearance, the ended runs, and the number of ends. */
  method CollectRuns(events: seq<Event>, job: string, period: PeriodKey)
    returns (count: nat, startedEvents: map<nat, Event>, order: seq<nat>, finished: set<nat>)
    ensures count == FinishCount(events, job, period)
    ensures finished == FinishedIds(events, job, period)
    ensures CollectsStarts(events, job, period, startedEvents)
    ensures ListsKeys(order, startedEvents)
  {
    count := 0;
    startedEvents := map[];
    order := [];
    finished := {};
    for n := 0 to |events|
      invariant count == FinishCount(events[..n], job, period)
      invariant finished == FinishedIds(events[..n], job, period)
      invariant CollectsStarts(events[..n], job, period, startedEvents)
      invariant ListsKeys(order, startedEvents)
    {
      var e := events[n];
      assert events[..n + 1][..n] == events[..n];
      CollectOneMore(events, n, job, period, startedEvents);
      if Concerns(e, job, period) {
        if e.status == Success || e.status == Error {
          count := count + 1;
          if e.runId.Some? {
            finished := finished + {e.runId.value};
          }
        } else if e.status == Started && e.runId.Some? && e.runId.value !in startedEvents {
          startedEvents := startedEvents[e.runId.value := e];
          order := order + [e.runId.value];
        }
      }
    }
    assert events[..|events|] == events;
  }

  /** Of the listed starts, those that no end belongs to. */
  function OpenAmong(order: seq<nat>, finished: set<nat>): set<nat> {
    if order == [] then {}
    else
      var id := order[|order| - 1];
      OpenAmong(order[..|order| - 1], finished) + (if id in finished then {} else {id})
  }

  /** Of those, the ones of an earlier boot. */
  function LostAmong(order: seq<nat>, finished: set<nat>, startedEvents: map<nat, Event>, bootId: nat,
                     bootedAt: Stamp): (r: seq<nat>)
    requires forall id :: id in order ==> id in startedEvents
    ensures forall x :: x in r ==> x in order
  {
    if order == [] then []
    else
      var id := order[|order| - 1];
      LostAmong(order[..|order| - 1], finished, startedEvents, bootId, bootedAt)
      + (if id !in finished && FromEarlierBoot(startedEvents[id], bootId, bootedAt) then [id] else [])
  }

  lemma {:induction false} OpenAmongIs(order: seq<nat>, finished: set<nat>)
    ensures forall id :: id in OpenAmong(order, finished) <==> id in order && id !in finished
  {
    if order != [] {
      OpenAmongIs(order[..|order| - 1], finished);
      assert order == order[..|order| - 1] + [order[|order| - 1]];
    }
  }

  /** The interrupted starts as a set. */
  function LostSet(order: seq<nat>, finished: set<nat>, startedEvents: map<nat, Event>, bootId: nat,
                   bootedAt: Stamp): set<nat> {
    set id | id in order && id in startedEvents && id !in finished
        && FromEarlierBoot(startedEvents[id], bootId, bootedAt)
  }

  lemma {:induction false} LostAmongIs(order: seq<nat>, finished: set<nat>, startedEvents: map<nat, Event>,
                                       bootId: nat, bootedAt: Stamp)
    requires Distinct(order) && forall id :: id in order ==> id in startedEvents
    ensures |LostAmong(order, finished, startedEvents, bootId, bootedAt)|
              == |LostSet(order, finished, startedEvents, bootId, bootedAt)|
    ensures forall id :: id in LostAmong(order, finished, startedEvents, bootId, bootedAt)
                         <==> id in LostSet(order, finished, startedEvents, bootId, bootedAt)
  {
    if order == [] {
      assert LostSet(order, finished, startedEvents, bootId, bootedAt) == {};
    } else {
      var shorter, last := order[..|order| - 1], order[|order| - 1];
      LostAmongIs(shorter, finished, startedEvents, bootId, bootedAt);
      assert order == shorter + [last];
      LostSetStep(shorter, last, finished, startedEvents, bootId, bootedAt);
    }
  }

  lemma LostSetStep(shorter: seq<nat>, last: nat, finished: set<nat>, startedEvents: map<nat, Event>, bootId: nat,
                    bootedAt: Stamp)
    requires last !in shorter && last in startedEvents
    ensures
      var before, lost := LostSet(shorter, finished, startedEvents, bootId, bootedAt), last !in finished
          && FromEarlierBoot(startedEvents[last], bootId, bootedAt);
      && last !in before
      && LostSet(shorter + [last], finished, startedEvents, bootId, bootedAt) == before + (if lost then {last} else {})
  {
  }

  /** The second loop: how many collected starts are open, and which of them were interrupted. */
  method CountOpen(startedEvents: map<nat, Event>, order: seq<nat>, finished: set<nat>, bootId: nat, bootedAt: Stamp)
    returns (count: nat, interrupted: seq<nat>)
    requires forall id :: id in order ==> id in startedEvents
    requires Distinct(order)
    ensures count == |OpenAmong(order, finished)|
    ensures interrupted == LostAmong(order, finished, startedEvents, bootId, bootedAt)
  {
    count := 0;
    interrupted := [];
    for n := 0 to |order|
      invariant count == |OpenAmong(order[..n], finished)|
      invariant interrupted == LostAmong(order[..n], finished, startedEvents, bootId, bootedAt)
    {
      assert order[..n + 1][..n] == order[..n];
      if order[n] !in finished {
        OpenAmongIs(order[..n], finished);
        count := count + 1;
        if FromEarlierBoot(startedEvents[order[n]], bootId, bootedAt) {
          interrupted := interrupted + [order[n]];
        }
      }
    }
    assert order[..|order|] == order;
  }

  lemma CollectedOpen(events: seq<Event>, job: string, period: PeriodKey, order: seq<nat>, started: map<nat, Event>)
    requires CollectsStarts(events, job, period, started) && ListsKeys(order, started)
    ensures OpenAmong(order, FinishedIds(events, job, period)) == OpenIds(events, job, period)
  {
    OpenAmongIs(order, FinishedIds(events, job, period));
  }

  lemma CollectedLost(events: seq<Event>, job: string, period: PeriodKey, order: seq<nat>, started: map<nat, Event>,
                      bootId: nat, bootedAt: Stamp)
    requires CollectsStarts(events, job, period, started) && ListsKeys(order, started)
    ensures LostSet(order, FinishedIds(events, job, period), started, bootId, bootedAt)
            == InterruptedIds(events, job, period, bootId, bootedAt)
  {
  }

  lemma CollectedCounts(events: seq<Event>, job: string, period: PeriodKey, order: seq<nat>, started: map<nat, Event>,
                        bootId: nat, bootedAt: Stamp, open: nat, lost: seq<nat>)
    requires CollectsStarts(events, job, period, started) && ListsKeys(order, started)
    requires open == |OpenAmong(order, FinishedIds(events, job, period))|
    requires (forall id :: id in order ==> id in started)
             && lost == LostAmong(order, FinishedIds(events, job, period), started, bootId, bootedAt)
    ensures open == |OpenIds(events, job, period)|
    ensures |lost| == |InterruptedIds(events, job, period, bootId, bootedAt)|
    ensures forall id :: id in lost <==> id in InterruptedIds(events, job, period, bootId, bootedAt)
  {
    CollectedOpen(events, job, period, order, started);
    LostAmongIs(order, FinishedIds(events, job, period), started, bootId, bootedAt);
    CollectedLost(events, job, period, order, started, bootId, bootedAt);
  }

  /** The execution count of the source: its two loops, then the forgiveness. */
  method CountExecutions(events: seq<Event>, job: string, period: PeriodKey, bootId: nat, bootedAt: Stamp,
                         rerunIfInterrupted: bool, maxForgiven: nat)
    returns (count: int, interrupted: seq<nat>)
    ensures count == ExecutionCount(events, job, period, bootId, bootedAt, rerunIfInterrupted, maxForgiven)
    ensures forall id :: id in interrupted <==> id in InterruptedIds(events, job, period, bootId, bootedAt)
  {
    var finishes, open;
    finishes, open, interrupted := CountRuns(events, job, period, bootId, bootedAt);
    count := finishes + open;
    if rerunIfInterrupted {
      count := count - Min(|interrupted|, maxForgiven);
    }
  }

  /** Ends, open runs and interrupted runs of the period. */
  method CountRuns(events: seq<Event>, job: string, period: PeriodKey, bootId: nat, bootedAt: Stamp)
    returns (finishes: nat, open: nat, interrupted: seq<nat>)
    ensures finishes == FinishCount(events, job, period)
    ensures open == |OpenIds(events, job, period)|
    ensures |interrupted| == |InterruptedIds(events, job, period, bootId, bootedAt)|
    ensures forall id :: id in interrupted <==> id in InterruptedIds(events, job, period, bootId, bootedAt)
  {
    var startedEvents, order, finished;
    finishes, startedEvents, order, finished := CollectRuns(events, job, period);
    open, interrupted := CountOpen(startedEvents, order, finished, bootId, bootedAt);
    CollectedCounts(events, job, period, order, startedEvents, bootId, bootedAt, open, interrupted);
  }

  // ----- success and recent attempts -----

  predicate HasSuccess(events: seq<Event>, job: string, period: PeriodKey) {
    exists i :: 0 <= i < |events| && Concerns(events[i], job, period) && events[i].status == Success
  }

  predicate HasMark(events: seq<Event>, job: string, period: PeriodKey) {
    exists i :: 0 <= i < |events| && Concerns(events[i], job, period) && events[i].status == CapNoticeSent
  }

  /** Runs whose records the recovery gap ignores. */
  function SkippedRuns(events: seq<Event>): set<Option<nat>> {
    if events == [] then {}
    else
      var e := events[|events| - 1];
      SkippedRuns(events[..|events| - 1]) + (if e.skipRecoveryGap then {e.runId} else {})
  }

  /** The time of an attempt as the recovery gap sees it. */
  function AttemptAt(e: Event, job: string, period: PeriodKey, includeStarted: bool,
                     skipped: set<Option<nat>>): Option<Stamp> {
    if !Concerns(e, job, period) || e.runId in skipped then None
    else if e.status == Error then e.finishedAt
    else if e.status == Started && includeStarted then e.startedAt
    else None
  }

  function LatestAttempt(events: seq<Event>, job: string, period: PeriodKey, includeStarted: bool,
                         skipped: set<Option<nat>>): (r: Option<Stamp>)
    ensures forall i :: 0 <= i < |events| ==>
              var a := AttemptAt(events[i], job, period, includeStarted, skipped); a.Some? ==>
                  r.Some? && a.value <= r.value
    ensures r.Some? ==> exists i :: 0 <= i < |events| && AttemptAt(events[i], job, period, includeStarted, skipped) == r
  {
    if events == [] then None
    else
      var before := LatestAttempt(events[..|events| - 1], job, period, includeStarted, skipped);
      var a := AttemptAt(events[|events| - 1], job, period, includeStarted, skipped);
      if a.Some? && (before.None? || a.value > before.value) then a
      else
        assert before.Some? ==> exists i ::
            0 <= i < |events| - 1 && AttemptAt(events[i], job, period, includeStarted, skipped) == before;
        before
  }

  /** The latest failed end, or start if starts count, of the period; the loop of the source. */
  method LastAttemptAt(events: seq<Event>, job: string, period: PeriodKey, includeStarted: bool)
    returns (latest: Option<Stamp>)
    ensures latest == LatestAttempt(events, job, period, includeStarted, SkippedRuns(events))
  {
    latest := None;
    var skipped := SkippedRuns(events);
    for n := 0 to |events|
      invariant latest == LatestAttempt(events[..n], job, period, includeStarted, skipped)
    {
      assert events[..n + 1][..n] == events[..n];
      var e := events[n];
      if Concerns(e, job, period) && e.runId !in skipped
          && (e.status == Error || (e.status == Started && includeStarted)) {
        var stamp := if e.status == Error then e.finishedAt else e.startedAt;
        if stamp.Some? && (latest.None? || stamp.value > latest.value) {
          latest := stamp;
        }
      }
    }
    assert events[..|events|] == events;
  }

  method ComputeHasSuccess(events: seq<Event>, job: string, period: PeriodKey) returns (found: bool)
    ensures found == HasSuccess(events, job, period)
  {
    for n := 0 to |events|
      invariant !HasSuccess(events[..n], job, period)
    {
      if Concerns(events[n], job, period) && events[n].status == Success {
        return true;
      }
    }
    assert events[..|events|] == events;
    return false;
  }

  // ----- notice marks do not count -----

  function WithoutMarks(events: seq<Event>): seq<Event> {
    if events == [] then []
    else
      var e := events[|events| - 1];
      WithoutMarks(events[..|events| - 1]) + (if e.status == CapNoticeSent then [] else [e])
  }

  /** Marks carry no skip flag. */
  predicate PlainMarks(events: seq<Event>) {
    forall i :: 0 <= i < |events| && events[i].status == CapNoticeSent ==> !events[i].skipRecoveryGap
  }

  lemma SplitLast(events: seq<Event>, e: Event)
    ensures events + [e] != [] && (events + [e])[..|events + [e]| - 1] == events
              && (events + [e])[|events + [e]| - 1] == e
  {
  }

  lemma {:induction false} MarksDoNotFinish(events: seq<Event>, job: string, period: PeriodKey)
    ensures FinishCount(WithoutMarks(events), job, period) == FinishCount(events, job, period)
    ensures FinishedIds(WithoutMarks(events), job, period) == FinishedIds(events, job, period)
  {
    if events != [] {
      MarksDoNotFinish(events[..|events| - 1], job, period);
      SplitLast(WithoutMarks(events[..|events| - 1]), events[|events| - 1]);
      DropMark(events);
    }
  }

  lemma DropMark(events: seq<Event>)
    requires events != []
    ensures var rest := WithoutMarks(events[..|events| - 1]);
            WithoutMarks(events) == if events[|events| - 1].status == CapNoticeSent then rest
                else rest + [events[|events| - 1]]
  {
  }

  lemma {:induction false} MarksDoNotStart(events: seq<Event>, job: string, period: PeriodKey)
    ensures StartedIds(WithoutMarks(events), job, period) == StartedIds(events, job, period)
    ensures forall id :: id in StartedIds(events, job, period) ==>
              FirstStart(WithoutMarks(events), job, period, id) == FirstStart(events, job, period, id)
  {
    if events != [] {
      MarksDoNotStart(events[..|events| - 1], job, period);
      SplitLast(WithoutMarks(events[..|events| - 1]), events[|events| - 1]);
      DropMark(events);
    }
  }

  lemma {:induction false} MarksNoSuccess(events: seq<Event>, job: string, period: PeriodKey)
    ensures HasSuccess(WithoutMarks(events), job, period) == HasSuccess(events, job, period)
  {
    if events != [] {
      var shorter, e := events[..|events| - 1], events[|events| - 1];
      MarksNoSuccess(shorter, job, period);
      assert events == shorter + [e];
      SuccessSplit(shorter, e, job, period);
      SuccessSplit(WithoutMarks(shorter), e, job, period);
      DropMark(events);
    }
  }

  lemma {:induction false} MarksNotSkipped(events: seq<Event>)
    requires PlainMarks(events)
    ensures SkippedRuns(WithoutMarks(events)) == SkippedRuns(events)
  {
    if events != [] {
      MarksNotSkipped(events[..|events| - 1]);
      SplitLast(WithoutMarks(events[..|events| - 1]), events[|events| - 1]);
      DropMark(events);
    }
  }

  lemma MarkIsNoAttempt(e: Event, job: string, period: PeriodKey, includeStarted: bool, skipped: set<Option<nat>>)
    ensures e.status == CapNoticeSent ==> AttemptAt(e, job, period, includeStarted, skipped) == None
  {
  }

  lemma {:induction false} MarksNoAttempt(events: seq<Event>, job: string, period: PeriodKey, includeStarted: bool,
                                          skipped: set<Option<nat>>)
    ensures LatestAttempt(WithoutMarks(events), job, period, includeStarted, skipped)
            == LatestAttempt(events, job, period, includeStarted, skipped)
  {
    if events != [] {
      hide AttemptAt, WithoutMarks;
      MarkIsNoAttempt(events[|events| - 1], job, period, includeStarted, skipped);
      MarksNoAttempt(events[..|events| - 1], job, period, includeStarted, skipped);
      SplitLast(WithoutMarks(events[..|events| - 1]), events[|events| - 1]);
      DropMark(events);
    }
  }

  lemma SuccessSplit(events: seq<Event>, e: Event, job: string, period: PeriodKey)
    ensures HasSuccess(events + [e], job, period)
            <==> HasSuccess(events, job, period) || (Concerns(e, job, period) && e.status == Success)
  {
    var longer := events + [e];
    if HasSuccess(events, job, period) {
      var i :| 0 <= i < |events| && Concerns(events[i], job, period) && events[i].status == Success;
      assert longer[i] == events[i];
    }
    assert longer[|events|] == e;
  }

  /** Notice marks change no verdict: the count, the interrupted runs, the success and the latest
      attempt are those of the log without its marks. */
  lemma MarksChangeNoVerdict(events: seq<Event>, job: string, period: PeriodKey, bootId: nat, bootedAt: Stamp,
                             rerunIfInterrupted: bool, maxForgiven: nat, includeStarted: bool)
    requires PlainMarks(events)
    ensures
      var plain := WithoutMarks(events);
      && ExecutionCount(plain, job, period, bootId, bootedAt, rerunIfInterrupted, maxForgiven)
         == ExecutionCount(events, job, period, bootId, bootedAt, rerunIfInterrupted, maxForgiven)
      && InterruptedIds(plain, job, period, bootId, bootedAt) == InterruptedIds(events, job, period, bootId, bootedAt)
      && HasSuccess(plain, job, period) == HasSuccess(events, job, period)
      && LatestAttempt(plain, job, period, includeStarted, SkippedRuns(plain))
         == LatestAttempt(events, job, period, includeStarted, SkippedRuns(events))
  {
    MarksKeepCount(events, job, period, bootId, bootedAt);
    MarksNoSuccess(events, job, period);
    MarksNotSkipped(events);
    MarksNoAttempt(events, job, period, includeStarted, SkippedRuns(events));
  }

  lemma MarksKeepCount(events: seq<Event>, job: string, period: PeriodKey, bootId: nat, bootedAt: Stamp)
    ensures
      var plain := WithoutMarks(events);
      && FinishCount(plain, job, period) == FinishCount(events, job, period)
      && OpenIds(plain, job, period) == OpenIds(events, job, period)
      && InterruptedIds(plain, job, period, bootId, bootedAt) == InterruptedIds(events, job, period, bootId, bootedAt)
  {
    MarksDoNotFinish(events, job, period);
    MarksDoNotStart(events, job, period);
    var plain := WithoutMarks(events);
    forall id | id in OpenIds(events, job, period)
      ensures FirstStart(plain, job, period, id) == FirstStart(events, job, period, id)
    {
    }
  }

  /** Every started run counts once at least, whether it ended or not: the count forgives no more
      than the quota. */
  lemma CountCoversStarts(events: seq<Event>, job: string, period: PeriodKey, bootId: nat, bootedAt: Stamp,
                          rerunIfInterrupted: bool, maxForgiven: nat)
    ensures ExecutionCount(events, job, period, bootId, bootedAt, rerunIfInterrupted, maxForgiven)
            >= |StartedIds(events, job, period)| - (if rerunIfInterrupted then maxForgiven else 0)
  {
    FinishesCover(events, job, period);
    var started, finished := StartedIds(events, job, period), FinishedIds(events, job, period);
    SubsetSize(started, finished + (started - finished));
    assert |finished + (started - finished)| <= |finished| + |started - finished|;
  }

  lemma {:induction false} FinishesCover(events: seq<Event>, job: string, period: PeriodKey)
    ensures |FinishedIds(events, job, period)| <= FinishCount(events, job, period)
  {
    if events != [] { FinishesCover(events[..|events| - 1], job, period); }
  }
}
