/**
 The profiling counters: what the event handlers count and what the periodic report takes
 out of the counts. A date is its number of milliseconds; reports keep the integer counts
 that the printed rates are computed from.
 */
module MetaService {
  import opened Options

  /** What happens to the service, with the time of the clock where a handler may read it. */
  datatype Event =
    | EnqueueBlocks(size: nat, now: int)
    | FilteringBlocks(height: nat)
    | FetchBlock(now: int)
    | RpcCall(now: int)
    | Tick(now: int)

  /** The counts of one report. */
  datatype Report = Report(enqueued: int, filtered: int, rpcCalls: int, fetched: int, timepass: int)

  datatype TickResult = Off | Reported(report: Report) | TypeError

  /** The fields of the service. */
  datatype Counters = Counters(
    accEnqueueBlocks: int, accFetchBlocks: int, currentFilteringBlockNum: int, accRpcCalls: int,
    lastReportedFilteringBlockNum: int, lastReportedEnqueueBlocks: int, lastReportedFetchBlocks: int,
    lastReportedRpcCalls: int, lastStatsReportedTs: Option<int>)

  const INITIAL := Counters(0, 0, 0, 0, 0, 0, 0, 0, None)

  // ----- one event

  function Stamped(c: Counters, now: int): Counters {
    if c.lastStatsReportedTs.None? then c.(lastStatsReportedTs := Some(now)) else c
  }

  /** A tick before the first timestamp fails after the enqueue count is marked as reported. */
  function Ticked(c: Counters, profiler: bool, now: int): Counters {
    if !profiler then c
    else
      var marked := c.(lastReportedEnqueueBlocks := c.accEnqueueBlocks);
      if c.lastStatsReportedTs.None? then marked
      else marked.(lastStatsReportedTs := Some(now),
                   lastReportedFilteringBlockNum := c.currentFilteringBlockNum,
                   lastReportedRpcCalls := c.accRpcCalls,
                   lastReportedFetchBlocks := c.accFetchBlocks)
  }

  function ResultOfTick(c: Counters, profiler: bool, now: int): TickResult {
    if !profiler then Off
    else if c.lastStatsReportedTs.None? then TypeError
    else Reported(Report(c.accEnqueueBlocks - c.lastReportedEnqueueBlocks,
                         c.currentFilteringBlockNum - c.lastReportedFilteringBlockNum,
                         c.accRpcCalls - c.lastReportedRpcCalls,
                         c.accFetchBlocks - c.lastReportedFetchBlocks,
                         now - c.lastStatsReportedTs.value))
  }

  function Step(c: Counters, profiler: bool, e: Event): Counters {
    match e
    case EnqueueBlocks(size, now) => Stamped(c.(accEnqueueBlocks := c.accEnqueueBlocks + size), now)
    case FilteringBlocks(height) =>
      var filtering := c.(currentFilteringBlockNum := height);
      if c.lastStatsReportedTs.None? then filtering.(lastReportedFilteringBlockNum := height) else filtering
    case FetchBlock(now) => Stamped(c.(accFetchBlocks := c.accFetchBlocks + 1), now)
    case RpcCall(now) => Stamped(c.(accRpcCalls := c.accRpcCalls + 1), now)
    case Tick(now) => Ticked(c, profiler, now)
  }

  class Service {
    const profiler: bool
    var accEnqueueBlocks: int
    var accFetchBlocks: int
    var currentFilteringBlockNum: int
    var accRpcCalls: int
    var lastReportedFilteringBlockNum: int
    var lastReportedEnqueueBlocks: int
    var lastReportedFetchBlocks: int
    var lastReportedRpcCalls: int
    var lastStatsReportedTs: Option<int>

    function State(): Counters
      reads this
    {
      Counters(accEnqueueBlocks, accFetchBlocks, currentFilteringBlockNum, accRpcCalls,
               lastReportedFilteringBlockNum, lastReportedEnqueueBlocks, lastReportedFetchBlocks,
               lastReportedRpcCalls, lastStatsReportedTs)
    }

    constructor (profiler: bool)
      ensures this.profiler == profiler && State() == INITIAL
    {
      this.profiler := profiler;
      accEnqueueBlocks, accFetchBlocks, currentFilteringBlockNum, accRpcCalls := 0, 0, 0, 0;
      lastReportedFilteringBlockNum, lastReportedEnqueueBlocks := 0, 0;
      lastReportedFetchBlocks, lastReportedRpcCalls := 0, 0;
      lastStatsReportedTs := None;
    }

    method HandleEnqueueBlocks(size: nat, now: int)
      modifies this
      ensures State() == Step(old(State()), profiler, EnqueueBlocks(size, now))
    {
      accEnqueueBlocks := accEnqueueBlocks + size;
      if lastStatsReportedTs.None? { lastStatsReportedTs := Some(now); }
    }

    method HandleFilteringBlocks(height: nat)
      modifies this
      ensures State() == Step(old(State()), profiler, FilteringBlocks(height))
    {
      currentFilteringBlockNum := height;
      if lastStatsReportedTs.None? { lastReportedFilteringBlockNum := height; }
    }

    method HandleFetchBlock(now: int)
      modifies this
      ensures State() == Step(old(State()), profiler, FetchBlock(now))
    {
      accFetchBlocks := accFetchBlocks + 1;
      if lastStatsReportedTs.None? { lastStatsReportedTs := Some(now); }
    }

    method HandleRpcCall(now: int)
      modifies this
      ensures State() == Step(old(State()), profiler, RpcCall(now))
    {
      accRpcCalls := accRpcCalls + 1;
      if lastStatsReportedTs.None? { lastStatsReportedTs := Some(now); }
    }

    method BlockFilteringSpeed(now: int) returns (r: TickResult)
      modifies this
      ensures State() == Step(old(State()), profiler, Tick(now))
      ensures r == ResultOfTick(old(State()), profiler, now)
    {
      if !profiler { return Off; }
      var count := accEnqueueBlocks - lastReportedEnqueueBlocks;
      lastReportedEnqueueBlocks := accEnqueueBlocks;
      var filteringCount := currentFilteringBlockNum - lastReportedFilteringBlockNum;
      if lastStatsReportedTs.None? { return TypeError; }
      var timepass := now - lastStatsReportedTs.value;
      lastStatsReportedTs := Some(now);
      lastReportedFilteringBlockNum := currentFilteringBlockNum;
      var rpcCalls := accRpcCalls - lastReportedRpcCalls;
      lastReportedRpcCalls := accRpcCalls;
      var fetchCount := accFetchBlocks - lastReportedFetchBlocks;
      lastReportedFetchBlocks := accFetchBlocks;
      r := Reported(Report(count, filteringCount, rpcCalls, fetchCount, timepass));
    }
  }

  // ----- runs

  function Run(events: seq<Event>, profiler: bool): Counters {
    if events == [] then INITIAL
    else Step(Run(events[..|events| - 1], profiler), profiler, events[|events| - 1])
  }

  /** The reports that the ticks of a run give. */
  function Reports(events: seq<Event>, profiler: bool): seq<Report> {
    if events == [] then []
    else
      var init, last := events[..|events| - 1], events[|events| - 1];
      var result := if last.Tick? then ResultOfTick(Run(init, profiler), profiler, last.now) else Off;
      if result.Reported? then Reports(init, profiler) + [result.report] else Reports(init, profiler)
  }

  /** The component-wise sum of reports. */
  function Sum(reports: seq<Report>): Report {
    if reports == [] then Report(0, 0, 0, 0, 0)
    else
      var s, r := Sum(reports[..|reports| - 1]), reports[|reports| - 1];
      Report(s.enqueued + r.enqueued, s.filtered + r.filtered, s.rpcCalls + r.rpcCalls,
             s.fetched + r.fetched, s.timepass + r.timepass)
  }

  lemma SumAppend(reports: seq<Report>, r: Report)
    ensures var s := Sum(reports);
            Sum(reports + [r]) == Report(s.enqueued + r.enqueued, s.filtered + r.filtered, s.rpcCalls + r.rpcCalls,
                                         s.fetched + r.fetched, s.timepass + r.timepass)
  {}

  /** What the events of a run add up to, counted from the events alone. */
  datatype Received = Received(enqueued: nat, rpcCalls: nat, fetched: nat)

  function Total(events: seq<Event>): Received {
    if events == [] then Received(0, 0, 0)
    else
      var t := Total(events[..|events| - 1]);
      match events[|events| - 1]
      case EnqueueBlocks(size, _) => t.(enqueued := t.enqueued + size)
      case RpcCall(_) => t.(rpcCalls := t.rpcCalls + 1)
      case FetchBlock(_) => t.(fetched := t.fetched + 1)
      case _ => t
  }

  /** The events that set the timestamp when there is none. */
  predicate Stamps(e: Event) {
    e.EnqueueBlocks? || e.FetchBlock? || e.RpcCall?
  }

  /** The height of the last `filteringBlocks` event, 0 before the first. */
  function LastHeight(events: seq<Event>): nat {
    if events == [] then 0
    else if events[|events| - 1].FilteringBlocks? then events[|events| - 1].height
    else LastHeight(events[..|events| - 1])
  }

  /** The position of the first event that sets the timestamp; the length of the run when there is none. */
  function FirstStamp(events: seq<Event>): (n: nat)
    ensures n <= |events|
    ensures n < |events| ==> Stamps(events[n])
    ensures forall i :: 0 <= i < n ==> !Stamps(events[i])
  {
    if events == [] then 0
    else
      var n := FirstStamp(events[..|events| - 1]);
      if n < |events| - 1 || Stamps(events[|events| - 1]) then n else |events|
  }

  /** The counters of a run hold the totals of its events, whatever ticks there were in between. */
  lemma {:induction false} CountersHoldTotals(events: seq<Event>, profiler: bool)
    ensures var c, t := Run(events, profiler), Total(events);
            && c.accEnqueueBlocks == t.enqueued && c.accRpcCalls == t.rpcCalls && c.accFetchBlocks == t.fetched
            && c.currentFilteringBlockNum == LastHeight(events)
            && (c.lastStatsReportedTs.None? <==> FirstStamp(events) == |events|)
            && (c.lastStatsReportedTs.None? ==>
                  && t == Received(0, 0, 0)
                  && c.lastReportedEnqueueBlocks == c.lastReportedRpcCalls == c.lastReportedFetchBlocks == 0
                  && c.lastReportedFilteringBlockNum == LastHeight(events))
  {
    if events != [] { CountersHoldTotals(events[..|events| - 1], profiler); }
  }

  /**
   Conservation: over every run, what the reports say was enqueued, called and fetched, plus
   what is not reported yet, is what the events brought; a report never takes back anything.
   */
  lemma {:induction false} NothingLostOrReportedTwice(events: seq<Event>, profiler: bool)
    ensures var c, s, t := Run(events, profiler), Sum(Reports(events, profiler)), Total(events);
            && s.enqueued + (c.accEnqueueBlocks - c.lastReportedEnqueueBlocks) == t.enqueued
            && s.rpcCalls + (c.accRpcCalls - c.lastReportedRpcCalls) == t.rpcCalls
            && s.fetched + (c.accFetchBlocks - c.lastReportedFetchBlocks) == t.fetched
            && c.lastReportedEnqueueBlocks <= c.accEnqueueBlocks
            && c.lastReportedRpcCalls <= c.accRpcCalls
            && c.lastReportedFetchBlocks <= c.accFetchBlocks
    ensures forall r <- Reports(events, profiler) :: r.enqueued >= 0 && r.rpcCalls >= 0 && r.fetched >= 0
  {
    CountersHoldTotals(events, profiler);
    if events != [] {
      var init, last := events[..|events| - 1], events[|events| - 1];
      NothingLostOrReportedTwice(init, profiler);
      CountersHoldTotals(init, profiler);
      if last.Tick? && ResultOfTick(Run(init, profiler), profiler, last.now).Reported? {
        SumAppend(Reports(init, profiler), ResultOfTick(Run(init, profiler), profiler, last.now).report);
      }
    }
  }

  /** The timestamp that the first stamping event sets. */
  function StampTime(e: Event): int
    requires Stamps(e)
  {
    e.now
  }

  /**
   Reported heights and times telescope: from the height filtered, and the time it was, when
   the first counted event came, to the height and the time of the last report.
   */
  lemma {:induction false} ReportsTelescope(events: seq<Event>, profiler: bool)
    requires FirstStamp(events) < |events|
    ensures var c, s, n := Run(events, profiler), Sum(Reports(events, profiler)), FirstStamp(events);
            && c.lastStatsReportedTs.Some?
            && s.filtered == c.lastReportedFilteringBlockNum - LastHeight(events[..n])
            && s.timepass == c.lastStatsReportedTs.value - StampTime(events[n])
  {
    var m := |events| - 1;
    var init, last := events[..m], events[m];
    var n := FirstStamp(events);
    CountersHoldTotals(init, profiler);
    if n < m {
      assert init[..n] == events[..n];
      ReportsTelescope(init, profiler);
      if last.Tick? && profiler {
        SumAppend(Reports(init, profiler), ResultOfTick(Run(init, profiler), profiler, last.now).report);
      }
    } else {
      assert events[..n] == init;
      NoReportBeforeStamp(init, profiler);
    }
  }

  lemma TickAppended(events: seq<Event>, profiler: bool, now: int)
    ensures var after := events + [Tick(now)];
            && Run(after, profiler) == Ticked(Run(events, profiler), profiler, now)
            && Total(after) == Total(events) && LastHeight(after) == LastHeight(events)
            && (FirstStamp(events) < |events| ==>
                  FirstStamp(after) == FirstStamp(events) && after[..FirstStamp(after)] == events[..FirstStamp(events)])
  {
    assert (events + [Tick(now)])[..|events|] == events;
  }

  /**
   A tick reports everything so far: after it, the reports add up to what the events brought,
   to the height filtered since the first counted event, and to the time since it.
   */
  lemma TickReportsEverything(events: seq<Event>, now: int)
    requires FirstStamp(events) < |events|
    ensures var s, t, n := Sum(Reports(events + [Tick(now)], true)), Total(events), FirstStamp(events);
            && s.enqueued == t.enqueued && s.rpcCalls == t.rpcCalls && s.fetched == t.fetched
            && s.filtered == LastHeight(events) - LastHeight(events[..n])
            && s.timepass == now - StampTime(events[n])
  {
    var after := events + [Tick(now)];
    TickAppended(events, true, now);
    CountersHoldTotals(events, true);
    CountersHoldTotals(after, true);
    NothingLostOrReportedTwice(after, true);
    ReportsTelescope(after, true);
    assert after[FirstStamp(after)] == events[FirstStamp(events)];
  }

  /** Without profiling there are no reports. */
  lemma {:induction false} NoProfilerNoReports(events: seq<Event>)
    ensures Reports(events, false) == []
  {
    if events != [] { NoProfilerNoReports(events[..|events| - 1]); }
  }

  lemma {:induction false} NoReportBeforeStamp(events: seq<Event>, profiler: bool)
    requires FirstStamp(events) == |events|
    ensures Reports(events, profiler) == []
  {
    if events != [] {
      NoReportBeforeStamp(events[..|events| - 1], profiler);
      CountersHoldTotals(events[..|events| - 1], profiler);
    }
  }

  /** A tick fails exactly when profiling is on and nothing was counted yet, and then it changes nothing. */
  lemma TickFailsIff(events: seq<Event>, profiler: bool, now: int)
    ensures ResultOfTick(Run(events, profiler), profiler, now) == TypeError <==>
              profiler && forall e <- events :: !Stamps(e)
    ensures ResultOfTick(Run(events, profiler), profiler, now) == TypeError ==>
              Run(events + [Tick(now)], profiler) == Run(events, profiler)
  {
    CountersHoldTotals(events, profiler);
    assert (events + [Tick(now)])[..|events|] == events;
  }
}
