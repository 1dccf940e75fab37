/**
 * The dashboard's traffic-light state machine (script.js): the `dashboardState` record,
 * the one-second cycle tick, the guarded start and stop of the dashboard, the effect of
 * an analysis request and of a data fetch, and the lane cards the view derives.
 *
 * Each handler is specified by a function on a DashboardState value; the class
 * DashboardController holds the record as fields and its methods are proved to move the
 * fields exactly as those functions say.
 */
module Dashboard {
  import opened Wrappers
  import opened TrafficAnalysis

  const YellowLightDuration: int := 3
  /** The progress bar's full width when a lane's allotted green time is 0 (`newDuration || 10`). */
  const FallbackInitialDuration: int := 10

  datatype Color = Red | Yellow | Green

  /** The three interval slots of `dashboardState.intervals`, in key order. */
  datatype Slot = DataFetch | Cycle | Clock

  const SlotOrder: seq<Slot> := [DataFetch, Cycle, Clock]

  /** Browser interval handles are positive integers, so a set slot is always truthy. */
  type TimerId = n: int | n > 0 witness 1

  datatype DashboardState = DashboardState(
    activeLane: Lane,
    lightColor: Color,
    countdown: int,
    initialDuration: int,
    latestData: Option<TrafficData>,
    analysisStarted: bool,
    intervals: map<Slot, Option<TimerId>>)

  /** The record as the page creates it: lane A, green, nothing started. */
  function InitialState(): DashboardState {
    DashboardState(A, Green, 0, 0, None, false, map[DataFetch := None, Cycle := None, Clock := None])
  }

  /** The cycle only advances once analysis has started and some data has arrived. */
  predicate Running(s: DashboardState) {
    s.analysisStarted && s.latestData.Some?
  }

  /** The green time the latest data allots to `lane`. */
  function AllottedGreen(data: TrafficData, lane: Lane): int {
    data.LaneInfo(lane).greenLightDuration
  }

  /** One call of the cycle handler. */
  function Tick(s: DashboardState): DashboardState {
    if !Running(s) then s
    else
      var switched :=
        if s.countdown > 0 then s
        else if s.lightColor == Green then
          s.(lightColor := Yellow, countdown := YellowLightDuration, initialDuration := YellowLightDuration)
        else if s.lightColor == Yellow then
          var lane := s.activeLane.Other();
          var d := AllottedGreen(s.latestData.value, lane);
          s.(activeLane := lane, lightColor := Green, countdown := d,
             initialDuration := if d == 0 then FallbackInitialDuration else d)
        else s;
      switched.(countdown := switched.countdown - 1)
  }

  /** Whether the clock slot holds a handle, the guard of both start and stop. */
  predicate ClockRunning(s: DashboardState) {
    Clock in s.intervals && s.intervals[Clock].Some?
  }

  /** Leaving the dashboard page: clear every slot and mark analysis as not started. */
  function Stop(s: DashboardState): DashboardState {
    if !ClockRunning(s) then s
    else s.(intervals := map k | k in s.intervals :: None, analysisStarted := false)
  }

  /** Entering the dashboard page: start the clock unless it already runs. */
  function Start(s: DashboardState, clockId: TimerId): DashboardState {
    if ClockRunning(s) then s
    else s.(intervals := s.intervals[Clock := Some(clockId)])
  }

  /** A data poll: with analysis started, a successful response becomes the latest data. */
  function Fetch(s: DashboardState, response: Option<TrafficData>): DashboardState {
    if !s.analysisStarted || response.None? then s
    else s.(latestData := response)
  }

  /**
   * An analysis request: when the backend accepts it, analysis is marked started, the
   * first poll's response is taken, and the poll and cycle slots get fresh handles; when
   * it fails, analysis is marked not started.
   */
  function RequestAnalysis(s: DashboardState, accepted: bool, firstFetch: Option<TrafficData>,
                           fetchId: TimerId, cycleId: TimerId): DashboardState
  {
    if accepted then
      var polled := Fetch(s.(analysisStarted := true), firstFetch);
      polled.(intervals := polled.intervals[DataFetch := Some(fetchId)][Cycle := Some(cycleId)])
    else
      s.(analysisStarted := false)
  }

  /** Everything that changes the record: timer ticks, page switches, requests, polls. */
  datatype Event =
    | CycleTick
    | ShowOtherPage
    | ShowDashboard(clockId: TimerId)
    | AnalysisRequested(accepted: bool, firstFetch: Option<TrafficData>, fetchId: TimerId, cycleId: TimerId)
    | DataFetched(response: Option<TrafficData>)

  function Step(s: DashboardState, e: Event): DashboardState {
    match e
    case CycleTick => Tick(s)
    case ShowOtherPage => Stop(s)
    case ShowDashboard(clockId) => Start(s, clockId)
    case AnalysisRequested(accepted, firstFetch, fetchId, cycleId) =>
      RequestAnalysis(s, accepted, firstFetch, fetchId, cycleId)
    case DataFetched(response) => Fetch(s, response)
  }

  function Run(s: DashboardState, events: seq<Event>): DashboardState
    decreases |events|
  {
    if events == [] then s else Run(Step(s, events[0]), events[1..])
  }

  /** `n` consecutive cycle ticks with nothing in between. */
  function Ticks(s: DashboardState, n: nat): DashboardState
    decreases n
  {
    if n == 0 then s else Ticks(Tick(s), n - 1)
  }

  /**
   * What holds between handler calls: the three slots exist, the light is green or
   * yellow (never red), and a yellow phase shows the yellow duration with 0 to 2 ticks left.
   */
  ghost predicate Inv(s: DashboardState) {
    && s.intervals.Keys == {DataFetch, Cycle, Clock}
    && (s.lightColor == Green || s.lightColor == Yellow)
    && (s.lightColor == Yellow ==> s.initialDuration == YellowLightDuration && 0 <= s.countdown < YellowLightDuration)
  }

  // ---------------------------------------------------------------------------
  // The cycle tick
  // ---------------------------------------------------------------------------

  /** Before analysis has started, or before any data has arrived, a tick changes nothing. */
  lemma TickIdleLeavesStateUnchanged(s: DashboardState)
    requires !s.analysisStarted || s.latestData.None?
    ensures Tick(s) == s
  {
  }

  /** While time is left, a tick keeps lane and colour and takes exactly one second off. */
  lemma TickCountsDown(s: DashboardState)
    requires Running(s) && s.countdown > 0
    // the field clauses spell out, for readability, what the whole-record clause implies
    ensures Tick(s).activeLane == s.activeLane && Tick(s).lightColor == s.lightColor
    ensures Tick(s).countdown == s.countdown - 1
    ensures Tick(s) == s.(countdown := s.countdown - 1)
  {
  }

  /** A green phase that has run out turns yellow on the same lane, with 2 ticks left. */
  lemma TickGreenToYellow(s: DashboardState)
    requires Running(s) && s.countdown <= 0 && s.lightColor == Green
    // the field clauses spell out, for readability, what the whole-record clause implies
    ensures Tick(s).lightColor == Yellow && Tick(s).activeLane == s.activeLane
    ensures Tick(s).initialDuration == YellowLightDuration && Tick(s).countdown == YellowLightDuration - 1
    ensures Tick(s).latestData == s.latestData && Tick(s).intervals == s.intervals
    ensures Tick(s) == s.(lightColor := Yellow, countdown := YellowLightDuration - 1,
                          initialDuration := YellowLightDuration)
  {
  }

  /**
   * A yellow phase that has run out hands green to the other lane for that lane's
   * allotted time; the progress bar's full width falls back to 10 when that time is 0.
   */
  lemma TickYellowToGreen(s: DashboardState)
    requires Running(s) && s.countdown <= 0 && s.lightColor == Yellow
    // the field clauses spell out, for readability, what the whole-record clause implies
    ensures var d := AllottedGreen(s.latestData.value, s.activeLane.Other());
            && Tick(s).activeLane != s.activeLane
            && Tick(s).lightColor == Green
            && Tick(s).countdown == d - 1
            && Tick(s).initialDuration == (if d == 0 then FallbackInitialDuration else d)
            && Tick(s).latestData == s.latestData && Tick(s).intervals == s.intervals
            && Tick(s) == s.(activeLane := s.activeLane.Other(), lightColor := Green, countdown := d - 1,
                             initialDuration := if d == 0 then FallbackInitialDuration else d)
  {
  }

  /** With time left on the clock, `k` ticks take exactly `k` seconds off and change nothing else. */
  lemma {:induction false} CountdownRunsDown(s: DashboardState, k: nat)
    requires Running(s) && k <= s.countdown
    ensures Ticks(s, k) == s.(countdown := s.countdown - k)
    decreases k
  {
    if k > 0 {
      var t := Tick(s);
      assert t == s.(countdown := s.countdown - 1);
      CountdownRunsDown(t, k - 1);
    }
  }

  /** Ticks compose: `m` ticks after `n` ticks are `n + m` ticks. */
  lemma {:induction false} TicksAdd(s: DashboardState, n: nat, m: nat)
    ensures Ticks(Ticks(s, n), m) == Ticks(s, n + m)
    decreases n
  {
    if n > 0 {
      TicksAdd(Tick(s), n - 1, m);
    }
  }

  /**
   * Yellow lasts exactly three ticks: once a green phase runs out, the next three ticks
   * show yellow on the same lane and the fourth gives green to the other lane.
   */
  lemma YellowLastsThreeTicks(s: DashboardState)
    requires Running(s) && s.lightColor == Green && s.countdown <= 0
    ensures forall k :: 1 <= k <= 3 ==> Ticks(s, k).lightColor == Yellow && Ticks(s, k).activeLane == s.activeLane
    ensures Ticks(s, 4).lightColor == Green && Ticks(s, 4).activeLane == s.activeLane.Other()
  {
    var y := Tick(s);
    assert Ticks(s, 1) == y;
    CountdownRunsDown(y, 2);
    forall k | 1 <= k <= 3
      ensures Ticks(s, k).lightColor == Yellow && Ticks(s, k).activeLane == s.activeLane
    {
      CountdownRunsDown(y, k - 1);
      TicksAdd(s, 1, k - 1);
    }
    TicksAdd(s, 1, 2);
    TicksAdd(s, 3, 1);
  }

  /**
   * Green lasts the allotted time: when yellow runs out and the other lane is allotted
   * `d >= 1` seconds, the next `d` ticks show green on that lane and the one after turns yellow.
   */
  lemma GreenLastsAllottedTime(s: DashboardState)
    requires Running(s) && s.lightColor == Yellow && s.countdown <= 0
    requires AllottedGreen(s.latestData.value, s.activeLane.Other()) >= 1
    ensures var d := AllottedGreen(s.latestData.value, s.activeLane.Other());
            && (forall k :: 1 <= k <= d ==> Ticks(s, k).lightColor == Green && Ticks(s, k).activeLane == s.activeLane.Other())
            && Ticks(s, d + 1).lightColor == Yellow && Ticks(s, d + 1).activeLane == s.activeLane.Other()
  {
    var d := AllottedGreen(s.latestData.value, s.activeLane.Other());
    var g := Tick(s);
    assert Ticks(s, 1) == g;
    assert g.countdown == d - 1;
    forall k | 1 <= k <= d
      ensures Ticks(s, k).lightColor == Green && Ticks(s, k).activeLane == s.activeLane.Other()
    {
      CountdownRunsDown(g, k - 1);
      TicksAdd(s, 1, k - 1);
    }
    CountdownRunsDown(g, d - 1);
    TicksAdd(s, 1, d - 1);
    TicksAdd(s, d, 1);
  }

  /**
   * A lane allotted 0 seconds (the backend's reset record) still gets green, but for a
   * single tick: its countdown starts at -1 while the progress bar's width falls back to 10.
   */
  lemma ZeroAllotmentGreenForOneTick(s: DashboardState)
    requires Running(s) && s.lightColor == Yellow && s.countdown <= 0
    requires AllottedGreen(s.latestData.value, s.activeLane.Other()) == 0
    ensures Ticks(s, 1).lightColor == Green && Ticks(s, 1).activeLane == s.activeLane.Other()
    ensures Ticks(s, 1).countdown == -1 && Ticks(s, 1).initialDuration == FallbackInitialDuration
    ensures Ticks(s, 2).lightColor == Yellow && Ticks(s, 2).activeLane == s.activeLane.Other()
  {
    assert Ticks(s, 2) == Ticks(Tick(s), 1);
  }

  /**
   * With a record the backend published for some frame, each green phase lasts between
   * 10 and 60 ticks: exactly the lane's allotted time.
   */
  lemma PublishedDataGivesGreenOf10To60Ticks(s: DashboardState)
    requires Running(s) && s.lightColor == Yellow && s.countdown <= 0
    requires Published(s.latestData.value)
    ensures var d := AllottedGreen(s.latestData.value, s.activeLane.Other());
            && MinDuration <= d <= MaxDuration
            && (forall k :: 1 <= k <= d ==> Ticks(s, k).lightColor == Green)
            && Ticks(s, d + 1).lightColor == Yellow
  {
    PublishedDurationsBounded(s.latestData.value);
    GreenLastsAllottedTime(s);
  }

  // ---------------------------------------------------------------------------
  // Starting and stopping the dashboard
  // ---------------------------------------------------------------------------

  /**
   * Stop does nothing while the clock slot is empty; otherwise it empties every slot and
   * marks analysis as not started, and leaves the light, lane and data as they were.
   */
  lemma StopClearsSlots(s: DashboardState)
    ensures !ClockRunning(s) ==> Stop(s) == s
    ensures ClockRunning(s) ==>
              && Stop(s).intervals.Keys == s.intervals.Keys
              && (forall k :: k in Stop(s).intervals ==> Stop(s).intervals[k] == None)
              && !Stop(s).analysisStarted
              && Stop(s).(intervals := s.intervals, analysisStarted := s.analysisStarted) == s
  {
  }

  /** Stopping twice is stopping once. */
  lemma StopIdempotent(s: DashboardState)
    ensures Stop(Stop(s)) == Stop(s)
  {
  }

  /** Starting twice is starting once: the second call keeps the first clock handle. */
  lemma StartIdempotent(s: DashboardState, first: TimerId, second: TimerId)
    ensures Start(Start(s, first), second) == Start(s, first)
    ensures ClockRunning(Start(s, first))
  {
  }

  /**
   * Start leaves a record whose clock runs untouched; otherwise it stores the new handle in
   * the clock slot, keeps every other slot, and leaves every other field as it was.
   */
  lemma StartFillsOnlyTheClockSlot(s: DashboardState, clockId: TimerId)
    ensures ClockRunning(s) ==> Start(s, clockId) == s
    ensures !ClockRunning(s) ==> Start(s, clockId).intervals[Clock] == Some(clockId)
    ensures Start(s, clockId).intervals.Keys == s.intervals.Keys + {Clock}
    ensures forall k :: k in s.intervals && k != Clock ==> Start(s, clockId).intervals[k] == s.intervals[k]
    ensures Start(s, clockId).(intervals := s.intervals) == s
  {
  }

  /** A stopped dashboard is frozen: the cycle tick no longer changes anything. */
  lemma StoppedDashboardIgnoresTicks(s: DashboardState)
    requires ClockRunning(s)
    ensures Tick(Stop(s)) == Stop(s)
  {
  }

  /**
   * Stop is guarded by the clock slot only: a request accepted after the user has left the
   * dashboard page fills the poll and cycle slots while the clock slot stays empty, so
   * leaving the page again does nothing and the cycle keeps ticking.
   */
  lemma LateRequestOutlivesLeavingThePage(data: TrafficData, clockId: TimerId, fetchId: TimerId, cycleId: TimerId)
    ensures var s := Run(InitialState(), [ShowDashboard(clockId), ShowOtherPage,
                                          AnalysisRequested(true, Some(data), fetchId, cycleId)]);
            && Running(s) && !ClockRunning(s)
            && Cycle in s.intervals && s.intervals[Cycle] == Some(cycleId)
            && DataFetch in s.intervals && s.intervals[DataFetch] == Some(fetchId)
            && Stop(s) == s
            && Tick(Stop(s)) != Stop(s)
  {
    var request := AnalysisRequested(true, Some(data), fetchId, cycleId);
    var es := [ShowDashboard(clockId), ShowOtherPage, request];
    var s1 := Start(InitialState(), clockId);
    var s2 := Stop(s1);
    var s3 := RequestAnalysis(s2, true, Some(data), fetchId, cycleId);
    assert es[1..] == [ShowOtherPage, request];
    assert es[1..][1..] == [request];
    assert es[1..][1..][1..] == [];
    assert Run(InitialState(), es) == Run(s1, [ShowOtherPage, request]);
    assert Run(s1, [ShowOtherPage, request]) == Run(s2, [request]);
    assert Run(s2, [request]) == s3;
    assert s3.countdown == 0;
    assert Tick(s3).countdown != s3.countdown;
  }

  // ---------------------------------------------------------------------------
  // Polls and analysis requests
  // ---------------------------------------------------------------------------

  /**
   * A poll replaces the latest data exactly when analysis has started and the poll
   * succeeded; nothing else in the record changes.
   */
  lemma FetchTakesSuccessfulResponse(s: DashboardState, response: Option<TrafficData>)
    ensures Fetch(s, response).latestData == if s.analysisStarted && response.Some? then response else s.latestData
    ensures Fetch(s, response).(latestData := s.latestData) == s
  {
  }

  /**
   * An accepted request marks analysis started, takes the first poll if it succeeded and
   * fills the poll and cycle slots, keeping the clock slot, light, lane and countdown; a
   * failed request only clears `analysisStarted`.
   */
  lemma RequestAnalysisOutcome(s: DashboardState, accepted: bool, firstFetch: Option<TrafficData>,
                               fetchId: TimerId, cycleId: TimerId)
    ensures var r := RequestAnalysis(s, accepted, firstFetch, fetchId, cycleId);
            && r.analysisStarted == accepted
            && r.activeLane == s.activeLane && r.lightColor == s.lightColor
            && r.countdown == s.countdown && r.initialDuration == s.initialDuration
            && (!accepted ==> r == s.(analysisStarted := false))
            && (accepted ==>
                  && r.latestData == (if firstFetch.Some? then firstFetch else s.latestData)
                  && r.intervals == s.intervals[DataFetch := Some(fetchId)][Cycle := Some(cycleId)])
  {
  }

  // ---------------------------------------------------------------------------
  // The invariant over every reachable state
  // ---------------------------------------------------------------------------

  lemma InitialStateSatisfiesInv()
    ensures Inv(InitialState())
    ensures InitialState().lightColor == Green && InitialState().activeLane == A
    ensures forall k :: k in InitialState().intervals ==> InitialState().intervals[k] == None
    ensures !InitialState().analysisStarted && InitialState().latestData == None
  {
  }

  lemma StepPreservesInv(s: DashboardState, e: Event)
    requires Inv(s)
    ensures Inv(Step(s, e))
  {
  }

  lemma {:induction false} RunPreservesInv(s: DashboardState, events: seq<Event>)
    requires Inv(s)
    ensures Inv(Run(s, events))
    decreases |events|
  {
    if events != [] {
      StepPreservesInv(s, events[0]);
      RunPreservesInv(Step(s, events[0]), events[1..]);
    }
  }

  /** Whatever happens after the page loads, the light is green or yellow and never red. */
  lemma ReachableStatesNeverRed(events: seq<Event>)
    ensures Inv(Run(InitialState(), events))
    ensures Run(InitialState(), events).lightColor != Red
  {
    InitialStateSatisfiesInv();
    RunPreservesInv(InitialState(), events);
  }

  // ---------------------------------------------------------------------------
  // The view
  // ---------------------------------------------------------------------------

  /** A lane card: whether it is marked active and whether its progress bar is non-zero. */
  datatype LaneCard = LaneCard(active: bool, progressNonZero: bool)

  /** The three lamps and the two lane cards as the view sets them. */
  datatype Visuals = Visuals(redLamp: bool, yellowLamp: bool, greenLamp: bool, cardA: LaneCard, cardB: LaneCard) {
    function Card(lane: Lane): LaneCard {
      if lane == A then cardA else cardB
    }
  }

  // ---------------------------------------------------------------------------
  // The record as mutable fields
  // ---------------------------------------------------------------------------

  class DashboardController {
    var activeLane: Lane
    var lightColor: Color
    var countdown: int
    var initialDuration: int
    var latestData: Option<TrafficData>
    var analysisStarted: bool
    var intervals: map<Slot, Option<TimerId>>

    function State(): DashboardState
      reads this
    {
      DashboardState(activeLane, lightColor, countdown, initialDuration, latestData, analysisStarted, intervals)
    }

    ghost predicate Valid()
      reads this
    {
      Inv(State())
    }

    constructor ()
      ensures Valid()
      ensures State() == InitialState()
    {
      activeLane := A;
      lightColor := Green;
      countdown := 0;
      initialDuration := 0;
      latestData := None;
      analysisStarted := false;
      intervals := map[DataFetch := None, Cycle := None, Clock := None];
    }

    /** The one-second cycle handler. */
    method RunTrafficCycle()
      requires Valid()
      modifies this
      ensures Valid()
      ensures State() == Tick(old(State()))
    {
      if !analysisStarted || latestData.None? {
        return;
      }
      if countdown <= 0 {
        if lightColor == Green {
          lightColor := Yellow;
          countdown := YellowLightDuration;
          initialDuration := YellowLightDuration;
        } else if lightColor == Yellow {
          activeLane := if activeLane == A then B else A;
          lightColor := Green;
          var newDuration := if activeLane == A
            then latestData.value.laneA.greenLightDuration
            else latestData.value.laneB.greenLightDuration;
          countdown := newDuration;
          initialDuration := if newDuration == 0 then FallbackInitialDuration else newDuration;
        }
      }
      var _ := UpdateVisuals();
      countdown := countdown - 1;
    }

    /** Leaving the dashboard page: a no-op unless the clock runs, else null every slot. */
    method StopDashboard()
      requires Valid()
      modifies this
      ensures Valid()
      ensures State() == Stop(old(State()))
    {
      if intervals[Clock].None? {
        return;
      }
      var i := 0;
      while i < |SlotOrder|
        invariant 0 <= i <= |SlotOrder|
        invariant intervals.Keys == old(intervals).Keys
        invariant forall k :: k in intervals ==> intervals[k] == if k in SlotOrder[..i] then None else old(intervals)[k]
        invariant activeLane == old(activeLane) && lightColor == old(lightColor)
        invariant countdown == old(countdown) && initialDuration == old(initialDuration)
        invariant latestData == old(latestData) && analysisStarted == old(analysisStarted)
      {
        intervals := intervals[SlotOrder[i] := None];
        i := i + 1;
      }
      assert SlotOrder[..i] == SlotOrder;
      assert intervals == map k | k in old(intervals) :: None;
      analysisStarted := false;
    }

    /** Entering the dashboard page: start the clock unless it already runs. */
    method StartDashboard(clockId: TimerId)
      requires Valid()
      modifies this
      ensures Valid()
      ensures State() == Start(old(State()), clockId)
    {
      if intervals[Clock].Some? {
        return;
      }
      intervals := intervals[Clock := Some(clockId)];
    }

    /** A poll of the backend; `response` is None when the request failed. */
    method FetchTrafficData(response: Option<TrafficData>)
      requires Valid()
      modifies this
      ensures Valid()
      ensures State() == Fetch(old(State()), response)
    {
      if !analysisStarted {
        return;
      }
      if response.Some? {
        latestData := response;
      }
    }

    /**
     * An analysis request whose outcome is given: `accepted` when the backend answered
     * with success, `firstFetch` the response of the immediate poll.
     */
    method StartAnalysis(accepted: bool, firstFetch: Option<TrafficData>, fetchId: TimerId, cycleId: TimerId)
      requires Valid()
      modifies this
      ensures Valid()
      ensures State() == RequestAnalysis(old(State()), accepted, firstFetch, fetchId, cycleId)
    {
      if !accepted {
        analysisStarted := false;
        return;
      }
      analysisStarted := true;
      FetchTrafficData(firstFetch);
      intervals := intervals[DataFetch := Some(fetchId)];
      intervals := intervals[Cycle := Some(cycleId)];
    }

    /**
     * The lamps and lane cards for the current record, or None when analysis has not
     * started and the view is left as it is.
     */
    method UpdateVisuals() returns (view: Option<Visuals>)
      ensures view.None? <==> !analysisStarted
      ensures view.Some? ==>
                var v := view.value;
                && (v.redLamp <==> lightColor == Red)
                && (v.yellowLamp <==> lightColor == Yellow)
                && (v.greenLamp <==> lightColor == Green)
                && !(v.cardA.active && v.cardB.active)
                && (v.Card(activeLane).active <==> lightColor == Green)
                && !v.Card(activeLane.Other()).active
                && !v.Card(activeLane.Other()).progressNonZero
                && (v.Card(activeLane).progressNonZero <==> lightColor == Green && initialDuration > 0 && countdown != 0)
    {
      if !analysisStarted {
        return None;
      }
      var progressNonZero := lightColor == Green && initialDuration > 0 && countdown != 0;
      var cardA, cardB;
      if activeLane == A {
        cardA, cardB := LaneCard(lightColor == Green, progressNonZero), LaneCard(false, false);
      } else {
        cardA, cardB := LaneCard(false, false), LaneCard(lightColor == Green, progressNonZero);
      }
      view := Some(Visuals(lightColor == Red, lightColor == Yellow, lightColor == Green, cardA, cardB));
    }
  }
}
