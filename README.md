# UrbanPluss lane timing and dashboard light cycle, in Dafny

This project models two small parts of the UrbanPluss traffic monitor.

- **Backend lane counting and green-light timing** (`app.py`), module `TrafficAnalysis` in
  `traffic_analysis.dfy`. The detector's results for one frame are a sequence of
  `Detection(classId, x1, y1, x2, y2)`. Only class ids 2, 3, 5 and 7 (car, motorcycle, bus,
  truck) count as vehicles. A vehicle whose box centre lies strictly left of `width // 2` goes
  to lane A, any other vehicle to lane B. Each lane gets `10 + (50 * count) / total` seconds of
  green, and 10 when the frame has no vehicles. The module also holds the shared `traffic_data`
  record with its reset, and the start request's mapping from source string to capture target.
  Class `TrafficAnalyzer` holds the record and the live worker as fields. Its methods write
  them as the source does: field by field after a frame, all at once on a reset, and on a start
  request the worker is stopped and the record reset before the source is looked at.
- **Dashboard traffic-light state machine** (`script.js`), module `Dashboard` in
  `dashboard.dfy`. `DashboardState` is the page's `dashboardState` record. `Tick`, `Stop`,
  `Start`, `Fetch` and `RequestAnalysis` are its handlers as functions, and `Run` applies any
  sequence of them from the initial record. Class `DashboardController` keeps the record in
  fields. Each of its methods is proved to change the fields exactly as the matching function
  says. `UpdateVisuals` derives the lamps and the two lane cards.

`wrappers.dfy` holds the `Option` type (JavaScript `null`, a missing JSON field).

Modelling assumption: the source computes `int(10 + ratio * 50)` with a floating-point
`ratio`. The model uses exact integer floor division. `GreenDurationIsFloorOfRealFormula`
proves that this is `floor(10 + (count / total) * 50)` over the real numbers.

Two behaviours of the code are worth knowing:

- The initial and reset record (`app.py` lines 24-37) has durations 0, outside [10, 60].
  `ResetRecordBelowDurationFloor` states this. `ZeroAllotmentGreenForOneTick` shows that the
  dashboard then keeps green for one tick only.
- A start request stops the running worker and resets the record before it refuses a missing
  or empty source with 400 (`app.py` lines 132-141). Every other non-empty string, not only
  "webcam", starts the camera.
- Leaving the dashboard page stops the timers only when the clock slot holds a handle
  (`script.js` lines 95-96). A request that completes after the user has left the dashboard
  leaves the cycle and the poll running, and leaving the page again does not stop them.
  `LateRequestOutlivesLeavingThePage` states this.

## Model

| member | source | states |
|---|---|---|
| `TrafficAnalysis.IsVehicle` | app.py:73 | a detection is a vehicle exactly when its class id is 2, 3, 5 or 7 |
| `TrafficAnalysis.LaneOf` | app.py:75-83 | the lane of a box: A when its centre is strictly left of `width // 2`, else B; `LaneOfIntegerTest` gives the integer form |
| `TrafficAnalysis.LaneOfIntegerTest` | app.py:75-83 | a detection is in lane A exactly when `x1 + x2 < 2 * (width // 2)`, otherwise in lane B |
| `TrafficAnalysis.Vehicles` | app.py:71-74 | the vehicles of a frame are exactly its vehicle detections, each kept as often as it occurs in the frame |
| `TrafficAnalysis.LaneCount` | app.py:71-83 | a lane's count never exceeds the number of detections |
| `TrafficAnalysis.LaneCountConcat` | app.py:71-83 | counting is additive over the detections: the two parts of a split frame add up |
| `TrafficAnalysis.DetectionAddsToItsLaneOnly` | app.py:73-83 | a detection anywhere in the frame adds 1 to the lane of its centre if it is a vehicle, and 0 to the other lane |
| `TrafficAnalysis.NonVehicleIgnored` | app.py:73 | a detection whose class id is not a vehicle class leaves both lane counts unchanged |
| `TrafficAnalysis.LaneCountsPartitionVehicles` | app.py:80-89 | every vehicle lands in exactly one lane: lane A's count plus lane B's count is the number of vehicles |
| `TrafficAnalysis.CountFrame` | app.py:64-83 | the counting loop returns each lane's count, and the two add up to the number of vehicle detections |
| `TrafficAnalysis.ScaledDuration` | app.py:92-97 | with vehicles present, a lane's duration is in [10, 60], 10 for an empty lane, and 60 exactly when the lane holds them all |
| `TrafficAnalysis.GreenDuration` | app.py:92-100 | every duration is in [10, 60], both are 10 when the frame has no vehicles, 60 for the lane holding all of them |
| `TrafficAnalysis.GreenDurationIsFloorOfRealFormula` | app.py:94-97 | the integer duration is the floor of `10 + (count / total) * 50` over the reals |
| `TrafficAnalysis.GreenDurationMonotone` | app.py:94-97 | with the frame total fixed, a lane with more vehicles gets a duration at least as large |
| `TrafficAnalysis.BusierLaneGetsNoLessGreen` | app.py:94-97 | of the two lanes of a frame, the one with more vehicles gets at least as much green |
| `TrafficAnalysis.ThreeAndOneVehicles` | app.py:94-97 | counts 3 and 1 give durations 47 and 22 |
| `TrafficAnalysis.FrameTrafficData` | app.py:86-100 | the record a frame writes has each lane's count, their sum as total (the number of vehicles), and the durations of those counts |
| `TrafficAnalysis.InitialTrafficData` | app.py:24-37 | the start-up and reset record; `ResetRecordBelowDurationFloor` states its durations are 0 |
| `TrafficAnalysis.PublishedDurationsBounded` | app.py:92-100 | a record written by a frame has both durations in [10, 60], and both 10 when its total is 0 |
| `TrafficAnalysis.ResetRecordBelowDurationFloor` | app.py:30-37 | the reset record has counts, total and both durations 0, so it is not one a frame can write |
| `TrafficAnalysis.VideoPathFor` | app.py:144 | "prerecorded" maps to `traffic_video.mp4`, every other source to "webcam" |
| `TrafficAnalysis.CaptureTargetFor` | app.py:49 | "webcam" opens camera device index 0, any other video source is opened as a path |
| `TrafficAnalysis.StartTarget` | app.py:138-144 | a missing or empty source is refused; "prerecorded" opens `traffic_video.mp4`; any other string opens camera device 0 |
| `TrafficAnalysis.TrafficAnalyzer.constructor` | app.py:24-28 | the record starts with all counts and durations 0 and no worker |
| `TrafficAnalysis.TrafficAnalyzer.GetTrafficData` | app.py:151-154 | the endpoint returns the current record, which is the reset record or one with both durations in [10, 60] |
| `TrafficAnalysis.TrafficAnalyzer.ResetTrafficData` | app.py:30-37 | the whole record is replaced: both counts, both durations and the total become 0 |
| `TrafficAnalysis.TrafficAnalyzer.AnalyzeFrame` | app.py:64-100 | a frame is written only while a worker is live; afterwards the record holds exactly that frame's counts, total and durations, and stays well formed |
| `TrafficAnalysis.TrafficAnalyzer.StartAnalysis` | app.py:128-149 | the old worker is stopped and the record reset in every case; a missing or empty source then gets 400 and no worker, any other source gets 200 and a worker on the mapped capture target |
| `Dashboard.InitialState` | script.js:35-47 | the record the page starts with; `InitialStateSatisfiesInv` states it is lane A, green, with three empty slots |
| `Dashboard.Tick` | script.js:159-181 | one cycle tick; its behaviour is stated by `TickIdleLeavesStateUnchanged`, `TickCountsDown`, `TickGreenToYellow` and `TickYellowToGreen` |
| `Dashboard.TickIdleLeavesStateUnchanged` | script.js:160 | before analysis starts or data arrives, a tick leaves the whole record unchanged |
| `Dashboard.TickCountsDown` | script.js:162-180 | with time left, a tick keeps lane and colour and lowers the countdown by exactly 1 |
| `Dashboard.TickGreenToYellow` | script.js:163-166 | green run out turns yellow on the same lane, full width 3, countdown left at 2; every other field is kept |
| `Dashboard.TickYellowToGreen` | script.js:167-176 | yellow run out switches lane and turns green, countdown at the new lane's duration minus 1, full width that duration or 10 when it is 0; every other field is kept |
| `Dashboard.CountdownRunsDown` | script.js:180 | k ticks with at least k seconds left lower the countdown by k and change nothing else |
| `Dashboard.YellowLastsThreeTicks` | script.js:162-180 | after green runs out, three ticks show yellow on the same lane and the fourth gives green to the other lane |
| `Dashboard.GreenLastsAllottedTime` | script.js:167-180 | a lane allotted d >= 1 seconds shows green for exactly d ticks and then turns yellow |
| `Dashboard.ZeroAllotmentGreenForOneTick` | script.js:171-176 | a lane allotted 0 seconds shows green for one tick, with countdown -1 and full width 10 |
| `Dashboard.PublishedDataGivesGreenOf10To60Ticks` | script.js:171-175 | with a record the backend wrote for a frame, each green phase lasts between 10 and 60 ticks |
| `Dashboard.Stop` | script.js:95-104 | leaving the dashboard page; stated by `StopClearsSlots` and `StopIdempotent` |
| `Dashboard.Start` | script.js:89-93 | entering the dashboard page; stated by `StartFillsOnlyTheClockSlot` and `StartIdempotent` |
| `Dashboard.Fetch` | script.js:139-157 | a data poll; stated by `FetchTakesSuccessfulResponse` |
| `Dashboard.FetchTakesSuccessfulResponse` | script.js:139-157 | a poll replaces the latest data exactly when analysis has started and the poll succeeded, and changes nothing else |
| `Dashboard.RequestAnalysis` | script.js:110-137 | an analysis request with its outcome given; stated by `RequestAnalysisOutcome` |
| `Dashboard.RequestAnalysisOutcome` | script.js:117-136 | an accepted request starts analysis, takes a successful first poll and fills the poll and cycle slots; a failed one only clears `analysisStarted`; light, lane and countdown are kept |
| `Dashboard.StopClearsSlots` | script.js:95-104 | stop is a no-op while the clock slot is empty; otherwise it empties all three slots, clears `analysisStarted`, and keeps light, lane and data |
| `Dashboard.StopIdempotent` | script.js:95-104 | stopping twice is the same as stopping once |
| `Dashboard.StartFillsOnlyTheClockSlot` | script.js:89-93 | a running clock is left alone; otherwise the clock slot receives the new handle, every other slot is kept and no other field changes |
| `Dashboard.StartIdempotent` | script.js:89-93 | starting twice keeps the first clock handle: the same as starting once |
| `Dashboard.StoppedDashboardIgnoresTicks` | script.js:160 | after a stop that finds the clock running, the cycle tick no longer changes the record |
| `Dashboard.LateRequestOutlivesLeavingThePage` | script.js:95-96 | a request accepted after the user has left the dashboard leaves the poll and cycle slots filled with the clock slot empty; leaving again changes nothing and the cycle keeps ticking |
| `Dashboard.InitialStateSatisfiesInv` | script.js:35-47 | the initial record is lane A, green, with three empty slots, analysis not started and no data, and satisfies the invariant |
| `Dashboard.StepPreservesInv` | script.js:159-181 | every handler keeps the light green or yellow, and yellow at full width 3 with 0 to 2 ticks left |
| `Dashboard.RunPreservesInv` | script.js:159-181 | any sequence of handler calls keeps the invariant |
| `Dashboard.ReachableStatesNeverRed` | script.js:163-169 | from the initial record, no sequence of events ever makes the light red |
| `Dashboard.DashboardController.constructor` | script.js:35-47 | the fields start as the initial record |
| `Dashboard.DashboardController.RunTrafficCycle` | script.js:159-181 | the fields change exactly as one tick says, and the invariant is kept |
| `Dashboard.DashboardController.StopDashboard` | script.js:95-104 | the slot-clearing loop leaves the fields exactly as a stop says |
| `Dashboard.DashboardController.StartDashboard` | script.js:89-93 | the clock slot is filled only when it was empty |
| `Dashboard.DashboardController.FetchTrafficData` | script.js:139-157 | a successful poll after analysis has started replaces the latest data; nothing else changes |
| `Dashboard.DashboardController.StartAnalysis` | script.js:110-137 | an accepted request starts analysis, takes the first poll and fills the poll and cycle slots; a failed one clears `analysisStarted` |
| `Dashboard.DashboardController.UpdateVisuals` | script.js:183-204 | one lamp shows the light colour; at most one lane card is active, only the active lane's and only while green; the other lane's progress is 0 |

## Left out

- Threads, the stop event, `join` and `frame_lock` (`app.py`): they coordinate concurrency; what that leaves out for the record is on the next line. The worker is one field holding the video source of the live worker.
- TrafficAnalysis.TrafficAnalyzer.AnalyzeFrame and TrafficAnalysis.TrafficAnalyzer.GetTrafficData: a frame's writes to the record are taken as one step. In the source `frame_lock` guards only the output frame (`app.py` lines 103-104, 112): the worker writes the record field by field without a lock (lines 86-100) and the endpoint reads it without one (line 154), so the endpoint can return a partly written record (for example counts 3 and 1 with both durations still 0). `Valid` and the bound `GetTrafficData` promises hold only under the one-step reading.
- Video capture, seeking back to the start, drawing rectangles, JPEG encoding and `generate_video_stream`: these are calls into OpenCV. A capture that fails to open is not modelled, so the worker stays recorded as live.
- The YOLO detector call: a frame's detections are an input sequence. The nesting of results and boxes is flattened into one sequence in the same order.
- Flask routes, JSON bodies and CORS. The start request's response is only its status code. `get_traffic_data` is a plain read of the record.
- TrafficAnalysis.StartTarget: a `source` field holding a non-string JSON value (a number, `false`, a list) is not modelled. The source is either missing or a string.
- TrafficAnalysis.ScaledDuration: floating-point rounding in `int(10 + ratio * 50)` is replaced by exact floor division.
- Everything in `script.js` that touches the DOM, the clock text, login and page animations, `setTimeout`, `setInterval` and `clearInterval`. Interval handles are inputs of the handlers that store them.
- `fetch` in `startAnalysis` and `fetchTrafficData`: its outcome is an input (accepted or not; a response or none). An analysis request runs as one step, without other events between its awaits.
- Dashboard.Fetch and Dashboard.DashboardController.FetchTrafficData: a poll is taken as one step. The source tests `analysisStarted` when the poll is sent (`script.js` line 140) and stores the response when it arrives (line 146), so a response that arrives after a stop or a failed request is still stored in the source and is dropped in the model.
- The floating-point `progressPercent` value: only whether it is non-zero is modelled.
- The overlap-based accident detector and a multi-pipeline controller: neither is part of these two files.
