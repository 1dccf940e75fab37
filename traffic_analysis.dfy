/**
 * The traffic backend's per-frame lane counting, its green-light timing, the shared
 * `traffic_data` record with its reset, and the mapping from a start request's source
 * to the capture target the analysis worker opens (app.py).
 *
 * Modelling assumption: the source computes `int(10 + ratio * 50)` with `ratio` a
 * floating-point quotient; here the duration is the exact `10 + (50 * count) / total`
 * with integer floor division, which is `floor(10 + 50 * count / total)` over the reals
 * (see GreenDurationIsFloorOfRealFormula).
 */
module TrafficAnalysis {
  import opened Wrappers

  /** Detector class ids counted as vehicles: car, motorcycle, bus, truck. */
  const VehicleClasses: seq<int> := [2, 3, 5, 7]

  const MinDuration: int := 10
  const MaxDuration: int := 60

  /** File opened for the "prerecorded" source. */
  const PrerecordedPath: string := "traffic_video.mp4"
  /** Video source name that the worker opens as camera device 0. */
  const WebcamSource: string := "webcam"

  datatype Lane = A | B {
    function Other(): (o: Lane)
      ensures o != this
    {
      if this == A then B else A
    }
  }

  /** One detector result: its class id and its box corners, already converted to int. */
  datatype Detection = Detection(classId: int, x1: int, y1: int, x2: int, y2: int)

  predicate IsVehicle(d: Detection): (b: bool)
    ensures b <==> d.classId == 2 || d.classId == 3 || d.classId == 5 || d.classId == 7
  {
    d.classId in VehicleClasses
  }

  /** Horizontal centre of a box, `(x1 + x2) / 2` with Python's true division. */
  function CentreX(d: Detection): real {
    (d.x1 + d.x2) as real / 2.0
  }

  /** The lane boundary `width // 2`; frame widths are never negative. */
  function Midline(width: nat): nat {
    width / 2
  }

  /** Lane A holds boxes whose centre lies strictly left of the midline, lane B the rest. */
  function LaneOf(d: Detection, width: nat): Lane {
    if CentreX(d) < Midline(width) as real then A else B
  }

  /** The centre test needs no fractions: it is a comparison of integers. */
  lemma LaneOfIntegerTest(d: Detection, width: nat)
    ensures LaneOf(d, width) == A <==> d.x1 + d.x2 < 2 * (width / 2)
    ensures LaneOf(d, width) == B <==> d.x1 + d.x2 >= 2 * (width / 2)
  {
  }

  // ---------------------------------------------------------------------------
  // Counting, specified over the detections of one frame
  // ---------------------------------------------------------------------------

  /** The vehicle detections of a frame, in order. */
  function Vehicles(dets: seq<Detection>): (vs: seq<Detection>)
    ensures |vs| <= |dets|
    ensures forall d :: d in vs <==> d in dets && IsVehicle(d)
    ensures forall d :: multiset(vs)[d] == if IsVehicle(d) then multiset(dets)[d] else 0
  {
    if dets == [] then []
    else
      var init, last := dets[..|dets| - 1], dets[|dets| - 1];
      assert dets == init + [last];
      if IsVehicle(last) then Vehicles(init) + [last] else Vehicles(init)
  }

  /** How many vehicle detections of a frame fall in `lane`. */
  function LaneCount(dets: seq<Detection>, width: nat, lane: Lane): (n: nat)
    ensures n <= |dets|
  {
    if dets == [] then 0
    else
      var init, last := dets[..|dets| - 1], dets[|dets| - 1];
      LaneCount(init, width, lane) + (if IsVehicle(last) && LaneOf(last, width) == lane then 1 else 0)
  }

  /** Counting a frame split in two parts is counting each part. */
  lemma {:induction false} LaneCountConcat(s: seq<Detection>, t: seq<Detection>, width: nat, lane: Lane)
    ensures LaneCount(s + t, width, lane) == LaneCount(s, width, lane) + LaneCount(t, width, lane)
    decreases |t|
  {
    if t == [] {
      assert s + t == s;
    } else {
      var init, last := t[..|t| - 1], t[|t| - 1];
      assert (s + t)[..|s + t| - 1] == s + init;
      assert (s + t)[|s + t| - 1] == last;
      LaneCountConcat(s, init, width, lane);
    }
  }

  /**
   * A detection inserted anywhere in a frame adds one to exactly one lane when it is a
   * vehicle (the lane its centre falls in), and leaves both counts alone otherwise.
   */
  lemma DetectionAddsToItsLaneOnly(pre: seq<Detection>, d: Detection, post: seq<Detection>, width: nat, lane: Lane)
    ensures LaneCount(pre + [d] + post, width, lane)
         == LaneCount(pre + post, width, lane) + (if IsVehicle(d) && LaneOf(d, width) == lane then 1 else 0)
  {
    LaneCountConcat(pre + [d], post, width, lane);
    LaneCountConcat(pre, post, width, lane);
    assert (pre + [d])[..|pre + [d]| - 1] == pre;
  }

  /** A detection whose class is not a vehicle class changes neither lane's count. */
  lemma NonVehicleIgnored(pre: seq<Detection>, d: Detection, post: seq<Detection>, width: nat)
    requires !IsVehicle(d)
    ensures LaneCount(pre + [d] + post, width, A) == LaneCount(pre + post, width, A)
    ensures LaneCount(pre + [d] + post, width, B) == LaneCount(pre + post, width, B)
  {
    DetectionAddsToItsLaneOnly(pre, d, post, width, A);
    DetectionAddsToItsLaneOnly(pre, d, post, width, B);
  }

  /** Every vehicle is counted in exactly one lane: the two counts add up to the vehicles. */
  lemma {:induction false} LaneCountsPartitionVehicles(dets: seq<Detection>, width: nat)
    ensures LaneCount(dets, width, A) + LaneCount(dets, width, B) == |Vehicles(dets)|
    decreases |dets|
  {
    if dets != [] {
      LaneCountsPartitionVehicles(dets[..|dets| - 1], width);
    }
  }

  /** The per-frame loop: both lane counters start at 0 and each vehicle bumps one of them. */
  method CountFrame(dets: seq<Detection>, width: nat) returns (countA: nat, countB: nat)
    ensures countA == LaneCount(dets, width, A) && countB == LaneCount(dets, width, B)
    ensures countA + countB == |Vehicles(dets)|
  {
    countA, countB := 0, 0;
    var i := 0;
    while i < |dets|
      invariant 0 <= i <= |dets|
      invariant countA == LaneCount(dets[..i], width, A)
      invariant countB == LaneCount(dets[..i], width, B)
    {
      var d := dets[i];
      if d.classId in VehicleClasses {
        if CentreX(d) < Midline(width) as real {
          countA := countA + 1;
        } else {
          countB := countB + 1;
        }
      }
      assert dets[..i + 1][..i] == dets[..i];
      i := i + 1;
    }
    assert dets[..i] == dets;
    LaneCountsPartitionVehicles(dets, width);
  }

  // ---------------------------------------------------------------------------
  // Green-light durations
  // ---------------------------------------------------------------------------

  /** The number of seconds the scaled part of a green phase can add to the minimum. */
  const Span: nat := MaxDuration - MinDuration

  lemma MulMonotone(a: int, b: int, c: nat)
    requires a <= b
    ensures a * c <= b * c
  {
  }

  /** n <= m implies n / t <= m / t for a positive divisor. */
  lemma DivMonotone(n: nat, m: nat, t: nat)
    requires 0 < t && n <= m
    ensures n / t <= m / t
  {
    var q1, q2 := n / t, m / t;
    assert q1 * t <= n && m < q2 * t + t;
    if q1 > q2 {
      MulMonotone(q2 + 1, q1, t);
      assert false;
    }
  }

  /** q * t <= n < (q + 1) * t pins the quotient down. */
  lemma DivUnique(n: int, t: int, q: int)
    requires t > 0 && q * t <= n < q * t + t
    ensures n / t == q
  {
    var q', r := n / t, n % t;
    assert n == q' * t + r && 0 <= r < t;
    if q' < q {
      MulMonotone(q' + 1, q, t);
    } else if q' > q {
      MulMonotone(q + 1, q', t);
    }
  }

  /** The scaled part `(count * Span) / total` lies in [0, Span] and reaches Span exactly for a full lane. */
  lemma ScaledPartBounds(count: nat, total: nat)
    requires 0 < total && count <= total
    ensures 0 <= (count * Span) / total <= Span
    ensures (count * Span) / total == Span <==> count == total
  {
    DivMonotone(count * Span, total * Span, total);
    DivUnique(total * Span, total, Span);
    if count < total {
      var q := (count * Span) / total;
      assert q * total <= count * Span;
      if q >= Span {
        MulMonotone(Span, q, total);
        assert false;
      }
    }
  }

  /**
   * `int(min + ratio * (max - min))` for a lane holding `count` of `total > 0` vehicles,
   * taken as exact floor division.
   */
  function ScaledDuration(count: nat, total: nat): (d: int)
    requires 0 < total && count <= total
    ensures MinDuration <= d <= MaxDuration
    ensures count == 0 ==> d == MinDuration
    ensures d == MaxDuration <==> count == total
  {
    ScaledPartBounds(count, total);
    MinDuration + (count * Span) / total
  }

  /**
   * Green time for a lane holding `count` vehicles while the other lane holds `other`:
   * the scaled duration when the frame has vehicles, the minimum when it has none.
   */
  function GreenDuration(count: nat, other: nat): (d: int)
    ensures MinDuration <= d <= MaxDuration
    // the `else` branch of the source's test on the frame total
    ensures count + other == 0 ==> d == MinDuration
    ensures count == 0 ==> d == MinDuration
    ensures count > 0 && other == 0 ==> d == MaxDuration
  {
    var total := count + other;
    if total > 0 then ScaledDuration(count, total) else MinDuration
  }

  /** Integer floor division agrees with the floor of the real quotient. */
  lemma RealQuotientFloor(n: nat, t: nat)
    requires t > 0
    ensures (n / t) as real <= n as real / t as real < (n / t) as real + 1.0
  {
    var q, r := n / t, n % t;
    assert n == q * t + r && 0 <= r < t;
    var tr := t as real;
    assert n as real == q as real * tr + r as real;
    assert n as real / tr == q as real + r as real / tr;
    assert 0.0 <= r as real / tr < 1.0;
  }

  /** The duration is floor(10 + (count / total) * 50), the source's formula read over the reals. */
  lemma GreenDurationIsFloorOfRealFormula(count: nat, other: nat)
    requires count + other > 0
    ensures var exact := MinDuration as real + (count as real / (count + other) as real) * Span as real;
            GreenDuration(count, other) as real <= exact < GreenDuration(count, other) as real + 1.0
  {
    var t := count + other;
    RealQuotientFloor(count * Span, t);
    assert (count as real / t as real) * Span as real == (count * Span) as real / t as real;
  }

  /**
   * With the frame's total fixed, more vehicles never mean less green time.
   */
  lemma GreenDurationMonotone(count1: nat, other1: nat, count2: nat, other2: nat)
    requires count1 + other1 == count2 + other2
    requires count1 <= count2
    ensures GreenDuration(count1, other1) <= GreenDuration(count2, other2)
  {
    var total := count1 + other1;
    if total > 0 {
      DivMonotone(count1 * Span, count2 * Span, total);
    }
  }

  /** Of the two lanes of one frame, the busier one gets at least as much green time. */
  lemma BusierLaneGetsNoLessGreen(countA: nat, countB: nat)
    requires countA >= countB
    ensures GreenDuration(countA, countB) >= GreenDuration(countB, countA)
  {
    GreenDurationMonotone(countB, countA, countA, countB);
  }

  /** Three vehicles in lane A and one in lane B give 47 and 22 seconds. */
  lemma ThreeAndOneVehicles()
    ensures GreenDuration(3, 1) == 47 && GreenDuration(1, 3) == 22
  {
  }

  // ---------------------------------------------------------------------------
  // The shared traffic_data record
  // ---------------------------------------------------------------------------

  datatype LaneData = LaneData(vehicleCount: int, greenLightDuration: int)

  datatype TrafficData = TrafficData(laneA: LaneData, laneB: LaneData, totalVehicles: int) {
    function LaneInfo(lane: Lane): LaneData {
      if lane == A then laneA else laneB
    }
  }

  /** The record at start-up and after every reset: all counts and both durations 0. */
  function InitialTrafficData(): TrafficData {
    TrafficData(LaneData(0, 0), LaneData(0, 0), 0)
  }

  /** What one processed frame leaves in the record: counts, their total and the durations. */
  predicate Published(t: TrafficData) {
    && t.laneA.vehicleCount >= 0
    && t.laneB.vehicleCount >= 0
    && t.totalVehicles == t.laneA.vehicleCount + t.laneB.vehicleCount
    && t.laneA.greenLightDuration == GreenDuration(t.laneA.vehicleCount, t.laneB.vehicleCount)
    && t.laneB.greenLightDuration == GreenDuration(t.laneB.vehicleCount, t.laneA.vehicleCount)
  }

  /** Every published record has both durations within [10, 60] and 10 for an empty frame. */
  lemma PublishedDurationsBounded(t: TrafficData)
    requires Published(t)
    ensures MinDuration <= t.laneA.greenLightDuration <= MaxDuration
    ensures MinDuration <= t.laneB.greenLightDuration <= MaxDuration
    ensures t.totalVehicles == 0 ==> t.laneA.greenLightDuration == MinDuration == t.laneB.greenLightDuration
  {
  }

  /** The reset record is not one a frame can publish: its durations are 0, below the floor of 10. */
  lemma ResetRecordBelowDurationFloor()
    ensures InitialTrafficData().laneA.greenLightDuration == 0 == InitialTrafficData().laneB.greenLightDuration
    ensures InitialTrafficData().laneA.vehicleCount == 0 == InitialTrafficData().laneB.vehicleCount
    ensures InitialTrafficData().totalVehicles == 0
    ensures InitialTrafficData().laneA.greenLightDuration < MinDuration
    ensures !Published(InitialTrafficData())
  {
  }

  /** The record the counting and timing block of one frame writes. */
  function FrameTrafficData(dets: seq<Detection>, width: nat): (t: TrafficData)
    ensures Published(t)
    ensures t.totalVehicles == |Vehicles(dets)|
    ensures t.laneA.vehicleCount == LaneCount(dets, width, A)
    ensures t.laneB.vehicleCount == LaneCount(dets, width, B)
  {
    var countA, countB := LaneCount(dets, width, A), LaneCount(dets, width, B);
    LaneCountsPartitionVehicles(dets, width);
    TrafficData(LaneData(countA, GreenDuration(countA, countB)),
                LaneData(countB, GreenDuration(countB, countA)),
                countA + countB)
  }

  // ---------------------------------------------------------------------------
  // Start requests and capture targets
  // ---------------------------------------------------------------------------

  /** What the worker hands to the capture library: a camera device index or a media path. */
  datatype CaptureTarget = CameraIndex(index: nat) | MediaFile(path: string)

  /** Python's `not source` for a string-or-missing field: missing, null or empty. */
  predicate SourceProvided(source: Option<string>) {
    source.Some? && source.value != ""
  }

  /** The worker's video source chosen from the request's source string. */
  function VideoPathFor(source: string): (path: string)
    ensures path == PrerecordedPath <==> source == "prerecorded"
    ensures path != PrerecordedPath ==> path == WebcamSource
  {
    if source == "prerecorded" then PrerecordedPath else WebcamSource
  }

  /** The worker opens "webcam" as device index 0 and anything else as a path. */
  function CaptureTargetFor(videoSource: string): (t: CaptureTarget)
    ensures t.CameraIndex? <==> videoSource == WebcamSource
    ensures t.CameraIndex? ==> t.index == 0
    ensures t.MediaFile? ==> t.path == videoSource
  {
    if videoSource == WebcamSource then CameraIndex(0) else MediaFile(videoSource)
  }

  /** The capture target a start request leads to, or None when it is refused with 400. */
  function StartTarget(source: Option<string>): (r: Option<CaptureTarget>)
    ensures r.None? <==> source == None || source == Some("")
    ensures r == Some(MediaFile(PrerecordedPath)) <==> source == Some("prerecorded")
    ensures r == Some(CameraIndex(0)) <==> SourceProvided(source) && source != Some("prerecorded")
  {
    if SourceProvided(source) then Some(CaptureTargetFor(VideoPathFor(source.value))) else None
  }

  // ---------------------------------------------------------------------------
  // The backend's mutable state
  // ---------------------------------------------------------------------------

  /**
   * The module-level state of the backend: the `traffic_data` record and the live
   * analysis worker, identified by the video source it was started with.
   */
  class TrafficAnalyzer {
    var trafficData: TrafficData
    var worker: Option<string>

    /**
     * The record invariant every method keeps: the record is either the reset value or
     * one a frame published. GetTrafficData relies on it.
     */
    ghost predicate Valid()
      reads this
    {
      trafficData == InitialTrafficData() || Published(trafficData)
    }

    constructor ()
      ensures Valid()
      ensures trafficData == InitialTrafficData() && worker == None
    {
      trafficData := InitialTrafficData();
      worker := None;
    }

    /**
     * The read behind the traffic-data endpoint: the current record, which is the reset
     * record or has both durations within [10, 60].
     */
    method GetTrafficData() returns (t: TrafficData)
      requires Valid()
      ensures t == trafficData
      ensures t == InitialTrafficData() || Published(t)
      ensures t != InitialTrafficData() ==>
                && MinDuration <= t.laneA.greenLightDuration <= MaxDuration
                && MinDuration <= t.laneB.greenLightDuration <= MaxDuration
    {
      t := trafficData;
      if t != InitialTrafficData() {
        PublishedDurationsBounded(t);
      }
    }

    /** Replaces the whole record by the zeroed one. */
    method ResetTrafficData()
      modifies this
      ensures Valid()
      ensures trafficData == InitialTrafficData()
      ensures trafficData.laneA.vehicleCount == 0 && trafficData.laneB.vehicleCount == 0
      ensures trafficData.laneA.greenLightDuration == 0 && trafficData.laneB.greenLightDuration == 0
      ensures trafficData.totalVehicles == 0
      ensures worker == old(worker)
    {
      trafficData := TrafficData(LaneData(0, 0), LaneData(0, 0), 0);
    }

    /**
     * One iteration of the worker's loop after detection: count the frame's vehicles per
     * lane and write counts, total and durations into the record field by field.
     */
    method AnalyzeFrame(dets: seq<Detection>, width: nat)
      requires worker.Some?
      modifies this
      ensures Valid()
      ensures trafficData == FrameTrafficData(dets, width)
      ensures worker == old(worker)
    {
      var countA, countB := CountFrame(dets, width);
      trafficData := trafficData.(laneA := trafficData.laneA.(vehicleCount := countA));
      trafficData := trafficData.(laneB := trafficData.laneB.(vehicleCount := countB));
      var totalVehicles := countA + countB;
      trafficData := trafficData.(totalVehicles := totalVehicles);
      if totalVehicles > 0 {
        var durationA := ScaledDuration(countA, totalVehicles);
        var durationB := ScaledDuration(countB, totalVehicles);
        trafficData := trafficData.(laneA := trafficData.laneA.(greenLightDuration := durationA));
        trafficData := trafficData.(laneB := trafficData.laneB.(greenLightDuration := durationB));
      } else {
        trafficData := trafficData.(laneA := trafficData.laneA.(greenLightDuration := MinDuration));
        trafficData := trafficData.(laneB := trafficData.laneB.(greenLightDuration := MinDuration));
      }
    }

    /**
     * A start request: stop any live worker, reset the record, and only then look at the
     * source; a missing or empty source is answered 400 with no worker left running.
     */
    method StartAnalysis(source: Option<string>) returns (status: int)
      modifies this
      ensures Valid()
      ensures trafficData == InitialTrafficData()
      ensures status == 400 <==> !SourceProvided(source)
      ensures status == 200 <==> SourceProvided(source)
      ensures !SourceProvided(source) ==> worker == None
      ensures SourceProvided(source) ==> worker.Some? && Some(CaptureTargetFor(worker.value)) == StartTarget(source)
    {
      if worker.Some? {
        worker := None;
      }
      ResetTrafficData();
      if !SourceProvided(source) {
        return 400;
      }
      worker := Some(VideoPathFor(source.value));
      status := 200;
    }
  }
}
