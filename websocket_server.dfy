/** The streaming session (`websocket_endpoint`) and the detection filter it runs on sampled
    frames (`process_frame_with_models`).

    Time is in whole milliseconds. The models are given functions from a frame to its rows;
    each send's outcome and how long the frame send took are inputs of the iteration. */
module StreamSession {
  import opened Common
  import opened FrameQueue
  import opened Boxes
  import Config
  import Camera
  import VideoFile

  // ---------------------------------------------------------------------------
  // Filtering one sampled frame

  /** A kept detection: road ones carry their `type`, standard ones do not. */
  datatype Detection = Detection(box: RawBox, className: string, model: string, kind: Option<string>)

  /** One `hazard_distances` entry. */
  datatype HazardDistance = HazardDistance(className: string, distance: real, box: RawBox, inLane: bool)

  /** The standard model keeps a tracked class at confidence 0.5 or more. */
  const StandardMinConf: real := 0.5

  /** A road row is kept iff its class has a threshold and its confidence reaches it. */
  predicate RoadKeep(b: RawBox) {
    ThresholdKey(b.cls) in Config.DetectionThresholds && b.conf >= Config.DetectionThresholds[ThresholdKey(b.cls)]
  }

  predicate StandardKeep(names: Names, b: RawBox) {
    Tracked(ClassName(names, b.cls)) && b.conf >= StandardMinConf
  }

  function RoadDetection(names: Names, b: RawBox): Detection {
    Detection(b, ClassName(names, b.cls), "road", Some(ClassName(names, b.cls)))
  }

  function StandardDetection(names: Names, b: RawBox): Detection {
    Detection(b, ClassName(names, b.cls), "standard", None)
  }

  /** The kept road rows, in order. */
  function RoadDetections(names: Names, rows: seq<RawBox>): seq<Detection>
    decreases |rows|
  {
    if rows == [] then []
    else
      var rest := RoadDetections(names, rows[..|rows| - 1]);
      var b := rows[|rows| - 1];
      if RoadKeep(b) then rest + [RoadDetection(names, b)] else rest
  }

  /** The kept standard rows, in order. */
  function StandardDetections(names: Names, rows: seq<RawBox>): seq<Detection>
    decreases |rows|
  {
    if rows == [] then []
    else
      var rest := StandardDetections(names, rows[..|rows| - 1]);
      var b := rows[|rows| - 1];
      if StandardKeep(names, b) then rest + [StandardDetection(names, b)] else rest
  }

  function Distance(names: Names, estimate: Estimator, width: nat, b: RawBox): HazardDistance {
    var name := ClassName(names, b.cls);
    HazardDistance(name, estimate(name, b.x2 - b.x1, width), b, InLane(width, b))
  }

  /** One distance entry per kept standard row. */
  function Distances(names: Names, estimate: Estimator, width: nat, rows: seq<RawBox>): seq<HazardDistance>
    decreases |rows|
  {
    if rows == [] then []
    else
      var rest := Distances(names, estimate, width, rows[..|rows| - 1]);
      var b := rows[|rows| - 1];
      if StandardKeep(names, b) then rest + [Distance(names, estimate, width, b)] else rest
  }

  /** The number of detections whose box centre is in the driver's lane. */
  function LaneCount(width: nat, ds: seq<Detection>): (n: nat)
    ensures n <= |ds|
    decreases |ds|
  {
    if ds == [] then 0
    else LaneCount(width, ds[..|ds| - 1]) + (if InLane(width, ds[|ds| - 1].box) then 1 else 0)
  }

  /** The road filter keeps exactly potholes (class 0) from 0.40 and speed bumps (class 1) from 0.60. */
  lemma RoadKeepIff(b: RawBox)
    ensures RoadKeep(b) <==> (b.cls == 0 && b.conf >= 0.40) || (b.cls == 1 && b.conf >= 0.60)
  {
    ThresholdKeyKnown(b.cls);
    assert ThresholdKey(0) == "class_0" && ThresholdKey(1) == "class_1";
  }

  /** The road results over one more row. */
  lemma RoadSnoc(names: Names, rows: seq<RawBox>, b: RawBox)
    ensures RoadDetections(names, rows + [b]) ==
      RoadDetections(names, rows) + (if RoadKeep(b) then [RoadDetection(names, b)] else [])
  {
    assert (rows + [b])[..|rows|] == rows;
  }

  /** The standard results over one more row. */
  lemma StandardSnoc(names: Names, rows: seq<RawBox>, b: RawBox)
    ensures StandardDetections(names, rows + [b]) ==
      StandardDetections(names, rows) + (if StandardKeep(names, b) then [StandardDetection(names, b)] else [])
  {
    assert (rows + [b])[..|rows|] == rows;
  }

  /** The distances over one more row. */
  lemma DistancesSnoc(names: Names, estimate: Estimator, width: nat, rows: seq<RawBox>, b: RawBox)
    ensures Distances(names, estimate, width, rows + [b]) ==
      Distances(names, estimate, width, rows) + (if StandardKeep(names, b) then [Distance(names, estimate, width, b)] else [])
  {
    assert (rows + [b])[..|rows|] == rows;
  }

  /** The road filter as a keep-and-map over the rows. */
  lemma {:induction false} RoadIsFilterMap(names: Names, rows: seq<RawBox>)
    ensures RoadDetections(names, rows) == FilterMap(rows, b => RoadKeep(b), b => RoadDetection(names, b))
    decreases |rows|
  {
    if rows != [] {
      RoadIsFilterMap(names, rows[..|rows| - 1]);
    }
  }

  /** The standard filter as a keep-and-map over the rows. */
  lemma {:induction false} StandardIsFilterMap(names: Names, rows: seq<RawBox>)
    ensures StandardDetections(names, rows) == FilterMap(rows, b => StandardKeep(names, b), b => StandardDetection(names, b))
    decreases |rows|
  {
    if rows != [] {
      StandardIsFilterMap(names, rows[..|rows| - 1]);
    }
  }

  lemma RoadDetectionsMembers(names: Names, rows: seq<RawBox>, d: Detection)
    ensures d in RoadDetections(names, rows) <==>
      exists i :: 0 <= i < |rows| && RoadKeep(rows[i]) && d == RoadDetection(names, rows[i])
  {
    var keep := b => RoadKeep(b);
    var f := b => RoadDetection(names, b);
    RoadIsFilterMap(names, rows);
    FilterMapMembers(rows, keep, f, d);
    if d in RoadDetections(names, rows) {
      var i :| 0 <= i < |rows| && keep(rows[i]) && d == f(rows[i]);
      assert RoadKeep(rows[i]) && d == RoadDetection(names, rows[i]);
    }
    if exists i :: 0 <= i < |rows| && RoadKeep(rows[i]) && d == RoadDetection(names, rows[i]) {
      var i :| 0 <= i < |rows| && RoadKeep(rows[i]) && d == RoadDetection(names, rows[i]);
      assert keep(rows[i]) && d == f(rows[i]);
    }
  }

  lemma StandardDetectionsMembers(names: Names, rows: seq<RawBox>, d: Detection)
    ensures d in StandardDetections(names, rows) <==>
      exists i :: 0 <= i < |rows| && StandardKeep(names, rows[i]) && d == StandardDetection(names, rows[i])
  {
    var keep := b => StandardKeep(names, b);
    var f := b => StandardDetection(names, b);
    StandardIsFilterMap(names, rows);
    FilterMapMembers(rows, keep, f, d);
    if d in StandardDetections(names, rows) {
      var i :| 0 <= i < |rows| && keep(rows[i]) && d == f(rows[i]);
      assert StandardKeep(names, rows[i]) && d == StandardDetection(names, rows[i]);
    }
    if exists i :: 0 <= i < |rows| && StandardKeep(names, rows[i]) && d == StandardDetection(names, rows[i]) {
      var i :| 0 <= i < |rows| && StandardKeep(names, rows[i]) && d == StandardDetection(names, rows[i]);
      assert keep(rows[i]) && d == f(rows[i]);
    }
  }

  /** `hazard_distances` runs parallel to the kept standard detections: same class, same box,
      and the lane flag is the lane test of that box. */
  lemma {:induction false} DistancesMatch(names: Names, estimate: Estimator, width: nat, rows: seq<RawBox>)
    ensures |Distances(names, estimate, width, rows)| == |StandardDetections(names, rows)|
    ensures forall i :: 0 <= i < |Distances(names, estimate, width, rows)| ==>
      Distances(names, estimate, width, rows)[i].className == StandardDetections(names, rows)[i].className
      && Distances(names, estimate, width, rows)[i].box == StandardDetections(names, rows)[i].box
      && Distances(names, estimate, width, rows)[i].inLane == InLane(width, StandardDetections(names, rows)[i].box)
    decreases |rows|
  {
    if rows != [] {
      DistancesMatch(names, estimate, width, rows[..|rows| - 1]);
    }
  }

  /** Counting the lane over a concatenation adds the counts. */
  lemma {:induction false} LaneCountConcat(width: nat, a: seq<Detection>, b: seq<Detection>)
    ensures LaneCount(width, a + b) == LaneCount(width, a) + LaneCount(width, b)
    decreases |b|
  {
    if b != [] {
      assert (a + b)[..|a + b| - 1] == a + b[..|b| - 1];
      LaneCountConcat(width, a, b[..|b| - 1]);
    } else {
      assert a + b == a;
    }
  }

  /** One row of the road loop: the row's detection is appended when it passes, and counted
      when its centre is in the lane. */
  method RoadRow(width: nat, names: Names, rows: seq<RawBox>, i: nat, results: seq<Detection>, laneCount: nat)
      returns (results': seq<Detection>, laneCount': nat)
    requires i < |rows| && results == RoadDetections(names, rows[..i]) && laneCount == LaneCount(width, results)
    ensures results' == RoadDetections(names, rows[..i + 1]) && laneCount' == LaneCount(width, results')
  {
    assert rows[..i + 1] == rows[..i] + [rows[i]];
    RoadSnoc(names, rows[..i], rows[i]);
    var b := rows[i];
    results', laneCount' := results, laneCount;
    if RoadKeep(b) {
      var d := RoadDetection(names, b);
      assert (results + [d])[..|results|] == results;
      results' := results + [d];
      if LeftBoundary(width) as real <= CenterX(b) <= RightBoundary(width) as real {
        laneCount' := laneCount + 1;
      }
    }
  }

  /** The road loop of `process_frame_with_models`. */
  method FilterRoad(width: nat, names: Names, rows: seq<RawBox>) returns (results: seq<Detection>, laneCount: nat)
    ensures results == RoadDetections(names, rows)
    ensures laneCount == LaneCount(width, results)
  {
    results, laneCount := [], 0;
    var i := 0;
    while i < |rows|
      invariant 0 <= i <= |rows|
      invariant results == RoadDetections(names, rows[..i])
      invariant laneCount == LaneCount(width, results)
    {
      results, laneCount := RoadRow(width, names, rows, i, results, laneCount);
      i := i + 1;
    }
    assert rows[..|rows|] == rows;
  }

  /** One more standard row: its detection and its distance entry are added together, or neither. */
  lemma StandardStep(width: nat, names: Names, rows: seq<RawBox>, estimate: Estimator, i: nat)
    requires i < |rows|
    ensures StandardDetections(names, rows[..i + 1]) ==
      StandardDetections(names, rows[..i]) + (if StandardKeep(names, rows[i]) then [StandardDetection(names, rows[i])] else [])
    ensures Distances(names, estimate, width, rows[..i + 1]) ==
      Distances(names, estimate, width, rows[..i]) + (if StandardKeep(names, rows[i]) then [Distance(names, estimate, width, rows[i])] else [])
  {
    assert rows[..i + 1] == rows[..i] + [rows[i]];
    StandardSnoc(names, rows[..i], rows[i]);
    DistancesSnoc(names, estimate, width, rows[..i], rows[i]);
  }

  /** The standard loop of `process_frame_with_models`. */
  method FilterStandard(width: nat, names: Names, rows: seq<RawBox>, estimate: Estimator)
      returns (results: seq<Detection>, laneCount: nat, distances: seq<HazardDistance>)
    ensures results == StandardDetections(names, rows)
    ensures laneCount == LaneCount(width, results)
    ensures distances == Distances(names, estimate, width, rows)
  {
    results, laneCount, distances := [], 0, [];
    var i := 0;
    while i < |rows|
      invariant 0 <= i <= |rows|
      invariant results == StandardDetections(names, rows[..i])
      invariant laneCount == LaneCount(width, results)
      invariant distances == Distances(names, estimate, width, rows[..i])
    {
      StandardStep(width, names, rows, estimate, i);
      var b := rows[i];
      if StandardKeep(names, b) {
        var d := StandardDetection(names, b);
        assert (results + [d])[..|results|] == results;
        results := results + [d];
        var entry := Distance(names, estimate, width, b);
        distances := distances + [entry];
        if entry.inLane {
          laneCount := laneCount + 1;
        }
      }
      i := i + 1;
    }
    assert rows[..|rows|] == rows;
  }

  /** `process_frame_with_models` after inference: the kept rows of both models, the lane count
      over all of them, and the distances of the standard ones. */
  method FilterFrame(width: nat, roadNames: Names, road: seq<RawBox>, standardNames: Names, standard: seq<RawBox>,
                     estimate: Estimator)
      returns (results: seq<Detection>, laneCount: nat, distances: seq<HazardDistance>)
    ensures results == RoadDetections(roadNames, road) + StandardDetections(standardNames, standard)
    ensures laneCount == LaneCount(width, results)
    ensures distances == Distances(standardNames, estimate, width, standard)
  {
    var roadResults, roadLane := FilterRoad(width, roadNames, road);
    var standardResults, standardLane, dists := FilterStandard(width, standardNames, standard, estimate);
    LaneCountConcat(width, roadResults, standardResults);
    results := roadResults + standardResults;
    laneCount := roadLane + standardLane;
    distances := dists;
  }

  // ---------------------------------------------------------------------------
  // Frame pacing

  /** `frame_interval_s` starts at 0.06 s and is kept within [0.05, 0.20] s. */
  const StartInterval: int := 60
  const MinInterval: int := 50
  const MaxInterval: int := 200
  /** Send times above this slow the stream down by `SlowDownStep`... */
  const SlowSend: int := 100
  const SlowDownStep: int := 20
  /** ... and below this speed it up by `SpeedUpStep`. */
  const FastSend: int := 20
  const SpeedUpStep: int := 5

  /** `json_interval_s` and `ping_interval_s`. */
  const JsonInterval: int := 200
  const PingInterval: int := 20000
  /** `detect_interval`: detection runs on every second frame sent. */
  const DetectInterval: nat := 2

  function Min(a: int, b: int): int { if a <= b then a else b }
  function Max(a: int, b: int): int { if a >= b then a else b }

  /** The interval after a frame send that took `sendTime` ms. */
  function Pace(interval: int, sendTime: int): (r: int)
    ensures MinInterval <= interval <= MaxInterval ==> MinInterval <= r <= MaxInterval
    ensures sendTime > SlowSend ==> (r == interval + SlowDownStep || r == MaxInterval) && (interval <= MaxInterval ==> r >= interval)
    ensures sendTime < FastSend ==> (r == interval - SpeedUpStep || r == MinInterval) && (interval >= MinInterval ==> r <= interval)
    ensures FastSend <= sendTime <= SlowSend ==> r == interval
  {
    if sendTime > SlowSend then Min(MaxInterval, interval + SlowDownStep)
    else if sendTime < FastSend then Max(MinInterval, interval - SpeedUpStep)
    else interval
  }

  /** The interval after a run of frame sends. */
  function PaceAll(interval: int, sendTimes: seq<int>): int
    decreases |sendTimes|
  {
    if sendTimes == [] then interval
    else Pace(PaceAll(interval, sendTimes[..|sendTimes| - 1]), sendTimes[|sendTimes| - 1])
  }

  /** Whatever the send times, a session's interval never leaves [0.05, 0.20] s. */
  lemma {:induction false} PaceAllBounds(sendTimes: seq<int>)
    ensures MinInterval <= PaceAll(StartInterval, sendTimes) <= MaxInterval
    decreases |sendTimes|
  {
    if sendTimes != [] {
      PaceAllBounds(sendTimes[..|sendTimes| - 1]);
    }
  }

  /** A run of slow sends raises the interval by 0.02 s each, until it reaches 0.20 s. */
  lemma {:induction false} SlowSendsRaise(interval: int, sendTimes: seq<int>)
    requires MinInterval <= interval <= MaxInterval
    requires forall k :: 0 <= k < |sendTimes| ==> sendTimes[k] > SlowSend
    ensures PaceAll(interval, sendTimes) == Min(MaxInterval, interval + SlowDownStep * |sendTimes|)
    decreases |sendTimes|
  {
    if sendTimes != [] {
      SlowSendsRaise(interval, sendTimes[..|sendTimes| - 1]);
    }
  }

  /** A run of fast sends lowers the interval by 0.005 s each, until it reaches 0.05 s. */
  lemma {:induction false} FastSendsLower(interval: int, sendTimes: seq<int>)
    requires MinInterval <= interval <= MaxInterval
    requires forall k :: 0 <= k < |sendTimes| ==> sendTimes[k] < FastSend
    ensures PaceAll(interval, sendTimes) == Max(MinInterval, interval - SpeedUpStep * |sendTimes|)
    decreases |sendTimes|
  {
    if sendTimes != [] {
      FastSendsLower(interval, sendTimes[..|sendTimes| - 1]);
    }
  }

  /** Of two consecutive frames sent, exactly one runs detection. */
  lemma SamplingAlternates(frameIndex: nat)
    ensures (frameIndex % DetectInterval == 0) != ((frameIndex + 1) % DetectInterval == 0)
  {
  }

  // ---------------------------------------------------------------------------
  // Telemetry

  /** `detection.get('type', '')` */
  function TypeOf(d: Detection): string {
    if d.kind.Some? then d.kind.value else ""
  }

  /** `any(detection.get('type', '').lower() == 'pothole' for detection in results)` */
  function AnyPothole(results: seq<Detection>): (b: bool)
    ensures b <==> exists i :: 0 <= i < |results| && Lower(TypeOf(results[i])) == "pothole"
    decreases |results|
  {
    if results == [] then false
    else
      var rest := AnyPothole(results[..|results| - 1]);
      assert forall i :: 0 <= i < |results| - 1 ==> results[..|results| - 1][i] == results[i];
      rest || Lower(TypeOf(results[|results| - 1])) == "pothole"
  }

  /** The JSON telemetry message. */
  datatype Telemetry = Telemetry(hazardCount: nat, laneCount: nat, distances: seq<HazardDistance>,
                                 hazardType: string, mode: string, videoProgress: Option<real>)

  /** `any` over a concatenation. */
  lemma AnyPotholeConcat(a: seq<Detection>, b: seq<Detection>)
    ensures AnyPothole(a + b) <==> AnyPothole(a) || AnyPothole(b)
  {
    if AnyPothole(a + b) {
      var i :| 0 <= i < |a + b| && Lower(TypeOf((a + b)[i])) == "pothole";
      if i < |a| {
        assert (a + b)[i] == a[i];
      } else {
        assert (a + b)[i] == b[i - |a|];
      }
    }
    if AnyPothole(a) {
      var i :| 0 <= i < |a| && Lower(TypeOf(a[i])) == "pothole";
      assert (a + b)[i] == a[i];
    }
    if AnyPothole(b) {
      var i :| 0 <= i < |b| && Lower(TypeOf(b[i])) == "pothole";
      assert (a + b)[|a| + i] == b[i];
    }
  }

  /** Standard detections carry no type, so only a road detection can make the telemetry say "pothole". */
  lemma PotholeOnlyFromRoad(roadNames: Names, road: seq<RawBox>, standardNames: Names, standard: seq<RawBox>)
    ensures AnyPothole(RoadDetections(roadNames, road) + StandardDetections(standardNames, standard))
        <==> AnyPothole(RoadDetections(roadNames, road))
  {
    var s := StandardDetections(standardNames, standard);
    AnyPotholeConcat(RoadDetections(roadNames, road), s);
    if AnyPothole(s) {
      var i :| 0 <= i < |s| && Lower(TypeOf(s[i])) == "pothole";
      StandardDetectionsMembers(standardNames, standard, s[i]);
      assert false;
    }
  }

  // ---------------------------------------------------------------------------
  // The session

  /** The model pipeline the session runs: the two models' rows for a frame, their class
      names, and the distance estimator. */
  datatype Models = Models(road: Frame -> seq<RawBox>, roadNames: Names,
                           standard: Frame -> seq<RawBox>, standardNames: Names, estimate: Estimator)

  /** What the sends of one iteration do: whether the frame, the telemetry and the ping go
      through, and how long the frame send took. */
  datatype Io = Io(frameOk: bool, sendTime: int, jsonOk: bool, pingOk: bool)

  /** What the client receives in one iteration: the frame (annotated when detection ran),
      the telemetry message, the keepalive. */
  datatype Sent = Sent(frame: Option<Frame>, annotated: bool, telemetry: Option<Telemetry>, ping: bool)

  /** The newest frame of a slot's contents, which the drain keeps. */
  function Latest(items: seq<Frame>): Option<Frame> {
    if items == [] then None else Some(items[|items| - 1])
  }

  /** `while not queue.empty(): frame = queue.get()`: empties the slot, keeping the newest frame. */
  method Drain(slot: FrameSlot) returns (frame: Option<Frame>)
    requires slot.Valid()
    modifies slot
    ensures slot.Valid() && slot.items == [] && frame == Latest(old(slot.items))
  {
    frame := None;
    ghost var taken := 0;
    while !slot.IsEmpty()
      invariant slot.Valid() && 0 <= taken <= |old(slot.items)|
      invariant slot.items == old(slot.items)[taken..]
      invariant frame == Latest(old(slot.items)[..taken])
      decreases |slot.items|
    {
      var f := slot.GetNowait();
      frame := f;
      taken := taken + 1;
    }
    assert old(slot.items)[..taken] == old(slot.items);
  }

  /** The frame the drain yields: from the video slot in video mode, else from the camera
      slot while the camera is available. */
  function Waiting(mode: string, cameraAvailable: bool, cameraItems: seq<Frame>, videoItems: seq<Frame>): Option<Frame> {
    if mode == "video" then Latest(videoItems)
    else if cameraAvailable then Latest(cameraItems)
    else None
  }

  /** A frame is waiting and the interval since the last frame send has passed. */
  predicate Handled(mode: string, cameraAvailable: bool, cameraItems: seq<Frame>, videoItems: seq<Frame>,
                    lastFrameSent: int, interval: int, now: int) {
    Waiting(mode, cameraAvailable, cameraItems, videoItems).Some? && now - lastFrameSent >= interval
  }

  /** The frame source of this iteration, drained to its newest frame. */
  method DrainActive(mode: string, camera: Camera.CameraManager, video: VideoFile.VideoFileManager)
      returns (frame: Option<Frame>)
    requires camera.slot.Valid() && video.slot.Valid() && camera.slot != video.slot
    modifies camera.slot, video.slot
    ensures camera.slot.Valid() && video.slot.Valid()
    ensures frame == Waiting(mode, camera.available, old(camera.slot.items), old(video.slot.items))
    ensures mode == "video" ==> video.slot.items == [] && camera.slot.items == old(camera.slot.items)
    ensures mode != "video" && camera.available ==> camera.slot.items == [] && video.slot.items == old(video.slot.items)
    ensures mode != "video" && !camera.available ==>
      camera.slot.items == old(camera.slot.items) && video.slot.items == old(video.slot.items)
  {
    frame := None;
    if mode == "video" {
      frame := Drain(video.slot);
    } else if camera.available {
      frame := Drain(camera.slot);
    }
  }

  class Session {
    /** `frame_interval_s`, in ms. */
    var interval: int
    var lastFrameSent: int
    var lastJsonSent: int
    var lastPingSent: int
    var frameIndex: nat
    var cachedResults: seq<Detection>
    var cachedLaneCount: nat
    var cachedDistances: seq<HazardDistance>
    var cachedMode: string

    predicate Valid()
      reads this
    {
      MinInterval <= interval <= MaxInterval
    }

    constructor()
      ensures Valid() && interval == StartInterval
      ensures lastFrameSent == 0 && lastJsonSent == 0 && lastPingSent == 0 && frameIndex == 0
      ensures cachedResults == [] && cachedLaneCount == 0 && cachedDistances == [] && cachedMode == "live"
    {
      interval := StartInterval;
      lastFrameSent := 0;
      lastJsonSent := 0;
      lastPingSent := 0;
      frameIndex := 0;
      cachedResults := [];
      cachedLaneCount := 0;
      cachedDistances := [];
      cachedMode := "live";
    }

    /** Frame sampling: the index moves on and every second frame refreshes the cached
        detections; the timers and the interval stay as they are. */
    method Sample(f: Frame, mode: string, models: Models) returns (runDetection: bool)
      modifies this
      ensures frameIndex == old(frameIndex) + 1 && runDetection == (frameIndex % DetectInterval == 0)
      ensures runDetection ==>
        cachedResults == RoadDetections(models.roadNames, models.road(f)) + StandardDetections(models.standardNames, models.standard(f))
        && cachedLaneCount == LaneCount(f.width, cachedResults)
        && cachedDistances == Distances(models.standardNames, models.estimate, f.width, models.standard(f))
        && cachedMode == mode
      ensures !runDetection ==>
        cachedResults == old(cachedResults) && cachedLaneCount == old(cachedLaneCount)
        && cachedDistances == old(cachedDistances) && cachedMode == old(cachedMode)
      ensures interval == old(interval) && lastFrameSent == old(lastFrameSent)
      ensures lastJsonSent == old(lastJsonSent) && lastPingSent == old(lastPingSent)
    {
      frameIndex := frameIndex + 1;
      runDetection := frameIndex % DetectInterval == 0;
      if runDetection {
        Refresh(f, mode, models);
      }
    }

    /** The detection pass of a sampled frame: its kept rows, lane count and distances become
        the cache, tagged with the mode they were computed in. */
    method Refresh(f: Frame, mode: string, models: Models)
      modifies this
      ensures cachedResults == RoadDetections(models.roadNames, models.road(f)) + StandardDetections(models.standardNames, models.standard(f))
      ensures cachedLaneCount == LaneCount(f.width, cachedResults)
      ensures cachedDistances == Distances(models.standardNames, models.estimate, f.width, models.standard(f))
      ensures cachedMode == mode
      ensures frameIndex == old(frameIndex) && interval == old(interval) && lastFrameSent == old(lastFrameSent)
      ensures lastJsonSent == old(lastJsonSent) && lastPingSent == old(lastPingSent)
    {
      var results, laneCount, distances := FilterFrame(f.width, models.roadNames, models.road(f),
                                                       models.standardNames, models.standard(f), models.estimate);
      cachedResults, cachedLaneCount, cachedDistances, cachedMode := results, laneCount, distances, mode;
    }

    /** The body of `if frame is not None and now - last_frame_sent >= frame_interval_s`:
        sample, send the frame, pace, and send telemetry when its interval has passed. */
    method SendFrame(f: Frame, mode: string, video: VideoFile.VideoFileManager, models: Models, now: int, io: Io)
        returns (sent: Sent, alive: bool)
      requires Valid()
      modifies this
      ensures Valid() && lastPingSent == old(lastPingSent)
      ensures frameIndex == old(frameIndex) + 1
      // detection runs on every second frame and refreshes the cache; other frames reuse it
      ensures frameIndex % DetectInterval == 0 ==>
        cachedResults == RoadDetections(models.roadNames, models.road(f)) + StandardDetections(models.standardNames, models.standard(f))
        && cachedLaneCount == LaneCount(f.width, cachedResults)
        && cachedDistances == Distances(models.standardNames, models.estimate, f.width, models.standard(f))
        && cachedMode == mode
      ensures frameIndex % DetectInterval != 0 ==>
        cachedResults == old(cachedResults) && cachedLaneCount == old(cachedLaneCount)
        && cachedDistances == old(cachedDistances) && cachedMode == old(cachedMode)
      ensures !sent.ping
      ensures sent.frame == (if io.frameOk then Some(f) else None) && sent.annotated == (io.frameOk && frameIndex % DetectInterval == 0)
      ensures io.frameOk ==> lastFrameSent == now && interval == Pace(old(interval), io.sendTime)
      ensures !io.frameOk ==> lastFrameSent == old(lastFrameSent) && interval == old(interval)
      ensures sent.telemetry.Some? <==> io.frameOk && now - old(lastJsonSent) >= JsonInterval && io.jsonOk
      ensures sent.telemetry.Some? ==>
        lastJsonSent == now
        && sent.telemetry.value.hazardCount == |cachedResults| && sent.telemetry.value.laneCount == cachedLaneCount
        && sent.telemetry.value.distances == cachedDistances
        && (sent.telemetry.value.hazardType == "pothole" <==> AnyPothole(cachedResults))
        && sent.telemetry.value.mode == cachedMode
        && (sent.telemetry.value.videoProgress.Some? <==> cachedMode == "video" && video.IsActive())
        && (sent.telemetry.value.videoProgress.Some? ==> sent.telemetry.value.videoProgress.value == video.GetProgress())
      ensures sent.telemetry.None? ==> lastJsonSent == old(lastJsonSent)
      ensures alive <==> io.frameOk && (now - old(lastJsonSent) >= JsonInterval ==> io.jsonOk)
    {
      sent := Sent(None, false, None, false);
      var runDetection := Sample(f, mode, models);
      if !io.frameOk {
        return sent, false;
      }
      lastFrameSent := now;
      interval := Pace(interval, io.sendTime);
      sent := sent.(frame := Some(f), annotated := runDetection);
      sent, alive := SendTelemetry(sent, video, now, io.jsonOk);
    }

    /** The telemetry message, once 200 ms have passed since the last one: it reports the
        cached detections; a failed send ends the session. */
    method SendTelemetry(before: Sent, video: VideoFile.VideoFileManager, now: int, jsonOk: bool)
        returns (sent: Sent, alive: bool)
      requires Valid() && before.telemetry.None?
      modifies this
      ensures Valid() && lastPingSent == old(lastPingSent) && frameIndex == old(frameIndex)
      ensures interval == old(interval) && lastFrameSent == old(lastFrameSent)
      ensures cachedResults == old(cachedResults) && cachedLaneCount == old(cachedLaneCount)
      ensures cachedDistances == old(cachedDistances) && cachedMode == old(cachedMode)
      ensures sent.frame == before.frame && sent.annotated == before.annotated && sent.ping == before.ping
      ensures sent.telemetry.Some? <==> now - old(lastJsonSent) >= JsonInterval && jsonOk
      ensures sent.telemetry.Some? ==>
        lastJsonSent == now
        && sent.telemetry.value.hazardCount == |cachedResults| && sent.telemetry.value.laneCount == cachedLaneCount
        && sent.telemetry.value.distances == cachedDistances
        && (sent.telemetry.value.hazardType == "pothole" <==> AnyPothole(cachedResults))
        && sent.telemetry.value.mode == cachedMode
        && (sent.telemetry.value.videoProgress.Some? <==> cachedMode == "video" && video.IsActive())
        && (sent.telemetry.value.videoProgress.Some? ==> sent.telemetry.value.videoProgress.value == video.GetProgress())
      ensures sent.telemetry.None? ==> lastJsonSent == old(lastJsonSent)
      ensures alive <==> (now - old(lastJsonSent) >= JsonInterval ==> jsonOk)
    {
      sent, alive := before, true;
      if now - lastJsonSent >= JsonInterval {
        var progress := if cachedMode == "video" && video.IsActive() then Some(video.GetProgress()) else None;
        var t := Telemetry(|cachedResults|, cachedLaneCount, cachedDistances,
                           if AnyPothole(cachedResults) then "pothole" else "", cachedMode, progress);
        if !jsonOk {
          return sent, false;
        }
        lastJsonSent := now;
        sent := sent.(telemetry := Some(t));
      }
    }

    /** The keepalive: a ping once 20 s have passed since the last one. */
    method Keepalive(before: Sent, now: int, pingOk: bool) returns (sent: Sent, alive: bool)
      requires Valid()
      modifies this
      ensures Valid()
      ensures sent == before.(ping := now - old(lastPingSent) >= PingInterval && pingOk)
      ensures alive <==> !(now - old(lastPingSent) >= PingInterval && !pingOk)
      ensures lastPingSent == (if sent.ping then now else old(lastPingSent))
      ensures interval == old(interval) && lastFrameSent == old(lastFrameSent) && lastJsonSent == old(lastJsonSent)
      ensures frameIndex == old(frameIndex) && cachedResults == old(cachedResults) && cachedLaneCount == old(cachedLaneCount)
      ensures cachedDistances == old(cachedDistances) && cachedMode == old(cachedMode)
    {
      sent, alive := before.(ping := false), true;
      if now - lastPingSent >= PingInterval {
        if !pingOk {
          return sent, false;
        }
        lastPingSent := now;
        sent := sent.(ping := true);
      }
    }

    /** One pass of the session loop at time `now` (ms); `alive` is false when a send failed
        and the loop breaks. A frame that was waiting is sent when the interval has passed
        (`SendFrame`), then the keepalive runs unless the loop already broke. */
    method Iterate(mode: string, camera: Camera.CameraManager, video: VideoFile.VideoFileManager,
                   models: Models, now: int, io: Io)
        returns (sent: Sent, alive: bool)
      requires Valid() && camera.slot.Valid() && video.slot.Valid() && camera.slot != video.slot
      modifies this, camera.slot, video.slot
      ensures Valid() && camera.slot.Valid() && video.slot.Valid()
      // the active slot is drained: the video slot in video mode, else the camera slot while the camera is available
      ensures mode == "video" ==> video.slot.items == [] && camera.slot.items == old(camera.slot.items)
      ensures mode != "video" && camera.available ==> camera.slot.items == [] && video.slot.items == old(video.slot.items)
      ensures mode != "video" && !camera.available ==>
        camera.slot.items == old(camera.slot.items) && video.slot.items == old(video.slot.items)
      // a frame is handled only when one was waiting and the interval has passed; only then the index moves
      ensures frameIndex == old(frameIndex)
        + (if Handled(mode, camera.available, old(camera.slot.items), old(video.slot.items), old(lastFrameSent), old(interval), now) then 1 else 0)
      ensures !Handled(mode, camera.available, old(camera.slot.items), old(video.slot.items), old(lastFrameSent), old(interval), now) ==>
        sent.frame.None? && sent.telemetry.None? && interval == old(interval)
        && lastFrameSent == old(lastFrameSent) && lastJsonSent == old(lastJsonSent)
        && cachedResults == old(cachedResults) && cachedLaneCount == old(cachedLaneCount)
        && cachedDistances == old(cachedDistances) && cachedMode == old(cachedMode)
      // what is sent is the newest waiting frame
      ensures sent.frame.Some? ==> sent.frame == Waiting(mode, camera.available, old(camera.slot.items), old(video.slot.items))
      // the keepalive, unless the loop broke before it
      ensures alive ==> sent.ping == (now - old(lastPingSent) >= PingInterval)
      ensures lastPingSent == (if sent.ping then now else old(lastPingSent))
      // a handled frame is sent, paces the interval and, on a detection frame, refreshes the cache
      ensures Handled(mode, camera.available, old(camera.slot.items), old(video.slot.items), old(lastFrameSent), old(interval), now) ==>
        var f := Waiting(mode, camera.available, old(camera.slot.items), old(video.slot.items)).value;
        sent.frame == (if io.frameOk then Some(f) else None)
        && (io.frameOk ==> lastFrameSent == now && interval == Pace(old(interval), io.sendTime))
        && (!io.frameOk ==> lastFrameSent == old(lastFrameSent) && interval == old(interval))
        && (frameIndex % DetectInterval == 0 ==>
              cachedResults == RoadDetections(models.roadNames, models.road(f)) + StandardDetections(models.standardNames, models.standard(f))
              && cachedLaneCount == LaneCount(f.width, cachedResults)
              && cachedDistances == Distances(models.standardNames, models.estimate, f.width, models.standard(f))
              && cachedMode == mode)
        && (frameIndex % DetectInterval != 0 ==>
              cachedResults == old(cachedResults) && cachedLaneCount == old(cachedLaneCount)
              && cachedDistances == old(cachedDistances) && cachedMode == old(cachedMode))
        && (sent.telemetry.Some? <==> io.frameOk && now - old(lastJsonSent) >= JsonInterval && io.jsonOk)
        && lastJsonSent == (if sent.telemetry.Some? then now else old(lastJsonSent))
      ensures !alive <==>
        (Handled(mode, camera.available, old(camera.slot.items), old(video.slot.items), old(lastFrameSent), old(interval), now)
         && !(io.frameOk && (now - old(lastJsonSent) >= JsonInterval ==> io.jsonOk)))
        || (now - old(lastPingSent) >= PingInterval && !io.pingOk)
    {
      var frame := DrainActive(mode, camera, video);
      sent, alive := Sent(None, false, None, false), true;
      if frame.Some? && now - lastFrameSent >= interval {
        sent, alive := SendFrame(frame.value, mode, video, models, now, io);
        if !alive {
          return;
        }
      }
      sent, alive := Keepalive(sent, now, io.pingOk);
    }
  }
}
