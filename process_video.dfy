/** The offline video processor (`process_video.py`): per-frame filtering with thresholds,
    minimum box size, aspect-ratio windows and the lane test, and the summary over all frames.

    The models are given as the rows they return for each frame; the distance estimator is a
    given function. */
module VideoBatch {
  import opened Common
  import opened Boxes
  import Config

  /** A kept detection of `process_frame`. */
  datatype Detection = Detection(kind: string, classId: int, confidence: real, box: RawBox,
                                 width: real, height: real, model: string,
                                 distance: Option<real>, inLane: bool)

  /** One `hazard_distances` entry. */
  datatype HazardDistance = HazardDistance(className: string, distance: real, box: RawBox, inLane: bool, confidence: real)

  /** What `process_frame` returns. */
  datatype FrameResult = FrameResult(detections: seq<Detection>, totalDetections: nat, laneHazards: nat,
                                     distances: seq<HazardDistance>)

  // ---------------------------------------------------------------------------
  // The filters

  /** `DETECTION_THRESHOLDS.get(key, NMS_CONFIG['conf_threshold'])` */
  function ThresholdOr(key: string): real {
    if key in Config.DetectionThresholds then Config.DetectionThresholds[key] else Config.NmsConfThreshold
  }

  /** The road threshold is the class's own (0.40 for potholes, 0.60 for speed bumps), else 0.25. */
  lemma RoadThreshold(cls: int)
    ensures ThresholdOr(ThresholdKey(cls)) == if cls == 0 then 0.40 else if cls == 1 then 0.60 else 0.25
  {
    ThresholdKeyKnown(cls);
    assert ThresholdKey(0) == "class_0" && ThresholdKey(1) == "class_1";
  }

  /** Every tracked class has threshold 0.45. */
  lemma TrackedThreshold(name: string)
    requires Tracked(name)
    ensures ThresholdOr(name) == 0.45
  {
  }

  function BoxWidth(b: RawBox): real { b.x2 - b.x1 }
  function BoxHeight(b: RawBox): real { b.y2 - b.y1 }

  function MinReal(a: real, b: real): real { if a <= b then a else b }

  /** `min(frame_width, frame_height) * 0.01` */
  function MinBoxSize(frameWidth: nat, frameHeight: nat): real {
    MinReal(frameWidth as real, frameHeight as real) * 0.01
  }

  predicate BigEnough(frameWidth: nat, frameHeight: nat, b: RawBox) {
    BoxWidth(b) >= MinBoxSize(frameWidth, frameHeight) && BoxHeight(b) >= MinBoxSize(frameWidth, frameHeight)
  }

  /** `box_height / box_width if box_width > 0 else 0` */
  function AspectRatio(b: RawBox): real {
    if BoxWidth(b) > 0.0 then BoxHeight(b) / BoxWidth(b) else 0.0
  }

  /** The aspect-ratio window of a class: [0.3, 3.0] for a person, [0.5, 2.0] for a dog or a cow. */
  predicate ValidAspect(name: string, ratio: real) {
    if name == "person" then 0.3 <= ratio <= 3.0
    else if name == "dog" || name == "cow" then 0.5 <= ratio <= 2.0
    else true
  }

  predicate RoadKeep(frameWidth: nat, frameHeight: nat, b: RawBox) {
    b.conf >= ThresholdOr(ThresholdKey(b.cls)) && BigEnough(frameWidth, frameHeight, b)
  }

  predicate StandardKeep(names: Names, frameWidth: nat, frameHeight: nat, b: RawBox) {
    var name := ClassName(names, b.cls);
    Tracked(name) && b.conf >= ThresholdOr(name) && BigEnough(frameWidth, frameHeight, b)
    && ValidAspect(name, AspectRatio(b))
  }

  /** A kept person is at most 3 times as tall as wide and at least 0.3 times; a kept dog or
      cow is within [0.5, 2.0]; a box of no width is never kept, since its ratio is 0. */
  lemma StandardKeepAspect(names: Names, frameWidth: nat, frameHeight: nat, b: RawBox)
    requires StandardKeep(names, frameWidth, frameHeight, b)
    ensures BoxWidth(b) > 0.0
    ensures ClassName(names, b.cls) == "person" ==> 0.3 * BoxWidth(b) <= BoxHeight(b) <= 3.0 * BoxWidth(b)
    ensures ClassName(names, b.cls) != "person" ==> 0.5 * BoxWidth(b) <= BoxHeight(b) <= 2.0 * BoxWidth(b)
  {
    var name := ClassName(names, b.cls);
    assert Tracked(name) && ValidAspect(name, AspectRatio(b));
    if BoxWidth(b) > 0.0 {
      if name == "person" {
        RatioWindow(BoxHeight(b), BoxWidth(b), 0.3, 3.0);
      } else {
        RatioWindow(BoxHeight(b), BoxWidth(b), 0.5, 2.0);
      }
    }
  }

  /** A ratio window on `h / w` is a window on `h` scaled by `w`. */
  lemma RatioWindow(h: real, w: real, lo: real, hi: real)
    requires w > 0.0 && lo <= h / w <= hi
    ensures lo * w <= h <= hi * w
  {
    var r := h / w;
    assert r * w == h;
    assert h - lo * w == (r - lo) * w;
    assert hi * w - h == (hi - r) * w;
  }

  function RoadDetection(names: Names, frameWidth: nat, b: RawBox): Detection {
    Detection(ClassName(names, b.cls), b.cls, b.conf, b, BoxWidth(b), BoxHeight(b), "road_hazard", None, InLane(frameWidth, b))
  }

  function StandardDetection(names: Names, estimate: Estimator, frameWidth: nat, b: RawBox): Detection {
    var name := ClassName(names, b.cls);
    Detection(name, b.cls, b.conf, b, BoxWidth(b), BoxHeight(b), "standard",
              Some(estimate(name, BoxWidth(b), frameWidth)), InLane(frameWidth, b))
  }

  function Distance(names: Names, estimate: Estimator, frameWidth: nat, b: RawBox): HazardDistance {
    var name := ClassName(names, b.cls);
    HazardDistance(name, estimate(name, BoxWidth(b), frameWidth), b, InLane(frameWidth, b), b.conf)
  }

  function RoadDetections(names: Names, frameWidth: nat, frameHeight: nat, rows: seq<RawBox>): seq<Detection>
    decreases |rows|
  {
    if rows == [] then []
    else
      var rest := RoadDetections(names, frameWidth, frameHeight, rows[..|rows| - 1]);
      var b := rows[|rows| - 1];
      if RoadKeep(frameWidth, frameHeight, b) then rest + [RoadDetection(names, frameWidth, b)] else rest
  }

  function StandardDetections(names: Names, estimate: Estimator, frameWidth: nat, frameHeight: nat,
                              rows: seq<RawBox>): seq<Detection>
    decreases |rows|
  {
    if rows == [] then []
    else
      var rest := StandardDetections(names, estimate, frameWidth, frameHeight, rows[..|rows| - 1]);
      var b := rows[|rows| - 1];
      if StandardKeep(names, frameWidth, frameHeight, b) then rest + [StandardDetection(names, estimate, frameWidth, b)] else rest
  }

  function Distances(names: Names, estimate: Estimator, frameWidth: nat, frameHeight: nat,
                     rows: seq<RawBox>): seq<HazardDistance>
    decreases |rows|
  {
    if rows == [] then []
    else
      var rest := Distances(names, estimate, frameWidth, frameHeight, rows[..|rows| - 1]);
      var b := rows[|rows| - 1];
      if StandardKeep(names, frameWidth, frameHeight, b) then rest + [Distance(names, estimate, frameWidth, b)] else rest
  }

  /** The number of detections flagged as in the driver's lane. */
  function LaneCount(ds: seq<Detection>): (n: nat)
    ensures n <= |ds|
    decreases |ds|
  {
    if ds == [] then 0 else LaneCount(ds[..|ds| - 1]) + (if ds[|ds| - 1].inLane then 1 else 0)
  }

  lemma {:induction false} LaneCountConcat(a: seq<Detection>, b: seq<Detection>)
    ensures LaneCount(a + b) == LaneCount(a) + LaneCount(b)
    decreases |b|
  {
    if b != [] {
      assert (a + b)[..|a + b| - 1] == a + b[..|b| - 1];
      LaneCountConcat(a, b[..|b| - 1]);
    } else {
      assert a + b == a;
    }
  }

  /** The standard filter as a keep-and-map over the rows. */
  lemma {:induction false} StandardIsFilterMap(names: Names, estimate: Estimator, frameWidth: nat,
                                               frameHeight: nat, rows: seq<RawBox>)
    ensures StandardDetections(names, estimate, frameWidth, frameHeight, rows) ==
      FilterMap(rows, b => StandardKeep(names, frameWidth, frameHeight, b), b => StandardDetection(names, estimate, frameWidth, b))
    decreases |rows|
  {
    if rows != [] {
      StandardIsFilterMap(names, estimate, frameWidth, frameHeight, rows[..|rows| - 1]);
    }
  }

  /** The standard filter keeps a detection for each row it accepts, and no other. */
  lemma StandardDetectionsMembers(names: Names, estimate: Estimator, frameWidth: nat,
                                  frameHeight: nat, rows: seq<RawBox>, d: Detection)
    ensures d in StandardDetections(names, estimate, frameWidth, frameHeight, rows) <==>
      exists i :: 0 <= i < |rows| && StandardKeep(names, frameWidth, frameHeight, rows[i])
                  && d == StandardDetection(names, estimate, frameWidth, rows[i])
  {
    var keep := b => StandardKeep(names, frameWidth, frameHeight, b);
    var f := b => StandardDetection(names, estimate, frameWidth, b);
    StandardIsFilterMap(names, estimate, frameWidth, frameHeight, rows);
    FilterMapMembers(rows, keep, f, d);
    if d in StandardDetections(names, estimate, frameWidth, frameHeight, rows) {
      var i :| 0 <= i < |rows| && keep(rows[i]) && d == f(rows[i]);
      assert StandardKeep(names, frameWidth, frameHeight, rows[i]) && d == StandardDetection(names, estimate, frameWidth, rows[i]);
    }
    if exists i :: 0 <= i < |rows| && StandardKeep(names, frameWidth, frameHeight, rows[i])
                   && d == StandardDetection(names, estimate, frameWidth, rows[i]) {
      var i :| 0 <= i < |rows| && StandardKeep(names, frameWidth, frameHeight, rows[i])
               && d == StandardDetection(names, estimate, frameWidth, rows[i]);
      assert keep(rows[i]) && d == f(rows[i]);
    }
  }

  /** Only person, dog and cow come out of the standard filter, each at 0.45 or more and within its window. */
  lemma StandardDetectionFacts(names: Names, estimate: Estimator, frameWidth: nat, frameHeight: nat,
                               rows: seq<RawBox>, d: Detection)
    requires d in StandardDetections(names, estimate, frameWidth, frameHeight, rows)
    ensures Tracked(d.kind) && d.confidence >= 0.45 && ValidAspect(d.kind, AspectRatio(d.box)) && d.model == "standard"
  {
    StandardDetectionsMembers(names, estimate, frameWidth, frameHeight, rows, d);
    var i :| 0 <= i < |rows| && StandardKeep(names, frameWidth, frameHeight, rows[i])
             && d == StandardDetection(names, estimate, frameWidth, rows[i]);
    TrackedThreshold(d.kind);
  }

  /** One distance entry per kept standard detection, with the same class, box and lane flag. */
  lemma {:induction false} DistancesMatch(names: Names, estimate: Estimator, frameWidth: nat, frameHeight: nat,
                                          rows: seq<RawBox>)
    ensures |Distances(names, estimate, frameWidth, frameHeight, rows)|
         == |StandardDetections(names, estimate, frameWidth, frameHeight, rows)|
    ensures forall i :: 0 <= i < |Distances(names, estimate, frameWidth, frameHeight, rows)| ==>
      var e := Distances(names, estimate, frameWidth, frameHeight, rows)[i];
      var d := StandardDetections(names, estimate, frameWidth, frameHeight, rows)[i];
      e.className == d.kind && e.box == d.box && e.inLane == d.inLane && Some(e.distance) == d.distance
    decreases |rows|
  {
    if rows != [] {
      DistancesMatch(names, estimate, frameWidth, frameHeight, rows[..|rows| - 1]);
    }
  }

  // ---------------------------------------------------------------------------
  // `process_frame`

  /** One more row for the road filter. */
  lemma RoadStep(names: Names, frameWidth: nat, frameHeight: nat, rows: seq<RawBox>, i: nat)
    requires i < |rows|
    ensures RoadDetections(names, frameWidth, frameHeight, rows[..i + 1]) ==
      RoadDetections(names, frameWidth, frameHeight, rows[..i])
      + (if RoadKeep(frameWidth, frameHeight, rows[i]) then [RoadDetection(names, frameWidth, rows[i])] else [])
  {
    assert rows[..i + 1][..i] == rows[..i];
  }

  /** One more row for the standard filter: its detection and its distance entry come together. */
  lemma StandardStep(names: Names, estimate: Estimator, frameWidth: nat, frameHeight: nat, rows: seq<RawBox>, i: nat)
    requires i < |rows|
    ensures StandardDetections(names, estimate, frameWidth, frameHeight, rows[..i + 1]) ==
      StandardDetections(names, estimate, frameWidth, frameHeight, rows[..i])
      + (if StandardKeep(names, frameWidth, frameHeight, rows[i]) then [StandardDetection(names, estimate, frameWidth, rows[i])] else [])
    ensures Distances(names, estimate, frameWidth, frameHeight, rows[..i + 1]) ==
      Distances(names, estimate, frameWidth, frameHeight, rows[..i])
      + (if StandardKeep(names, frameWidth, frameHeight, rows[i]) then [Distance(names, estimate, frameWidth, rows[i])] else [])
  {
    assert rows[..i + 1] == rows[..i] + [rows[i]];
    StandardSnoc(names, estimate, frameWidth, frameHeight, rows[..i], rows[i]);
    DistancesSnoc(names, estimate, frameWidth, frameHeight, rows[..i], rows[i]);
  }

  /** The standard detections over one more row. */
  lemma StandardSnoc(names: Names, estimate: Estimator, frameWidth: nat, frameHeight: nat, rows: seq<RawBox>, b: RawBox)
    ensures StandardDetections(names, estimate, frameWidth, frameHeight, rows + [b]) ==
      StandardDetections(names, estimate, frameWidth, frameHeight, rows)
      + (if StandardKeep(names, frameWidth, frameHeight, b) then [StandardDetection(names, estimate, frameWidth, b)] else [])
  {
    assert (rows + [b])[..|rows|] == rows;
  }

  /** The distances over one more row. */
  lemma DistancesSnoc(names: Names, estimate: Estimator, frameWidth: nat, frameHeight: nat, rows: seq<RawBox>, b: RawBox)
    ensures Distances(names, estimate, frameWidth, frameHeight, rows + [b]) ==
      Distances(names, estimate, frameWidth, frameHeight, rows)
      + (if StandardKeep(names, frameWidth, frameHeight, b) then [Distance(names, estimate, frameWidth, b)] else [])
  {
    assert (rows + [b])[..|rows|] == rows;
  }

  /** One more detection for the lane count. */
  lemma LaneCountSnoc(ds: seq<Detection>, d: Detection)
    ensures LaneCount(ds + [d]) == LaneCount(ds) + (if d.inLane then 1 else 0)
  {
    assert (ds + [d])[..|ds|] == ds;
  }

  /** The body of the road filter's loop: row `i` is kept or dropped, and counted when in lane. */
  method RoadRow(names: Names, frameWidth: nat, frameHeight: nat, rows: seq<RawBox>, i: nat,
                 ds: seq<Detection>, n: nat)
      returns (ds': seq<Detection>, n': nat)
    requires i < |rows| && ds == RoadDetections(names, frameWidth, frameHeight, rows[..i]) && n == LaneCount(ds)
    ensures ds' == RoadDetections(names, frameWidth, frameHeight, rows[..i + 1]) && n' == LaneCount(ds')
  {
    RoadStep(names, frameWidth, frameHeight, rows, i);
    var b := rows[i];
    ds', n' := ds, n;
    if RoadKeep(frameWidth, frameHeight, b) {
      var d := RoadDetection(names, frameWidth, b);
      LaneCountSnoc(ds, d);
      ds' := ds + [d];
      if d.inLane {
        n' := n + 1;
      }
    }
  }

  method FilterRoad(names: Names, frameWidth: nat, frameHeight: nat, rows: seq<RawBox>)
      returns (detections: seq<Detection>, laneHazards: nat)
    ensures detections == RoadDetections(names, frameWidth, frameHeight, rows)
    ensures laneHazards == LaneCount(detections)
  {
    detections, laneHazards := [], 0;
    var i := 0;
    while i < |rows|
      invariant 0 <= i <= |rows|
      invariant detections == RoadDetections(names, frameWidth, frameHeight, rows[..i])
      invariant laneHazards == LaneCount(detections)
    {
      detections, laneHazards := RoadRow(names, frameWidth, frameHeight, rows, i, detections, laneHazards);
      i := i + 1;
    }
    assert rows[..|rows|] == rows;
  }

  method FilterStandard(names: Names, estimate: Estimator, frameWidth: nat, frameHeight: nat, rows: seq<RawBox>)
      returns (detections: seq<Detection>, laneHazards: nat, distances: seq<HazardDistance>)
    ensures detections == StandardDetections(names, estimate, frameWidth, frameHeight, rows)
    ensures laneHazards == LaneCount(detections)
    ensures distances == Distances(names, estimate, frameWidth, frameHeight, rows)
  {
    detections, laneHazards, distances := [], 0, [];
    var i := 0;
    while i < |rows|
      invariant 0 <= i <= |rows|
      invariant detections == StandardDetections(names, estimate, frameWidth, frameHeight, rows[..i])
      invariant laneHazards == LaneCount(detections)
      invariant distances == Distances(names, estimate, frameWidth, frameHeight, rows[..i])
    {
      StandardStep(names, estimate, frameWidth, frameHeight, rows, i);
      var b := rows[i];
      if StandardKeep(names, frameWidth, frameHeight, b) {
        var d := StandardDetection(names, estimate, frameWidth, b);
        LaneCountSnoc(detections, d);
        detections := detections + [d];
        distances := distances + [Distance(names, estimate, frameWidth, b)];
        if d.inLane {
          laneHazards := laneHazards + 1;
        }
      }
      i := i + 1;
    }
    assert rows[..|rows|] == rows;
  }

  /** The frame's result as `process_frame` assembles it. */
  function FrameResultOf(roadNames: Names, road: seq<RawBox>, standardNames: Names, standard: seq<RawBox>,
                         estimate: Estimator, frameWidth: nat, frameHeight: nat): (r: FrameResult)
    ensures r.totalDetections == |r.detections| && r.laneHazards <= r.totalDetections
  {
    var ds := RoadDetections(roadNames, frameWidth, frameHeight, road)
              + StandardDetections(standardNames, estimate, frameWidth, frameHeight, standard);
    FrameResult(ds, |ds|, LaneCount(ds), Distances(standardNames, estimate, frameWidth, frameHeight, standard))
  }

  /** `process_frame` after inference. */
  method ProcessFrame(roadNames: Names, road: seq<RawBox>, standardNames: Names, standard: seq<RawBox>,
                      estimate: Estimator, frameWidth: nat, frameHeight: nat)
      returns (r: FrameResult)
    ensures r == FrameResultOf(roadNames, road, standardNames, standard, estimate, frameWidth, frameHeight)
  {
    var roadDets, roadLane := FilterRoad(roadNames, frameWidth, frameHeight, road);
    var standardDets, standardLane, distances := FilterStandard(standardNames, estimate, frameWidth, frameHeight, standard);
    LaneCountConcat(roadDets, standardDets);
    var all := roadDets + standardDets;
    r := FrameResult(all, |all|, roadLane + standardLane, distances);
  }

  /** A frame's result is consistent: one distance per standard detection, the totals match. */
  lemma FrameResultConsistent(roadNames: Names, road: seq<RawBox>, standardNames: Names, standard: seq<RawBox>,
                              estimate: Estimator, frameWidth: nat, frameHeight: nat)
    ensures var r := FrameResultOf(roadNames, road, standardNames, standard, estimate, frameWidth, frameHeight);
      r.totalDetections == |r.detections| && r.laneHazards <= r.totalDetections
      && |r.distances| == |StandardDetections(standardNames, estimate, frameWidth, frameHeight, standard)|
      && |r.distances| <= r.totalDetections
  {
    DistancesMatch(standardNames, estimate, frameWidth, frameHeight, standard);
  }

  // ---------------------------------------------------------------------------
  // The summary

  /** The sum of a count map's values. */
  ghost function MapSum(m: map<string, nat>): nat
    decreases |m.Keys|
  {
    if m == map[] then 0
    else
      var k :| k in m;
      m[k] + MapSum(m - {k})
  }

  /** The sum does not depend on which key is taken out first. */
  lemma {:induction false} MapSumRemove(m: map<string, nat>, k: string)
    requires k in m
    ensures MapSum(m) == m[k] + MapSum(m - {k})
    decreases |m.Keys|
  {
    var j :| j in m && MapSum(m) == m[j] + MapSum(m - {j});
    if j != k {
      assert (m - {j}) - {k} == (m - {k}) - {j};
      MapSumRemove(m - {j}, k);
      MapSumRemove(m - {k}, j);
    }
  }

  /** Counting one more `t` adds one to the sum. */
  lemma MapSumBump(m: map<string, nat>, t: string)
    ensures MapSum(m[t := (if t in m then m[t] else 0) + 1]) == MapSum(m) + 1
  {
    var m' := m[t := (if t in m then m[t] else 0) + 1];
    MapSumRemove(m', t);
    assert m' - {t} == m - {t};
    if t in m {
      MapSumRemove(m, t);
    } else {
      assert m - {t} == m;
    }
  }

  /** `detection_counts[t] = detection_counts.get(t, 0) + 1` over a sequence of types. */
  function TypeCounts(types: seq<string>): map<string, nat>
    decreases |types|
  {
    if types == [] then map[]
    else
      var m := TypeCounts(types[..|types| - 1]);
      var t := types[|types| - 1];
      m[t := (if t in m then m[t] else 0) + 1]
  }

  /** The per-type counts add up to the number of detections counted. */
  lemma {:induction false} TypeCountsSum(types: seq<string>)
    ensures MapSum(TypeCounts(types)) == |types|
    decreases |types|
  {
    if types != [] {
      TypeCountsSum(types[..|types| - 1]);
      MapSumBump(TypeCounts(types[..|types| - 1]), types[|types| - 1]);
    }
  }

  /** A type is counted iff some detection has it. */
  lemma {:induction false} TypeCountsKeys(types: seq<string>, t: string)
    ensures t in TypeCounts(types) <==> t in types
    decreases |types|
  {
    if types != [] {
      TypeCountsKeys(types[..|types| - 1], t);
      assert types == types[..|types| - 1] + [types[|types| - 1]];
    }
  }

  function KindsOf(ds: seq<Detection>): (ts: seq<string>)
    ensures |ts| == |ds|
    decreases |ds|
  {
    if ds == [] then [] else KindsOf(ds[..|ds| - 1]) + [ds[|ds| - 1].kind]
  }

  /** The types of all detections of all frames, in order. */
  function AllKinds(results: seq<FrameResult>): seq<string>
    decreases |results|
  {
    if results == [] then [] else AllKinds(results[..|results| - 1]) + KindsOf(results[|results| - 1].detections)
  }

  function SumTotals(results: seq<FrameResult>): nat
    decreases |results|
  {
    if results == [] then 0 else SumTotals(results[..|results| - 1]) + results[|results| - 1].totalDetections
  }

  function SumLane(results: seq<FrameResult>): nat
    decreases |results|
  {
    if results == [] then 0 else SumLane(results[..|results| - 1]) + results[|results| - 1].laneHazards
  }

  predicate Consistent(r: FrameResult) {
    r.totalDetections == |r.detections| && r.laneHazards <= r.totalDetections
  }

  /** The summary block of `process_video`. */
  datatype Summary = Summary(framesProcessed: nat, totalDetections: nat, totalLaneHazards: nat,
                             detectionsByType: map<string, nat>, averagePerFrame: real)

  /** With consistent frame results, the types listed are exactly the detections counted, and
      the lane hazards never outnumber them. */
  lemma {:induction false} TotalsMatchKinds(results: seq<FrameResult>)
    requires forall i :: 0 <= i < |results| ==> Consistent(results[i])
    ensures |AllKinds(results)| == SumTotals(results)
    ensures SumLane(results) <= SumTotals(results)
    decreases |results|
  {
    if results != [] {
      TotalsMatchKinds(results[..|results| - 1]);
      assert Consistent(results[|results| - 1]);
    }
  }

  /** The per-type counts of the summary add up to its total. */
  lemma CountsAddUp(results: seq<FrameResult>)
    requires forall i :: 0 <= i < |results| ==> Consistent(results[i])
    ensures MapSum(TypeCounts(AllKinds(results))) == SumTotals(results)
  {
    TypeCountsSum(AllKinds(results));
    TotalsMatchKinds(results);
  }

  /** `average_detections_per_frame` */
  function Average(total: nat, frames: nat): (a: real)
    ensures frames == 0 ==> a == 0.0
    ensures frames > 0 ==> a * frames as real == total as real
  {
    if frames > 0 then total as real / frames as real else 0.0
  }

  /** One more detection for the per-type counts. */
  lemma CountStep(before: seq<string>, ds: seq<Detection>, j: nat)
    requires j < |ds|
    ensures var m := TypeCounts(before + KindsOf(ds[..j])); var t := ds[j].kind;
      TypeCounts(before + KindsOf(ds[..j + 1])) == m[t := (if t in m then m[t] else 0) + 1]
  {
    assert ds[..j + 1][..j] == ds[..j];
    var kinds := before + KindsOf(ds[..j + 1]);
    assert kinds[..|kinds| - 1] == before + KindsOf(ds[..j]);
  }

  /** The inner loop of the summary: one frame's detections added to the per-type counts. */
  method CountKinds(counts: map<string, nat>, ghost before: seq<string>, ds: seq<Detection>)
      returns (r: map<string, nat>)
    requires counts == TypeCounts(before)
    ensures r == TypeCounts(before + KindsOf(ds))
  {
    r := counts;
    assert ds[..0] == [] && before + KindsOf([]) == before;
    var j := 0;
    while j < |ds|
      invariant 0 <= j <= |ds|
      invariant r == TypeCounts(before + KindsOf(ds[..j]))
    {
      CountStep(before, ds, j);
      var t := ds[j].kind;
      r := r[t := (if t in r then r[t] else 0) + 1];
      j := j + 1;
    }
    assert ds[..|ds|] == ds;
  }

  /** The summary loops of `process_video`: the two sums and the per-type counts. */
  method Summarize(results: seq<FrameResult>) returns (s: Summary)
    ensures s.framesProcessed == |results|
    ensures s.totalDetections == SumTotals(results) && s.totalLaneHazards == SumLane(results)
    ensures s.detectionsByType == TypeCounts(AllKinds(results))
    ensures s.averagePerFrame == Average(SumTotals(results), |results|)
  {
    var total, lane := 0, 0;
    var counts: map<string, nat> := map[];
    var i := 0;
    while i < |results|
      invariant 0 <= i <= |results|
      invariant total == SumTotals(results[..i]) && lane == SumLane(results[..i])
      invariant counts == TypeCounts(AllKinds(results[..i]))
    {
      assert results[..i + 1][..i] == results[..i];
      var ds := results[i].detections;
      counts := CountKinds(counts, AllKinds(results[..i]), ds);
      assert AllKinds(results[..i + 1]) == AllKinds(results[..i]) + KindsOf(ds);
      total := total + results[i].totalDetections;
      lane := lane + results[i].laneHazards;
      i := i + 1;
    }
    assert results[..|results|] == results;
    s := Summary(|results|, total, lane, counts, Average(total, |results|));
  }

  /** What the decoder gives per frame: its size and the two models' rows for it. */
  datatype FrameInput = FrameInput(width: nat, height: nat, road: seq<RawBox>, standard: seq<RawBox>)

  /** The frame result of every frame, in order. */
  function ResultsOf(frames: seq<FrameInput>, roadNames: Names, standardNames: Names, estimate: Estimator)
      : (rs: seq<FrameResult>)
    ensures |rs| == |frames|
    ensures forall i :: 0 <= i < |rs| ==> Consistent(rs[i])
  {
    if frames == [] then []
    else
      var f := frames[|frames| - 1];
      ResultsOf(frames[..|frames| - 1], roadNames, standardNames, estimate)
        + [FrameResultOf(roadNames, f.road, standardNames, f.standard, estimate, f.width, f.height)]
  }

  /** The summary of a run over `frames`. */
  function SummaryOf(frames: seq<FrameInput>, roadNames: Names, standardNames: Names, estimate: Estimator): Summary {
    var rs := ResultsOf(frames, roadNames, standardNames, estimate);
    Summary(|frames|, SumTotals(rs), SumLane(rs), TypeCounts(AllKinds(rs)), Average(SumTotals(rs), |frames|))
  }

  /** One more frame adds its frame result at the end. */
  lemma ResultsOfSnoc(frames: seq<FrameInput>, roadNames: Names, standardNames: Names, estimate: Estimator, n: nat)
    requires n < |frames|
    ensures ResultsOf(frames[..n + 1], roadNames, standardNames, estimate)
      == ResultsOf(frames[..n], roadNames, standardNames, estimate)
         + [FrameResultOf(roadNames, frames[n].road, standardNames, frames[n].standard, estimate, frames[n].width, frames[n].height)]
  {
    assert frames[..n + 1][..n] == frames[..n];
  }

  /** The summary of a run counts every type once per detection, adds up to its total, lists
      no more lane hazards than detections, and lists only types that were seen. */
  lemma SummaryOfFacts(frames: seq<FrameInput>, roadNames: Names, standardNames: Names, estimate: Estimator)
    ensures var s := SummaryOf(frames, roadNames, standardNames, estimate);
      MapSum(s.detectionsByType) == s.totalDetections
      && s.totalLaneHazards <= s.totalDetections
      && forall t :: t in s.detectionsByType ==> s.detectionsByType[t] >= 1
  {
    var rs := ResultsOf(frames, roadNames, standardNames, estimate);
    CountsAddUp(rs);
    TotalsMatchKinds(rs);
    CountsPositive(AllKinds(rs));
  }

  /** `process_video`: false when the file is missing or does not open; otherwise every frame
      the decoder yields is processed, then summarised. */
  method ProcessVideo(fileExists: bool, opens: bool, frames: seq<FrameInput>, roadNames: Names, standardNames: Names,
                      estimate: Estimator)
      returns (ok: bool, summary: Option<Summary>)
    ensures ok <==> fileExists && opens
    ensures ok ==> summary == Some(SummaryOf(frames, roadNames, standardNames, estimate))
    ensures ok ==> MapSum(summary.value.detectionsByType) == summary.value.totalDetections
    ensures ok ==> summary.value.totalLaneHazards <= summary.value.totalDetections
    ensures ok ==> forall t :: t in summary.value.detectionsByType ==> summary.value.detectionsByType[t] >= 1
    ensures !ok ==> summary.None?
  {
    if !fileExists || !opens {
      return false, None;
    }
    var results: seq<FrameResult> := [];
    var n := 0;
    while n < |frames|
      invariant 0 <= n <= |frames| && |results| == n
      invariant results == ResultsOf(frames[..n], roadNames, standardNames, estimate)
    {
      var f := frames[n];
      var r := ProcessFrame(roadNames, f.road, standardNames, f.standard, estimate, f.width, f.height);
      ResultsOfSnoc(frames, roadNames, standardNames, estimate, n);
      results := results + [r];
      n := n + 1;
    }
    assert frames[..n] == frames;
    var s := Summarize(results);
    SummaryOfFacts(frames, roadNames, standardNames, estimate);
    return true, Some(s);
  }

  /** Every counted type was counted at least once. */
  lemma {:induction false} CountsPositive(types: seq<string>)
    ensures forall t :: t in TypeCounts(types) ==> TypeCounts(types)[t] >= 1
    decreases |types|
  {
    if types != [] {
      CountsPositive(types[..|types| - 1]);
    }
  }
}
