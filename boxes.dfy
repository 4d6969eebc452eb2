/** What the two detection paths share: a model output row, class naming, the threshold key
    and the driver's-lane test on the middle half of the frame. */
module Boxes {
  import opened Common
  import Config

  /** One row of a model's `boxes.data`: corners, confidence and the class id after `int(cls)`. */
  datatype RawBox = RawBox(x1: real, y1: real, x2: real, y2: real, conf: real, cls: int)

  /** A model's `names`: class id to class name. */
  type Names = map<int, string>

  /** `distance_estimator.estimate_distance(class_name, bbox_width, frame_width)`, taken as given. */
  type Estimator = (string, real, nat) -> real

  /** `f"class_{cls_int}"` */
  function ThresholdKey(cls: int): (key: string)
    ensures StartsWith(key, "class_") && key[6..] == IntToString(cls)
  {
    "class_" + IntToString(cls)
  }

  /** `names[cls] if cls in names else f"class_{cls}"` */
  function ClassName(names: Names, cls: int): string {
    if cls in names then names[cls] else ThresholdKey(cls)
  }

  /** The standard-model classes the backend reports. */
  predicate Tracked(name: string) {
    name == "person" || name == "dog" || name == "cow"
  }

  /** Only classes 0 and 1 of the road model have a threshold entry. */
  lemma ThresholdKeyKnown(cls: int)
    ensures ThresholdKey(cls) in Config.DetectionThresholds <==> cls == 0 || cls == 1
  {
    var key := ThresholdKey(cls);
    assert IntToString(0) == "0" && IntToString(1) == "1";
    if key == "class_0" {
      assert key[6..] == "0";
      IntToStringInjective(cls, 0);
    } else if key == "class_1" {
      assert key[6..] == "1";
      IntToStringInjective(cls, 1);
    }
    assert |key| >= 7;
  }

  /** `int(frame_width * 0.25)` */
  function LeftBoundary(width: nat): nat {
    width / 4
  }

  /** `int(frame_width * 0.75)` */
  function RightBoundary(width: nat): nat {
    3 * width / 4
  }

  function CenterX(b: RawBox): real {
    (b.x1 + b.x2) / 2.0
  }

  /** The box centre lies in the driver's lane, bounds included. */
  predicate InLane(width: nat, b: RawBox) {
    LeftBoundary(width) as real <= CenterX(b) <= RightBoundary(width) as real
  }

  /** The lane is the middle half of the frame, its bounds rounded down to whole pixels: exactly
      the middle half when the width is a multiple of 4, and never right of it otherwise. */
  lemma LaneIsMiddleHalf(width: nat, b: RawBox)
    ensures InLane(width, b) ==> width as real / 4.0 - 1.0 < CenterX(b) <= 3.0 * width as real / 4.0
    ensures width % 4 == 0 ==> (InLane(width, b) <==> width as real / 4.0 <= CenterX(b) <= 3.0 * width as real / 4.0)
  {
    var l := LeftBoundary(width);
    var r := RightBoundary(width);
    assert 4 * l <= width < 4 * l + 4 && 4 * r <= 3 * width;
    if width % 4 == 0 {
      assert width == 4 * l;
      assert 3 * width == 4 * (3 * l);
      assert r == 3 * l;
    }
    LaneBounds(width as real, l as real, r as real, CenterX(b), width % 4 == 0);
  }

  /** The same on reals: bounds within four pixels of the quarter points place the centre. */
  lemma LaneBounds(w: real, l: real, r: real, c: real, exact: bool)
    requires 4.0 * l <= w < 4.0 * l + 4.0 && 4.0 * r <= 3.0 * w
    requires exact ==> 4.0 * l == w && 4.0 * r == 3.0 * w
    ensures l <= c <= r ==> w / 4.0 - 1.0 < c <= 3.0 * w / 4.0
    ensures exact ==> (l <= c <= r <==> w / 4.0 <= c <= 3.0 * w / 4.0)
  {
  }
}
