/** The detection constants of the backend configuration. */
module Config {

  /** Per-class confidence thresholds: road-model classes by `class_{id}`, standard-model classes by name. */
  const DetectionThresholds: map<string, real> := map[
    "class_0" := 0.40,  // pothole
    "class_1" := 0.60,  // speed bump
    "person" := 0.45,
    "dog" := 0.45,
    "cow" := 0.45
  ]

  /** The base confidence threshold of non-maximum suppression, also the fallback threshold. */
  const NmsConfThreshold: real := 0.25

  /** Camera index configured as default (the live manager probes 0, 1, 2 instead). */
  const DefaultCamera: nat := 2

  /** Distance estimation: focal length in pixels and average object widths in metres. */
  const FocalLength: real := 1000.0
  const KnownWidth: map<string, real> := map["person" := 0.5, "dog" := 0.4, "cow" := 0.8]
}
