/** The on-device domain types shared by the detection modules (`core/model`).
    Scores and coordinates are real numbers: float rounding is not modelled. */
module Model {
  import opened Wrappers

  datatype DetectorType = Fire | Smoke | Fall | Intrusion | CameraTampering

  /** A region of a frame in normalised coordinates. */
  datatype BoundingBox = BoundingBox(left: real, top: real, right: real, bottom: real)

  /** One raw observation of one frame. */
  datatype Detection = Detection(
    kind: DetectorType,
    confidence: real,
    box: Option<BoundingBox>,
    frameTimestampMs: int)

  /** A confirmed hazard. Its random identifier is left to the delivery model. */
  datatype SecurityEvent = SecurityEvent(
    kind: DetectorType,
    confidence: real,
    firstSeenMs: int,
    confirmedAtMs: int,
    box: Option<BoundingBox>)
}
