/** From the raw output tensor of a loaded model to domain detections. */
module PostProcessor {
  import opened Wrappers
  import opened Model
  import opened Nms
  import opened Decoder
  import opened Letterbox
  import NmsTheory

  // ---- How a loaded model is oriented ----------------------------------------------

  datatype LoadError = BadRank | NoChannelDimension

  datatype Orientation = Orientation(channelsFirst: bool, channels: int, anchors: int)

  /** Which dimension of the output carries the channels. */
  function Orient(outShape: seq<int>, spec: ModelSpec): Result<Orientation, LoadError> {
    var expected := 4 + spec.ClassCount();
    if |outShape| != 3 || outShape[0] != 1 then Err(BadRank)
    else if outShape[1] == expected then Ok(Orientation(true, outShape[1], outShape[2]))
    else if outShape[2] == expected then Ok(Orientation(false, outShape[2], outShape[1]))
    else Err(NoChannelDimension)
  }

  /** The anchors of a flat output, whichever way it is laid out. */
  function Anchors(flat: seq<real>, o: Orientation): seq<seq<real>>
    requires o.channels >= 0 && o.anchors >= 0 && |flat| == o.channels * o.anchors
  {
    if o.channelsFirst then Columns(flat, o.channels, o.anchors) else Rows(flat, o.channels, o.anchors)
  }

  // ---- The chain -------------------------------------------------------------------

  function Promote(d: RawDetection, spec: ModelSpec, t: LetterboxTransform, timestampMs: int): seq<Detection>
    requires t.Valid()
  {
    match spec.DetectorFor(d.classIndex)
    case None => []
    case Some(kind) => [Detection(kind, d.score, Some(t.BoxToNormalized(d.box)), timestampMs)]
  }

  function PromoteAll(
    kept: seq<RawDetection>, spec: ModelSpec, t: LetterboxTransform, timestampMs: int): seq<Detection>
    requires t.Valid()
  {
    if kept == [] then []
    else
      PromoteAll(kept[..|kept| - 1], spec, t, timestampMs) + Promote(kept[|kept| - 1], spec, t, timestampMs)
  }

  function PostProcess(
    anchors: seq<seq<real>>, spec: ModelSpec, config: DetectionConfig, t: LetterboxTransform, timestampMs: int)
    : seq<Detection>
    requires t.Valid() && Shaped(anchors, spec)
  {
    PromoteAll(Kept(DecodeAll(anchors, spec, config), config.iouThreshold, config.maxDetections), spec, t, timestampMs)
  }

  method Process(raw: array<real>, numChannels: int, numAnchors: int, spec: ModelSpec, config: DetectionConfig,
                 t: LetterboxTransform, timestampMs: int)
    returns (r: Result<seq<Detection>, DecodeError>)
    requires numAnchors >= 0 && t.Valid()
    ensures r.Ok? <==> numChannels == 4 + spec.ClassCount() && numChannels * numAnchors <= raw.Length
    ensures r.Ok? ==> Shaped(Columns(raw[..], numChannels, numAnchors), spec)
                      && r.value == PostProcess(Columns(raw[..], numChannels, numAnchors), spec, config, t, timestampMs)
  {
    var decoded := Decode(raw, numChannels, numAnchors, spec, config);
    if decoded.Err? {
      return Err(decoded.error);
    }
    var kept := Suppress(decoded.value, config.iouThreshold, config.maxDetections);
    if kept == [] {
      return Ok([]);
    }
    var out := [];
    for i := 0 to |kept|
      invariant out == PromoteAll(kept[..i], spec, t, timestampMs)
    {
      assert kept[..i + 1][..i] == kept[..i];
      var kind := spec.DetectorFor(kept[i].classIndex);
      if kind.None? {
        continue;
      }
      out := out + [Detection(kind.value, kept[i].score, Some(t.BoxToNormalized(kept[i].box)), timestampMs)];
    }
    assert kept[..|kept|] == kept;
    return Ok(out);
  }

  /** One inference's output, oriented as loaded, through the whole chain: decoding
      never fails, and the result is that of decoding every anchor in place. */
  method ProcessOutput(flat: array<real>, outShape: seq<int>, o: Orientation, spec: ModelSpec,
                       config: DetectionConfig, t: LetterboxTransform, timestampMs: int)
    returns (r: Result<seq<Detection>, DecodeError>)
    requires t.Valid() && Orient(outShape, spec) == Ok(o)
    requires o.anchors >= 0 && flat.Length == o.channels * o.anchors
    ensures Shaped(Anchors(flat[..], o), spec)
    ensures r == Ok(PostProcess(Anchors(flat[..], o), spec, config, t, timestampMs))
  {
    var data := flat;
    if !o.channelsFirst {
      assert o.anchors * o.channels == o.channels * o.anchors;
      data := TransposeToChannelsFirst(flat, o.anchors, o.channels);
    }
    r := Process(data, o.channels, o.anchors, spec, config, t, timestampMs);
  }

  // ---- What the decoder and the chain guarantee ------------------------------------

  /** Is `k` the first class of greatest score, and is that score positive? */
  ghost predicate FirstArgMax(scores: seq<real>, k: int) {
    && 0 <= k < |scores|
    && scores[k] > 0.0
    && (forall j :: 0 <= j < |scores| ==> scores[j] <= scores[k])
    && (forall j :: 0 <= j < k ==> scores[j] < scores[k])
  }

  ghost predicate NonePositive(scores: seq<real>) {
    forall j :: 0 <= j < |scores| ==> scores[j] <= 0.0
  }

  lemma {:induction false} BestIsFirstArgMax(anchor: seq<real>, n: nat)
    requires 4 + n <= |anchor|
    ensures var (best, score) := Best(anchor, n);
            if best < 0 then
              best == -1 && score == 0.0 && NonePositive(anchor[4..4 + n])
            else
              FirstArgMax(anchor[4..4 + n], best) && score == anchor[4 + best]
  {
    if n > 0 {
      BestIsFirstArgMax(anchor, n - 1);
      assert anchor[4..4 + n] == anchor[4..4 + n - 1] + [anchor[4 + n - 1]];
    }
  }

  lemma FirstArgMaxIsUnique(scores: seq<real>, k: int, l: int)
    requires FirstArgMax(scores, k) && FirstArgMax(scores, l)
    ensures k == l
  {
  }

  /** An anchor is decoded to class `k` exactly when `k` is its first class of greatest
      score, that score is positive, and it reaches the threshold of the class. */
  lemma DecodeAnchorExactly(anchor: seq<real>, spec: ModelSpec, config: DetectionConfig, k: int)
    requires |anchor| == 4 + spec.ClassCount()
    ensures (exists d :: DecodeAnchor(anchor, spec, config) == Some(d) && d.classIndex == k) <==>
            FirstArgMax(anchor[4..], k) && anchor[4 + k] >= config.ConfidenceFor(spec.DetectorFor(k))
    ensures FirstArgMax(anchor[4..], k) && anchor[4 + k] >= config.ConfidenceFor(spec.DetectorFor(k)) ==>
              DecodeAnchor(anchor, spec, config) == Some(RawDetection(k, anchor[4 + k], BoxOf(anchor, spec)))
  {
    BestIsFirstArgMax(anchor, spec.ClassCount());
    assert anchor[4..] == anchor[4..4 + spec.ClassCount()];
    var r := DecodeAnchor(anchor, spec, config);
    if r.Some? {
      assert r == Some(r.value);
    }
    if FirstArgMax(anchor[4..], k) {
      assert anchor[4..][k] in anchor[4..];
      FirstArgMaxIsUnique(anchor[4..], k, Best(anchor, spec.ClassCount()).0);
    }
  }

  /** A decoded box is centred where the anchor says and as large as it says. */
  lemma DecodedBoxGeometry(anchor: seq<real>, spec: ModelSpec)
    requires |anchor| >= 4
    ensures var b := BoxOf(anchor, spec);
            var sx := if spec.coordinatesNormalized then spec.inputWidth as real else 1.0;
            var sy := if spec.coordinatesNormalized then spec.inputHeight as real else 1.0;
            && b.left + b.right == 2.0 * (anchor[0] * sx) && b.right - b.left == anchor[2] * sx
            && b.top + b.bottom == 2.0 * (anchor[1] * sy) && b.bottom - b.top == anchor[3] * sy
  {
  }

  ghost predicate Confident(d: RawDetection, spec: ModelSpec, config: DetectionConfig) {
    && 0 <= d.classIndex < spec.ClassCount() && d.score > 0.0
    && d.score >= config.ConfidenceFor(spec.DetectorFor(d.classIndex))
  }

  lemma {:induction false} DecodedAreConfident(anchors: seq<seq<real>>, spec: ModelSpec, config: DetectionConfig)
    requires Shaped(anchors, spec)
    ensures forall d :: d in DecodeAll(anchors, spec, config) ==> Confident(d, spec, config)
    ensures |DecodeAll(anchors, spec, config)| <= |anchors|
  {
    if anchors != [] {
      var n := |anchors| - 1;
      DecodedAreConfident(anchors[..n], spec, config);
      BestIsFirstArgMax(anchors[n], spec.ClassCount());
    }
  }

  ghost predicate Presentable(d: Detection, config: DetectionConfig, timestampMs: int) {
    && d.confidence > 0.0 && d.confidence >= config.ConfidenceFor(Some(d.kind))
    && d.frameTimestampMs == timestampMs && d.box.Some?
    && 0.0 <= d.box.value.left <= d.box.value.right <= 1.0
    && 0.0 <= d.box.value.top <= d.box.value.bottom <= 1.0
  }

  lemma {:induction false} PromotedArePresentable(
    kept: seq<RawDetection>, spec: ModelSpec, config: DetectionConfig, t: LetterboxTransform, timestampMs: int)
    requires t.Valid() && Descending(kept)
    requires forall d :: d in kept ==> Confident(d, spec, config)
    ensures var out := PromoteAll(kept, spec, t, timestampMs);
            && |out| <= |kept|
            && (forall d :: d in out ==> Presentable(d, config, timestampMs))
            && (forall d :: d in out ==> kept != [] && d.confidence >= kept[|kept| - 1].score)
            && (forall i, j :: 0 <= i < j < |out| ==> out[i].confidence >= out[j].confidence)
  {
    if kept != [] {
      var n := |kept| - 1;
      PromotedArePresentable(kept[..n], spec, config, t, timestampMs);
      var earlier := PromoteAll(kept[..n], spec, t, timestampMs);
      assert kept[n] in kept;
      forall d | d in earlier ensures d.confidence >= kept[n].score {
        assert kept[..n][n - 1].score >= kept[n].score;
      }
    }
  }

  /** Whatever the tensor held, the detections of a frame come in descending confidence,
      at most max(maxDetections, 1) of them, each of a mapped type, at or above that
      type's threshold, with an ordered box inside the unit square. */
  lemma PostProcessIsPresentable(
    anchors: seq<seq<real>>, spec: ModelSpec, config: DetectionConfig, t: LetterboxTransform, timestampMs: int)
    requires t.Valid() && Shaped(anchors, spec)
    ensures var out := PostProcess(anchors, spec, config, t, timestampMs);
            && |out| <= (if config.maxDetections < 1 then 1 else config.maxDetections)
            && (forall d :: d in out ==> Presentable(d, config, timestampMs))
            && (forall i, j :: 0 <= i < j < |out| ==> out[i].confidence >= out[j].confidence)
  {
    var decoded := DecodeAll(anchors, spec, config);
    var kept := Kept(decoded, config.iouThreshold, config.maxDetections);
    DecodedAreConfident(anchors, spec, config);
    NmsTheory.KeptIsSound(decoded, config.iouThreshold, config.maxDetections);
    forall d | d in kept ensures Confident(d, spec, config) {
      assert d in multiset(kept);
      assert d in multiset(decoded);
    }
    PromotedArePresentable(kept, spec, config, t, timestampMs);
  }
}
