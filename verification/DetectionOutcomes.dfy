/** What decoding, suppressing and promoting come to, told by the numbers in the tensor. */
module DetectionOutcomes {
  import opened Wrappers
  import opened Model
  import opened Nms
  import opened Decoder
  import opened PostProcessor
  import L = Letterbox
  import NmsTheory

  // ---- The tensor ------------------------------------------------------------------------------

  /** Anchor `a` of a channels-first tensor has its values `anchors` apart; of an
      anchors-first one, side by side. */
  lemma AnchorOutcome(raw: seq<real>, channels: nat, anchors: nat, a: nat, ch: nat)
    requires channels * anchors == anchors * channels <= |raw| && a < anchors && ch < channels
    ensures 0 <= ch * anchors + a < |raw| && 0 <= a * channels + ch < |raw|
    ensures Columns(raw, channels, anchors)[a][ch] == raw[ch * anchors + a]
    ensures Rows(raw, channels, anchors)[a][ch] == raw[a * channels + ch]
    ensures |raw| == channels * anchors ==>
              && Anchors(raw, Orientation(true, channels, anchors))[a][ch] == raw[ch * anchors + a]
              && Anchors(raw, Orientation(false, channels, anchors))[a][ch] == raw[a * channels + ch]
  {
    CellInside(ch, channels, anchors, a);
    CellInside(a, anchors, channels, ch);
  }

  /** A model's output must be a single matrix with one dimension of four plus its number of
      classes; the first such dimension carries the channels. */
  lemma OrientOutcome(shape: seq<int>, spec: ModelSpec)
    ensures var r, channels := Orient(shape, spec), 4 + |spec.detectors|;
            && (r == Err(BadRank) <==> |shape| != 3 || shape[0] != 1)
            && (r.Ok? <==> |shape| == 3 && shape[0] == 1 && (shape[1] == channels || shape[2] == channels))
            && (r.Ok? && shape[1] == channels ==> r.value == Orientation(true, channels, shape[2]))
            && (r.Ok? && shape[1] != channels ==> r.value == Orientation(false, channels, shape[1]))
  {
  }

  // ---- Decoding --------------------------------------------------------------------------------

  /** The score a class must reach: its type's own threshold if there is one. */
  lemma ThresholdOutcome(spec: ModelSpec, config: DetectionConfig, k: int)
    ensures config.ConfidenceFor(spec.DetectorFor(k)) ==
            if 0 <= k < |spec.detectors| && spec.detectors[k].Some?
               && spec.detectors[k].value in config.perTypeConfidence
            then config.perTypeConfidence[spec.detectors[k].value]
            else config.confidenceThreshold
  {
  }

  /** What a single anchor gives: its detection or nothing. */
  function Given(a: seq<real>, spec: ModelSpec, config: DetectionConfig): seq<RawDetection>
    requires |a| == 4 + spec.ClassCount()
  {
    match DecodeAnchor(a, spec, config)
    case None => []
    case Some(d) => [d]
  }

  lemma DecodedNext(x: seq<seq<real>>, a: seq<real>, spec: ModelSpec, config: DetectionConfig)
    requires Shaped(x, spec) && Shaped(x + [a], spec) && |a| == 4 + spec.ClassCount()
    ensures DecodeAll(x + [a], spec, config) == DecodeAll(x, spec, config) + Given(a, spec, config)
  {
    assert (x + [a])[..|x|] == x;
  }

  lemma Assemble<T>(x: seq<T>, y: seq<T>, z: seq<T>)
    ensures (x + y) + z == x + (y + z)
  {
  }

  /** Decoding a list is decoding its parts one after the other, down to single anchors. */
  lemma {:induction false} DecodedAppends(
      x: seq<seq<real>>, y: seq<seq<real>>, spec: ModelSpec, config: DetectionConfig)
    requires Shaped(x, spec) && Shaped(y, spec) && Shaped(x + y, spec)
    ensures DecodeAll(x + y, spec, config) == DecodeAll(x, spec, config) + DecodeAll(y, spec, config)
    ensures |y| == 1 ==> DecodeAll(y, spec, config) == Given(y[0], spec, config)
    decreases |y|
  {
    if |y| == 1 {
      assert y[0] in y && y == [] + [y[0]];
      DecodedNext([], y[0], spec, config);
    }
    if y == [] {
      assert x + y == x;
    } else {
      var init, a := y[..|y| - 1], y[|y| - 1];
      assert y == init + [a] && a in y;
      assert x + y == (x + init) + [a];
      assert Shaped(x + init, spec) && Shaped((x + init) + [a], spec);
      DecodedAppends(x, init, spec, config);
      DecodedNext(x + init, a, spec, config);
      DecodedNext(init, a, spec, config);
      Assemble(DecodeAll(x, spec, config), DecodeAll(init, spec, config), Given(a, spec, config));
    }
  }

  /** No anchor is lost and none is invented. */
  lemma {:induction false} DecodedIsExact(
      anchors: seq<seq<real>>, spec: ModelSpec, config: DetectionConfig, d: RawDetection)
    requires Shaped(anchors, spec)
    ensures d in DecodeAll(anchors, spec, config) <==>
            exists a :: a in anchors && DecodeAnchor(a, spec, config) == Some(d)
  {
    if anchors != [] {
      var n := |anchors| - 1;
      assert anchors == anchors[..n] + [anchors[n]];
      DecodedIsExact(anchors[..n], spec, config, d);
    }
  }

  // ---- Suppressing -------------------------------------------------------------------------------

  /** The area two boxes share, and the area either covers. */
  function Common(a: PixelBox, b: PixelBox): real {
    Span(Max(a.left, b.left), Min(a.right, b.right)) * Span(Max(a.top, b.top), Min(a.bottom, b.bottom))
  }

  function Size(a: PixelBox): real {
    Span(a.left, a.right) * Span(a.top, a.bottom)
  }

  function Span(p: real, q: real): real {
    if p <= q then q - p else 0.0
  }

  function Ratio(common: real, union: real): real {
    if union > 0.0 then common / union else 0.0
  }

  lemma SpanIs(p: real, q: real)
    ensures AtLeastZero(q - p) == Span(p, q)
  {
  }

  lemma SameProduct(x: real, y: real, x': real, y': real)
    requires x == x' && y == y'
    ensures x * y == x' * y'
  {
  }

  lemma ShareIs(iw: real, ih: real, aw: real, ah: real, bw: real, bh: real)
    ensures Share(iw, ih, aw, ah, bw, bh) == Ratio(iw * ih, aw * ah + bw * bh - iw * ih)
  {
  }

  lemma CommonIs(a: PixelBox, b: PixelBox)
    ensures InterWidth(a, b) * InterHeight(a, b) == Common(a, b)
  {
    var w, h := Span(Max(a.left, b.left), Min(a.right, b.right)), Span(Max(a.top, b.top), Min(a.bottom, b.bottom));
    SpanIs(Max(a.left, b.left), Min(a.right, b.right));
    SpanIs(Max(a.top, b.top), Min(a.bottom, b.bottom));
    SameProduct(InterWidth(a, b), InterHeight(a, b), w, h);
  }

  lemma SizeIs(a: PixelBox)
    ensures a.Width() * a.Height() == Size(a)
  {
    SpanIs(a.left, a.right);
    SpanIs(a.top, a.bottom);
    SameProduct(a.Width(), a.Height(), Span(a.left, a.right), Span(a.top, a.bottom));
  }

  /** The overlap measure is the shared area over the area of the union, zero if that is
      nothing. */
  lemma IouOutcome(a: PixelBox, b: PixelBox)
    ensures Iou(a, b) == Ratio(Common(a, b), Size(a) + Size(b) - Common(a, b))
  {
    ShareIs(InterWidth(a, b), InterHeight(a, b), a.Width(), a.Height(), b.Width(), b.Height());
    CommonIs(a, b);
    SizeIs(a);
    SizeIs(b);
  }

  /** Of two boxes the weaker is suppressed iff they are of one class and overlap by more than
      the threshold. */
  lemma PairOutcome(a: RawDetection, b: RawDetection, threshold: real, cap: int)
    requires a.score >= b.score && cap >= 2
    ensures Kept([a, b], threshold, cap) ==
            if a.classIndex == b.classIndex && Iou(a.box, b.box) > threshold then [a] else [a, b]
  {
    L.KeptOfTwo(a, b, threshold, cap);
  }

  // ---- Promoting -----------------------------------------------------------------------------------

  lemma {:induction false} PromotedAppends(
      x: seq<RawDetection>, y: seq<RawDetection>, spec: ModelSpec, t: L.LetterboxTransform, at: int)
    requires t.Valid()
    ensures PromoteAll(x + y, spec, t, at) == PromoteAll(x, spec, t, at) + PromoteAll(y, spec, t, at)
    decreases |y|
  {
    if y == [] {
      assert x + y == x;
    } else {
      var n := |y| - 1;
      assert (x + y)[..|x + y| - 1] == x + y[..n] && (x + y)[|x + y| - 1] == y[n];
      PromotedAppends(x, y[..n], spec, t, at);
    }
  }

  /** A survivor of a mapped class is reported with that type, its own score and its own box
      mapped back; one of an unmapped class is not reported. */
  function Report(d: RawDetection, spec: ModelSpec, t: L.LetterboxTransform, at: int): seq<Detection>
    requires t.Valid()
  {
    if 0 <= d.classIndex < |spec.detectors| && spec.detectors[d.classIndex].Some?
    then [Detection(spec.detectors[d.classIndex].value, d.score, Some(t.BoxToNormalized(d.box)), at)]
    else []
  }

  lemma PromotedOne(d: RawDetection, spec: ModelSpec, t: L.LetterboxTransform, at: int)
    requires t.Valid()
    ensures PromoteAll([d], spec, t, at) == Report(d, spec, t, at)
  {
    assert [d][..0] == [];
  }

  lemma {:induction false} PromotedIsExact(
      kept: seq<RawDetection>, spec: ModelSpec, t: L.LetterboxTransform, at: int, r: Detection)
    requires t.Valid()
    ensures r in PromoteAll(kept, spec, t, at) <==> exists d :: d in kept && r in Report(d, spec, t, at)
  {
    if kept != [] {
      var init, last := kept[..|kept| - 1], kept[|kept| - 1];
      assert kept == init + [last];
      PromotedIsExact(init, spec, t, at, r);
      PromotedAppends(init, [last], spec, t, at);
      PromotedOne(last, spec, t, at);
    }
  }

  // ---- The whole chain --------------------------------------------------------------------------------

  /** Class `k` of this anchor is what its scores say, at or above the class's threshold. */
  ghost predicate Says(a: seq<real>, k: int, spec: ModelSpec, config: DetectionConfig) {
    && |a| == 4 + |spec.detectors| && FirstArgMax(a[4..], k)
    && a[4 + k] >= (if spec.detectors[k].Some? && spec.detectors[k].value in config.perTypeConfidence
                    then config.perTypeConfidence[spec.detectors[k].value] else config.confidenceThreshold)
  }

  lemma SaysDecodes(a: seq<real>, k: int, spec: ModelSpec, config: DetectionConfig)
    requires |a| == 4 + spec.ClassCount()
    ensures Says(a, k, spec, config) <==>
            DecodeAnchor(a, spec, config).Some? && DecodeAnchor(a, spec, config).value.classIndex == k
    ensures Says(a, k, spec, config) ==>
              DecodeAnchor(a, spec, config) == Some(RawDetection(k, a[4 + k], BoxOf(a, spec)))
  {
    DecodeAnchorExactly(a, spec, config, k);
    ThresholdOutcome(spec, config, k);
    var r := DecodeAnchor(a, spec, config);
    if r.Some? {
      assert r == Some(r.value);
    }
  }

  /** Every reported detection is some anchor's: its type is that of the anchor's best class,
      its confidence that class's score, its box the anchor's box mapped back. */
  lemma DetectionsAreTraceable(
      anchors: seq<seq<real>>, spec: ModelSpec, config: DetectionConfig, t: L.LetterboxTransform, at: int, r: Detection)
    returns (a: seq<real>, k: int)
    requires t.Valid() && Shaped(anchors, spec) && r in PostProcess(anchors, spec, config, t, at)
    ensures a in anchors && Says(a, k, spec, config) && spec.detectors[k] == Some(r.kind)
    ensures r == Detection(r.kind, a[4 + k], Some(t.BoxToNormalized(BoxOf(a, spec))), at)
  {
    var decoded := DecodeAll(anchors, spec, config);
    var kept := Kept(decoded, config.iouThreshold, config.maxDetections);
    PromotedIsExact(kept, spec, t, at, r);
    var d :| d in kept && r in Report(d, spec, t, at);
    NmsTheory.KeptIsSound(decoded, config.iouThreshold, config.maxDetections);
    assert d in multiset(kept);
    assert d in multiset(decoded);
    DecodedIsExact(anchors, spec, config, d);
    a :| a in anchors && DecodeAnchor(a, spec, config) == Some(d);
    k := d.classIndex;
    SaysDecodes(a, k, spec, config);
  }

  /** No hazard is lost: while the cap is not reached, whatever type an anchor shows is
      reported with at least its confidence. */
  lemma HazardsAreReported(
      anchors: seq<seq<real>>, spec: ModelSpec, config: DetectionConfig, t: L.LetterboxTransform, at: int,
      a: seq<real>, k: int)
    returns (r: Detection)
    requires t.Valid() && Shaped(anchors, spec) && a in anchors && Says(a, k, spec, config) && spec.detectors[k].Some?
    requires |Kept(DecodeAll(anchors, spec, config), config.iouThreshold, config.maxDetections)| < config.maxDetections
    ensures r in PostProcess(anchors, spec, config, t, at)
    ensures r.kind == spec.detectors[k].value && r.confidence >= a[4 + k]
  {
    var decoded := DecodeAll(anchors, spec, config);
    var d := RawDetection(k, a[4 + k], BoxOf(a, spec));
    SaysDecodes(a, k, spec, config);
    DecodedIsExact(anchors, spec, config, d);
    var winner := d;
    if d !in Kept(decoded, config.iouThreshold, config.maxDetections) {
      winner := NmsTheory.DroppedIsDominated(decoded, config.iouThreshold, config.maxDetections, d);
    }
    r := Detection(spec.detectors[k].value, winner.score, Some(t.BoxToNormalized(winner.box)), at);
    assert r in Report(winner, spec, t, at);
    PromotedIsExact(Kept(decoded, config.iouThreshold, config.maxDetections), spec, t, at, r);
  }

  // ---- Boxes mapped back --------------------------------------------------------------------------------

  /** Where an edge of a mapped box lies: proportionally inside the content, at the border
      outside it. */
  lemma EdgeOutcome(t: L.LetterboxTransform, x: real, y: real)
    requires t.Valid()
    ensures var (u, v) := t.PointToNormalized(x, y);
            && (x <= t.padX ==> u == 0.0) && (y <= t.padY ==> v == 0.0)
            && (x >= t.FarX() ==> u == 1.0) && (y >= t.FarY() ==> v == 1.0)
            && (t.padX <= x <= t.FarX() ==> u * t.uprightWidth as real * t.scale == x - t.padX)
            && (t.padY <= y <= t.FarY() ==> v * t.uprightHeight as real * t.scale == y - t.padY)
  {
    EdgeAlong(x, t.padX, t.scale, t.uprightWidth as real);
    EdgeAlong(y, t.padY, t.scale, t.uprightHeight as real);
  }

  lemma EdgeAlong(x: real, pad: real, s: real, size: real)
    requires s > 0.0 && size > 0.0
    ensures var u := L.Unplace(x, pad, s, size);
            && (x <= pad ==> u == 0.0) && (x >= pad + size * s ==> u == 1.0)
            && (pad <= x <= pad + size * s ==> u * size * s == x - pad)
  {
    if x <= pad {
      L.UnplaceBelow(x, pad, s, size);
    }
    if x >= pad + size * s {
      L.UnplaceAbove(x, pad, s, size);
    }
    if pad <= x <= pad + size * s {
      L.AxisInverseBack(x, pad, s, size);
    }
  }

  /** A mapped box has the mapped edges of the box, in order. */
  lemma MappedBoxOutcome(t: L.LetterboxTransform, box: PixelBox)
    requires t.Valid() && box.left <= box.right && box.top <= box.bottom
    ensures var b := t.BoxToNormalized(box);
            && (b.left, b.top) == t.PointToNormalized(box.left, box.top)
            && (b.right, b.bottom) == t.PointToNormalized(box.right, box.bottom)
  {
    L.AxisOrder(box.left, box.right, t.padX, t.scale, t.uprightWidth as real);
    L.AxisOrder(box.top, box.bottom, t.padY, t.scale, t.uprightHeight as real);
  }
}
