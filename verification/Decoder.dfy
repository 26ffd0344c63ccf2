/** Reading the YOLOv8 output tensor: its orientation, the transpose, and the decoder. */
module Decoder {
  import opened Wrappers
  import opened Model
  import opened Nms
  import opened Arithmetic

  /** The parts of a model's description that decoding depends on; `detectors` gives the
      hazard type, if any, of every class channel. */
  datatype ModelSpec = ModelSpec(
    inputWidth: int,
    inputHeight: int,
    detectors: seq<Option<DetectorType>>,
    coordinatesNormalized: bool)
  {
    function ClassCount(): nat { |detectors| }

    function DetectorFor(index: int): Option<DetectorType> {
      if 0 <= index < |detectors| then detectors[index] else None
    }
  }

  datatype DetectionConfig = DetectionConfig(
    confidenceThreshold: real,
    iouThreshold: real,
    maxDetections: int,
    perTypeConfidence: map<DetectorType, real>)
  {
    function ConfidenceFor(kind: Option<DetectorType>): real {
      if kind.Some? && kind.value in perTypeConfidence then perTypeConfidence[kind.value] else confidenceThreshold
    }
  }

  datatype DecodeError = WrongChannelCount | BufferTooSmall

  // ---- Cells of a flattened table -----------------------------------------------

  function Cell(row: int, width: int, col: int): int {
    row * width + col
  }

  lemma CellInside(row: int, rows: int, width: int, col: int)
    requires 0 <= row < rows && 0 <= col < width
    ensures 0 <= Cell(row, width, col) < rows * width
  {
    RowsApart(row, rows, width);
    ProductIsNonNegative(row, width);
  }

  lemma CellsDiffer(width: int, row: int, col: int, row': int, col': int)
    requires 0 <= col < width && 0 <= col' < width && (row, col) != (row', col')
    ensures Cell(row, width, col) != Cell(row', width, col')
  {
    if row < row' {
      RowsApart(row, row', width);
    } else if row' < row {
      RowsApart(row', row, width);
    }
  }

  // ---- One anchor ------------------------------------------------------------------

  /** The first class whose score is greatest among the first `n` and positive, with
      that score; class -1 and score 0 when there is none. */
  function Best(anchor: seq<real>, n: nat): (int, real)
    requires 4 + n <= |anchor|
  {
    if n == 0 then (-1, 0.0)
    else
      var (c, s) := Best(anchor, n - 1);
      if anchor[4 + n - 1] > s then (n - 1, anchor[4 + n - 1]) else (c, s)
  }

  function BoxOf(anchor: seq<real>, spec: ModelSpec): PixelBox
    requires |anchor| >= 4
  {
    var scaleX := if spec.coordinatesNormalized then spec.inputWidth as real else 1.0;
    var scaleY := if spec.coordinatesNormalized then spec.inputHeight as real else 1.0;
    var cx, cy := anchor[0] * scaleX, anchor[1] * scaleY;
    var w, h := anchor[2] * scaleX, anchor[3] * scaleY;
    PixelBox(cx - w / 2.0, cy - h / 2.0, cx + w / 2.0, cy + h / 2.0)
  }

  function DecodeAnchor(anchor: seq<real>, spec: ModelSpec, config: DetectionConfig): Option<RawDetection>
    requires |anchor| == 4 + spec.ClassCount()
  {
    var (best, score) := Best(anchor, spec.ClassCount());
    if best < 0 || score < config.ConfidenceFor(spec.DetectorFor(best)) then None
    else Some(RawDetection(best, score, BoxOf(anchor, spec)))
  }

  predicate Shaped(anchors: seq<seq<real>>, spec: ModelSpec) {
    forall a :: a in anchors ==> |a| == 4 + spec.ClassCount()
  }

  /** The decoded anchors, in anchor order. */
  function DecodeAll(anchors: seq<seq<real>>, spec: ModelSpec, config: DetectionConfig): seq<RawDetection>
    requires Shaped(anchors, spec)
  {
    if anchors == [] then []
    else
      var n := |anchors| - 1;
      var earlier := DecodeAll(anchors[..n], spec, config);
      match DecodeAnchor(anchors[n], spec, config)
      case None => earlier
      case Some(d) => earlier + [d]
  }

  // ---- The tensor as anchors ---------------------------------------------------

  /** Anchor `a` of a channels-first table. */
  function Column(raw: seq<real>, channels: nat, anchors: nat, a: nat): (r: seq<real>)
    requires channels * anchors <= |raw| && a < anchors
    ensures |r| == channels
  {
    seq(channels, ch requires 0 <= ch < channels =>
      (CellInside(ch, channels, anchors, a); raw[Cell(ch, anchors, a)]))
  }

  /** Anchor `a` of an anchors-first table. */
  function Row(raw: seq<real>, channels: nat, anchors: nat, a: nat): (r: seq<real>)
    requires anchors * channels <= |raw| && a < anchors
    ensures |r| == channels
  {
    seq(channels, ch requires 0 <= ch < channels =>
      (CellInside(a, anchors, channels, ch); raw[Cell(a, channels, ch)]))
  }

  function Columns(raw: seq<real>, channels: nat, anchors: nat): (r: seq<seq<real>>)
    requires channels * anchors <= |raw|
    ensures |r| == anchors
    ensures forall a :: 0 <= a < anchors ==> r[a] == Column(raw, channels, anchors, a)
  {
    seq(anchors, a requires 0 <= a < anchors => Column(raw, channels, anchors, a))
  }

  function Rows(raw: seq<real>, channels: nat, anchors: nat): (r: seq<seq<real>>)
    requires anchors * channels <= |raw|
    ensures |r| == anchors
    ensures forall a :: 0 <= a < anchors ==> r[a] == Row(raw, channels, anchors, a)
  {
    seq(anchors, a requires 0 <= a < anchors => Row(raw, channels, anchors, a))
  }

  // ---- The decoder's loops --------------------------------------------------------

  method ArgMax(raw: array<real>, channels: nat, anchors: nat, i: nat) returns (bestClass: int, bestScore: real)
    requires 4 <= channels && channels * anchors <= raw.Length && i < anchors
    ensures (bestClass, bestScore) == Best(Column(raw[..], channels, anchors, i), channels - 4)
  {
    bestClass, bestScore := -1, 0.0;
    ghost var anchor := Column(raw[..], channels, anchors, i);
    for k := 0 to channels - 4
      invariant (bestClass, bestScore) == Best(anchor, k)
    {
      CellInside(4 + k, channels, anchors, i);
      var s := raw[(4 + k) * anchors + i];
      assert s == anchor[4 + k];
      if s > bestScore {
        bestScore := s;
        bestClass := k;
      }
    }
  }

  method Decode(raw: array<real>, numChannels: int, numAnchors: int, spec: ModelSpec, config: DetectionConfig)
    returns (r: Result<seq<RawDetection>, DecodeError>)
    requires numAnchors >= 0
    ensures r == Err(WrongChannelCount) <==> numChannels != 4 + spec.ClassCount()
    ensures r.Ok? <==> numChannels == 4 + spec.ClassCount() && numChannels * numAnchors <= raw.Length
    ensures r.Ok? ==> Shaped(Columns(raw[..], numChannels, numAnchors), spec)
                      && r.value == DecodeAll(Columns(raw[..], numChannels, numAnchors), spec, config)
  {
    if numChannels != 4 + spec.ClassCount() {
      return Err(WrongChannelCount);
    }
    if raw.Length < numChannels * numAnchors {
      return Err(BufferTooSmall);
    }
    var out := DecodeAnchors(raw, numChannels, numAnchors, spec, config);
    return Ok(out);
  }

  /** The loop over the anchors. */
  method DecodeAnchors(raw: array<real>, numChannels: nat, numAnchors: nat, spec: ModelSpec, config: DetectionConfig)
    returns (out: seq<RawDetection>)
    requires numChannels == 4 + spec.ClassCount() && numChannels * numAnchors <= raw.Length
    ensures Shaped(Columns(raw[..], numChannels, numAnchors), spec)
    ensures out == DecodeAll(Columns(raw[..], numChannels, numAnchors), spec, config)
  {
    ghost var anchors := Columns(raw[..], numChannels, numAnchors);
    out := [];
    for i := 0 to numAnchors
      invariant Shaped(anchors[..i], spec)
      invariant out == DecodeAll(anchors[..i], spec, config)
    {
      assert anchors[..i + 1][..i] == anchors[..i];
      var d := DecodeOne(raw, numChannels, numAnchors, i, spec, config);
      if d.Some? {
        out := out + [d.value];
      }
    }
    assert anchors[..numAnchors] == anchors;
  }

  /** The body of that loop. */
  method DecodeOne(
    raw: array<real>, numChannels: nat, numAnchors: nat, i: nat, spec: ModelSpec, config: DetectionConfig)
    returns (d: Option<RawDetection>)
    requires numChannels == 4 + spec.ClassCount() && numChannels * numAnchors <= raw.Length && i < numAnchors
    ensures d == DecodeAnchor(Column(raw[..], numChannels, numAnchors, i), spec, config)
  {
    var bestClass, bestScore := ArgMax(raw, numChannels, numAnchors, i);
    if bestClass < 0 {
      return None;
    }
    var kind := spec.DetectorFor(bestClass);
    if bestScore < config.ConfidenceFor(kind) {
      return None;
    }
    var box := ReadBox(raw, numChannels, numAnchors, i, spec);
    return Some(RawDetection(bestClass, bestScore, box));
  }

  method ReadBox(raw: array<real>, channels: nat, anchors: nat, i: nat, spec: ModelSpec) returns (box: PixelBox)
    requires 4 <= channels && channels * anchors <= raw.Length && i < anchors
    ensures box == BoxOf(Column(raw[..], channels, anchors, i), spec)
  {
    CellInside(0, channels, anchors, i);
    CellInside(1, channels, anchors, i);
    CellInside(2, channels, anchors, i);
    CellInside(3, channels, anchors, i);
    var scaleX := if spec.coordinatesNormalized then spec.inputWidth as real else 1.0;
    var scaleY := if spec.coordinatesNormalized then spec.inputHeight as real else 1.0;
    var cx := raw[i] * scaleX;
    var cy := raw[anchors + i] * scaleY;
    var w := raw[2 * anchors + i] * scaleX;
    var h := raw[3 * anchors + i] * scaleY;
    box := PixelBox(cx - w / 2.0, cy - h / 2.0, cx + w / 2.0, cy + h / 2.0);
  }

  // ---- The transpose ---------------------------------------------------------------

  /** From `n` rows of `c` cells to `c` rows of `n` cells. */
  method TransposeToChannelsFirst(src: array<real>, n: nat, c: nat) returns (dst: array<real>)
    requires src.Length == n * c
    ensures fresh(dst) && dst.Length == src.Length && c * n <= dst.Length
    ensures Columns(dst[..], c, n) == Rows(src[..], c, n)
  {
    dst := new real[src.Length](_ => 0.0);
    assert n * c == c * n;
    for a := 0 to n
      invariant forall p :: 0 <= p < a ==> Column(dst[..], c, n, p) == Row(src[..], c, n, p)
    {
      CopyRow(src, dst, n, c, a);
    }
  }

  method CopyRow(src: array<real>, dst: array<real>, n: nat, c: nat, a: nat)
    requires a < n && src.Length == dst.Length == n * c == c * n && src != dst
    modifies dst
    ensures Column(dst[..], c, n, a) == Row(src[..], c, n, a)
    ensures forall p :: 0 <= p < n && p != a ==> Column(dst[..], c, n, p) == old(Column(dst[..], c, n, p))
  {
    var base := a * c;
    for ch := 0 to c
      invariant forall k :: 0 <= k < ch ==> Column(dst[..], c, n, a)[k] == Row(src[..], c, n, a)[k]
      invariant forall p :: 0 <= p < n && p != a ==> Column(dst[..], c, n, p) == old(Column(dst[..], c, n, p))
    {
      CellInside(a, n, c, ch);
      CellInside(ch, c, n, a);
      ghost var before := dst[..];
      dst[ch * n + a] := src[base + ch];
      WriteOneCell(before, dst[..], c, n, ch, a);
    }
  }

  lemma WriteOneCell(before: seq<real>, after: seq<real>, c: nat, n: nat, ch: nat, a: nat)
    requires ch < c && a < n && |before| == |after| == c * n
    requires 0 <= Cell(ch, n, a) < |after| && after == before[Cell(ch, n, a) := after[Cell(ch, n, a)]]
    ensures forall p :: 0 <= p < n && p != a ==> Column(after, c, n, p) == Column(before, c, n, p)
    ensures forall k :: 0 <= k < c && k != ch ==> Column(after, c, n, a)[k] == Column(before, c, n, a)[k]
    ensures Column(after, c, n, a)[ch] == after[Cell(ch, n, a)]
  {
    forall p, k | 0 <= p < n && 0 <= k < c && (p, k) != (a, ch)
      ensures Column(after, c, n, p)[k] == Column(before, c, n, p)[k]
    {
      CellsDiffer(n, ch, a, k, p);
      CellInside(k, c, n, p);
    }
  }
}
