/** From an NV21 frame to the model's input tensor: rotation, letterbox, normalisation and
    layout in one pass. */
module Preprocessor {
  import opened Wrappers
  import opened Arithmetic
  import opened Nv21
  import L = Letterbox

  // ---- Rotation ------------------------------------------------------------------------------

  /** Remainder that takes the sign of its left operand. */
  function Rem(a: int, b: int): int
    requires b > 0
  {
    if a >= 0 then a % b else -(-a % b)
  }

  function NormalizedRotation(degrees: int): int {
    Rem(Rem(degrees, 360) + 360, 360)
  }

  lemma NormalizedRotationIsModulo(degrees: int)
    ensures NormalizedRotation(degrees) == degrees % 360
  {
  }

  function UprightSize(rot: int, width: int, height: int): (int, int) {
    if rot == 90 || rot == 270 then (height, width) else (width, height)
  }

  function Clamp(x: int, low: int, high: int): int
    requires low <= high
  {
    if x < low then low else if x > high then high else x
  }

  function Turned(x: int, y: int, rot: int, width: int, height: int): (int, int) {
    if rot == 90 then (y, height - 1 - x)
    else if rot == 180 then (width - 1 - x, height - 1 - y)
    else if rot == 270 then (width - 1 - y, x)
    else (x, y)
  }

  /** The source pixel shown at an upright pixel. */
  function UprightToSource(x: int, y: int, rot: int, width: int, height: int): (int, int)
    requires width >= 1 && height >= 1
  {
    var (sx, sy) := Turned(x, y, rot, width, height);
    (Clamp(sx, 0, width - 1), Clamp(sy, 0, height - 1))
  }

  /** Turning the other way. */
  function SourceToUpright(x: int, y: int, rot: int, width: int, height: int): (int, int) {
    if rot == 90 then (height - 1 - y, x)
    else if rot == 180 then (width - 1 - x, height - 1 - y)
    else if rot == 270 then (y, width - 1 - x)
    else (x, y)
  }

  predicate Within(p: (int, int), width: int, height: int) {
    0 <= p.0 < width && 0 <= p.1 < height
  }

  /** For every rotation, upright pixels and source pixels correspond one to one, and the
      clamps never act. */
  lemma UprightIsBijective(p: (int, int), s: (int, int), rot: int, width: int, height: int)
    requires width >= 1 && height >= 1
    ensures var (uw, uh) := UprightSize(rot, width, height);
            && (Within(p, uw, uh) ==>
                  && Within(UprightToSource(p.0, p.1, rot, width, height), width, height)
                  && UprightToSource(p.0, p.1, rot, width, height) == Turned(p.0, p.1, rot, width, height))
            && (Within(s, width, height) ==> Within(SourceToUpright(s.0, s.1, rot, width, height), uw, uh))
            && (Within(p, uw, uh) && Within(s, width, height) ==>
                  (UprightToSource(p.0, p.1, rot, width, height) == s <==>
                   p == SourceToUpright(s.0, s.1, rot, width, height)))
  {
  }

  /** The turn is clockwise: a quarter turn shows the source's top left pixel top right; a
      half turn is two of them, and 270 degrees three. */
  lemma QuarterTurnsCompose(s: (int, int), width: int, height: int)
    ensures SourceToUpright(0, 0, 90, width, height) == (UprightSize(90, width, height).0 - 1, 0)
    ensures var once := SourceToUpright(s.0, s.1, 90, width, height);
            var twice := SourceToUpright(once.0, once.1, 90, height, width);
            && twice == SourceToUpright(s.0, s.1, 180, width, height)
            && SourceToUpright(twice.0, twice.1, 90, width, height) == SourceToUpright(s.0, s.1, 270, width, height)
  {
  }

  // ---- One cell of the input -----------------------------------------------------------------------

  datatype InputLayout = NHWC | NCHW
  datatype Normalization = Scale01 | ScaleMinus11 | Unscaled

  datatype InputSpec = InputSpec(
    width: nat, height: nat, channels: nat, layout: InputLayout, rgb: bool, normalization: Normalization)

  datatype Frame = Frame(width: nat, height: nat, rotation: int, nv21: seq<Byte>)

  /** A frame, a model's input, and the conversion of one pixel's (Y, V, U) to RGB. */
  datatype Job = Job(frame: Frame, spec: InputSpec, toRgb: (Byte, Byte, Byte) -> (int, int, int)) {
    /** Neither the frame nor the input is empty. */
    predicate Valid() {
      frame.width >= 1 && frame.height >= 1 && spec.width >= 1 && spec.height >= 1
    }

    function Pixels(): nat {
      Area(spec.height, spec.width)
    }

    function Rotation(): int {
      NormalizedRotation(frame.rotation)
    }

    function Transform(): L.LetterboxTransform
      requires Valid()
    {
      var (uw, uh) := UprightSize(Rotation(), frame.width, frame.height);
      L.Compute(uw, uh, spec.width, spec.height)
    }
  }

  const PAD_VALUE := 114

  function Truncate(x: real): int {
    if x >= 0.0 then x.Floor else -((-x).Floor)
  }

  predicate Inside(x: int, pad: real, scale: real, size: int) {
    pad <= x as real < pad + size as real * scale
  }

  function Upright(x: int, pad: real, scale: real, size: int): int
    requires scale > 0.0 && size >= 1
  {
    Clamp(Truncate((x as real - pad) / scale), 0, size - 1)
  }

  lemma DivideBelow(a: real, b: real, c: real)
    requires c > 0.0 && 0.0 <= a < b * c
    ensures 0.0 <= a / c < b
  {
    if a / c >= b {
      TimesMonotone(b, a / c, c);
      Undivide(a, c);
      assert false;
    }
  }

  lemma TimesMonotone(x: real, y: real, c: real)
    requires x <= y && c > 0.0
    ensures x * c <= y * c
  {
  }

  lemma Undivide(a: real, c: real)
    requires c != 0.0
    ensures (a / c) * c == a
  {
  }

  /** Inside the picture the clamp never acts: the sampled pixel is where the cell falls. */
  lemma UprightIsExact(x: int, pad: real, scale: real, size: int)
    requires scale > 0.0 && size >= 1 && Inside(x, pad, scale, size)
    ensures 0 <= Upright(x, pad, scale, size) < size
    ensures var u := Upright(x, pad, scale, size) as real;
            u <= (x as real - pad) / scale < u + 1.0
  {
    DivideBelow(x as real - pad, size as real, scale);
  }

  /** Reads one pixel; a read past the buffer throws. */
  function Pixel(job: Job, x: int, y: int): Option<(int, int, int)>
    requires 0 <= x && 0 <= y
  {
    var w, h := job.frame.width, job.frame.height;
    ReadsAreNotNegative(w, h, x, y);
    var yi, uv := YIndex(x, y, w), UvIndex(x, y, w, h);
    if yi >= |job.frame.nv21| || uv + 1 >= |job.frame.nv21| then None
    else Some(job.toRgb(job.frame.nv21[yi], job.frame.nv21[uv], job.frame.nv21[uv + 1]))
  }

  lemma ReadsAreNotNegative(width: nat, height: nat, x: int, y: int)
    requires 0 <= x && 0 <= y
    ensures YIndex(x, y, width) >= 0 && UvIndex(x, y, width, height) >= 0
  {
    ProductIsNonNegative(y, width);
    ProductIsNonNegative(width, height);
    ProductIsNonNegative(y / 2, width);
  }

  lemma LumaInBounds(width: nat, height: nat, x: int, y: int)
    requires 0 <= x < width && 0 <= y < height
    ensures YIndex(x, y, width) < BufferSize(width, height)
  {
    RowsApart(y, height, width);
    Commute(width, height);
  }

  /** No pixel of a frame with even dimensions and a full buffer throws. */
  lemma EvenPixelsRead(job: Job, x: int, y: int)
    requires job.frame.width % 2 == 0 && job.frame.height % 2 == 0
    requires |job.frame.nv21| >= BufferSize(job.frame.width, job.frame.height)
    requires 0 <= x < job.frame.width && 0 <= y < job.frame.height
    ensures Pixel(job, x, y).Some?
  {
    EvenReadsAreInBounds(job.frame.width, job.frame.height, x, y);
    LumaInBounds(job.frame.width, job.frame.height, x, y);
  }

  /** When the frame is what the camera packed, each pixel is converted from the samples of
      the original planes: its own luma and the chroma of its two-by-two block. */
  lemma PixelShowsPlanes(job: Job, img: Image, x: nat, y: nat)
    requires img.Valid() && job.frame.nv21 == Packed(img)
    requires job.frame.width == img.width && job.frame.height == img.height
    requires img.width % 2 == 0 && img.height % 2 == 0
    requires img.v.rowStride == img.u.rowStride && img.v.pixelStride == img.u.pixelStride
    requires x < img.width && y < img.height
    ensures img.y.At(y, x) < |img.y.data|
    ensures img.v.At(y / 2, x / 2) < |img.v.data| && img.u.At(y / 2, x / 2) < |img.u.data|
    ensures Pixel(job, x, y) == Some(job.toRgb(img.y.data[img.y.At(y, x)], img.v.data[img.v.At(y / 2, x / 2)],
                                               img.u.data[img.u.At(y / 2, x / 2)]))
  {
    PackedReadsBack(img, x, y);
  }

  /** The picture at one input cell: padding, or the source pixel it falls on. */
  function Rgb(job: Job, tx: int, ty: int): Option<(int, int, int)>
    requires job.Valid()
  {
    RgbIn(job, job.Transform(), tx, ty)
  }

  function RgbIn(job: Job, t: L.LetterboxTransform, tx: int, ty: int): Option<(int, int, int)>
    requires job.Valid() && t.Valid()
  {
    if Inside(tx, t.padX, t.scale, t.uprightWidth) && Inside(ty, t.padY, t.scale, t.uprightHeight) then
      var ux, uy := Upright(tx, t.padX, t.scale, t.uprightWidth), Upright(ty, t.padY, t.scale, t.uprightHeight);
      var (sx, sy) := UprightToSource(ux, uy, job.Rotation(), job.frame.width, job.frame.height);
      Pixel(job, sx, sy)
    else Some((PAD_VALUE, PAD_VALUE, PAD_VALUE))
  }

  function Norm(v: int, n: Normalization): real {
    match n
    case Scale01 => v as real / 255.0
    case ScaleMinus11 => v as real / 127.5 - 1.0
    case Unscaled => v as real
  }

  type Colour = (real, real, real)

  function Channels(spec: InputSpec, rgb: (int, int, int)): Colour {
    var n := spec.normalization;
    var (r, g, b) := (Norm(rgb.0, n), Norm(rgb.1, n), Norm(rgb.2, n));
    if spec.rgb then (r, g, b) else (b, g, r)
  }

  /** The colour of one input cell, unless reading it throws. */
  function ColourAt(job: Job, tx: nat, ty: nat): Option<Colour>
    requires job.Valid()
  {
    match Rgb(job, tx, ty)
    case None => None
    case Some(rgb) => Some(Channels(job.spec, rgb))
  }

  /** Normalisation keeps samples apart and in order, and takes the ends of 0 to 255 to the
      ends of its interval. */
  lemma NormKeepsOrder(v: int, w: int, n: Normalization)
    ensures v < w <==> Norm(v, n) < Norm(w, n)
    ensures 255.0 * Norm(v, Scale01) == v as real == Norm(v, Unscaled)
    ensures 127.5 * (Norm(v, ScaleMinus11) + 1.0) == v as real
    ensures (Norm(0, Scale01), Norm(255, Scale01)) == (0.0, 1.0)
    ensures (Norm(0, ScaleMinus11), Norm(255, ScaleMinus11)) == (-1.0, 1.0)
  {
  }

  // ---- Where a cell is written ------------------------------------------------------------------------

  function Slot(layout: InputLayout, n: nat, p: nat, channel: nat): nat {
    if layout == NHWC then p * 3 + channel
    else if channel == 0 then p
    else if channel == 1 then n + p
    else 2 * n + p
  }

  /** The pixel and channel a place of the tensor belongs to. */
  function Owner(layout: InputLayout, n: nat, k: nat): (nat, nat)
    requires k < 3 * n
  {
    if layout == NHWC then (k / 3, k % 3)
    else if k < n then (k, 0)
    else if k < 2 * n then (k - n, 1)
    else (k - 2 * n, 2)
  }

  /** Every place of the tensor belongs to exactly one channel of one pixel. */
  lemma SlotsPartition(layout: InputLayout, n: nat, k: nat, p: nat, channel: nat)
    requires k < 3 * n && p < n && channel < 3
    ensures Owner(layout, n, k).0 < n && Owner(layout, n, k).1 < 3
    ensures Slot(layout, n, p, channel) < 3 * n
    ensures Slot(layout, n, p, channel) == k <==> Owner(layout, n, k) == (p, channel)
  {
  }

  function Component(c: Colour, channel: nat): real {
    if channel == 0 then c.0 else if channel == 1 then c.1 else c.2
  }

  lemma QuotientIsNatural(p: nat, width: nat)
    requires width >= 1
    ensures p / width >= 0 && p % width >= 0
  {
  }

  /** The colour of the p-th pixel of the input, counted row by row. */
  function ColourOf(job: Job, p: nat): Option<Colour>
    requires job.Valid()
  {
    QuotientIsNatural(p, job.spec.width);
    ColourAt(job, p % job.spec.width, p / job.spec.width)
  }

  /** The colours of the input's pixels, row by row; none where reading throws. */
  ghost function Colours(job: Job): (r: seq<Option<Colour>>)
    requires job.Valid()
    ensures |r| == job.Pixels()
  {
    seq(job.Pixels(), p requires 0 <= p => ColourOf(job, p))
  }

  ghost predicate AllRead(colours: seq<Option<Colour>>) {
    forall p :: 0 <= p < |colours| ==> colours[p].Some?
  }

  /** Does no read and no write of the whole frame throw? */
  ghost predicate Completes(job: Job)
    requires job.Valid()
  {
    job.spec.channels >= 3 && AllRead(Colours(job))
  }

  /** A buffer with the three channels of every pixel laid out at its front; whatever lies
      behind them stays. */
  ghost function LaidOut(layout: InputLayout, colours: seq<Option<Colour>>, before: seq<real>): (r: seq<real>)
    requires AllRead(colours)
    ensures |r| == |before|
  {
    seq(|before|, k requires 0 <= k < |before| => CellOf(layout, colours, before, k))
  }

  ghost function CellOf(layout: InputLayout, colours: seq<Option<Colour>>, before: seq<real>, k: nat): real
    requires AllRead(colours) && k < |before|
  {
    if k < 3 * |colours| then
      var (p, channel) := Owner(layout, |colours|, k);
      SlotsPartition(layout, |colours|, k, 0, 0);
      Component(colours[p].value, channel)
    else before[k]
  }

  /** The tensor a buffer is turned into. */
  ghost function Tensor(job: Job, before: seq<real>): (r: seq<real>)
    requires job.Valid() && Completes(job)
    ensures |r| == |before|
  {
    LaidOut(job.spec.layout, Colours(job), before)
  }

  // ---- The loops --------------------------------------------------------------------------------------

  predicate Painted(cells: seq<real>, layout: InputLayout, n: nat, p: nat, c: Colour) {
    && Slot(layout, n, p, 0) < |cells| && cells[Slot(layout, n, p, 0)] == c.0
    && Slot(layout, n, p, 1) < |cells| && cells[Slot(layout, n, p, 1)] == c.1
    && Slot(layout, n, p, 2) < |cells| && cells[Slot(layout, n, p, 2)] == c.2
  }

  ghost predicate PaintedUpTo(cells: seq<real>, layout: InputLayout, colours: seq<Option<Colour>>, end: nat) {
    && end <= |colours|
    && forall p: nat :: p < end ==> colours[p].Some? && Painted(cells, layout, |colours|, p, colours[p].value)
  }

  ghost predicate SameTail(before: seq<real>, after: seq<real>, from: nat) {
    |before| == |after| && forall k :: from <= k < |after| ==> after[k] == before[k]
  }

  function Slots(layout: InputLayout, n: nat, p: nat): set<int> {
    {Slot(layout, n, p, 0), Slot(layout, n, p, 1), Slot(layout, n, p, 2)}
  }

  /** Only places of the p-th pixel differ. */
  ghost predicate SameElsewhere(before: seq<real>, after: seq<real>, layout: InputLayout, n: nat, p: nat) {
    && |before| == |after|
    && forall k :: 0 <= k < |after| && k !in Slots(layout, n, p) ==> after[k] == before[k]
  }

  /** Writes the three channels in turn; the first that lies behind the buffer throws. */
  method WritePixel(out: array<real>, layout: InputLayout, n: nat, p: nat, c: Colour) returns (ok: bool)
    requires p < n
    modifies out
    ensures ok <==> Slot(layout, n, p, 2) < out.Length
    ensures ok ==> Painted(out[..], layout, n, p, c)
    ensures SameElsewhere(old(out[..]), out[..], layout, n, p)
  {
    if Slot(layout, n, p, 0) >= out.Length {
      return false;
    }
    out[Slot(layout, n, p, 0)] := c.0;
    if Slot(layout, n, p, 1) >= out.Length {
      return false;
    }
    out[Slot(layout, n, p, 1)] := c.1;
    if Slot(layout, n, p, 2) >= out.Length {
      return false;
    }
    out[Slot(layout, n, p, 2)] := c.2;
    return true;
  }

  lemma StaysPainted(before: seq<real>, after: seq<real>, layout: InputLayout, n: nat, p: nat, q: nat, c: Colour)
    requires p < n && q < n && p != q && SameElsewhere(before, after, layout, n, p)
    requires Painted(before, layout, n, q, c)
    ensures Painted(after, layout, n, q, c)
  {
    SlotsApart(layout, n, p, q, 0);
    SlotsApart(layout, n, p, q, 1);
    SlotsApart(layout, n, p, q, 2);
  }

  lemma SlotsApart(layout: InputLayout, n: nat, p: nat, q: nat, channel: nat)
    requires p < n && q < n && p != q && channel < 3
    ensures Slot(layout, n, q, channel) !in Slots(layout, n, p)
  {
    var k := Slot(layout, n, q, channel);
    SlotsPartition(layout, n, 0, q, channel);
    SlotsPartition(layout, n, k, q, channel);
    SlotsPartition(layout, n, k, p, 0);
    SlotsPartition(layout, n, k, p, 1);
    SlotsPartition(layout, n, k, p, 2);
  }

  lemma PaintedNext(before: seq<real>, after: seq<real>, layout: InputLayout, colours: seq<Option<Colour>>, p: nat)
    requires p < |colours| && PaintedUpTo(before, layout, colours, p)
    requires SameElsewhere(before, after, layout, |colours|, p)
    requires colours[p].Some? && Painted(after, layout, |colours|, p, colours[p].value)
    ensures PaintedUpTo(after, layout, colours, p + 1)
  {
    forall q: nat | q < p
      ensures colours[q].Some? && Painted(after, layout, |colours|, q, colours[q].value)
    {
      StaysPainted(before, after, layout, |colours|, p, q, colours[q].value);
    }
  }

  lemma TailIsElsewhere(before: seq<real>, after: seq<real>, layout: InputLayout, n: nat, p: nat)
    requires p < n && SameElsewhere(before, after, layout, n, p)
    ensures SameTail(before, after, 3 * n)
  {
  }

  /** A write throws only if there are fewer than three channels. */
  lemma WritesNeedThreeChannels(layout: InputLayout, n: nat, p: nat, channels: nat, size: nat)
    requires p < n && size == n * channels && Slot(layout, n, p, 2) >= size
    ensures channels < 3
  {
    if channels >= 3 {
      MultiplyMonotone(n, 3, channels);
    }
  }

  lemma ThreeChannelsFit(n: nat, channels: nat, size: nat, layout: InputLayout)
    requires n >= 1 && size == n * channels && Slot(layout, n, n - 1, 2) < size
    ensures channels >= 3 && 3 * n <= size
  {
    if channels < 3 {
      MultiplyMonotone(n, channels, 2);
    }
    MultiplyMonotone(n, 3, channels);
  }

  lemma PixelOf(ty: nat, width: nat, tx: nat)
    requires tx < width
    ensures var p := Area(ty, width) + tx;
            p % width == tx && p / width == ty
  {
    AreaIsProduct(ty, width);
    var p := ty * width + tx;
    Commute(width, p / width);
    SameQuotient(width, ty, tx, p / width, p % width);
  }

  lemma ColoursAt(job: Job, tx: nat, ty: nat, p: nat)
    requires job.Valid() && tx < job.spec.width && p == Area(ty, job.spec.width) + tx < job.Pixels()
    ensures Colours(job)[p] == ColourAt(job, tx, ty)
  {
    PixelOf(ty, job.spec.width, tx);
  }

  /** What went wrong, if anything. */
  datatype Thrown = IndexOutOfBounds

  method PaintPixel(out: array<real>, layout: InputLayout, channels: nat, n: nat, p: nat, c: Option<Colour>,
                    ghost colours: seq<Option<Colour>>)
    returns (ok: bool)
    requires p < |colours| == n && c == colours[p] && out.Length == n * channels
    requires PaintedUpTo(out[..], layout, colours, p)
    modifies out
    ensures SameTail(old(out[..]), out[..], 3 * n)
    ensures ok ==> PaintedUpTo(out[..], layout, colours, p + 1)
    ensures !ok ==> channels < 3 || !AllRead(colours)
  {
    if c.None? {
      return false;
    }
    ghost var before := out[..];
    ok := WritePixel(out, layout, n, p, c.value);
    TailIsElsewhere(before, out[..], layout, n, p);
    if ok {
      PaintedNext(before, out[..], layout, colours, p);
    } else {
      WritesNeedThreeChannels(layout, n, p, channels, out.Length);
    }
  }

  method PaintRow(job: Job, out: array<real>, ty: nat, ghost colours: seq<Option<Colour>>) returns (ok: bool)
    requires job.Valid() && ty < job.spec.height && out.Length == job.Pixels() * job.spec.channels
    requires colours == Colours(job) && PaintedUpTo(out[..], job.spec.layout, colours, Area(ty, job.spec.width))
    modifies out
    ensures SameTail(old(out[..]), out[..], 3 * job.Pixels())
    ensures ok ==> PaintedUpTo(out[..], job.spec.layout, colours, Area(ty + 1, job.spec.width))
    ensures !ok ==> job.spec.channels < 3 || !AllRead(colours)
  {
    AreaGrows(ty + 1, job.spec.height, job.spec.width);
    for tx := 0 to job.spec.width
      invariant PaintedUpTo(out[..], job.spec.layout, colours, Area(ty, job.spec.width) + tx)
      invariant SameTail(old(out[..]), out[..], 3 * job.Pixels())
    {
      var p := Area(ty, job.spec.width) + tx;
      ColoursAt(job, tx, ty, p);
      ok := PaintPixel(out, job.spec.layout, job.spec.channels, job.Pixels(), p, ColourAt(job, tx, ty), colours);
      if !ok {
        return;
      }
    }
    ok := true;
  }

  method PaintFrame(job: Job, out: array<real>) returns (ok: bool)
    requires job.Valid() && out.Length == job.Pixels() * job.spec.channels
    modifies out
    ensures ok <==> Completes(job)
    ensures ok ==> out[..] == Tensor(job, old(out[..]))
  {
    ghost var before, colours := out[..], Colours(job);
    for ty := 0 to job.spec.height
      invariant PaintedUpTo(out[..], job.spec.layout, colours, Area(ty, job.spec.width))
      invariant SameTail(before, out[..], 3 * job.Pixels())
    {
      ok := PaintRow(job, out, ty, colours);
      if !ok {
        return;
      }
    }
    PixelsArePositive(job);
    PaintedIsLaidOut(before, out[..], job.spec.layout, colours, job.spec.channels);
    ok := true;
  }

  lemma PaintedIsLaidOut(before: seq<real>, after: seq<real>, layout: InputLayout, colours: seq<Option<Colour>>,
                         channels: nat)
    requires |colours| >= 1 && |before| == |colours| * channels && SameTail(before, after, 3 * |colours|)
    requires PaintedUpTo(after, layout, colours, |colours|)
    ensures channels >= 3 && AllRead(colours) && after == LaidOut(layout, colours, before)
  {
    var n := |colours|;
    assert Painted(after, layout, n, n - 1, colours[n - 1].value);
    ThreeChannelsFit(n, channels, |after|, layout);
    forall k | 0 <= k < |after| ensures after[k] == CellOf(layout, colours, before, k) {
      if k < 3 * n {
        PaintedAt(after, layout, colours, k);
      }
    }
  }

  lemma PaintedAt(cells: seq<real>, layout: InputLayout, colours: seq<Option<Colour>>, k: nat)
    requires k < 3 * |colours| <= |cells| && AllRead(colours) && PaintedUpTo(cells, layout, colours, |colours|)
    ensures cells[k] == CellOf(layout, colours, cells, k)
  {
    var (p, channel) := Owner(layout, |colours|, k);
    SlotsPartition(layout, |colours|, k, 0, 0);
    SlotsPartition(layout, |colours|, k, p, channel);
    assert Painted(cells, layout, |colours|, p, colours[p].value);
  }

  lemma PixelsArePositive(job: Job)
    requires job.Valid()
    ensures job.Pixels() >= 1
  {
    AreaGrows(1, job.spec.height, job.spec.width);
    assert Area(1, job.spec.width) == Area(0, job.spec.width) + job.spec.width;
  }

  function Zeros(n: nat): (r: seq<real>)
    ensures |r| == n
  {
    seq(n, _ => 0.0)
  }

  /** A buffer of the right size is reused, any other replaced by zeros; the frame is
      painted over it, unless something throws. */
  method Process(job: Job, reuse: array?<real>) returns (r: Result<array<real>, Thrown>)
    requires job.Valid()
    modifies if reuse != null then {reuse} else {}
    ensures r.Ok? <==> Completes(job)
    ensures r.Ok? ==>
              var n := job.Pixels() * job.spec.channels;
              if reuse != null && reuse.Length == n then r.value == reuse && reuse[..] == Tensor(job, old(reuse[..]))
              else fresh(r.value) && r.value.Length == n && r.value[..] == Tensor(job, Zeros(n))
  {
    var n := job.Pixels() * job.spec.channels;
    var out: array<real>;
    if reuse != null && reuse.Length == n {
      out := reuse;
    } else {
      out := new real[n](_ => 0.0);
      assert out[..] == Zeros(n);
    }
    var ok := PaintFrame(job, out);
    r := if ok then Ok(out) else Err(IndexOutOfBounds);
  }

  // ---- What the tensor is ------------------------------------------------------------------------------

  lemma RgbOfEvenFrames(job: Job, tx: int, ty: int)
    requires job.Valid() && job.frame.width % 2 == 0 && job.frame.height % 2 == 0
    requires |job.frame.nv21| >= BufferSize(job.frame.width, job.frame.height)
    ensures Rgb(job, tx, ty).Some?
  {
    var t := job.Transform();
    if Inside(tx, t.padX, t.scale, t.uprightWidth) && Inside(ty, t.padY, t.scale, t.uprightHeight) {
      var ux, uy := Upright(tx, t.padX, t.scale, t.uprightWidth), Upright(ty, t.padY, t.scale, t.uprightHeight);
      var (sx, sy) := UprightToSource(ux, uy, job.Rotation(), job.frame.width, job.frame.height);
      EvenPixelsRead(job, sx, sy);
    }
  }

  /** Frames with even dimensions and a full buffer never throw, given three channels or
      more. */
  lemma EvenFramesComplete(job: Job)
    requires job.Valid() && job.frame.width % 2 == 0 && job.frame.height % 2 == 0
    requires |job.frame.nv21| >= BufferSize(job.frame.width, job.frame.height)
    ensures Completes(job) <==> job.spec.channels >= 3
  {
    forall p | 0 <= p < job.Pixels() ensures Colours(job)[p].Some? {
      RgbOfEvenFrames(job, p % job.spec.width, p / job.spec.width);
    }
  }

  lemma LaidOutAt(layout: InputLayout, colours: seq<Option<Colour>>, before: seq<real>, p: nat, channel: nat, k: nat)
    requires AllRead(colours) && 3 * |colours| <= |before| && p < |colours| && channel < 3
    requires k == Slot(layout, |colours|, p, channel)
    ensures k < |before| && LaidOut(layout, colours, before)[k] == Component(colours[p].value, channel)
  {
    SlotsPartition(layout, |colours|, 0, p, channel);
    SlotsPartition(layout, |colours|, k, p, channel);
  }

  lemma InsideBefore(x: int, pad: real, scale: real, size: int, width: real)
    requires width == size as real * scale
    ensures Inside(x, pad, scale, size) <==> pad <= x as real < pad + width
  {
  }

  /** The cells the picture covers are those between the pads. */
  lemma InsideIsBetweenPads(uprightW: int, uprightH: int, inputW: int, inputH: int, x: int, y: int)
    requires uprightW >= 1 && uprightH >= 1 && inputW >= 1 && inputH >= 1
    ensures var t := L.Compute(uprightW, uprightH, inputW, inputH);
            && (Inside(x, t.padX, t.scale, uprightW) <==> t.padX <= x as real < inputW as real - t.padX)
            && (Inside(y, t.padY, t.scale, uprightH) <==> t.padY <= y as real < inputH as real - t.padY)
  {
    var t := L.Compute(uprightW, uprightH, inputW, inputH);
    L.ComputedLetterboxFits(uprightW, uprightH, inputW, inputH);
    InsideBefore(x, t.padX, t.scale, uprightW, uprightW as real * t.scale);
    InsideBefore(y, t.padY, t.scale, uprightH, uprightH as real * t.scale);
  }

  /** Beside the picture a cell is grey; on it, it shows the pixel of the source that the
      upright pixel it falls in is turned onto. */
  lemma PictureOutcome(job: Job, tx: nat, ty: nat, t: L.LetterboxTransform, inside: bool)
    requires job.Valid() && t.Valid()
    requires inside <==> Inside(tx, t.padX, t.scale, t.uprightWidth) && Inside(ty, t.padY, t.scale, t.uprightHeight)
    ensures !inside ==> RgbIn(job, t, tx, ty) == Some((114, 114, 114))
    ensures inside ==>
              var (sx, sy) := UprightToSource(Upright(tx, t.padX, t.scale, t.uprightWidth),
                                              Upright(ty, t.padY, t.scale, t.uprightHeight),
                                              job.Rotation(), job.frame.width, job.frame.height);
              RgbIn(job, t, tx, ty) == Pixel(job, sx, sy)
  {
  }

  /** The picture is letterboxed as it stands upright, into the model's input. */
  lemma TransformOutcome(job: Job, w: int, h: int)
    requires job.Valid()
    requires (w, h) == if job.frame.rotation % 360 in {90, 270} then (job.frame.height, job.frame.width)
                       else (job.frame.width, job.frame.height)
    ensures job.Rotation() == job.frame.rotation % 360
    ensures var t := L.Compute(w, h, job.spec.width, job.spec.height);
            job.Transform() == t && forall tx, ty :: Rgb(job, tx, ty) == RgbIn(job, t, tx, ty)
    ensures job.Pixels() == job.spec.width * job.spec.height
  {
    AreaIsProduct(job.spec.height, job.spec.width);
    Commute(job.spec.height, job.spec.width);
    NormalizedRotationIsModulo(job.frame.rotation);
    assert UprightSize(job.Rotation(), job.frame.width, job.frame.height) == (w, h);
  }

  /** One pixel is converted from its own luma and the chroma of its block, V before U. */
  lemma PixelOutcome(job: Job, x: nat, y: nat)
    requires x < job.frame.width && y < job.frame.height
    ensures var w, data := job.frame.width, job.frame.nv21;
            var yi, vi := y * w + x, w * job.frame.height + y / 2 * w + x / 2 * 2;
            && 0 <= yi && 0 <= vi
            && Pixel(job, x, y) == if yi < |data| && vi + 1 < |data|
                                   then Some(job.toRgb(data[yi], data[vi], data[vi + 1])) else None
  {
    ReadsAreNotNegative(job.frame.width, job.frame.height, x, y);
  }

  /** The three values of a cell are laid side by side, or a plane apart, in the model's
      order. */
  lemma TensorOutcome(job: Job, before: seq<real>, tx: nat, ty: nat, p: nat, channel: nat, k: int)
    requires job.Valid() && Completes(job) && |before| == job.Pixels() * job.spec.channels && channel < 3
    requires tx < job.spec.width && ty < job.spec.height && p == Area(ty, job.spec.width) + tx < job.Pixels()
    requires k == if job.spec.layout == NHWC then 3 * p + channel else channel * job.Pixels() + p
    ensures Rgb(job, tx, ty).Some? && 0 <= k < |before|
    ensures var (r, g, b) := Rgb(job, tx, ty).value;
            Tensor(job, before)[k] ==
              Norm(if channel == 1 then g else if (channel == 0) == job.spec.rgb then r else b, job.spec.normalization)
  {
    PlaneStart(channel, job.Pixels(), p);
    ColoursAt(job, tx, ty, p);
    assert Colours(job)[p].Some?;
    TensorHolds(job, before);
    LaidOutAt(job.spec.layout, Colours(job), before, p, channel, k);
  }

  lemma TensorHolds(job: Job, before: seq<real>)
    requires job.Valid() && Completes(job) && |before| == job.Pixels() * job.spec.channels
    ensures 3 * |Colours(job)| <= |before|
  {
    MultiplyMonotone(job.Pixels(), 3, job.spec.channels);
  }

  /** What a reused buffer held before leaves no trace in the result iff the model has
      exactly three channels; with more, everything behind the third stays. */
  lemma ReuseLeavesNoTraceIff(job: Job)
    requires job.Valid() && Completes(job)
    ensures (forall a: seq<real>, b: seq<real> :: |a| == |b| == job.Pixels() * job.spec.channels ==>
               Tensor(job, a) == Tensor(job, b)) <==> job.spec.channels == 3
  {
    var size := job.Pixels() * job.spec.channels;
    if job.spec.channels == 3 {
      forall a: seq<real>, b: seq<real> | |a| == |b| == size ensures Tensor(job, a) == Tensor(job, b) {
      }
    } else {
      PixelsArePositive(job);
      MultiplyMonotone(job.Pixels(), 4, job.spec.channels);
      var zeros := Zeros(size);
      var ones := seq(size, _ => 1.0);
      assert Tensor(job, zeros)[size - 1] == 0.0 && Tensor(job, ones)[size - 1] == 1.0;
    }
  }

  /** The picture depends on the size of the input only. */
  lemma SamePicture(job: Job, job': Job, tx: nat, ty: nat)
    requires job.Valid() && job' == job.(spec := job'.spec)
    requires job.spec.width == job'.spec.width && job.spec.height == job'.spec.height
    ensures Rgb(job', tx, ty) == Rgb(job, tx, ty)
  {
    assert job'.Transform() == job.Transform();
  }

  lemma SameColour(job: Job, job': Job, p: nat)
    requires job.Valid() && job' == job.(spec := job.spec.(layout := NCHW))
    ensures ColourOf(job', p) == ColourOf(job, p)
  {
    QuotientIsNatural(p, job.spec.width);
    SamePicture(job, job', p % job.spec.width, p / job.spec.width);
  }

  lemma SameColoursAt(job: Job, job': Job, p: nat)
    requires job.Valid() && job' == job.(spec := job.spec.(layout := NCHW)) && p < job.Pixels()
    ensures Colours(job')[p] == Colours(job)[p]
  {
    SameColour(job, job', p);
    assert Colours(job)[p] == ColourOf(job, p) && Colours(job')[p] == ColourOf(job', p);
  }

  lemma SameColours(job: Job, job': Job)
    requires job.Valid() && job' == job.(spec := job.spec.(layout := NCHW))
    ensures Colours(job') == Colours(job)
  {
    var colours, colours' := Colours(job), Colours(job');
    forall p | 0 <= p < |colours| ensures colours'[p] == colours[p] {
      SameColoursAt(job, job', p);
    }
  }

  /** For the same frame the channels-first tensor is the transpose of the channels-last
      one. */
  lemma LayoutsAreTransposes(job: Job, job': Job, before: seq<real>, p: nat, channel: nat)
    requires job.Valid() && job.spec.layout == NHWC && job' == job.(spec := job.spec.(layout := NCHW))
    requires Completes(job) && |before| == job.Pixels() * job.spec.channels && p < job.Pixels() && channel < 3
    ensures Completes(job')
    ensures var first, last := channel * job.Pixels() + p, p * 3 + channel;
            first < |before| && last < |before| && Tensor(job', before)[first] == Tensor(job, before)[last]
  {
    SameColours(job, job');
    TensorHolds(job, before);
    PlaneStart(channel, job.Pixels(), p);
    LaidOutAt(NCHW, Colours(job), before, p, channel, channel * job.Pixels() + p);
    LaidOutAt(NHWC, Colours(job), before, p, channel, p * 3 + channel);
  }

  lemma PlaneStart(channel: nat, n: nat, p: nat)
    requires channel < 3
    ensures channel * n + p == Slot(NCHW, n, p, channel)
  {
    assert channel == 0 || channel == 1 || channel == 2;
  }

  /** The tensors a model that wants BGR and one that wants RGB get from the same frame
      differ exactly by exchanging the first and last channel of every pixel. */
  lemma BgrExchangesChannels(job: Job, job': Job, before: seq<real>, p: nat, channel: nat)
    requires job.Valid() && job.spec.rgb && job' == job.(spec := job.spec.(rgb := false))
    requires Completes(job) && |before| == job.Pixels() * job.spec.channels && p < job.Pixels() && channel < 3
    ensures Completes(job')
    ensures var slot, mirror := Slot(job.spec.layout, job.Pixels(), p, channel),
                                Slot(job.spec.layout, job.Pixels(), p, 2 - channel);
            slot < |before| && mirror < |before| && Tensor(job', before)[slot] == Tensor(job, before)[mirror]
    ensures forall k :: 3 * job.Pixels() <= k < |before| ==> Tensor(job', before)[k] == Tensor(job, before)[k]
  {
    var n, layout := job.Pixels(), job.spec.layout;
    ExchangedColours(job, job');
    TensorHolds(job, before);
    LaidOutAt(layout, Colours(job'), before, p, channel, Slot(layout, n, p, channel));
    LaidOutAt(layout, Colours(job), before, p, 2 - channel, Slot(layout, n, p, 2 - channel));
    ExchangedAt(job, job', p);
  }

  predicate Exchanged(c: Colour, d: Colour) {
    (c.0, c.1, c.2) == (d.2, d.1, d.0)
  }

  lemma ColourExchanged(job: Job, job': Job, tx: nat, ty: nat)
    requires job.Valid() && job.spec.rgb && job' == job.(spec := job.spec.(rgb := false))
    requires ColourAt(job, tx, ty).Some?
    ensures ColourAt(job', tx, ty).Some? && Exchanged(ColourAt(job, tx, ty).value, ColourAt(job', tx, ty).value)
  {
    SamePicture(job, job', tx, ty);
  }

  lemma ExchangedAt(job: Job, job': Job, p: nat)
    requires job.Valid() && job.spec.rgb && job' == job.(spec := job.spec.(rgb := false))
    requires p < job.Pixels() && Colours(job)[p].Some?
    ensures Colours(job')[p].Some? && Exchanged(Colours(job)[p].value, Colours(job')[p].value)
  {
    assert Colours(job)[p] == ColourOf(job, p) && Colours(job')[p] == ColourOf(job', p);
    QuotientIsNatural(p, job.spec.width);
    ColourExchanged(job, job', p % job.spec.width, p / job.spec.width);
  }

  lemma ExchangedColours(job: Job, job': Job)
    requires job.Valid() && job.spec.rgb && job' == job.(spec := job.spec.(rgb := false)) && AllRead(Colours(job))
    ensures AllRead(Colours(job'))
  {
    var colours := Colours(job');
    forall p | 0 <= p < |colours| ensures colours[p].Some? {
      ExchangedAt(job, job', p);
    }
  }
}
