/** The letterbox geometry: fitting an upright frame into the model input and mapping
    decoded boxes back, over the reals. */
module Letterbox {
  import opened Model
  import opened Nms
  import opened NmsTheory

  function Clamp01(x: real): real { if x < 0.0 then 0.0 else if x > 1.0 then 1.0 else x }

  /** One coordinate, from model-input pixels to the unit interval. */
  function Unplace(x: real, pad: real, scale: real, size: real): real
    requires scale > 0.0 && size > 0.0
  {
    Clamp01(((x - pad) / scale) / size)
  }

  /** One coordinate, from the unit interval to model-input pixels. */
  function PlaceAxis(u: real, pad: real, scale: real, size: real): real {
    u * size * scale + pad
  }

  /** Is `p`..`q` a range of the input that the frame covers? */
  predicate Spanned(p: real, q: real, pad: real, scale: real, size: real) {
    pad <= p <= q <= pad + size * scale
  }

  datatype LetterboxTransform = LetterboxTransform(
    inputWidth: int,
    inputHeight: int,
    scale: real,
    padX: real,
    padY: real,
    uprightWidth: int,
    uprightHeight: int)
  {
    predicate Valid() {
      scale > 0.0 && uprightWidth >= 1 && uprightHeight >= 1
    }

    /** A model-input pixel as a point of the upright frame. */
    function PointToNormalized(x: real, y: real): (real, real)
      requires Valid()
    {
      (Unplace(x, padX, scale, uprightWidth as real), Unplace(y, padY, scale, uprightHeight as real))
    }

    function BoxToNormalized(box: PixelBox): BoundingBox
      requires Valid()
    {
      var (l, t) := PointToNormalized(box.left, box.top);
      var (r, b) := PointToNormalized(box.right, box.bottom);
      BoundingBox(Min(l, r), Min(t, b), Max(l, r), Max(t, b))
    }

    /** Where a point of the upright frame lands in the model input. */
    function Place(u: real, v: real): (real, real) {
      (PlaceAxis(u, padX, scale, uprightWidth as real), PlaceAxis(v, padY, scale, uprightHeight as real))
    }

    /** Where the frame ends in the input. */
    function FarX(): real {
      padX + uprightWidth as real * scale
    }

    function FarY(): real {
      padY + uprightHeight as real * scale
    }

    /** Does the box lie, well ordered, inside the part of the input the frame covers? */
    predicate Covers(box: PixelBox) {
      && Spanned(box.left, box.right, padX, scale, uprightWidth as real)
      && Spanned(box.top, box.bottom, padY, scale, uprightHeight as real)
    }
  }

  function Compute(uprightW: int, uprightH: int, inputW: int, inputH: int): (t: LetterboxTransform)
    requires uprightW >= 1 && uprightH >= 1 && inputW >= 1 && inputH >= 1
    ensures t.Valid()
  {
    var scale := Min(inputW as real / uprightW as real, inputH as real / uprightH as real);
    LetterboxTransform(inputW, inputH, scale,
                       (inputW as real - uprightW as real * scale) / 2.0,
                       (inputH as real - uprightH as real * scale) / 2.0,
                       uprightW, uprightH)
  }

  // ---- The geometry is inverted exactly ---------------------------------------

  lemma DivideMultiply(x: real, s: real, w: real)
    requires s > 0.0 && w > 0.0
    ensures ((x * w * s) / s) / w == x
    ensures ((x / s) / w) * w * s == x
  {
    assert (x * w * s) / s == x * w;
    assert (x * w) / w == x;
    assert ((x / s) / w) * w == x / s;
  }

  lemma DivideMonotone(x: real, y: real, s: real, w: real)
    requires s > 0.0 && w > 0.0 && x <= y
    ensures (x / s) / w <= (y / s) / w
  {
    assert x / s <= y / s;
  }

  lemma AxisInverse(u: real, pad: real, s: real, size: real)
    requires s > 0.0 && size > 0.0 && 0.0 <= u <= 1.0
    ensures Unplace(PlaceAxis(u, pad, s, size), pad, s, size) == u
  {
    DivideMultiply(u, s, size);
    assert PlaceAxis(u, pad, s, size) - pad == u * size * s;
  }

  /** Un-letterboxing undoes letterboxing on the whole unit square. */
  lemma UnletterboxInvertsPlace(t: LetterboxTransform, u: real, v: real)
    requires t.Valid() && 0.0 <= u <= 1.0 && 0.0 <= v <= 1.0
    ensures t.PointToNormalized(t.Place(u, v).0, t.Place(u, v).1) == (u, v)
  {
    AxisInverse(u, t.padX, t.scale, t.uprightWidth as real);
    AxisInverse(v, t.padY, t.scale, t.uprightHeight as real);
  }

  lemma InsideIsUnclamped(x: real, pad: real, s: real, size: real)
    requires s > 0.0 && size > 0.0 && pad <= x <= pad + size * s
    ensures Unplace(x, pad, s, size) == ((x - pad) / s) / size
  {
    DivideMonotone(0.0, x - pad, s, size);
    DivideMonotone(x - pad, size * s, s, size);
    DivideMultiply(1.0, s, size);
  }

  lemma AxisInverseBack(x: real, pad: real, s: real, size: real)
    requires s > 0.0 && size > 0.0 && pad <= x <= pad + size * s
    ensures PlaceAxis(Unplace(x, pad, s, size), pad, s, size) == x
  {
    InsideIsUnclamped(x, pad, s, size);
    DivideMultiply(x - pad, s, size);
  }

  /** ... and letterboxing undoes un-letterboxing on the part the frame covers. */
  lemma PlaceInvertsUnletterbox(t: LetterboxTransform, x: real, y: real)
    requires t.Valid() && t.Covers(PixelBox(x, y, x, y))
    ensures t.Place(t.PointToNormalized(x, y).0, t.PointToNormalized(x, y).1) == (x, y)
  {
    AxisInverseBack(x, t.padX, t.scale, t.uprightWidth as real);
    AxisInverseBack(y, t.padY, t.scale, t.uprightHeight as real);
  }

  lemma ScaleFits(w: real, h: real, scale: real)
    requires w > 0.0 && 0.0 < scale <= h / w
    ensures 0.0 < w * scale <= h
  {
    assert w * (h / w) == h;
    assert w * scale <= w * (h / w);
  }

  lemma ScaleFitsIff(w: real, h: real, scale: real)
    requires w > 0.0
    ensures w * scale <= h <==> scale <= h / w
  {
    assert w * (h / w) == h;
    if scale <= h / w {
      assert w * (h / w - scale) >= 0.0;
    } else {
      assert w * (scale - h / w) > 0.0;
    }
  }

  /** Does the frame, so scaled, fit the input? */
  predicate Fits(uprightW: int, uprightH: int, inputW: int, inputH: int, scale: real) {
    uprightW as real * scale <= inputW as real && uprightH as real * scale <= inputH as real
  }

  /** The computed letterbox is centred, fits the input, and touches it in one direction;
      the scales that fit are the computed one and those below. */
  lemma ComputedLetterboxFits(uprightW: int, uprightH: int, inputW: int, inputH: int)
    requires uprightW >= 1 && uprightH >= 1 && inputW >= 1 && inputH >= 1
    ensures var t := Compute(uprightW, uprightH, inputW, inputH);
            var newW, newH := uprightW as real * t.scale, uprightH as real * t.scale;
            && 0.0 <= t.padX && t.padX + newW + t.padX == inputW as real
            && 0.0 <= t.padY && t.padY + newH + t.padY == inputH as real
            && (t.padX == 0.0 || t.padY == 0.0)
            && forall scale: real :: Fits(uprightW, uprightH, inputW, inputH, scale) <==> scale <= t.scale
  {
    var t := Compute(uprightW, uprightH, inputW, inputH);
    ScaleFits(uprightW as real, inputW as real, t.scale);
    ScaleFits(uprightH as real, inputH as real, t.scale);
    assert uprightW as real * (inputW as real / uprightW as real) == inputW as real;
    assert uprightH as real * (inputH as real / uprightH as real) == inputH as real;
    forall scale: real ensures Fits(uprightW, uprightH, inputW, inputH, scale) <==> scale <= t.scale {
      ScaleFitsIff(uprightW as real, inputW as real, scale);
      ScaleFitsIff(uprightH as real, inputH as real, scale);
    }
  }

  /** Every mapped box is ordered and inside the unit square, whatever was decoded. */
  lemma MappedBoxIsNormalised(t: LetterboxTransform, box: PixelBox)
    requires t.Valid()
    ensures var b := t.BoxToNormalized(box);
            0.0 <= b.left <= b.right <= 1.0 && 0.0 <= b.top <= b.bottom <= 1.0
  {
  }

  // ---- Suppression commutes with un-letterboxing ----------------------------------

  function AsPixelBox(b: BoundingBox): PixelBox {
    PixelBox(b.left, b.top, b.right, b.bottom)
  }

  /** Is `q` the coordinate `p` stretched by `k` and shifted by `d`? */
  predicate Stretched(p: real, q: real, k: real, d: real) {
    q == k * p + d
  }

  lemma ScaleAtLeastZero(k: real, x: real)
    requires k > 0.0
    ensures AtLeastZero(k * x) == k * AtLeastZero(x)
    ensures x >= 0.0 <==> k * x >= 0.0
  {
    if x < 0.0 {
      assert k * x < 0.0;
    } else {
      assert k * x >= 0.0;
    }
  }

  lemma Distribute(k: real, x: real, y: real)
    ensures k * (x - y) == k * x - k * y
  {
  }

  lemma StretchedSpan(p: real, q: real, p': real, q': real, k: real, d: real)
    requires k > 0.0 && Stretched(p, p', k, d) && Stretched(q, q', k, d)
    ensures AtLeastZero(q' - p') == k * AtLeastZero(q - p)
    ensures p <= q <==> p' <= q'
  {
    Distribute(k, q, p);
    ScaleAtLeastZero(k, q - p);
  }

  /** Overlap of two ranges stretched alike. */
  lemma StretchedOverlap(l: real, r: real, m: real, n: real, l': real, r': real, m': real, n': real, k: real, d: real)
    requires k > 0.0
    requires Stretched(l, l', k, d) && Stretched(r, r', k, d) && Stretched(m, m', k, d) && Stretched(n, n', k, d)
    ensures AtLeastZero(Min(r', n') - Max(l', m')) == k * AtLeastZero(Min(r, n) - Max(l, m))
  {
    StretchedSpan(r, n, r', n', k, d);
    StretchedSpan(l, m, l', m', k, d);
    StretchedSpan(Max(l, m), Min(r, n), Max(l', m'), Min(r', n'), k, d);
  }

  lemma QuotientOfScaled(x: real, y: real, k: real, x': real, y': real)
    requires k > 0.0 && x' == k * x && y' == k * y
    ensures y' <= 0.0 <==> y <= 0.0
    ensures y > 0.0 ==> x' / y' == x / y
  {
    if y > 0.0 {
      assert k * y > 0.0;
      var q := x / y;
      assert q * y == x;
      assert q * (k * y) == k * x;
    } else {
      assert k * y <= 0.0;
    }
  }

  lemma ScaleProduct(k: real, w: real, h: real, w': real)
    requires w' == k * w
    ensures w' * h == k * (w * h)
  {
  }

  /** Overlap is a ratio of areas: stretching every width alike preserves it. */
  lemma ShareOfWider(
    k: real, iw: real, ih: real, aw: real, ah: real, bw: real, bh: real, iw': real, aw': real, bw': real)
    requires k > 0.0 && iw' == k * iw && aw' == k * aw && bw' == k * bw
    ensures Share(iw', ih, aw', ah, bw', bh) == Share(iw, ih, aw, ah, bw, bh)
  {
    ScaleProduct(k, iw, ih, iw');
    ScaleProduct(k, aw, ah, aw');
    ScaleProduct(k, bw, bh, bw');
    QuotientOfScaled(iw * ih, aw * ah + bw * bh - iw * ih, k, iw' * ih, aw' * ah + bw' * bh - iw' * ih);
  }

  lemma InterWidthStretched(a: PixelBox, b: PixelBox, a': PixelBox, b': PixelBox, k: real, d: real)
    requires k > 0.0
    requires Stretched(a.left, a'.left, k, d) && Stretched(a.right, a'.right, k, d)
    requires Stretched(b.left, b'.left, k, d) && Stretched(b.right, b'.right, k, d)
    ensures InterWidth(a', b') == k * InterWidth(a, b)
  {
    StretchedOverlap(a.left, a.right, b.left, b.right, a'.left, a'.right, b'.left, b'.right, k, d);
  }

  lemma WidthStretched(a: PixelBox, a': PixelBox, k: real, d: real)
    requires k > 0.0
    requires Stretched(a.left, a'.left, k, d) && Stretched(a.right, a'.right, k, d)
    ensures a'.Width() == k * a.Width()
  {
    StretchedSpan(a.left, a.right, a'.left, a'.right, k, d);
  }

  /** A box with its axes exchanged; overlap does not notice. */
  function Turned(a: PixelBox): PixelBox {
    PixelBox(a.top, a.left, a.bottom, a.right)
  }

  lemma TurnedShare(iw: real, ih: real, aw: real, ah: real, bw: real, bh: real)
    ensures Share(ih, iw, ah, aw, bh, bw) == Share(iw, ih, aw, ah, bw, bh)
  {
  }

  lemma TurnedIou(a: PixelBox, b: PixelBox)
    ensures Iou(Turned(a), Turned(b)) == Iou(a, b)
  {
    TurnedShare(InterWidth(a, b), InterHeight(a, b), a.Width(), a.Height(), b.Width(), b.Height());
  }

  lemma WiderIou(a: PixelBox, b: PixelBox, a': PixelBox, b': PixelBox, k: real)
    requires k > 0.0
    requires a'.Width() == k * a.Width() && b'.Width() == k * b.Width() && InterWidth(a', b') == k * InterWidth(a, b)
    requires a'.top == a.top && a'.bottom == a.bottom && b'.top == b.top && b'.bottom == b.bottom
    ensures Iou(a', b') == Iou(a, b)
  {
    ShareOfWider(k, InterWidth(a, b), InterHeight(a, b), a.Width(), a.Height(), b.Width(), b.Height(),
                 InterWidth(a', b'), a'.Width(), b'.Width());
  }

  /** Stretching both boxes alike in one direction preserves their overlap. */
  lemma StretchedIou(a: PixelBox, b: PixelBox, a': PixelBox, b': PixelBox, k: real, d: real)
    requires k > 0.0
    requires Stretched(a.left, a'.left, k, d) && Stretched(a.right, a'.right, k, d)
    requires Stretched(b.left, b'.left, k, d) && Stretched(b.right, b'.right, k, d)
    requires a'.top == a.top && a'.bottom == a.bottom && b'.top == b.top && b'.bottom == b.bottom
    ensures Iou(a', b') == Iou(a, b)
  {
    WidthStretched(a, a', k, d);
    WidthStretched(b, b', k, d);
    InterWidthStretched(a, b, a', b', k, d);
    WiderIou(a, b, a', b', k);
  }

  /** Un-letterboxing one coordinate is a stretch and a shift of everything covered. */
  lemma AxisIsStretched(pad: real, s: real, size: real, p: real, q: real, p': real, q': real)
    returns (k: real, d: real)
    requires s > 0.0 && size > 0.0
    requires Spanned(p, q, pad, s, size) && Spanned(p', q', pad, s, size)
    ensures k > 0.0
    ensures Stretched(p, Unplace(p, pad, s, size), k, d) && Stretched(q, Unplace(q, pad, s, size), k, d)
    ensures Stretched(p', Unplace(p', pad, s, size), k, d) && Stretched(q', Unplace(q', pad, s, size), k, d)
  {
    k := (1.0 / s) / size;
    d := -(k * pad);
    PointIsStretched(p, pad, s, size, k);
    PointIsStretched(q, pad, s, size, k);
    PointIsStretched(p', pad, s, size, k);
    PointIsStretched(q', pad, s, size, k);
  }

  lemma PointIsStretched(x: real, pad: real, s: real, size: real, k: real)
    requires s > 0.0 && size > 0.0 && pad <= x <= pad + size * s && k == (1.0 / s) / size
    ensures Stretched(x, Unplace(x, pad, s, size), k, -(k * pad))
  {
    InsideIsUnclamped(x, pad, s, size);
    assert (x - pad) / s == (x - pad) * (1.0 / s);
    assert ((x - pad) * (1.0 / s)) / size == (x - pad) * k;
    Distribute(k, x, pad);
  }

  lemma CoveredBox(t: LetterboxTransform, box: PixelBox)
    requires t.Valid() && t.Covers(box)
    ensures AsPixelBox(t.BoxToNormalized(box)) ==
            PixelBox(Unplace(box.left, t.padX, t.scale, t.uprightWidth as real),
                     Unplace(box.top, t.padY, t.scale, t.uprightHeight as real),
                     Unplace(box.right, t.padX, t.scale, t.uprightWidth as real),
                     Unplace(box.bottom, t.padY, t.scale, t.uprightHeight as real))
  {
    UnplaceMonotone(box.left, box.right, t.padX, t.scale, t.uprightWidth as real);
    UnplaceMonotone(box.top, box.bottom, t.padY, t.scale, t.uprightHeight as real);
  }

  lemma UnplaceMonotone(p: real, q: real, pad: real, s: real, size: real)
    requires s > 0.0 && size > 0.0 && p <= q
    ensures Unplace(p, pad, s, size) <= Unplace(q, pad, s, size)
  {
    DivideMonotone(p - pad, q - pad, s, size);
  }

  lemma IouIsPreserved(t: LetterboxTransform, a: PixelBox, b: PixelBox)
    requires t.Valid() && t.Covers(a) && t.Covers(b)
    ensures Iou(AsPixelBox(t.BoxToNormalized(a)), AsPixelBox(t.BoxToNormalized(b))) == Iou(a, b)
  {
    var kx, dx := AxisIsStretched(t.padX, t.scale, t.uprightWidth as real, a.left, a.right, b.left, b.right);
    var ky, dy := AxisIsStretched(t.padY, t.scale, t.uprightHeight as real, a.top, a.bottom, b.top, b.bottom);
    CoveredBox(t, a);
    CoveredBox(t, b);
    var a', b' := AsPixelBox(t.BoxToNormalized(a)), AsPixelBox(t.BoxToNormalized(b));
    var wideA := PixelBox(a'.left, a.top, a'.right, a.bottom);
    var wideB := PixelBox(b'.left, b.top, b'.right, b.bottom);
    StretchedIou(a, b, wideA, wideB, kx, dx);
    TurnedIou(wideA, wideB);
    StretchedIou(Turned(wideA), Turned(wideB), Turned(a'), Turned(b'), ky, dy);
    TurnedIou(a', b');
  }

  function Mapped(t: LetterboxTransform, d: RawDetection): RawDetection
    requires t.Valid()
  {
    d.(box := AsPixelBox(t.BoxToNormalized(d.box)))
  }

  function MappedAll(t: LetterboxTransform, s: seq<RawDetection>): seq<RawDetection>
    requires t.Valid()
  {
    if s == [] then [] else [Mapped(t, s[0])] + MappedAll(t, s[1..])
  }

  ghost predicate AllCovered(t: LetterboxTransform, s: seq<RawDetection>) {
    forall d :: d in s ==> t.Covers(d.box)
  }

  lemma {:induction false} MappedAt(t: LetterboxTransform, s: seq<RawDetection>)
    requires t.Valid()
    ensures |MappedAll(t, s)| == |s|
    ensures forall i :: 0 <= i < |s| ==> MappedAll(t, s)[i] == Mapped(t, s[i])
  {
    if s != [] {
      MappedAt(t, s[1..]);
    }
  }

  lemma {:induction false} InsertMapped(t: LetterboxTransform, x: RawDetection, s: seq<RawDetection>)
    requires t.Valid()
    ensures Insert(Mapped(t, x), MappedAll(t, s)) == MappedAll(t, Insert(x, s))
  {
    if s != [] && x.score < s[0].score {
      InsertMapped(t, x, s[1..]);
      assert MappedAll(t, s)[1..] == MappedAll(t, s[1..]);
      assert Insert(x, s)[1..] == Insert(x, s[1..]);
    } else {
      assert ([x] + s)[1..] == s;
    }
  }

  lemma {:induction false} SortMapped(t: LetterboxTransform, s: seq<RawDetection>)
    requires t.Valid()
    ensures SortedByScore(MappedAll(t, s)) == MappedAll(t, SortedByScore(s))
  {
    if s != [] {
      SortMapped(t, s[1..]);
      InsertMapped(t, s[0], SortedByScore(s[1..]));
      assert MappedAll(t, s)[1..] == MappedAll(t, s[1..]);
    }
  }

  lemma {:induction false} KeepsMapped(t: LetterboxTransform, s: seq<RawDetection>, threshold: real, i: nat)
    requires t.Valid() && AllCovered(t, s) && i < |s| && |MappedAll(t, s)| == |s|
    ensures Keeps(MappedAll(t, s), threshold, i) <==> Keeps(s, threshold, i)
    decreases i
  {
    MappedAt(t, s);
    var m := MappedAll(t, s);
    forall j: nat | j < i
      ensures Keeps(m, threshold, j) <==> Keeps(s, threshold, j)
      ensures Suppresses(m[j], m[i], threshold) <==> Suppresses(s[j], s[i], threshold)
    {
      KeepsMapped(t, s, threshold, j);
      assert s[j] in s && s[i] in s;
      IouIsPreserved(t, s[j].box, s[i].box);
    }
  }

  lemma {:induction false} MappedAppend(t: LetterboxTransform, s: seq<RawDetection>, d: RawDetection)
    requires t.Valid()
    ensures MappedAll(t, s + [d]) == MappedAll(t, s) + [Mapped(t, d)]
  {
    MappedAt(t, s);
    MappedAt(t, s + [d]);
  }

  lemma {:induction false} SurvivorsMapped(t: LetterboxTransform, s: seq<RawDetection>, threshold: real, n: nat)
    requires t.Valid() && AllCovered(t, s) && n <= |s| && |MappedAll(t, s)| == |s|
    ensures Survivors(MappedAll(t, s), threshold, n) == MappedAll(t, Survivors(s, threshold, n))
  {
    if n > 0 {
      SurvivorsMapped(t, s, threshold, n - 1);
      KeepsMapped(t, s, threshold, n - 1);
      MappedIndex(t, s, n - 1);
      if Keeps(s, threshold, n - 1) {
        MappedAppend(t, Survivors(s, threshold, n - 1), s[n - 1]);
      }
    }
  }

  lemma MappedIndex(t: LetterboxTransform, s: seq<RawDetection>, i: nat)
    requires t.Valid() && i < |s| && |MappedAll(t, s)| == |s|
    ensures MappedAll(t, s)[i] == Mapped(t, s[i])
  {
    MappedAt(t, s);
  }

  lemma SortedAreCovered(t: LetterboxTransform, detections: seq<RawDetection>)
    requires AllCovered(t, detections)
    ensures AllCovered(t, SortedByScore(detections))
  {
    SortIsSorted(detections);
    forall d | d in SortedByScore(detections) ensures t.Covers(d.box) {
      assert d in multiset(SortedByScore(detections));
    }
  }

  lemma FirstUpToMapped(t: LetterboxTransform, s: seq<RawDetection>, cap: int)
    requires t.Valid()
    ensures FirstUpTo(MappedAll(t, s), cap) == MappedAll(t, FirstUpTo(s, cap))
  {
    MappedAt(t, s);
    MappedAt(t, FirstUpTo(s, cap));
  }

  /** For boxes inside the frame's part of the input, mapping and then suppressing is
      the same as suppressing and then mapping, for every threshold and cap. */
  lemma SuppressionCommutes(t: LetterboxTransform, detections: seq<RawDetection>, threshold: real, cap: int)
    requires t.Valid() && AllCovered(t, detections)
    ensures Kept(MappedAll(t, detections), threshold, cap) == MappedAll(t, Kept(detections, threshold, cap))
  {
    var byScore := SortedByScore(detections);
    SortMapped(t, detections);
    SortedAreCovered(t, detections);
    MappedAt(t, byScore);
    SurvivorsMapped(t, byScore, threshold, |byScore|);
    FirstUpToMapped(t, Survivors(byScore, threshold, |byScore|), cap);
  }

  // ---- When it does not --------------------------------------------------------------

  predicate Solid(a: PixelBox) {
    a.left < a.right && a.top < a.bottom
  }

  /** The box with its edges in order; a decoded size can be negative. */
  function Ordered(a: PixelBox): PixelBox {
    PixelBox(Min(a.left, a.right), Min(a.top, a.bottom), Max(a.left, a.right), Max(a.top, a.bottom))
  }

  /** The part of a box inside the frame's part of the input. */
  function Clip(t: LetterboxTransform, a: PixelBox): PixelBox {
    PixelBox(Max(a.left, t.padX), Max(a.top, t.padY),
             Min(a.right, t.FarX()), Min(a.bottom, t.FarY()))
  }

  /** Does any of the box show in the frame? */
  predicate Visible(t: LetterboxTransform, a: PixelBox) {
    Solid(Clip(t, a))
  }

  lemma UnplaceBelow(x: real, pad: real, s: real, size: real)
    requires s > 0.0 && size > 0.0 && x <= pad
    ensures Unplace(x, pad, s, size) == 0.0
  {
    DivideMonotone(x - pad, 0.0, s, size);
  }

  lemma UnplaceAbove(x: real, pad: real, s: real, size: real)
    requires s > 0.0 && size > 0.0 && pad + size * s <= x
    ensures Unplace(x, pad, s, size) == 1.0
  {
    DivideMonotone(size * s, x - pad, s, size);
    DivideMultiply(1.0, s, size);
  }

  /** Along one axis: clipping a range that shows spans it and unplaces alike. */
  lemma AxisClip(p: real, q: real, pad: real, s: real, size: real, far: real)
    requires s > 0.0 && size > 0.0 && far == pad + size * s && Max(p, pad) < Min(q, far)
    ensures Spanned(Max(p, pad), Min(q, far), pad, s, size)
    ensures UnplacedAlike(Max(p, pad), p, pad, s, size) && UnplacedAlike(Min(q, far), q, pad, s, size)
    ensures Max(p, pad) == p && Min(q, far) == q <==> Spanned(p, q, pad, s, size)
  {
    if p <= pad {
      UnplaceBelow(p, pad, s, size);
      UnplaceBelow(pad, pad, s, size);
    }
    if far <= q {
      UnplaceAbove(q, pad, s, size);
      UnplaceAbove(far, pad, s, size);
    }
  }

  predicate UnplacedAlike(x: real, y: real, pad: real, s: real, size: real)
    requires s > 0.0 && size > 0.0
  {
    Unplace(x, pad, s, size) == Unplace(y, pad, s, size)
  }

  lemma SameUnplacedSameBox(t: LetterboxTransform, a: PixelBox, c: PixelBox)
    requires t.Valid()
    requires UnplacedAlike(c.left, a.left, t.padX, t.scale, t.uprightWidth as real)
    requires UnplacedAlike(c.right, a.right, t.padX, t.scale, t.uprightWidth as real)
    requires UnplacedAlike(c.top, a.top, t.padY, t.scale, t.uprightHeight as real)
    requires UnplacedAlike(c.bottom, a.bottom, t.padY, t.scale, t.uprightHeight as real)
    ensures t.BoxToNormalized(c) == t.BoxToNormalized(a)
  {
  }

  lemma ClipCovers(t: LetterboxTransform, a: PixelBox)
    requires t.Valid() && Visible(t, a)
    ensures t.Covers(Clip(t, a))
    ensures Clip(t, a) == a <==> t.Covers(a)
  {
    AxisClip(a.left, a.right, t.padX, t.scale, t.uprightWidth as real, t.FarX());
    AxisClip(a.top, a.bottom, t.padY, t.scale, t.uprightHeight as real, t.FarY());
  }

  /** Clipping a visible box does not change where it is mapped. */
  lemma ClipMapsAlike(t: LetterboxTransform, a: PixelBox)
    requires t.Valid() && Visible(t, a)
    ensures t.BoxToNormalized(Clip(t, a)) == t.BoxToNormalized(a)
  {
    AxisClip(a.left, a.right, t.padX, t.scale, t.uprightWidth as real, t.FarX());
    AxisClip(a.top, a.bottom, t.padY, t.scale, t.uprightHeight as real, t.FarY());
    SameUnplacedSameBox(t, a, Clip(t, a));
  }

  /** Mapping puts the edges in order. */
  lemma OrderedMapsAlike(t: LetterboxTransform, a: PixelBox)
    requires t.Valid()
    ensures t.BoxToNormalized(Ordered(a)) == t.BoxToNormalized(a)
  {
    AxisOrder(a.left, a.right, t.padX, t.scale, t.uprightWidth as real);
    AxisOrder(a.top, a.bottom, t.padY, t.scale, t.uprightHeight as real);
  }

  lemma AxisOrder(p: real, q: real, pad: real, s: real, size: real)
    requires s > 0.0 && size > 0.0
    ensures Unplace(Min(p, q), pad, s, size) == Min(Unplace(p, pad, s, size), Unplace(q, pad, s, size))
    ensures Unplace(Max(p, q), pad, s, size) == Max(Unplace(p, pad, s, size), Unplace(q, pad, s, size))
  {
    if p <= q {
      DivideMonotone(p - pad, q - pad, s, size);
    } else {
      DivideMonotone(q - pad, p - pad, s, size);
    }
  }

  /** A box with its edges the wrong way round overlaps nothing. */
  lemma SwappedOverlapsNothing(a: PixelBox, b: PixelBox)
    requires Ordered(a) != a && b.left <= b.right && b.top <= b.bottom
    ensures Iou(a, b) == 0.0
  {
    NoOverlap(a, b);
  }

  lemma ClippedIou(t: LetterboxTransform, a: PixelBox)
    requires t.Valid() && Visible(t, Ordered(a)) && !t.Covers(a)
    ensures t.Covers(Clip(t, Ordered(a))) && 0.0 <= Iou(a, Clip(t, Ordered(a))) < 1.0
  {
    var b := Clip(t, Ordered(a));
    ClipCovers(t, Ordered(a));
    if Ordered(a) == a {
      IouInUnit(a, b);
      IouIsOneIffEqual(a, b);
    } else {
      SwappedOverlapsNothing(a, b);
    }
  }

  /** Against its own visible part a box that is not covered has less than full overlap,
      but full overlap once both are mapped. */
  lemma ClippingRaisesIou(t: LetterboxTransform, a: PixelBox)
    requires t.Valid() && Visible(t, Ordered(a)) && !t.Covers(a)
    ensures t.Covers(Clip(t, Ordered(a))) && 0.0 <= Iou(a, Clip(t, Ordered(a))) < 1.0
    ensures Iou(AsPixelBox(t.BoxToNormalized(a)), AsPixelBox(t.BoxToNormalized(Clip(t, Ordered(a))))) == 1.0
  {
    var b := Clip(t, Ordered(a));
    ClippedIou(t, a);
    OrderedMapsAlike(t, a);
    ClipMapsAlike(t, Ordered(a));
    IouIsOneIffEqual(b, b);
    IouIsPreserved(t, b, b);
  }

  lemma NoOverlap(a: PixelBox, b: PixelBox)
    requires InterWidth(a, b) == 0.0 || InterHeight(a, b) == 0.0
    ensures Iou(a, b) == 0.0
  {
    assert InterWidth(a, b) * InterHeight(a, b) == 0.0;
  }

  /** The length two ranges share. */
  function Shared(p: real, q: real, l: real, r: real): real {
    AtLeastZero(Min(q, r) - Max(p, l))
  }

  lemma AxisOutside(p: real, q: real, l: real, r: real, pad: real, s: real, size: real, far: real)
    requires s > 0.0 && size > 0.0 && far == pad + size * s && p <= q && Spanned(l, r, pad, s, size)
    requires Max(p, pad) >= Min(q, far)
    ensures Shared(p, q, l, r) == 0.0
    ensures Unplace(p, pad, s, size) == Unplace(q, pad, s, size)
  {
    if q <= pad {
      UnplaceBelow(p, pad, s, size);
      UnplaceBelow(q, pad, s, size);
    } else if far <= p {
      UnplaceAbove(p, pad, s, size);
      UnplaceAbove(q, pad, s, size);
    }
  }

  lemma InvisibleAcross(t: LetterboxTransform, a: PixelBox, b: PixelBox)
    requires t.Valid() && Ordered(a) == a && Clip(t, a).left >= Clip(t, a).right && t.Covers(b)
    ensures InterWidth(a, b) == 0.0 == InterWidth(AsPixelBox(t.BoxToNormalized(a)), AsPixelBox(t.BoxToNormalized(b)))
  {
    AxisOutside(a.left, a.right, b.left, b.right, t.padX, t.scale, t.uprightWidth as real, t.FarX());
    var a' := t.BoxToNormalized(a);
    assert a'.left == a'.right;
  }

  lemma InvisibleDown(t: LetterboxTransform, a: PixelBox, b: PixelBox)
    requires t.Valid() && Ordered(a) == a && Clip(t, a).top >= Clip(t, a).bottom && t.Covers(b)
    ensures InterHeight(a, b) == 0.0 == InterHeight(AsPixelBox(t.BoxToNormalized(a)), AsPixelBox(t.BoxToNormalized(b)))
  {
    AxisOutside(a.top, a.bottom, b.top, b.bottom, t.padY, t.scale, t.uprightHeight as real, t.FarY());
    var a' := t.BoxToNormalized(a);
    assert a'.top == a'.bottom;
  }

  lemma InvisibleOrdered(t: LetterboxTransform, a: PixelBox, b: PixelBox)
    requires t.Valid() && Ordered(a) == a && !Visible(t, a) && t.Covers(b)
    ensures Iou(a, b) == 0.0 == Iou(AsPixelBox(t.BoxToNormalized(a)), AsPixelBox(t.BoxToNormalized(b)))
  {
    if Clip(t, a).left >= Clip(t, a).right {
      InvisibleAcross(t, a, b);
    } else {
      InvisibleDown(t, a, b);
    }
    NoOverlap(a, b);
    NoOverlap(AsPixelBox(t.BoxToNormalized(a)), AsPixelBox(t.BoxToNormalized(b)));
  }

  /** A box that does not show overlaps no covered box, before or after mapping. */
  lemma InvisibleOverlapsNothing(t: LetterboxTransform, a: PixelBox, b: PixelBox)
    requires t.Valid() && !Visible(t, Ordered(a)) && t.Covers(b)
    ensures Iou(a, b) == 0.0 == Iou(AsPixelBox(t.BoxToNormalized(a)), AsPixelBox(t.BoxToNormalized(b)))
  {
    OrderedMapsAlike(t, a);
    InvisibleOrdered(t, Ordered(a), b);
    if Ordered(a) != a {
      SwappedOverlapsNothing(a, b);
    }
  }

  predicate Preserves(t: LetterboxTransform, a: PixelBox, b: PixelBox)
    requires t.Valid()
  {
    Iou(AsPixelBox(t.BoxToNormalized(a)), AsPixelBox(t.BoxToNormalized(b))) == Iou(a, b)
  }

  /** Mapping leaves a box's overlap with every covered box unchanged iff the box is
      covered itself or, with its edges in order, does not show at all. */
  lemma IouIsPreservedIff(t: LetterboxTransform, a: PixelBox)
    requires t.Valid()
    ensures (forall b :: t.Covers(b) ==> Preserves(t, a, b)) <==> t.Covers(a) || !Visible(t, Ordered(a))
  {
    if t.Covers(a) || !Visible(t, Ordered(a)) {
      forall b | t.Covers(b) ensures Preserves(t, a, b) {
        CoveredOrInvisible(t, a, b);
      }
    } else {
      ClippingRaisesIou(t, a);
      assert !Preserves(t, a, Clip(t, Ordered(a)));
    }
  }

  lemma CoveredOrInvisible(t: LetterboxTransform, a: PixelBox, b: PixelBox)
    requires t.Valid() && (t.Covers(a) || !Visible(t, Ordered(a))) && t.Covers(b)
    ensures Preserves(t, a, b)
  {
    if t.Covers(a) {
      IouIsPreserved(t, a, b);
    } else {
      InvisibleOverlapsNothing(t, a, b);
    }
  }

  /** The survivors of two boxes before the cap. */
  function OfTwo(a: RawDetection, b: RawDetection, threshold: real): seq<RawDetection> {
    if a.score < b.score then (if Suppresses(b, a, threshold) then [b] else [b, a])
    else if Suppresses(a, b, threshold) then [a]
    else [a, b]
  }

  lemma SortOfTwo(a: RawDetection, b: RawDetection)
    ensures SortedByScore([a, b]) == if a.score < b.score then [b, a] else [a, b]
  {
    assert [a, b][1..] == [b] && [b][1..] == [];
    assert SortedByScore([b]) == [b];
    assert Insert(a, []) == [a];
  }

  lemma SurvivorsOfTwo(a: RawDetection, b: RawDetection, threshold: real)
    ensures Survivors([a, b], threshold, 2) == if Suppresses(a, b, threshold) then [a] else [a, b]
  {
    var s := [a, b];
    assert Keeps(s, threshold, 0);
    assert Keeps(s, threshold, 1) <==> !Suppresses(a, b, threshold);
    assert Survivors(s, threshold, 1) == [a];
  }

  lemma KeptOfTwo(a: RawDetection, b: RawDetection, threshold: real, cap: int)
    ensures Kept([a, b], threshold, cap) == FirstUpTo(OfTwo(a, b, threshold), cap)
  {
    SortOfTwo(a, b);
    SurvivorsOfTwo(a, b, threshold);
    SurvivorsOfTwo(b, a, threshold);
  }

  /** Does the order of mapping and suppressing not matter for these two? */
  ghost predicate Commutes(t: LetterboxTransform, a: RawDetection, b: RawDetection, threshold: real, cap: int)
    requires t.Valid()
  {
    Kept(MappedAll(t, [a, b]), threshold, cap) == MappedAll(t, Kept([a, b], threshold, cap))
  }

  lemma MappedTwo(t: LetterboxTransform, a: RawDetection, b: RawDetection)
    requires t.Valid()
    ensures MappedAll(t, [a, b]) == [Mapped(t, a), Mapped(t, b)] && MappedAll(t, [a]) == [Mapped(t, a)]
  {
    MappedAt(t, [a, b]);
    MappedAt(t, [a]);
  }

  lemma OfTwoMapped(t: LetterboxTransform, a: RawDetection, b: RawDetection, threshold: real)
    requires t.Valid() && Preserves(t, a.box, b.box)
    ensures OfTwo(Mapped(t, a), Mapped(t, b), threshold) == MappedAll(t, OfTwo(a, b, threshold))
  {
    IouIsSymmetric(a.box, b.box);
    IouIsSymmetric(Mapped(t, a).box, Mapped(t, b).box);
    MappedTwo(t, a, b);
    MappedTwo(t, b, a);
  }

  lemma PreservedTwoCommute(t: LetterboxTransform, a: RawDetection, b: RawDetection, threshold: real, cap: int)
    requires t.Valid() && Preserves(t, a.box, b.box)
    ensures Commutes(t, a, b, threshold, cap)
  {
    KeptOfTwo(a, b, threshold, cap);
    KeptOfTwo(Mapped(t, a), Mapped(t, b), threshold, cap);
    MappedTwo(t, a, b);
    OfTwoMapped(t, a, b, threshold);
    FirstUpToMapped(t, OfTwo(a, b, threshold), cap);
  }

  lemma ClipDiffers(t: LetterboxTransform, a: RawDetection)
    requires t.Valid() && Visible(t, Ordered(a.box)) && !t.Covers(a.box)
    ensures var b := a.(box := Clip(t, Ordered(a.box)));
            t.Covers(b.box) && !Commutes(t, a, b, Iou(a.box, b.box), 2)
  {
    var b := a.(box := Clip(t, Ordered(a.box)));
    var threshold := Iou(a.box, b.box);
    ClippingRaisesIou(t, a.box);
    KeptOfTwo(a, b, threshold, 2);
    KeptOfTwo(Mapped(t, a), Mapped(t, b), threshold, 2);
    MappedTwo(t, a, b);
  }

  /** For instance: a wide box that shared a tenth of its area with the frame coincides
      with it once clipped. */
  lemma ClippingCanSuppress()
    ensures var t := LetterboxTransform(1, 1, 1.0, 0.0, 0.0, 1, 1);
            var wide := RawDetection(0, 0.9, PixelBox(-9.0, 0.0, 1.0, 1.0));
            var framed := RawDetection(0, 0.8, PixelBox(0.0, 0.0, 1.0, 1.0));
            && Kept([wide, framed], 0.5, 10) == [wide, framed]
            && Kept(MappedAll(t, [wide, framed]), 0.5, 10) == [Mapped(t, wide)]
  {
    var t := LetterboxTransform(1, 1, 1.0, 0.0, 0.0, 1, 1);
    var wide := RawDetection(0, 0.9, PixelBox(-9.0, 0.0, 1.0, 1.0));
    var framed := RawDetection(0, 0.8, PixelBox(0.0, 0.0, 1.0, 1.0));
    WideBoxes(t, wide, framed);
    MappedTwo(t, wide, framed);
    KeptOfTwo(wide, framed, 0.5, 10);
    KeptOfTwo(Mapped(t, wide), Mapped(t, framed), 0.5, 10);
  }

  lemma WideBoxes(t: LetterboxTransform, wide: RawDetection, framed: RawDetection)
    requires t == LetterboxTransform(1, 1, 1.0, 0.0, 0.0, 1, 1)
    requires wide == RawDetection(0, 0.9, PixelBox(-9.0, 0.0, 1.0, 1.0))
    requires framed == RawDetection(0, 0.8, PixelBox(0.0, 0.0, 1.0, 1.0))
    ensures !Suppresses(wide, framed, 0.5)
    ensures Mapped(t, wide).box == framed.box == Mapped(t, framed).box
    ensures Suppresses(Mapped(t, wide), Mapped(t, framed), 0.5)
  {
    assert Iou(wide.box, framed.box) == Share(1.0, 1.0, 10.0, 1.0, 1.0, 1.0);
    assert Iou(framed.box, framed.box) == Share(1.0, 1.0, 1.0, 1.0, 1.0, 1.0);
  }

  /** The order of mapping and suppressing never matters between a box and covered ones,
      whatever their scores, classes, threshold and cap, iff the box is covered itself or,
      with its edges in order, does not show at all: any other box is told from its
      visible part before mapping and not after. */
  lemma SuppressionCommutesIff(t: LetterboxTransform, a: RawDetection)
    requires t.Valid()
    ensures (forall b: RawDetection, threshold: real, cap: int :: t.Covers(b.box) ==> Commutes(t, a, b, threshold, cap))
            <==> t.Covers(a.box) || !Visible(t, Ordered(a.box))
  {
    if t.Covers(a.box) || !Visible(t, Ordered(a.box)) {
      forall b: RawDetection, threshold: real, cap: int | t.Covers(b.box) ensures Commutes(t, a, b, threshold, cap) {
        CoveredOrInvisible(t, a.box, b.box);
        PreservedTwoCommute(t, a, b, threshold, cap);
      }
    } else {
      ClipDiffers(t, a);
      var b := a.(box := Clip(t, Ordered(a.box)));
      assert t.Covers(b.box) && !Commutes(t, a, b, Iou(a.box, b.box), 2);
    }
  }
}
