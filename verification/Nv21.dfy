/** Packing the camera's planes into NV21, and where a reader finds each sample. */
module Nv21 {
  import opened Arithmetic

  newtype Byte = x: int | 0 <= x < 256

  /** A plane of samples that are not packed: a step between rows and one between pixels. */
  datatype Plane = Plane(data: seq<Byte>, rowStride: nat, pixelStride: nat) {
    function At(row: nat, col: nat): nat {
      row * rowStride + col * pixelStride
    }

    /** Does the plane hold a sample for each of so many rows and columns? */
    ghost predicate Holds(rows: nat, cols: nat) {
      forall row: nat, col: nat :: row < rows && col < cols ==> At(row, col) < |data|
    }
  }

  /** U and V can both be read at U's places. */
  ghost predicate Paired(u: Plane, v: Plane, rows: nat, cols: nat) {
    forall row: nat, col: nat :: row < rows && col < cols ==>
      u.At(row, col) < |u.data| && u.At(row, col) < |v.data|
  }

  /** What the camera hands over. */
  datatype Image = Image(width: nat, height: nat, y: Plane, u: Plane, v: Plane) {
    ghost predicate Valid() {
      y.Holds(height, width) && Paired(u, v, height / 2, width / 2)
    }
  }

  // ---- The packed form, row by row --------------------------------------------------------

  function LumaRow(p: Plane, row: nat, cols: nat): (r: seq<Byte>)
    requires forall col: nat :: col < cols ==> p.At(row, col) < |p.data|
    ensures |r| == cols
    ensures forall col: nat :: col < cols ==> r[col] == p.data[p.At(row, col)]
  {
    if cols == 0 then [] else LumaRow(p, row, cols - 1) + [p.data[p.At(row, cols - 1)]]
  }

  function Luma(p: Plane, rows: nat, cols: nat): (r: seq<Byte>)
    requires p.Holds(rows, cols)
    ensures |r| == Area(rows, cols)
  {
    if rows == 0 then [] else Luma(p, rows - 1, cols) + LumaRow(p, rows - 1, cols)
  }

  /** V before U, pixel by pixel. */
  function ChromaRow(u: Plane, v: Plane, row: nat, cols: nat): (r: seq<Byte>)
    requires forall col: nat :: col < cols ==> u.At(row, col) < |u.data| && u.At(row, col) < |v.data|
    ensures |r| == 2 * cols
    ensures forall col: nat :: col < cols ==>
              r[2 * col] == v.data[u.At(row, col)] && r[2 * col + 1] == u.data[u.At(row, col)]
  {
    if cols == 0 then []
    else
      var i := u.At(row, cols - 1);
      ChromaRow(u, v, row, cols - 1) + [v.data[i], u.data[i]]
  }

  function Chroma(u: Plane, v: Plane, rows: nat, cols: nat): (r: seq<Byte>)
    requires Paired(u, v, rows, cols)
    ensures |r| == Area(rows, 2 * cols)
  {
    if rows == 0 then [] else Chroma(u, v, rows - 1, cols) + ChromaRow(u, v, rows - 1, cols)
  }

  function Packed(img: Image): seq<Byte>
    requires img.Valid()
  {
    Luma(img.y, img.height, img.width) + Chroma(img.u, img.v, img.height / 2, img.width / 2)
  }

  function BufferSize(width: nat, height: nat): nat {
    width * height * 3 / 2
  }

  // ---- The packing loops -----------------------------------------------------------------------

  method PackLumaRow(out: array<Byte>, pos: nat, p: Plane, row: nat, width: nat)
    requires pos + width <= out.Length
    requires forall col: nat :: col < width ==> p.At(row, col) < |p.data|
    modifies out
    ensures out[..pos + width] == old(out[..pos]) + LumaRow(p, row, width)
    ensures forall k :: pos + width <= k < out.Length ==> out[k] == old(out[k])
  {
    var rowStart := row * p.rowStride;
    for col := 0 to width
      invariant out[..pos + col] == old(out[..pos]) + LumaRow(p, row, col)
      invariant rowStart == p.At(row, col)
      invariant forall k :: pos + col <= k < out.Length ==> out[k] == old(out[k])
    {
      assert p.At(row, col) < |p.data|;
      out[pos + col] := p.data[rowStart];
      assert out[..pos + col + 1] == out[..pos + col] + [p.data[rowStart]];
      AtNext(p, row, col);
      rowStart := rowStart + p.pixelStride;
    }
  }

  lemma AtNext(p: Plane, row: nat, col: nat)
    ensures p.At(row, col + 1) == p.At(row, col) + p.pixelStride
  {
    RowsAdd(col, p.pixelStride);
  }

  method PackLuma(out: array<Byte>, p: Plane, height: nat, width: nat) returns (pos: nat)
    requires Area(height, width) <= out.Length && p.Holds(height, width)
    modifies out
    ensures pos == Area(height, width) && out[..pos] == Luma(p, height, width)
    ensures forall k :: pos <= k < out.Length ==> out[k] == old(out[k])
  {
    pos := 0;
    for row := 0 to height
      invariant pos == Area(row, width) <= Area(height, width)
      invariant out[..pos] == Luma(p, row, width)
      invariant forall k :: pos <= k < out.Length ==> out[k] == old(out[k])
    {
      AreaGrows(row + 1, height, width);
      PackLumaRow(out, pos, p, row, width);
      pos := pos + width;
    }
  }

  method PackChromaRow(out: array<Byte>, start: nat, u: Plane, v: Plane, row: nat, width: nat)
    requires start + 2 * width <= out.Length
    requires forall col: nat :: col < width ==> u.At(row, col) < |u.data| && u.At(row, col) < |v.data|
    modifies out
    ensures out[..start + 2 * width] == old(out[..start]) + ChromaRow(u, v, row, width)
    ensures forall k :: start + 2 * width <= k < out.Length ==> out[k] == old(out[k])
  {
    var pos := start;
    for col := 0 to width
      invariant pos == start + 2 * col
      invariant out[..pos] == old(out[..start]) + ChromaRow(u, v, row, col)
      invariant forall k :: pos <= k < out.Length ==> out[k] == old(out[k])
    {
      var uvIndex := u.At(row, col);
      out[pos] := v.data[uvIndex];
      out[pos + 1] := u.data[uvIndex];
      assert out[..pos + 2] == out[..pos] + [v.data[uvIndex], u.data[uvIndex]];
      pos := pos + 2;
    }
  }

  lemma ChromaExtends(before: seq<Byte>, u: Plane, v: Plane, row: nat, width: nat)
    requires Paired(u, v, row + 1, width)
    ensures before + Chroma(u, v, row, width) + ChromaRow(u, v, row, width) == before + Chroma(u, v, row + 1, width)
  {
    assert Chroma(u, v, row + 1, width) == Chroma(u, v, row, width) + ChromaRow(u, v, row, width);
  }

  method PackChroma(out: array<Byte>, start: nat, u: Plane, v: Plane, height: nat, width: nat)
    requires start + Area(height, 2 * width) <= out.Length && Paired(u, v, height, width)
    modifies out
    ensures out[..start + Area(height, 2 * width)] == old(out[..start]) + Chroma(u, v, height, width)
    ensures forall k :: start + Area(height, 2 * width) <= k < out.Length ==> out[k] == old(out[k])
  {
    var pos, w := start, 2 * width;
    for row := 0 to height
      invariant pos == start + Area(row, w) <= out.Length
      invariant out[..pos] == old(out[..start]) + Chroma(u, v, row, width)
      invariant forall k :: pos <= k < out.Length ==> out[k] == old(out[k])
    {
      AreaGrows(row + 1, height, w);
      ChromaExtends(old(out[..start]), u, v, row, width);
      PackChromaRow(out, pos, u, v, row, width);
      pos := pos + w;
    }
  }

  /** Half of each dimension, rounded down, never needs more than half the area. */
  lemma ChromaFits(width: nat, height: nat)
    ensures Area(height, width) == width * height
    ensures Area(height, width) + Area(height / 2, 2 * (width / 2)) <= BufferSize(width, height)
    ensures width % 2 == 0 && height % 2 == 0 ==>
              Area(height, width) + Area(height / 2, 2 * (width / 2)) == BufferSize(width, height)
  {
    var h := height / 2;
    AreaIsProduct(height, width);
    Commute(height, width);
    AreaWidens(h, 2 * (width / 2), width);
    AreaDoubles(h, width);
    AreaGrows(2 * h, height, width);
  }

  lemma {:induction false} AreaWidens(rows: nat, width: nat, wider: nat)
    requires width <= wider
    ensures Area(rows, width) <= Area(rows, wider)
  {
    if rows > 0 {
      AreaWidens(rows - 1, width, wider);
    }
  }

  lemma {:induction false} AreaDoubles(rows: nat, width: nat)
    ensures Area(2 * rows, width) == 2 * Area(rows, width)
  {
    if rows > 0 {
      AreaDoubles(rows - 1, width);
      assert Area(2 * rows - 1, width) == Area(2 * rows - 2, width) + width;
    }
  }

  /** The buffer starts as zeros and keeps them behind what was packed. */
  method ToNv21(img: Image) returns (out: array<Byte>)
    requires img.Valid()
    ensures fresh(out) && out.Length == BufferSize(img.width, img.height)
    ensures |Packed(img)| <= out.Length && out[..|Packed(img)|] == Packed(img)
    ensures forall k :: |Packed(img)| <= k < out.Length ==> out[k] == 0
  {
    ChromaFits(img.width, img.height);
    out := new Byte[BufferSize(img.width, img.height)](_ => 0);
    var pos := PackLuma(out, img.y, img.height, img.width);
    PackChroma(out, pos, img.u, img.v, img.height / 2, img.width / 2);
  }

  // ---- Reading it back ---------------------------------------------------------------------------

  function YIndex(x: int, y: int, width: int): int {
    y * width + x
  }

  /** The place of V; U is the next one. */
  function UvIndex(x: int, y: int, width: int, height: int): int {
    width * height + y / 2 * width + x / 2 * 2
  }

  lemma {:induction false} LumaAt(p: Plane, rows: nat, cols: nat, row: nat, col: nat, i: int)
    requires p.Holds(rows, cols) && row < rows && col < cols && i == Area(row, cols) + col
    ensures 0 <= i < |Luma(p, rows, cols)| && Luma(p, rows, cols)[i] == p.data[p.At(row, col)]
  {
    var earlier, last := Luma(p, rows - 1, cols), LumaRow(p, rows - 1, cols);
    if row < rows - 1 {
      LumaAt(p, rows - 1, cols, row, col, i);
      InFirst(earlier, last, i, Luma(p, rows, cols));
    } else {
      InSecond(earlier, last, |earlier|, col, Luma(p, rows, cols));
    }
  }

  lemma {:induction false} ChromaAt(u: Plane, v: Plane, rows: nat, cols: nat, row: nat, col: nat, i: int)
    requires Paired(u, v, rows, cols) && row < rows && col < cols && i == Area(row, 2 * cols) + 2 * col
    ensures 0 <= i && i + 1 < |Chroma(u, v, rows, cols)|
    ensures Chroma(u, v, rows, cols)[i] == v.data[u.At(row, col)]
    ensures Chroma(u, v, rows, cols)[i + 1] == u.data[u.At(row, col)]
  {
    var earlier, last := Chroma(u, v, rows - 1, cols), ChromaRow(u, v, rows - 1, cols);
    if row < rows - 1 {
      ChromaAt(u, v, rows - 1, cols, row, col, i);
      InFirst(earlier, last, i, Chroma(u, v, rows, cols));
      InFirst(earlier, last, i + 1, Chroma(u, v, rows, cols));
    } else {
      InSecond(earlier, last, |earlier|, 2 * col, Chroma(u, v, rows, cols));
      InSecond(earlier, last, |earlier|, 2 * col + 1, Chroma(u, v, rows, cols));
    }
  }

  lemma InFirst(a: seq<Byte>, b: seq<Byte>, i: int, whole: seq<Byte>)
    requires 0 <= i < |a| && whole == a + b
    ensures i < |whole| && whole[i] == a[i]
  {
  }

  lemma InSecond(a: seq<Byte>, b: seq<Byte>, n: int, i: int, whole: seq<Byte>)
    requires |a| == n && 0 <= i < |b| && whole == a + b
    ensures 0 <= n + i < |whole| && whole[n + i] == b[i]
  {
  }

  lemma LumaReadsBack(img: Image, x: nat, y: nat)
    requires img.Valid() && x < img.width && y < img.height
    ensures var yi := YIndex(x, y, img.width);
            0 <= yi < |Packed(img)| && Packed(img)[yi] == img.y.data[img.y.At(y, x)]
  {
    var yi := YIndex(x, y, img.width);
    AreaIsProduct(y, img.width);
    LumaAt(img.y, img.height, img.width, y, x, yi);
    InFirst(Luma(img.y, img.height, img.width), Chroma(img.u, img.v, img.height / 2, img.width / 2), yi, Packed(img));
  }

  /** `uv` counts from the end of the luma, `start`. */
  lemma ChromaReadsBack(img: Image, row: nat, col: nat, start: int, cols: nat, i: int)
    requires img.Valid() && row < img.height / 2 && col < cols == img.width / 2
    requires start == Area(img.height, img.width) && i == Area(row, 2 * cols) + 2 * col
    ensures 0 <= start + i && start + i + 1 < |Packed(img)|
    ensures Packed(img)[start + i] == img.v.data[img.u.At(row, col)]
    ensures Packed(img)[start + i + 1] == img.u.data[img.u.At(row, col)]
  {
    var luma, chroma := Luma(img.y, img.height, img.width), Chroma(img.u, img.v, img.height / 2, cols);
    ChromaAt(img.u, img.v, img.height / 2, cols, row, col, i);
    InSecond(luma, chroma, start, i, Packed(img));
    InSecond(luma, chroma, start, i + 1, Packed(img));
  }

  lemma UvIndexIs(x: nat, y: nat, width: nat, height: nat, w: nat)
    requires width == w
    ensures UvIndex(x, y, width, height) == Area(height, width) + (Area(y / 2, w) + 2 * (x / 2))
  {
    AreaIsProduct(height, width);
    AreaIsProduct(y / 2, w);
    Commute(width, height);
  }

  /** For even dimensions packing fills the buffer exactly, and a reader of any pixel finds
      there the luma of that pixel and the chroma of its two-by-two block, each from the
      place in its plane. */
  lemma PackedReadsBack(img: Image, x: nat, y: nat)
    requires img.Valid() && img.v.rowStride == img.u.rowStride && img.v.pixelStride == img.u.pixelStride
    requires img.width % 2 == 0 && img.height % 2 == 0 && x < img.width && y < img.height
    ensures |Packed(img)| == BufferSize(img.width, img.height)
    ensures var yi := YIndex(x, y, img.width);
            0 <= yi < |Packed(img)| && Packed(img)[yi] == img.y.data[img.y.At(y, x)]
    ensures var uv := UvIndex(x, y, img.width, img.height);
            && 0 <= uv && uv + 1 < |Packed(img)|
            && img.v.At(y / 2, x / 2) < |img.v.data| && Packed(img)[uv] == img.v.data[img.v.At(y / 2, x / 2)]
            && img.u.At(y / 2, x / 2) < |img.u.data| && Packed(img)[uv + 1] == img.u.data[img.u.At(y / 2, x / 2)]
  {
    PackedFills(img);
    LumaReadsBack(img, x, y);
    var cols := img.width / 2;
    UvIndexIs(x, y, img.width, img.height, 2 * cols);
    ChromaReadsBack(img, y / 2, x / 2, Area(img.height, img.width), cols, Area(y / 2, 2 * cols) + 2 * (x / 2));
    SameStrides(img.u, img.v, y / 2, x / 2);
  }

  lemma SameStrides(u: Plane, v: Plane, row: nat, col: nat)
    requires u.rowStride == v.rowStride && u.pixelStride == v.pixelStride
    ensures u.At(row, col) == v.At(row, col)
  {
  }

  lemma PackedFills(img: Image)
    requires img.Valid() && img.width % 2 == 0 && img.height % 2 == 0
    ensures |Packed(img)| == BufferSize(img.width, img.height)
  {
    ChromaFits(img.width, img.height);
  }

  lemma HalfRow(y: int, height: int, width: int)
    requires 0 <= y < height && height % 2 == 0 && width >= 0
    ensures 2 * (y / 2 * width) + 2 * width <= height * width
  {
    RowsApart(y / 2, height / 2, width);
    Twice(height / 2, height, width);
  }

  lemma Twice(half: int, whole: int, width: int)
    requires whole == 2 * half
    ensures whole * width == 2 * (half * width)
  {
  }

  lemma EvenReadsAreInBounds(width: int, height: int, x: int, y: int)
    requires width % 2 == 0 && height % 2 == 0 && 0 <= x < width && 0 <= y < height
    ensures UvIndex(x, y, width, height) + 1 < width * height * 3 / 2
  {
    HalfRow(y, height, width);
    Commute(width, height);
    HalfArea(width * height, y / 2 * width, width, x);
  }

  lemma HalfArea(area: int, above: int, width: int, x: int)
    requires 2 * above + 2 * width <= area && 0 <= x < width && width % 2 == 0
    ensures area + above + x / 2 * 2 + 1 < area * 3 / 2
  {
  }

  /** The last pixel of a frame with an odd dimension reads past the buffer. */
  lemma OddReadsOverrun(width: int, height: int)
    requires width >= 1 && height >= 1 && (width % 2 == 1 || height % 2 == 1)
    ensures UvIndex(width - 1, height - 1, width, height) + 1 >= width * height * 3 / 2
  {
    var h := (height - 1) / 2;
    HeightsAdd(h, height, width);
    OddOverrun(width * height, h * width, width, height);
  }

  lemma OddOverrun(area: int, above: int, width: int, height: int)
    requires width >= 1 && (width % 2 == 1 || height % 2 == 1)
    requires area == 2 * above + (if height % 2 == 1 then width else 2 * width)
    ensures area + above + (width - 1) / 2 * 2 + 1 >= area * 3 / 2
  {
  }

  lemma HeightsAdd(h: int, height: int, width: int)
    requires h == (height - 1) / 2
    ensures width * height == 2 * (h * width) + if height % 2 == 1 then width else 2 * width
  {
    Commute(width, height);
    RowsAdd(2 * h, width);
    RowsAdd(2 * h + 1, width);
    Twice(h, 2 * h, width);
  }

  ghost predicate AllReadsInBounds(width: int, height: int) {
    forall x, y :: 0 <= x < width && 0 <= y < height ==>
      UvIndex(x, y, width, height) + 1 < width * height * 3 / 2
  }

  /** The chroma reads of a frame all stay inside its NV21 buffer iff both dimensions are
      even. */
  lemma ReadsInBoundsIffEven(width: int, height: int)
    requires width >= 1 && height >= 1
    ensures AllReadsInBounds(width, height) <==> width % 2 == 0 && height % 2 == 0
  {
    if width % 2 == 0 && height % 2 == 0 {
      forall x, y | 0 <= x < width && 0 <= y < height
        ensures UvIndex(x, y, width, height) + 1 < width * height * 3 / 2
      {
        EvenReadsAreInBounds(width, height, x, y);
      }
    } else {
      OddReadsOverrun(width, height);
    }
  }
}
