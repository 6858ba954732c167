/** Scaling through the nearest map: pixel by pixel, row by row, and in pairs of rows that share chroma. */
module Scaling {
  import opened Basics
  import opened Pixels
  import opened Kernels
  import opened PackedKernels
  import opened YuvKernels
  import opened Nearest
  import opened Reference
  import opened Conversion
  import F = Format

  // ----- Rows of the source, converted into scratch -----

  /** `&data[plane.offset + y * row_stride..][..bytes]`. */
  predicate FromIn(data: seq<byte>, p: F.PlaneLayout, y: nat, bytes: int) {
    0 <= bytes && p.offset + y * p.rowStride + bytes <= |data|
  }

  function From(data: seq<byte>, p: F.PlaneLayout, y: nat, bytes: int): (r: seq<byte>)
    requires FromIn(data, p, y, bytes)
    ensures |r| == bytes
  {
    MulLe(0, y, p.rowStride);
    data[p.offset + y * p.rowStride..p.offset + y * p.rowStride + bytes]
  }

  lemma SliceOfSlice(s: seq<byte>, a: nat, b: nat, i: nat, j: nat)
    requires a <= b <= |s| && i <= j <= b - a
    ensures s[a..b][i..j] == s[a + i..a + j]
  {
    var t, u := s[a..b][i..j], s[a + i..a + j];
    forall k | 0 <= k < |t| ensures t[k] == u[k] {
      assert t[k] == s[a..b][i + k];
    }
  }

  /** A strip of the rows from `y` on is a strip of the plane. */
  lemma StripOfFrom(data: seq<byte>, p: F.PlaneLayout, y: nat, bytes: int, n: nat, row: nat)
    requires PlaneInside(data, p, 0) && FromIn(data, p, y, bytes)
    requires StripIn(From(data, p, y, bytes), p.rowStride, n, row) && StripIn(PlaneData(data, p, 0), p.rowStride, n, y + row)
    ensures Strip(From(data, p, y, bytes), p.rowStride, n, row) == Strip(PlaneData(data, p, 0), p.rowStride, n, y + row)
  {
    Distribute(y, row, p.rowStride);
    MulLe(0, y, p.rowStride);
    MulLe(0, row, p.rowStride);
    var a, at := p.offset + y * p.rowStride, row * p.rowStride;
    SliceOfSlice(data, a, a + bytes, at, at + n);
    SliceOfSlice(data, p.offset, p.offset + p.length, (y + row) * p.rowStride, (y + row) * p.rowStride + n);
  }

  /** `rows` strips of a plane from row `y` on. */
  lemma FromFits(data: seq<byte>, p: F.PlaneLayout, n: nat, h: nat, y: nat, rows: nat)
    requires PlaneInside(data, p, 0) && StripsOk(PlaneData(data, p, 0), p.rowStride, n, h)
    requires 0 < rows && y + rows <= h
    ensures FromIn(data, p, y, (rows - 1) * p.rowStride + n)
    ensures StripsOk(From(data, p, y, (rows - 1) * p.rowStride + n), p.rowStride, n, rows)
  {
    MulLe(y + (rows - 1), h - 1, p.rowStride);
    Distribute(y, rows - 1, p.rowStride);
    MulLe(0, rows - 1, p.rowStride);
  }

  /** One row, or an even row and the one below it. */
  predicate RowsFrom(l: F.FrameLayout, y: nat, rows: nat) {
    (rows == 1 || (rows == 2 && y % 2 == 0)) && y + rows <= l.height
  }

  lemma ChromaRow(l: F.FrameLayout, y: nat, rows: nat, row: nat)
    requires RowsFrom(l, y, rows) && row < rows
    ensures (y + row) / 2 == y / 2 && row / 2 == 0 && Half(rows) == 1 && y / 2 < Half(l.height)
  {
  }

  /** The rows that the kernel is given, as an image of their own. */
  function SemiFrom(l: F.FrameLayout, data: seq<byte>, y: nat, rows: nat): Semi
    requires TightSemi(l) && 0 < rows && FromIn(data, l.planes[0], y, (rows - 1) * l.planes[0].rowStride + l.width)
    requires FromIn(data, l.planes[1], y / 2, 2 * Half(l.width))
  {
    Semi(From(data, l.planes[0], y, (rows - 1) * l.planes[0].rowStride + l.width),
         From(data, l.planes[1], y / 2, 2 * Half(l.width)),
         l.planes[0].rowStride, l.planes[1].rowStride, l.format.Nv21?)
  }

  lemma SemiFromOk(l: F.FrameLayout, data: seq<byte>, y: nat, rows: nat)
    requires Ready(l, data) && TightSemi(l) && RowsFrom(l, y, rows)
    ensures FromIn(data, l.planes[0], y, (rows - 1) * l.planes[0].rowStride + l.width)
    ensures FromIn(data, l.planes[1], y / 2, 2 * Half(l.width))
    ensures SemiOk(SemiFrom(l, data, y, rows), l.width, rows)
  {
    hide StripsOk, FromIn, From, PlaneData, PlaneInside, F.ValidLayout;
    Positive(l, data);
    SemiOfOk(l, data);
    ChromaRow(l, y, rows, 0);
    FromFits(data, l.planes[0], l.width, l.height, y, rows);
    FromFits(data, l.planes[1], 2 * Half(l.width), Half(l.height), y / 2, 1);
  }

  /** Row by row, the sub-image is the whole image from row `y` on. */
  lemma SemiFromRow(l: F.FrameLayout, data: seq<byte>, y: nat, rows: nat, row: nat)
    requires Ready(l, data) && TightSemi(l) && RowsFrom(l, y, rows) && row < rows
    ensures FromIn(data, l.planes[0], y, (rows - 1) * l.planes[0].rowStride + l.width)
    ensures FromIn(data, l.planes[1], y / 2, 2 * Half(l.width))
    ensures PlaneInside(data, l.planes[0], 0) && PlaneInside(data, l.planes[1], 0)
    ensures SemiOk(SemiFrom(l, data, y, rows), l.width, rows) && SemiOk(SemiOf(l, data), l.width, l.height)
    ensures SemiRow(SemiFrom(l, data, y, rows), l.width, rows, row) == SemiRow(SemiOf(l, data), l.width, l.height, y + row)
  {
    hide StripsOk, FromIn, From, PlaneData, PlaneInside, Strip, StripIn, F.ValidLayout;
    SemiFromOk(l, data, y, rows);
    SemiOfOk(l, data);
    ChromaRow(l, y, rows, row);
    var sub, full := SemiFrom(l, data, y, rows), SemiOf(l, data);
    StripFits(sub.y, sub.yStride, l.width, rows, row);
    StripFits(full.y, full.yStride, l.width, l.height, y + row);
    StripFits(sub.uv, sub.uvStride, 2 * Half(l.width), Half(rows), 0);
    StripFits(full.uv, full.uvStride, 2 * Half(l.width), Half(l.height), y / 2);
    StripOfFrom(data, l.planes[0], y, (rows - 1) * l.planes[0].rowStride + l.width, l.width, row);
    StripOfFrom(data, l.planes[1], y / 2, 2 * Half(l.width), 2 * Half(l.width), 0);
  }

  /** The scratch buffer holds the reference rows from `y` on. */
  ghost predicate ScratchHolds(l: F.FrameLayout, data: seq<byte>, c: Coeffs, y: nat, rows: nat, scratch: seq<byte>)
    requires Ready(l, data) && y + rows <= l.height
  {
    forall row :: 0 <= row < rows ==> Holds(scratch, RowBase(3 * l.width, row), RefRow(l, data, c, y + row))
  }

  lemma ScratchFrom(l: F.FrameLayout, data: seq<byte>, c: Coeffs, y: nat, rows: seq<Row>, start: seq<byte>, scratch: seq<byte>)
    requires Ready(l, data) && y + |rows| <= l.height && AllCover(rows, l.width)
    requires forall row :: 0 <= row < |rows| ==> RowOf(rows[row], c, l.width) == RefRow(l, data, c, y + row)
    requires Converted(start, scratch, rows, c, l.width, |rows|)
    ensures ScratchHolds(l, data, c, y, |rows|, scratch)
  {
    hide RowOf, RefRow, Holds, F.ValidLayout, RowBase, Outside, ImageOf;
    var image := ImageOf(rows, c, l.width);
    forall row | 0 <= row < |rows| ensures Holds(scratch, RowBase(3 * l.width, row), RefRow(l, data, c, y + row)) {
      assert image[row] == RowOf(rows[row], c, l.width);
      assert Holds(scratch, RowBase(3 * l.width, row), image[row]);
    }
  }

  method ConvertSemiRows(l: F.FrameLayout, data: seq<byte>, y: nat, rows: nat, c: Coeffs, vector: bool, scratch: array<byte>)
    requires Ready(l, data) && TightSemi(l) && RowsFrom(l, y, rows) && |data| < U64_LIMIT
    requires RowBase(3 * l.width, rows) <= scratch.Length < U64_LIMIT
    modifies scratch
    ensures ScratchHolds(l, data, c, y, rows, scratch[..])
  {
    hide SemiOk, SemiRow, SemiRows, RowOf, RefRow, Holds, F.ValidLayout, RowBase, Converted, ScratchHolds, FromIn, From,
         PlaneInside, RefPixel;
    SemiFromOk(l, data, y, rows);
    FromSize(data, l.planes[0], y, (rows - 1) * l.planes[0].rowStride + l.width);
    FromSize(data, l.planes[1], y / 2, 2 * Half(l.width));
    var semi := SemiFrom(l, data, y, rows);
    var ok := Yuv420spToRgb(semi, l.width, rows, c, vector, scratch);
    ghost var image := SemiRows(semi, l.width, rows);
    forall row | 0 <= row < rows ensures RowOf(image[row], c, l.width) == RefRow(l, data, c, y + row) {
      SemiFromRow(l, data, y, rows, row);
      forall x | 0 <= x < l.width ensures RowOf(image[row], c, l.width)[x] == RefRow(l, data, c, y + row)[x] {
        SemiIsRef(l, data, c, x, y + row);
      }
    }
    ScratchFrom(l, data, c, y, image, old(scratch[..]), scratch[..]);
  }

  lemma FromSize(data: seq<byte>, p: F.PlaneLayout, y: nat, bytes: int)
    requires FromIn(data, p, y, bytes)
    ensures |From(data, p, y, bytes)| <= |data|
  {
    MulLe(0, y, p.rowStride);
  }

  /** Planar rows with contiguous samples. */
  predicate TightPlanar(l: F.FrameLayout) {
    l.format.Yuv420p? && |l.planes| == 3 && forall i :: 0 <= i < 3 ==> l.planes[i].pixelStride == 1
  }

  function TightFrom(data: seq<byte>, p: F.PlaneLayout, y: nat, bytes: int): YuvPlane
    requires FromIn(data, p, y, bytes)
  {
    YuvPlane(From(data, p, y, bytes), p.rowStride, p.pixelStride)
  }

  /** With contiguous samples a plane row is a strip. */
  lemma TightPlane(p: YuvPlane, w: nat, h: nat)
    requires p.pixelStride == 1 && 0 < w
    ensures PlaneOk(p, w, h) <==> StripsOk(p.data, p.rowStride, w, h)
  {
  }

  lemma TightPlaneRow(p: YuvPlane, w: nat, row: nat)
    requires p.pixelStride == 1 && RowIn(p, w, row)
    ensures StripIn(p.data, p.rowStride, w, row) && PlaneRow(p, w, row) == Strip(p.data, p.rowStride, w, row)
  {
  }

  /** One plane's rows from `y` on, as a plane of their own. */
  lemma TightFromOk(l: F.FrameLayout, data: seq<byte>, i: nat, w: nat, h: nat, y: nat, rows: nat)
    requires i < |l.planes| && l.planes[i].pixelStride == 1 && PlaneInside(data, l.planes[i], 0) && 0 < w
    requires PlaneOk(PlaneFrom(data, l.planes[i], 0), w, h) && 0 < rows && y + rows <= h
    ensures FromIn(data, l.planes[i], y, (rows - 1) * l.planes[i].rowStride + w)
    ensures PlaneOk(TightFrom(data, l.planes[i], y, (rows - 1) * l.planes[i].rowStride + w), w, rows)
  {
    hide StripsOk, PlaneOk, FromIn, From, PlaneData, PlaneInside;
    TightPlane(PlaneFrom(data, l.planes[i], 0), w, h);
    FromFits(data, l.planes[i], w, h, y, rows);
    TightPlane(TightFrom(data, l.planes[i], y, (rows - 1) * l.planes[i].rowStride + w), w, rows);
  }

  lemma TightFromRow(l: F.FrameLayout, data: seq<byte>, i: nat, w: nat, h: nat, y: nat, rows: nat, row: nat)
    requires i < |l.planes| && l.planes[i].pixelStride == 1 && PlaneInside(data, l.planes[i], 0) && 0 < w
    requires PlaneOk(PlaneFrom(data, l.planes[i], 0), w, h) && row < rows && y + rows <= h
    ensures FromIn(data, l.planes[i], y, (rows - 1) * l.planes[i].rowStride + w)
    ensures var sub, full := TightFrom(data, l.planes[i], y, (rows - 1) * l.planes[i].rowStride + w), PlaneFrom(data, l.planes[i], 0);
            RowIn(sub, w, row) && RowIn(full, w, y + row) && RowSamples(sub, w, row) == RowSamples(full, w, y + row)
  {
    hide StripsOk, PlaneOk, FromIn, From, PlaneData, PlaneInside, Strip, StripIn, PlaneRow, RowIn;
    TightFromOk(l, data, i, w, h, y, rows);
    var bytes := (rows - 1) * l.planes[i].rowStride + w;
    var sub, full := TightFrom(data, l.planes[i], y, bytes), PlaneFrom(data, l.planes[i], 0);
    RowFits(sub, w, rows, row);
    RowFits(full, w, h, y + row);
    TightPlaneRow(sub, w, row);
    TightPlaneRow(full, w, y + row);
    StripOfFrom(data, l.planes[i], y, bytes, w, row);
  }

  /** The rows of the three planes that the kernel is given. */
  predicate PlanarFromIn(l: F.FrameLayout, data: seq<byte>, y: nat, rows: nat) {
    && TightPlanar(l) && 0 < rows
    && FromIn(data, l.planes[0], y, (rows - 1) * l.planes[0].rowStride + l.width)
    && FromIn(data, l.planes[1], y / 2, Half(l.width)) && FromIn(data, l.planes[2], y / 2, Half(l.width))
  }

  function LumaFrom(l: F.FrameLayout, data: seq<byte>, y: nat, rows: nat): YuvPlane
    requires PlanarFromIn(l, data, y, rows)
  {
    TightFrom(data, l.planes[0], y, (rows - 1) * l.planes[0].rowStride + l.width)
  }

  function ChromaFrom(l: F.FrameLayout, data: seq<byte>, y: nat, rows: nat, i: nat): YuvPlane
    requires PlanarFromIn(l, data, y, rows) && (i == 1 || i == 2)
  {
    TightFrom(data, l.planes[i], y / 2, Half(l.width))
  }

  lemma PlanarFromOk(l: F.FrameLayout, data: seq<byte>, y: nat, rows: nat)
    requires Ready(l, data) && TightPlanar(l) && RowsFrom(l, y, rows)
    ensures PlanarFromIn(l, data, y, rows)
    ensures PlanarOk(LumaFrom(l, data, y, rows), ChromaFrom(l, data, y, rows, 1), ChromaFrom(l, data, y, rows, 2), l.width, rows)
  {
    hide PlaneOk, F.ValidLayout, FromIn, From, PlaneInside;
    Positive(l, data);
    ChromaRow(l, y, rows, 0);
    Planes420(l, data);
    TightFromOk(l, data, 0, l.width, l.height, y, rows);
    TightFromOk(l, data, 1, Half(l.width), Half(l.height), y / 2, 1);
    TightFromOk(l, data, 2, Half(l.width), Half(l.height), y / 2, 1);
  }

  lemma PlanarFromRow(l: F.FrameLayout, data: seq<byte>, y: nat, rows: nat, row: nat)
    requires Ready(l, data) && TightPlanar(l) && RowsFrom(l, y, rows) && row < rows
    requires PlanarFromIn(l, data, y, rows)
    requires PlanarOk(LumaFrom(l, data, y, rows), ChromaFrom(l, data, y, rows, 1), ChromaFrom(l, data, y, rows, 2), l.width, rows)
    ensures PlaneInside(data, l.planes[0], 0) && PlaneInside(data, l.planes[1], 0) && PlaneInside(data, l.planes[2], 0)
    ensures var py, pu, pv := PlaneFrom(data, l.planes[0], 0), PlaneFrom(data, l.planes[1], 0), PlaneFrom(data, l.planes[2], 0);
            && PlanarOk(py, pu, pv, l.width, l.height)
            && PlanarRow(LumaFrom(l, data, y, rows), ChromaFrom(l, data, y, rows, 1), ChromaFrom(l, data, y, rows, 2), l.width, rows, row)
               == PlanarRow(py, pu, pv, l.width, l.height, y + row)
  {
    hide PlaneOk, F.ValidLayout, FromIn, From, PlaneInside, RowSamples, RowIn;
    Positive(l, data);
    ChromaRow(l, y, rows, row);
    Planes420(l, data);
    TightFromRow(l, data, 0, l.width, l.height, y, rows, row);
    TightFromRow(l, data, 1, Half(l.width), Half(l.height), y / 2, 1, 0);
    TightFromRow(l, data, 2, Half(l.width), Half(l.height), y / 2, 1, 0);
  }

  /** A row of the planar image is the reference row. */
  lemma PlanarRowIsRef(l: F.FrameLayout, data: seq<byte>, c: Coeffs, y: nat)
    requires Ready(l, data) && TightPlanar(l) && y < l.height
    ensures PlaneInside(data, l.planes[0], 0) && PlaneInside(data, l.planes[1], 0) && PlaneInside(data, l.planes[2], 0)
    ensures var py, pu, pv := PlaneFrom(data, l.planes[0], 0), PlaneFrom(data, l.planes[1], 0), PlaneFrom(data, l.planes[2], 0);
            && PlanarOk(py, pu, pv, l.width, l.height)
            && RowOf(PlanarRow(py, pu, pv, l.width, l.height, y), c, l.width) == RefRow(l, data, c, y)
  {
    hide PlanarOk, PlanarRow, PlanarRows, RowOf, RefRow, F.ValidLayout, PlaneInside, PlaneFrom, RefPixel;
    Positive(l, data);
    PlanarIsRef(l, data, c, 0, y);
    var py, pu, pv := PlaneFrom(data, l.planes[0], 0), PlaneFrom(data, l.planes[1], 0), PlaneFrom(data, l.planes[2], 0);
    var row := RowOf(PlanarRows(py, pu, pv, l.width, l.height)[y], c, l.width);
    forall x | 0 <= x < l.width ensures row[x] == RefRow(l, data, c, y)[x] {
      PlanarIsRef(l, data, c, x, y);
    }
  }

  /** A row that the planar kernel is given is the reference row. */
  lemma PlanarScratchRow(l: F.FrameLayout, data: seq<byte>, y: nat, rows: nat, c: Coeffs, row: nat)
    requires Ready(l, data) && TightPlanar(l) && RowsFrom(l, y, rows) && row < rows
    requires PlanarFromIn(l, data, y, rows)
    requires PlanarOk(LumaFrom(l, data, y, rows), ChromaFrom(l, data, y, rows, 1), ChromaFrom(l, data, y, rows, 2), l.width, rows)
    ensures var image := PlanarRows(LumaFrom(l, data, y, rows), ChromaFrom(l, data, y, rows, 1), ChromaFrom(l, data, y, rows, 2), l.width, rows);
            RowOf(image[row], c, l.width) == RefRow(l, data, c, y + row)
  {
    hide PlanarOk, PlanarRow, PlanarRows, RowOf, RefRow, F.ValidLayout, FromIn, From, PlaneInside, PlaneFrom, RefPixel, PlanarFromIn,
         LumaFrom, ChromaFrom;
    PlanarFromRow(l, data, y, rows, row);
    PlanarRowIsRef(l, data, c, y + row);
  }

  method ConvertPlanarRows(l: F.FrameLayout, data: seq<byte>, y: nat, rows: nat, c: Coeffs, vector: bool, scratch: array<byte>)
    requires Ready(l, data) && TightPlanar(l) && RowsFrom(l, y, rows) && |data| < U64_LIMIT
    requires RowBase(3 * l.width, rows) <= scratch.Length < U64_LIMIT
    modifies scratch
    ensures ScratchHolds(l, data, c, y, rows, scratch[..])
  {
    hide PlanarOk, PlanarRow, PlanarRows, RowOf, RefRow, Holds, F.ValidLayout, RowBase, Converted, ScratchHolds, FromIn, From,
         PlaneInside, RefPixel;
    PlanarFromOk(l, data, y, rows);
    FromSize(data, l.planes[0], y, (rows - 1) * l.planes[0].rowStride + l.width);
    FromSize(data, l.planes[1], y / 2, Half(l.width));
    FromSize(data, l.planes[2], y / 2, Half(l.width));
    var py, pu, pv := LumaFrom(l, data, y, rows), ChromaFrom(l, data, y, rows, 1), ChromaFrom(l, data, y, rows, 2);
    var ok := Yuv420ToRgb(py, pu, pv, l.width, rows, c, vector, scratch);
    ghost var image := PlanarRows(py, pu, pv, l.width, rows);
    forall row | 0 <= row < rows ensures RowOf(image[row], c, l.width) == RefRow(l, data, c, y + row) {
      PlanarScratchRow(l, data, y, rows, c, row);
    }
    ScratchFrom(l, data, c, y, image, old(scratch[..]), scratch[..]);
  }

  method ConvertPackedRow(l: F.FrameLayout, data: seq<byte>, y: nat, c: Coeffs, vector: bool, scratch: array<byte>)
    requires Ready(l, data) && F.Packed422(l.format) && y < l.height && |data| < U64_LIMIT
    requires RowBase(3 * l.width, 1) <= scratch.Length < U64_LIMIT
    modifies scratch
    ensures ScratchHolds(l, data, c, y, 1, scratch[..])
  {
    hide StripsOk, Strip, StripIn, PackedRows, RowOf, RefRow, Holds, F.ValidLayout, RowBase, Converted, ScratchHolds, FromIn, From,
         PlaneInside, PlaneData, RefPixel;
    PackedPlaneOk(l, data);
    var p, bytes := l.planes[0], 2 * l.width;
    FromFits(data, p, bytes, l.height, y, 1);
    FromSize(data, p, y, bytes);
    var src := From(data, p, y, bytes);
    var ok := Yuv422ToRgb(src, l.width, 1, p.rowStride, l.format.Uyvy?, c, vector, scratch);
    ghost var image := PackedRows(src, p.rowStride, l.format.Uyvy?, l.width, 1);
    StripFits(src, p.rowStride, bytes, 1, 0);
    StripFits(PlaneData(data, p, 0), p.rowStride, bytes, l.height, y);
    StripOfFrom(data, p, y, bytes, bytes, 0);
    assert image[0] == PackedRowAt(PlaneData(data, p, 0), p.rowStride, l.format.Uyvy?, l.width, l.height, y);
    forall x | 0 <= x < l.width ensures RowOf(image[0], c, l.width)[x] == RefRow(l, data, c, y)[x] {
      PackedIsRef(l, data, c, x, y);
    }
    assert RowOf(image[0], c, l.width) == RefRow(l, data, c, y);
    ScratchFrom(l, data, c, y, image, old(scratch[..]), scratch[..]);
  }

  /** `supports_yuv_row_conversion`. */
  predicate SupportsRows(l: F.FrameLayout) {
    F.Packed422(l.format) || TightSemi(l) || TightPlanar(l)
  }

  /** `convert_yuv_rows`. */
  method ConvertYuvRows(l: F.FrameLayout, data: seq<byte>, y: nat, rows: nat, c: Coeffs, vector: bool, scratch: array<byte>)
    requires Ready(l, data) && SupportsRows(l) && RowsFrom(l, y, rows) && (F.Packed422(l.format) ==> rows == 1)
    requires |data| < U64_LIMIT && RowBase(3 * l.width, rows) <= scratch.Length < U64_LIMIT
    modifies scratch
    ensures ScratchHolds(l, data, c, y, rows, scratch[..])
  {
    hide F.ValidLayout, RowBase, ScratchHolds;
    if F.Packed422(l.format) {
      ConvertPackedRow(l, data, y, c, vector, scratch);
    } else if l.format.Yuv420p? {
      ConvertPlanarRows(l, data, y, rows, c, vector, scratch);
    } else {
      ConvertSemiRows(l, data, y, rows, c, vector, scratch);
    }
  }

  // ----- Scaling -----

  /** The columns and rows of the output, taken from the nearest maps. */
  predicate MapsFor(l: F.FrameLayout, xs: seq<nat>, ys: seq<nat>) {
    0 < l.width && 0 < l.height && xs == Columns(l, |xs|) && ys == Rows(l, |ys|)
  }

  /** The first `n` output rows are in place. */
  ghost predicate RowsScaled(start: seq<byte>, o: seq<byte>, l: F.FrameLayout, data: seq<byte>, c: Coeffs, xs: seq<nat>, ys: seq<nat>, n: nat)
    requires Ready(l, data) && MapsFor(l, xs, ys)
  {
    Done(o, RefImage(l, data, c, xs, ys), 3 * |xs|, n) && Outside(start, o, 0, RowBase(3 * |xs|, n))
  }

  lemma NothingScaled(o: seq<byte>, l: F.FrameLayout, data: seq<byte>, c: Coeffs, xs: seq<nat>, ys: seq<nat>)
    requires Ready(l, data) && MapsFor(l, xs, ys)
    ensures RowsScaled(o, o, l, data, c, xs, ys, 0)
  {
  }

  /** Output row `i` has been written from its source row, and nothing else. */
  lemma ScaledMore(start: seq<byte>, o: seq<byte>, n: seq<byte>, l: F.FrameLayout, data: seq<byte>, c: Coeffs,
                   xs: seq<nat>, ys: seq<nat>, i: nat)
    requires Ready(l, data) && MapsFor(l, xs, ys) && i < |ys| && RowsScaled(start, o, l, data, c, xs, ys, i)
    requires Holds(n, RowBase(3 * |xs|, i), Picked(RefRow(l, data, c, ys[i]), xs))
    requires Outside(o, n, RowBase(3 * |xs|, i), RowBase(3 * |xs|, i) + 3 * |xs|)
    ensures RowsScaled(start, n, l, data, c, xs, ys, i + 1)
  {
    hide RefRow, Holds, Picked, F.ValidLayout, RowBase, Outside, Done, Columns, Rows, RefImage;
    NextBase(3 * |xs|, i);
    DoneMore(start, o, n, RefImage(l, data, c, xs, ys), 3 * |xs|, i, i + 1);
  }

  lemma SliceHolds(o: seq<byte>, base: nat, row: seq<Pixel>)
    requires Holds(o, base, row)
    ensures base + 3 * |row| <= |o| && Holds(o[base..base + 3 * |row|], 0, row)
  {
    var slice := o[base..base + 3 * |row|];
    forall i | 0 <= i < |row|
      ensures slice[3 * i] == row[i].r && slice[3 * i + 1] == row[i].g && slice[3 * i + 2] == row[i].b
    {
      assert o[base + 3 * i] == row[i].r;
    }
  }

  /** Resizes a source row that lies in a buffer, or in the data, into output row `i`. */
  method ResizeInto(bytes: seq<byte>, l: F.FrameLayout, data: seq<byte>, ghost c: Coeffs, xs: seq<nat>, ys: seq<nat>, i: nat,
                    out: array<byte>, ghost start: seq<byte>)
    requires Ready(l, data) && MapsFor(l, xs, ys) && i < |ys| && RowsScaled(start, out[..], l, data, c, xs, ys, i)
    requires |bytes| == 3 * l.width && Holds(bytes, 0, RefRow(l, data, c, ys[i])) && out.Length == RowBase(3 * |xs|, |ys|)
    modifies out
    ensures RowsScaled(start, out[..], l, data, c, xs, ys, i + 1)
  {
    hide RefRow, Holds, Picked, F.ValidLayout, RowBase, Outside, RowsScaled, Rows;
    ghost var before := out[..];
    NextBase(3 * |xs|, i);
    BaseMono(3 * |xs|, i + 1, |ys|);
    ResizeRow(bytes, xs, out, RowBase(3 * |xs|, i), RefRow(l, data, c, ys[i]));
    ScaledMore(start, before, out[..], l, data, c, xs, ys, i);
  }

  /** `scale_yuv_nearest`: rows are converted into scratch and then resized. An even row whose successor is
      the next one wanted is converted together with it. */
  method ScaleYuvNearest(l: F.FrameLayout, data: seq<byte>, c: Coeffs, vector: bool, xs: seq<nat>, ys: seq<nat>,
                         out: array<byte>, scratch: array<byte>)
    requires Ready(l, data) && SupportsRows(l) && MapsFor(l, xs, ys) && |data| < U64_LIMIT && out != scratch
    requires out.Length == RowBase(3 * |xs|, |ys|) && RowBase(3 * l.width, 2) <= scratch.Length < U64_LIMIT
    modifies out, scratch
    ensures RowsScaled(old(out[..]), out[..], l, data, c, xs, ys, |ys|)
  {
    hide F.ValidLayout, RowBase, RowsScaled, MapsFor, Columns, Rows;
    NothingScaled(out[..], l, data, c, xs, ys);
    var pairable, index := !F.Packed422(l.format), 0;
    while index < |ys|
      invariant 0 <= index <= |ys| && RowsScaled(old(out[..]), out[..], l, data, c, xs, ys, index)
    {
      if pairable && ys[index] % 2 == 0 && index + 1 < |ys| && ys[index + 1] == ys[index] + 1 {
        ScaleTwo(l, data, c, vector, xs, ys, index, out, scratch, old(out[..]));
        index := index + 2;
      } else {
        ScaleOne(l, data, c, vector, xs, ys, index, out, scratch, old(out[..]));
        index := index + 1;
      }
    }
  }

  method ScaleOne(l: F.FrameLayout, data: seq<byte>, c: Coeffs, vector: bool, xs: seq<nat>, ys: seq<nat>, i: nat,
                  out: array<byte>, scratch: array<byte>, ghost start: seq<byte>)
    requires Ready(l, data) && SupportsRows(l) && MapsFor(l, xs, ys) && |data| < U64_LIMIT && out != scratch
    requires out.Length == RowBase(3 * |xs|, |ys|) && RowBase(3 * l.width, 2) <= scratch.Length < U64_LIMIT
    requires i < |ys| && RowsScaled(start, out[..], l, data, c, xs, ys, i)
    modifies out, scratch
    ensures RowsScaled(start, out[..], l, data, c, xs, ys, i + 1)
  {
    hide F.ValidLayout, RowBase, RowsScaled, Holds, RefRow, Columns;
    NextBase(3 * l.width, 0);
    BaseMono(3 * l.width, 1, 2);
    ConvertYuvRows(l, data, ys[i], 1, c, vector, scratch);
    SliceHolds(scratch[..], RowBase(3 * l.width, 0), RefRow(l, data, c, ys[i] + 0));
    ResizeInto(scratch[..][0..3 * l.width], l, data, c, xs, ys, i, out, start);
  }

  method ScaleTwo(l: F.FrameLayout, data: seq<byte>, c: Coeffs, vector: bool, xs: seq<nat>, ys: seq<nat>, i: nat,
                  out: array<byte>, scratch: array<byte>, ghost start: seq<byte>)
    requires Ready(l, data) && SupportsRows(l) && !F.Packed422(l.format) && MapsFor(l, xs, ys)
    requires |data| < U64_LIMIT && out != scratch
    requires out.Length == RowBase(3 * |xs|, |ys|) && RowBase(3 * l.width, 2) <= scratch.Length < U64_LIMIT
    requires i + 1 < |ys| && ys[i] % 2 == 0 && ys[i + 1] == ys[i] + 1 && RowsScaled(start, out[..], l, data, c, xs, ys, i)
    modifies out, scratch
    ensures RowsScaled(start, out[..], l, data, c, xs, ys, i + 2)
  {
    hide F.ValidLayout, RowBase, RowsScaled, Holds, RefRow, Columns;
    NextBase(3 * l.width, 0);
    ConvertYuvRows(l, data, ys[i], 2, c, vector, scratch);
    SliceHolds(scratch[..], RowBase(3 * l.width, 0), RefRow(l, data, c, ys[i] + 0));
    SliceHolds(scratch[..], RowBase(3 * l.width, 1), RefRow(l, data, c, ys[i] + 1));
    var first, second := scratch[..][0..3 * l.width], scratch[..][3 * l.width..6 * l.width];
    ResizeInto(first, l, data, c, xs, ys, i, out, start);
    ResizeInto(second, l, data, c, xs, ys, i + 1, out, start);
  }
}
