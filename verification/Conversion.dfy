/** Conversion of any raw layout to RGB of any size: whichever path is taken, every output pixel is the
    nearest source pixel. */
module Conversion {
  import opened Basics
  import opened Pixels
  import opened Kernels
  import opened PackedKernels
  import opened YuvKernels
  import opened Nearest
  import opened Reference
  import F = Format

  // ----- The wanted image -----

  predicate InColumns(l: F.FrameLayout, xs: seq<nat>) {
    forall d :: 0 <= d < |xs| ==> xs[d] < l.width
  }

  predicate InRows(l: F.FrameLayout, ys: seq<nat>) {
    forall d :: 0 <= d < |ys| ==> ys[d] < l.height
  }

  ghost function RefImage(l: F.FrameLayout, data: seq<byte>, c: Coeffs, xs: seq<nat>, ys: seq<nat>): (image: seq<seq<Pixel>>)
    requires Ready(l, data) && InColumns(l, xs) && InRows(l, ys)
    ensures |image| == |ys| && Even(image, 3 * |xs|)
    ensures forall r :: 0 <= r < |ys| ==> image[r] == Picked(RefRow(l, data, c, ys[r]), xs)
  {
    seq(|ys|, r requires 0 <= r < |ys| && Ready(l, data) && InColumns(l, xs) && InRows(l, ys) =>
      Picked(RefRow(l, data, c, ys[r]), xs))
  }

  lemma RefImageAt(l: F.FrameLayout, data: seq<byte>, c: Coeffs, xs: seq<nat>, ys: seq<nat>, r: nat, d: nat)
    requires Ready(l, data) && InColumns(l, xs) && InRows(l, ys) && r < |ys| && d < |xs|
    ensures |RefImage(l, data, c, xs, ys)[r]| == |xs|
    ensures RefImage(l, data, c, xs, ys)[r][d] == RefPixel(l, data, c, xs[d], ys[r])
  {
    hide RefPixel, F.ValidLayout;
  }

  /** The maps for an output size. */
  function Columns(l: F.FrameLayout, width: nat): (xs: seq<nat>)
    requires 0 < l.width
    ensures |xs| == width && InColumns(l, xs)
  {
    XMapInRange(l.width, width);
    XMap(l.width, width)
  }

  function Rows(l: F.FrameLayout, height: nat): (ys: seq<nat>)
    requires 0 < l.height
    ensures |ys| == height && InRows(l, ys)
  {
    YMap(l.height, height, l.bottomUp)
  }

  lemma Positive(l: F.FrameLayout, data: seq<byte>)
    requires Ready(l, data)
    ensures 0 < l.width && 0 < l.height
  {
  }

  /** The image that was asked for, at any size. */
  ghost function Wanted(l: F.FrameLayout, data: seq<byte>, c: Coeffs, width: nat, height: nat): (image: seq<seq<Pixel>>)
    requires Ready(l, data)
    ensures |image| == height && Even(image, 3 * width)
  {
    RefImage(l, data, c, Columns(l, width), Rows(l, height))
  }

  lemma WantedAt(l: F.FrameLayout, data: seq<byte>, c: Coeffs, width: nat, height: nat, row: nat, column: nat)
    requires Ready(l, data) && row < height && column < width
    ensures NearestOf(l.width, width, column) < l.width
    ensures 0 <= Flip(l.height, l.bottomUp, NearestOf(l.height, height, row)) < l.height
    ensures |Wanted(l, data, c, width, height)[row]| == width
    ensures Wanted(l, data, c, width, height)[row][column]
            == RefPixel(l, data, c, NearestOf(l.width, width, column), Flip(l.height, l.bottomUp, NearestOf(l.height, height, row)))
  {
    Positive(l, data);
    hide RefPixel, RefImage, NearestOf, F.ValidLayout;
    RefImageAt(l, data, c, Columns(l, width), Rows(l, height), row, column);
  }

  // ----- Paths without a map -----

  /** An image whose pixels are the source pixels in place is the one wanted at full size, top-down. */
  lemma FullSizeIsWanted(l: F.FrameLayout, data: seq<byte>, c: Coeffs, image: seq<seq<Pixel>>)
    requires Ready(l, data) && !l.bottomUp && |image| == l.height && Even(image, 3 * l.width)
    requires forall y, x :: 0 <= y < l.height && 0 <= x < l.width ==> image[y][x] == RefPixel(l, data, c, x, y)
    ensures image == Wanted(l, data, c, l.width, l.height)
  {
    hide RefPixel, Wanted, NearestOf;
    var wanted := Wanted(l, data, c, l.width, l.height);
    forall y | 0 <= y < l.height ensures image[y] == wanted[y] {
      forall x | 0 <= x < l.width ensures image[y][x] == wanted[y][x] {
        WantedAt(l, data, c, l.width, l.height, y, x);
        WholeRatios(l.width, x);
        WholeRatios(l.height, y);
      }
    }
  }

  /** An image of every second pixel of every second row is the one wanted at half size, top-down. */
  lemma HalfSizeIsWanted(l: F.FrameLayout, data: seq<byte>, c: Coeffs, image: seq<seq<Pixel>>)
    requires Ready(l, data) && !l.bottomUp && EvenSize(l.width, l.height)
    requires |image| == l.height / 2 && Even(image, 3 * (l.width / 2))
    requires forall y, x :: 0 <= y < l.height / 2 && 0 <= x < l.width / 2 ==>
               image[y][x] == RefPixel(l, data, c, 2 * x, 2 * y)
    ensures image == Wanted(l, data, c, l.width / 2, l.height / 2)
  {
    hide RefPixel, Wanted, NearestOf;
    var wanted := Wanted(l, data, c, l.width / 2, l.height / 2);
    forall y | 0 <= y < l.height / 2 ensures image[y] == wanted[y] {
      forall x | 0 <= x < l.width / 2 ensures image[y][x] == wanted[y][x] {
        WantedAt(l, data, c, l.width / 2, l.height / 2, y, x);
        WholeRatios(l.width / 2, x);
        WholeRatios(l.height / 2, y);
      }
    }
  }

  /** The wanted image is in the buffer from its start on, and what follows it is untouched. */
  ghost predicate Written(start: seq<byte>, o: seq<byte>, l: F.FrameLayout, data: seq<byte>, c: Coeffs, width: nat, height: nat)
    requires Ready(l, data)
  {
    Done(o, Wanted(l, data, c, width, height), 3 * width, height) && Outside(start, o, 0, RowBase(3 * width, height))
  }

  ghost predicate FullSizeRows(l: F.FrameLayout, data: seq<byte>, c: Coeffs, rows: seq<Row>)
    requires Ready(l, data)
  {
    && AllCover(rows, l.width) && |rows| == l.height
    && forall y, x :: 0 <= y < l.height && 0 <= x < l.width ==>
         ImageOf(rows, c, l.width)[y][x] == RefPixel(l, data, c, x, y)
  }

  lemma FullSizeWritten(start: seq<byte>, o: seq<byte>, l: F.FrameLayout, data: seq<byte>, c: Coeffs, rows: seq<Row>)
    requires Ready(l, data) && !l.bottomUp && FullSizeRows(l, data, c, rows)
    requires Converted(start, o, rows, c, l.width, l.height)
    ensures Written(start, o, l, data, c, l.width, l.height)
  {
    hide RefPixel, ImageOf, Wanted, Done, Outside;
    FullSizeIsWanted(l, data, c, ImageOf(rows, c, l.width));
  }

  method FullSizePlanar(l: F.FrameLayout, data: seq<byte>, c: Coeffs, vector: bool, out: array<byte>)
    requires Ready(l, data) && !l.bottomUp && Planar420(l) && |data| < U64_LIMIT
    requires out.Length == RowBase(3 * l.width, l.height) < U64_LIMIT
    modifies out
    ensures Written(old(out[..]), out[..], l, data, c, l.width, l.height)
  {
    hide RefPixel, ImageOf, Wanted, Done, Outside, PlanarOk, PlanarRows, PlaneInside, RowOf, F.ValidLayout, RowBase, Written, Converted;
    Planes420(l, data);
    var y, u := PlaneFrom(data, l.planes[0], 0), PlaneFrom(data, l.planes[1], ChromaShift(l, false));
    var v := PlaneFrom(data, l.planes[ChromaPlane(l, true)], ChromaShift(l, true));
    PlaneSize(data, l.planes[0], 0);
    PlaneSize(data, l.planes[1], ChromaShift(l, false));
    PlaneSize(data, l.planes[ChromaPlane(l, true)], ChromaShift(l, true));
    var ok := Yuv420ToRgb(y, u, v, l.width, l.height, c, vector, out);
    ghost var rows := PlanarRows(y, u, v, l.width, l.height);
    forall row, x | 0 <= row < l.height && 0 <= x < l.width
      ensures ImageOf(rows, c, l.width)[row][x] == RefPixel(l, data, c, x, row)
    {
      PlanarIsRef(l, data, c, x, row);
    }
    FullSizeWritten(old(out[..]), out[..], l, data, c, rows);
  }

  lemma PlaneSize(data: seq<byte>, p: F.PlaneLayout, shift: nat)
    requires PlaneInside(data, p, shift)
    ensures |PlaneData(data, p, shift)| <= |data|
  {
  }

  method FullSizeSemi(l: F.FrameLayout, data: seq<byte>, c: Coeffs, vector: bool, out: array<byte>)
    requires Ready(l, data) && !l.bottomUp && TightSemi(l) && |data| < U64_LIMIT
    requires out.Length == RowBase(3 * l.width, l.height) < U64_LIMIT
    modifies out
    ensures Written(old(out[..]), out[..], l, data, c, l.width, l.height)
  {
    hide RefPixel, ImageOf, Wanted, Done, Outside, SemiOk, SemiRows, PlaneInside, PlaneData, RowOf, F.ValidLayout, RowBase, Written, Converted;
    SemiOfOk(l, data);
    PlaneSize(data, l.planes[0], 0);
    PlaneSize(data, l.planes[1], 0);
    var semi := SemiOf(l, data);
    var ok := Yuv420spToRgb(semi, l.width, l.height, c, vector, out);
    ghost var rows := SemiRows(semi, l.width, l.height);
    forall row, x | 0 <= row < l.height && 0 <= x < l.width
      ensures ImageOf(rows, c, l.width)[row][x] == RefPixel(l, data, c, x, row)
    {
      SemiIsRef(l, data, c, x, row);
    }
    FullSizeWritten(old(out[..]), out[..], l, data, c, rows);
  }

  method FullSizePacked(l: F.FrameLayout, data: seq<byte>, c: Coeffs, vector: bool, out: array<byte>)
    requires Ready(l, data) && !l.bottomUp && F.Packed422(l.format) && |data| < U64_LIMIT
    requires out.Length == RowBase(3 * l.width, l.height) < U64_LIMIT
    modifies out
    ensures Written(old(out[..]), out[..], l, data, c, l.width, l.height)
  {
    hide RefPixel, ImageOf, Wanted, Done, Outside, PackedOk, PackedRows, PlaneInside, PlaneData, RowOf, F.ValidLayout, RowBase, Written, Converted;
    PackedPlaneOk(l, data);
    PlaneSize(data, l.planes[0], 0);
    var src, stride := PlaneData(data, l.planes[0], 0), l.planes[0].rowStride;
    var ok := Yuv422ToRgb(src, l.width, l.height, stride, l.format.Uyvy?, c, vector, out);
    ghost var rows := PackedRows(src, stride, l.format.Uyvy?, l.width, l.height);
    forall row, x | 0 <= row < l.height && 0 <= x < l.width
      ensures ImageOf(rows, c, l.width)[row][x] == RefPixel(l, data, c, x, row)
    {
      PackedIsRef(l, data, c, x, row);
    }
    FullSizeWritten(old(out[..]), out[..], l, data, c, rows);
  }

  method FullSizeFourByte(l: F.FrameLayout, data: seq<byte>, c: Coeffs, lanes: nat, out: array<byte>)
    requires Ready(l, data) && !l.bottomUp && FourByte(l) && |data| < U64_LIMIT && (lanes == 0 || lanes == 4 || lanes == 8)
    requires out.Length == RowBase(3 * l.width, l.height) < U64_LIMIT
    modifies out
    ensures Written(old(out[..]), out[..], l, data, c, l.width, l.height)
  {
    Positive(l, data);
    hide RefPixel, Wanted, Done, Outside, FourByteOk, FourByteImage, PlaneInside, PlaneData, F.ValidLayout, RowBase;
    FourByteIsRef(l, data, c, 0, 0);
    PlaneSize(data, l.planes[0], 0);
    var src, stride := PlaneData(data, l.planes[0], 0), l.planes[0].rowStride;
    var ok := FourByteToRgb(src, l.width, l.height, stride, OrderOf(l.format), lanes, out);
    ghost var image := FourByteImage(src, stride, OrderOf(l.format), l.width, l.height);
    forall row, x | 0 <= row < l.height && 0 <= x < l.width ensures image[row][x] == RefPixel(l, data, c, x, row) {
      FourByteIsRef(l, data, c, x, row);
    }
    FullSizeIsWanted(l, data, c, image);
  }

  /** `copy_from_slice` of one row. */
  method CopyRow(src: seq<byte>, out: array<byte>, base: nat, ghost row: seq<Pixel>)
    requires |src| == 3 * |row| && Holds(src, 0, row) && base + |src| <= out.Length
    modifies out
    ensures Holds(out[..], base, row) && Outside(old(out[..]), out[..], base, base + |src|)
  {
    var i := 0;
    while i < |src|
      invariant 0 <= i <= |src| && Outside(old(out[..]), out[..], base, base + i)
      invariant forall k :: 0 <= k < i ==> out[base + k] == src[k]
    {
      out[base + i] := src[i];
      i := i + 1;
    }
    forall x | 0 <= x < |row|
      ensures out[base + 3 * x] == row[x].r && out[base + 3 * x + 1] == row[x].g && out[base + 3 * x + 2] == row[x].b
    {
      assert src[0 + 3 * x] == row[x].r;
    }
  }

  method FullSizeRgb(l: F.FrameLayout, data: seq<byte>, c: Coeffs, out: array<byte>)
    requires Ready(l, data) && !l.bottomUp && TightRgb(l)
    requires out.Length == RowBase(3 * l.width, l.height)
    modifies out
    ensures Written(old(out[..]), out[..], l, data, c, l.width, l.height)
  {
    hide RefPixel, RefRow, Wanted, Done, Outside, Holds, PlaneInside, PlaneData, Strip, StripIn, F.ValidLayout, RowBase;
    ghost var image := seq(l.height, y requires 0 <= y < l.height && Ready(l, data) => RefRow(l, data, c, y));
    NoneDone(out[..], image, 3 * l.width);
    var y := 0;
    while y < l.height
      invariant 0 <= y <= l.height && Done(out[..], image, 3 * l.width, y)
      invariant Outside(old(out[..]), out[..], 0, RowBase(3 * l.width, y))
    {
      ghost var before := out[..];
      NextBase(3 * l.width, y);
      BaseMono(3 * l.width, y + 1, l.height);
      RgbIsRef(l, data, c, y);
      var strip := Strip(PlaneData(data, l.planes[0], 0), l.planes[0].rowStride, 3 * l.width, y);
      CopyRow(strip, out, RowBase(3 * l.width, y), RefRow(l, data, c, y));
      DoneMore(old(out[..]), before, out[..], image, 3 * l.width, y, y + 1);
      y := y + 1;
    }
    FullSizeIsWanted(l, data, c, image);
  }

  /** The branch for same-size, top-down output; Gray8, Bgr8 and loosely packed pixels are left to the map. */
  method FullSize(l: F.FrameLayout, data: seq<byte>, c: Coeffs, vector: bool, lanes: nat, out: array<byte>) returns (done: bool)
    requires Ready(l, data) && !l.bottomUp && |data| < U64_LIMIT && (lanes == 0 || lanes == 4 || lanes == 8)
    requires out.Length == RowBase(3 * l.width, l.height) < U64_LIMIT
    modifies out
    ensures done ==> Written(old(out[..]), out[..], l, data, c, l.width, l.height)
    ensures !done ==> out[..] == old(out[..])
    ensures IsYuv(l.format) ==> done
  {
    hide Written, F.ValidLayout, RowBase;
    HasPlane(l, data);
    var stride := l.planes[0].pixelStride;
    if l.format.Rgb8? && stride == 3 {
      FullSizeRgb(l, data, c, out);
      return true;
    }
    if (l.format.Rgba8? || l.format.Bgra8? || l.format.Argb8?) && stride == 4 {
      FullSizeFourByte(l, data, c, lanes, out);
      return true;
    }
    if SemiPlanar(l.format) && stride == 1 && l.planes[1].pixelStride == 2 {
      FullSizeSemi(l, data, c, vector, out);
      return true;
    }
    if SemiPlanar(l.format) || l.format.Yuv420p? {
      FullSizePlanar(l, data, c, vector, out);
      return true;
    }
    if F.Packed422(l.format) {
      FullSizePacked(l, data, c, vector, out);
      return true;
    }
    done := false;
  }

  lemma HasPlane(l: F.FrameLayout, data: seq<byte>)
    requires Ready(l, data)
    ensures |l.planes| == (if SemiPlanar(l.format) then 2 else if l.format.Yuv420p? then 3 else 1)
  {
  }

  // ----- Exact half -----

  ghost predicate HalfSizeRows(l: F.FrameLayout, data: seq<byte>, c: Coeffs, rows: seq<Row>)
    requires Ready(l, data) && EvenSize(l.width, l.height)
  {
    && AllCover(rows, l.width / 2) && |rows| == l.height / 2
    && forall y, x :: 0 <= y < l.height / 2 && 0 <= x < l.width / 2 ==>
         ImageOf(rows, c, l.width / 2)[y][x] == RefPixel(l, data, c, 2 * x, 2 * y)
  }

  lemma HalfSizeWritten(start: seq<byte>, o: seq<byte>, l: F.FrameLayout, data: seq<byte>, c: Coeffs, rows: seq<Row>)
    requires Ready(l, data) && !l.bottomUp && EvenSize(l.width, l.height) && HalfSizeRows(l, data, c, rows)
    requires Converted(start, o, rows, c, l.width / 2, l.height / 2)
    ensures Written(start, o, l, data, c, l.width / 2, l.height / 2)
  {
    hide RefPixel, ImageOf, Wanted, Done, Outside;
    HalfSizeIsWanted(l, data, c, ImageOf(rows, c, l.width / 2));
  }

  /** `direct_half_path`, but for the size test. */
  predicate HalfLayout(l: F.FrameLayout) {
    || TightSemi(l)
    || (F.Packed422(l.format) && |l.planes| == 1 && l.planes[0].pixelStride == 2)
    || (l.format.Yuv420p? && |l.planes| == 3 && forall i :: 0 <= i < 3 ==> l.planes[i].pixelStride == 1)
  }

  method HalfSize(l: F.FrameLayout, data: seq<byte>, c: Coeffs, vector: bool, out: array<byte>)
    requires Ready(l, data) && !l.bottomUp && EvenSize(l.width, l.height) && HalfLayout(l) && |data| < U64_LIMIT
    requires out.Length == RowBase(3 * (l.width / 2), l.height / 2) < U64_LIMIT
    modifies out
    ensures Written(old(out[..]), out[..], l, data, c, l.width / 2, l.height / 2)
  {
    hide Written, F.ValidLayout, RowBase;
    if l.format.Yuv420p? {
      HalfSizePlanar(l, data, c, vector, out);
    } else if F.Packed422(l.format) {
      HalfSizePacked(l, data, c, vector, out);
    } else {
      HalfSizeSemi(l, data, c, vector, out);
    }
  }

  method HalfSizePlanar(l: F.FrameLayout, data: seq<byte>, c: Coeffs, vector: bool, out: array<byte>)
    requires Ready(l, data) && !l.bottomUp && EvenSize(l.width, l.height) && l.format.Yuv420p? && HalfLayout(l)
    requires |data| < U64_LIMIT && out.Length == RowBase(3 * (l.width / 2), l.height / 2) < U64_LIMIT
    modifies out
    ensures Written(old(out[..]), out[..], l, data, c, l.width / 2, l.height / 2)
  {
    hide RefPixel, ImageOf, Wanted, Done, Outside, PlanarOk, PlanarRows, HalfPlanarRows, PlaneInside, PlaneData, RowOf,
         F.ValidLayout, RowBase, Written, Converted;
    Planes420(l, data);
    var y, u, v := PlaneFrom(data, l.planes[0], 0), PlaneFrom(data, l.planes[1], 0), PlaneFrom(data, l.planes[2], 0);
    PlaneSize(data, l.planes[0], 0);
    PlaneSize(data, l.planes[1], 0);
    PlaneSize(data, l.planes[2], 0);
    var ok := Yuv420ToRgbHalf(y, u, v, l.width, l.height, c, vector, out);
    ghost var rows := HalfPlanarRows(y, u, v, l.width, l.height);
    forall row, x | 0 <= row < l.height / 2 && 0 <= x < l.width / 2
      ensures ImageOf(rows, c, l.width / 2)[row][x] == RefPixel(l, data, c, 2 * x, 2 * row)
    {
      HalfPlanarPixel(y, u, v, l.width, l.height, c, row, x);
      PlanarIsRef(l, data, c, 2 * x, 2 * row);
    }
    HalfSizeWritten(old(out[..]), out[..], l, data, c, rows);
  }

  method HalfSizeSemi(l: F.FrameLayout, data: seq<byte>, c: Coeffs, vector: bool, out: array<byte>)
    requires Ready(l, data) && !l.bottomUp && EvenSize(l.width, l.height) && TightSemi(l)
    requires |data| < U64_LIMIT && out.Length == RowBase(3 * (l.width / 2), l.height / 2) < U64_LIMIT
    modifies out
    ensures Written(old(out[..]), out[..], l, data, c, l.width / 2, l.height / 2)
  {
    hide RefPixel, ImageOf, Wanted, Done, Outside, SemiOk, SemiRows, HalfSemiRows, PlaneInside, PlaneData, RowOf,
         F.ValidLayout, RowBase, Written, Converted;
    SemiOfOk(l, data);
    PlaneSize(data, l.planes[0], 0);
    PlaneSize(data, l.planes[1], 0);
    var semi := SemiOf(l, data);
    var ok := Yuv420spToRgbHalf(semi, l.width, l.height, c, vector, out);
    ghost var rows := HalfSemiRows(semi, l.width, l.height);
    forall row, x | 0 <= row < l.height / 2 && 0 <= x < l.width / 2
      ensures ImageOf(rows, c, l.width / 2)[row][x] == RefPixel(l, data, c, 2 * x, 2 * row)
    {
      HalfSemiPixel(semi, l.width, l.height, c, row, x);
      SemiIsRef(l, data, c, 2 * x, 2 * row);
    }
    HalfSizeWritten(old(out[..]), out[..], l, data, c, rows);
  }

  method HalfSizePacked(l: F.FrameLayout, data: seq<byte>, c: Coeffs, vector: bool, out: array<byte>)
    requires Ready(l, data) && !l.bottomUp && EvenSize(l.width, l.height) && F.Packed422(l.format)
    requires |data| < U64_LIMIT && out.Length == RowBase(3 * (l.width / 2), l.height / 2) < U64_LIMIT
    modifies out
    ensures Written(old(out[..]), out[..], l, data, c, l.width / 2, l.height / 2)
  {
    hide RefPixel, ImageOf, Wanted, Done, Outside, PackedOk, PackedRows, HalfPackedRows, PlaneInside, PlaneData, RowOf,
         F.ValidLayout, RowBase, Written, Converted;
    PackedPlaneOk(l, data);
    PlaneSize(data, l.planes[0], 0);
    var src, stride, uyvy := PlaneData(data, l.planes[0], 0), l.planes[0].rowStride, l.format.Uyvy?;
    var ok := Yuv422ToRgbHalf(src, l.width, l.height, stride, uyvy, c, vector, out);
    ghost var rows := HalfPackedRows(src, stride, uyvy, l.width, l.height);
    forall row, x | 0 <= row < l.height / 2 && 0 <= x < l.width / 2
      ensures ImageOf(rows, c, l.width / 2)[row][x] == RefPixel(l, data, c, 2 * x, 2 * row)
    {
      HalfPackedPixel(src, stride, uyvy, l.width, l.height, c, row, x);
      PackedIsRef(l, data, c, 2 * x, 2 * row);
    }
    HalfSizeWritten(old(out[..]), out[..], l, data, c, rows);
  }
}
