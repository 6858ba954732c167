/** What a conversion should give, pixel by pixel, and that the plane kernels give it at full size. */
module Reference {
  import opened Basics
  import opened Pixels
  import opened Kernels
  import opened PackedKernels
  import opened YuvKernels
  import F = Format

  predicate IsYuv(format: F.PixelFormat) {
    format.Yuyv? || format.Uyvy? || format.Nv12? || format.Nv21? || format.Yuv420p?
  }

  /** A valid layout of raw pixels over the data. */
  predicate Ready(l: F.FrameLayout, data: seq<byte>) {
    F.ValidLayout(l, |data|) && !F.Encoded(l.format)
  }

  predicate InData(data: seq<byte>, p: F.PlaneLayout, x: nat, y: nat, k: nat) {
    p.offset + y * p.rowStride + x * p.pixelStride + k < |data|
  }

  /** Byte `k` of sample `(x, y)` of a plane. */
  function ByteAt(data: seq<byte>, p: F.PlaneLayout, x: nat, y: nat, k: nat): byte
    requires InData(data, p, x, y, k)
  {
    MulLe(0, y, p.rowStride);
    MulLe(0, x, p.pixelStride);
    data[p.offset + y * p.rowStride + x * p.pixelStride + k]
  }

  /** The sample exists: plane, column, row and channel are ones that the format has. */
  predicate HasSample(l: F.FrameLayout, i: nat, x: nat, y: nat, k: nat) {
    && i < |F.Specs(l.width, l.height, l.format)|
    && x < F.Specs(l.width, l.height, l.format)[i].cols && y < F.Specs(l.width, l.height, l.format)[i].rows
    && k < F.Specs(l.width, l.height, l.format)[i].channels
  }

  lemma SampleInData(l: F.FrameLayout, data: seq<byte>, i: nat, x: nat, y: nat, k: nat)
    requires Ready(l, data) && HasSample(l, i, x, y, k)
    ensures i < |l.planes| && InData(data, l.planes[i], x, y, k)
  {
    F.SamplesInside(l.planes[i], F.Specs(l.width, l.height, l.format)[i], l.format, |data|, x, y, k);
  }

  function SampleByte(l: F.FrameLayout, data: seq<byte>, i: nat, x: nat, y: nat, k: nat): byte
    requires Ready(l, data) && HasSample(l, i, x, y, k)
  {
    SampleInData(l, data, i, x, y, k);
    ByteAt(data, l.planes[i], x, y, k)
  }

  /** The pixel of a packed RGB or gray format. */
  function RefRgb(l: F.FrameLayout, data: seq<byte>, x: nat, y: nat): Pixel
    requires Ready(l, data) && !IsYuv(l.format) && x < l.width && y < l.height
  {
    if l.format.Gray8? then
      var gray := SampleByte(l, data, 0, x, y, 0); Pixel(gray, gray, gray)
    else if l.format.Argb8? then
      Pixel(SampleByte(l, data, 0, x, y, 1), SampleByte(l, data, 0, x, y, 2), SampleByte(l, data, 0, x, y, 3))
    else
      var a, b, d := SampleByte(l, data, 0, x, y, 0), SampleByte(l, data, 0, x, y, 1), SampleByte(l, data, 0, x, y, 2);
      if l.format.Bgr8? || l.format.Bgra8? then Pixel(d, b, a) else Pixel(a, b, d)
  }

  /** Packed 4:2:2 has an even number of columns. */
  lemma PairInside(l: F.FrameLayout, data: seq<byte>, x: nat)
    requires Ready(l, data) && x < l.width
    ensures F.Packed422(l.format) ==> x / 2 * 2 + 1 < l.width
  {
  }

  /** The pixel of a YUV format; two columns share their chroma, and in 4:2:0 two rows do too. */
  function RefYuv(l: F.FrameLayout, data: seq<byte>, c: Coeffs, x: nat, y: nat): Pixel
    requires Ready(l, data) && IsYuv(l.format) && x < l.width && y < l.height
  {
    PairInside(l, data, x);
    hide F.ValidLayout;
    if l.format.Yuyv? then
      YuvPixel(c, SampleByte(l, data, 0, x, y, 0),
               SampleByte(l, data, 0, x / 2 * 2, y, 1), SampleByte(l, data, 0, x / 2 * 2 + 1, y, 1))
    else if l.format.Uyvy? then
      YuvPixel(c, SampleByte(l, data, 0, x, y, 1),
               SampleByte(l, data, 0, x / 2 * 2, y, 0), SampleByte(l, data, 0, x / 2 * 2 + 1, y, 0))
    else if l.format.Yuv420p? then
      YuvPixel(c, SampleByte(l, data, 0, x, y, 0), SampleByte(l, data, 1, x / 2, y / 2, 0), SampleByte(l, data, 2, x / 2, y / 2, 0))
    else
      var first, second := SampleByte(l, data, 1, x / 2, y / 2, 0), SampleByte(l, data, 1, x / 2, y / 2, 1);
      if l.format.Nv12? then YuvPixel(c, SampleByte(l, data, 0, x, y, 0), first, second)
      else YuvPixel(c, SampleByte(l, data, 0, x, y, 0), second, first)
  }

  /** The RGB value of source pixel `(x, y)`. */
  function RefPixel(l: F.FrameLayout, data: seq<byte>, c: Coeffs, x: nat, y: nat): Pixel
    requires Ready(l, data) && x < l.width && y < l.height
  {
    if IsYuv(l.format) then RefYuv(l, data, c, x, y) else RefRgb(l, data, x, y)
  }

  /** The pixel has its channels at these bytes of its sample in the only plane. */
  predicate Shows(l: F.FrameLayout, data: seq<byte>, c: Coeffs, x: nat, y: nat, red: nat, green: nat, blue: nat)
    requires Ready(l, data) && x < l.width && y < l.height
  {
    && |l.planes| == 1
    && var p := l.planes[0];
    && InData(data, p, x, y, red) && InData(data, p, x, y, green) && InData(data, p, x, y, blue)
    && RefPixel(l, data, c, x, y) == Pixel(ByteAt(data, p, x, y, red), ByteAt(data, p, x, y, green), ByteAt(data, p, x, y, blue))
  }

  /** Two pixels share four bytes, which have their luma at `luma` and two bytes on, and their chroma at `u` and `v`. */
  predicate ShowsPacked(l: F.FrameLayout, data: seq<byte>, c: Coeffs, x: nat, y: nat, luma: nat, u: nat, v: nat)
    requires Ready(l, data) && x < l.width && y < l.height
  {
    && |l.planes| == 1
    && var pair := l.planes[0].offset + y * l.planes[0].rowStride + 4 * (x / 2);
    && 0 <= pair && pair + luma + 2 * (x % 2) < |data| && pair + u < |data| && pair + v < |data|
    && RefPixel(l, data, c, x, y) == YuvPixel(c, data[pair + luma + 2 * (x % 2)], data[pair + u], data[pair + v])
  }

  /** Luma has a plane of its own; four pixels share their chroma at these bytes of these planes. */
  predicate ShowsPlanes(l: F.FrameLayout, data: seq<byte>, c: Coeffs, x: nat, y: nat, i: nat, u: nat, j: nat, v: nat)
    requires Ready(l, data) && x < l.width && y < l.height
  {
    && 0 < |l.planes| && i < |l.planes| && j < |l.planes|
    && InData(data, l.planes[0], x, y, 0) && InData(data, l.planes[i], x / 2, y / 2, u) && InData(data, l.planes[j], x / 2, y / 2, v)
    && RefPixel(l, data, c, x, y)
       == YuvPixel(c, ByteAt(data, l.planes[0], x, y, 0), ByteAt(data, l.planes[i], x / 2, y / 2, u),
                   ByteAt(data, l.planes[j], x / 2, y / 2, v))
  }

  lemma OnePlane(l: F.FrameLayout, data: seq<byte>)
    requires Ready(l, data)
    ensures |l.planes| == |F.Specs(l.width, l.height, l.format)|
    ensures F.Packed422(l.format) ==> l.planes[0].pixelStride == 2
  {
  }

  lemma RgbBytes(l: F.FrameLayout, data: seq<byte>, c: Coeffs, x: nat, y: nat)
    requires Ready(l, data) && x < l.width && y < l.height && !IsYuv(l.format)
    ensures l.format.Gray8? ==> Shows(l, data, c, x, y, 0, 0, 0)
    ensures l.format.Rgb8? || l.format.Rgba8? ==> Shows(l, data, c, x, y, 0, 1, 2)
    ensures l.format.Bgr8? || l.format.Bgra8? ==> Shows(l, data, c, x, y, 2, 1, 0)
    ensures l.format.Argb8? ==> Shows(l, data, c, x, y, 1, 2, 3)
  {
    OnePlane(l, data);
    SampleInData(l, data, 0, x, y, 0);
    if !l.format.Gray8? {
      SampleInData(l, data, 0, x, y, 1);
      SampleInData(l, data, 0, x, y, 2);
      if l.format.Argb8? { SampleInData(l, data, 0, x, y, 3); }
    }
    hide F.ValidLayout, InData, ByteAt;
  }

  lemma PackedByte(l: F.FrameLayout, data: seq<byte>, x: nat, y: nat, k: nat)
    requires Ready(l, data) && F.Packed422(l.format) && x < l.width && y < l.height && k < 2
    ensures |l.planes| == 1 && 0 <= l.planes[0].offset + y * l.planes[0].rowStride
    ensures var at := l.planes[0].offset + y * l.planes[0].rowStride + 2 * x + k;
            at < |data| && SampleByte(l, data, 0, x, y, k) == data[at]
  {
    OnePlane(l, data);
    SampleInData(l, data, 0, x, y, k);
    MulLe(0, y, l.planes[0].rowStride);
    hide F.ValidLayout;
  }

  lemma PairBytes(l: F.FrameLayout, data: seq<byte>, c: Coeffs, x: nat, y: nat)
    requires Ready(l, data) && F.Packed422(l.format) && x < l.width && y < l.height
    ensures l.format.Yuyv? ==> ShowsPacked(l, data, c, x, y, 0, 1, 3)
    ensures l.format.Uyvy? ==> ShowsPacked(l, data, c, x, y, 1, 0, 2)
  {
    PairInside(l, data, x);
    PackedByte(l, data, x, y, if l.format.Yuyv? then 0 else 1);
    PackedByte(l, data, x / 2 * 2, y, if l.format.Yuyv? then 1 else 0);
    PackedByte(l, data, x / 2 * 2 + 1, y, if l.format.Yuyv? then 1 else 0);
    hide F.ValidLayout, YuvPixel, SampleByte;
  }

  lemma ChromaBytes(l: F.FrameLayout, data: seq<byte>, c: Coeffs, x: nat, y: nat)
    requires Ready(l, data) && IsYuv(l.format) && !F.Packed422(l.format) && x < l.width && y < l.height
    ensures l.format.Nv12? ==> ShowsPlanes(l, data, c, x, y, 1, 0, 1, 1)
    ensures l.format.Nv21? ==> ShowsPlanes(l, data, c, x, y, 1, 1, 1, 0)
    ensures l.format.Yuv420p? ==> ShowsPlanes(l, data, c, x, y, 1, 0, 2, 0)
  {
    OnePlane(l, data);
    SampleInData(l, data, 0, x, y, 0);
    SampleInData(l, data, 1, x / 2, y / 2, 0);
    if l.format.Yuv420p? { SampleInData(l, data, 2, x / 2, y / 2, 0); } else { SampleInData(l, data, 1, x / 2, y / 2, 1); }
    hide F.ValidLayout, YuvPixel, InData, ByteAt;
  }

  /** Where each raw format has the channels of pixel `(x, y)`, byte by byte. */
  lemma FormatBytes(l: F.FrameLayout, data: seq<byte>, c: Coeffs, x: nat, y: nat)
    requires Ready(l, data) && x < l.width && y < l.height
    ensures match l.format
            case Gray8 => Shows(l, data, c, x, y, 0, 0, 0)
            case Rgb8 | Rgba8 => Shows(l, data, c, x, y, 0, 1, 2)
            case Bgr8 | Bgra8 => Shows(l, data, c, x, y, 2, 1, 0)
            case Argb8 => Shows(l, data, c, x, y, 1, 2, 3)
            case Yuyv => ShowsPacked(l, data, c, x, y, 0, 1, 3)
            case Uyvy => ShowsPacked(l, data, c, x, y, 1, 0, 2)
            case Nv12 => ShowsPlanes(l, data, c, x, y, 1, 0, 1, 1)
            case Nv21 => ShowsPlanes(l, data, c, x, y, 1, 1, 1, 0)
            case Yuv420p => ShowsPlanes(l, data, c, x, y, 1, 0, 2, 0)
            case Mjpeg | H264 => false
  {
    hide F.ValidLayout, Shows, ShowsPacked, ShowsPlanes;
    if F.Packed422(l.format) { PairBytes(l, data, c, x, y); }
    else if IsYuv(l.format) { ChromaBytes(l, data, c, x, y); }
    else { RgbBytes(l, data, c, x, y); }
  }

  /** Source row `y`, pixel by pixel. */
  ghost function RefRow(l: F.FrameLayout, data: seq<byte>, c: Coeffs, y: nat): (row: seq<Pixel>)
    requires Ready(l, data) && y < l.height
    ensures |row| == l.width && forall x :: 0 <= x < l.width ==> row[x] == RefPixel(l, data, c, x, y)
  {
    seq(l.width, x requires 0 <= x < l.width && Ready(l, data) && y < l.height => RefPixel(l, data, c, x, y))
  }

  // ----- The planes that the kernels are given -----

  predicate PlaneInside(data: seq<byte>, p: F.PlaneLayout, shift: nat) {
    shift <= p.length && p.offset + p.length <= |data|
  }

  /** `&data[plane.offset + shift..plane.offset + plane.length]`. */
  function PlaneData(data: seq<byte>, p: F.PlaneLayout, shift: nat): seq<byte>
    requires PlaneInside(data, p, shift)
  {
    data[p.offset + shift..p.offset + p.length]
  }

  function PlaneFrom(data: seq<byte>, p: F.PlaneLayout, shift: nat): YuvPlane
    requires PlaneInside(data, p, shift)
  {
    YuvPlane(PlaneData(data, p, shift), p.rowStride, p.pixelStride)
  }

  lemma PlaneIsInside(l: F.FrameLayout, data: seq<byte>, i: nat, shift: nat)
    requires Ready(l, data) && i < |F.Specs(l.width, l.height, l.format)|
    requires shift < F.Specs(l.width, l.height, l.format)[i].channels
    ensures i < |l.planes| && PlaneInside(data, l.planes[i], shift)
  {
    var spec := F.Specs(l.width, l.height, l.format)[i];
    F.SpecsPositive(l.width, l.height, l.format);
    F.SamplesInside(l.planes[i], spec, l.format, |data|, 0, 0, shift);
  }

  lemma PlaneFromOk(l: F.FrameLayout, data: seq<byte>, i: nat, shift: nat)
    requires Ready(l, data) && i < |F.Specs(l.width, l.height, l.format)|
    requires shift < F.Specs(l.width, l.height, l.format)[i].channels
    ensures i < |l.planes| && PlaneInside(data, l.planes[i], shift)
    ensures var spec := F.Specs(l.width, l.height, l.format)[i];
            PlaneOk(PlaneFrom(data, l.planes[i], shift), spec.cols, spec.rows)
  {
    PlaneIsInside(l, data, i, shift);
    F.SpecsPositive(l.width, l.height, l.format);
    assert F.PlaneFits(l.planes[i], F.Specs(l.width, l.height, l.format)[i], l.format, |data|);
  }

  lemma SampleIsByte(data: seq<byte>, p: F.PlaneLayout, shift: nat, x: nat, y: nat)
    requires PlaneInside(data, p, shift) && SampleIn(PlaneFrom(data, p, shift), x, y)
    ensures InData(data, p, x, y, shift)
    ensures Sample(PlaneFrom(data, p, shift), x, y) == ByteAt(data, p, x, y, shift)
  {
    MulLe(0, y, p.rowStride);
    MulLe(0, x, p.pixelStride);
  }

  // ----- Full-size kernels give the reference -----

  predicate SemiPlanar(format: F.PixelFormat) {
    format.Nv12? || format.Nv21?
  }

  /** The three planes of a 4:2:0 layout. */
  predicate Planar420(l: F.FrameLayout) {
    SemiPlanar(l.format) || l.format.Yuv420p?
  }

  /** The chroma plane, and the byte in its samples, of U or V. */
  function ChromaPlane(l: F.FrameLayout, v: bool): nat {
    if l.format.Yuv420p? && v then 2 else 1
  }

  function ChromaShift(l: F.FrameLayout, v: bool): nat {
    if l.format.Nv12? && v then 1 else if l.format.Nv21? && !v then 1 else 0
  }

  lemma Planes420(l: F.FrameLayout, data: seq<byte>)
    requires Ready(l, data) && Planar420(l)
    ensures |l.planes| == (if SemiPlanar(l.format) then 2 else 3)
    ensures PlaneInside(data, l.planes[0], 0)
    ensures PlaneInside(data, l.planes[1], ChromaShift(l, false))
    ensures PlaneInside(data, l.planes[ChromaPlane(l, true)], ChromaShift(l, true))
    ensures PlanarOk(PlaneFrom(data, l.planes[0], 0), PlaneFrom(data, l.planes[1], ChromaShift(l, false)),
                     PlaneFrom(data, l.planes[ChromaPlane(l, true)], ChromaShift(l, true)), l.width, l.height)
  {
    hide PlaneOk, PlaneFrom;
    PlaneFromOk(l, data, 0, 0);
    PlaneFromOk(l, data, 1, ChromaShift(l, false));
    PlaneFromOk(l, data, ChromaPlane(l, true), ChromaShift(l, true));
  }

  /** The planar view of a 4:2:0 layout converts to the reference. */
  lemma PlanarIsRef(l: F.FrameLayout, data: seq<byte>, c: Coeffs, x: nat, y: nat)
    requires Ready(l, data) && Planar420(l) && x < l.width && y < l.height
    ensures |l.planes| == (if SemiPlanar(l.format) then 2 else 3)
    ensures PlaneInside(data, l.planes[0], 0)
    ensures PlaneInside(data, l.planes[1], ChromaShift(l, false))
    ensures PlaneInside(data, l.planes[ChromaPlane(l, true)], ChromaShift(l, true))
    ensures var py, pu := PlaneFrom(data, l.planes[0], 0), PlaneFrom(data, l.planes[1], ChromaShift(l, false));
            var pv := PlaneFrom(data, l.planes[ChromaPlane(l, true)], ChromaShift(l, true));
            && PlanarOk(py, pu, pv, l.width, l.height)
            && RowOf(PlanarRows(py, pu, pv, l.width, l.height)[y], c, l.width)[x] == RefPixel(l, data, c, x, y)
  {
    hide PlaneOk, PlaneFrom, RowOf, PlanarRows, YuvPixel, Sample, SampleIn, ByteAt, InData, F.ValidLayout, PlaneInside;
    Planes420(l, data);
    var py, pu := PlaneFrom(data, l.planes[0], 0), PlaneFrom(data, l.planes[1], ChromaShift(l, false));
    var pv := PlaneFrom(data, l.planes[ChromaPlane(l, true)], ChromaShift(l, true));
    PlanarPixel(py, pu, pv, l.width, l.height, c, y, x);
    SampleIsByte(data, l.planes[0], 0, x, y);
    SampleIsByte(data, l.planes[1], ChromaShift(l, false), x / 2, y / 2);
    SampleIsByte(data, l.planes[ChromaPlane(l, true)], ChromaShift(l, true), x / 2, y / 2);
  }

  lemma SliceOfSlice(data: seq<byte>, a: nat, b: nat, from: nat, bytes: nat, k: nat)
    requires a <= b <= |data| && from + bytes <= b - a && k < bytes
    ensures data[a..b][from..from + bytes][k] == data[a + from + k]
  {
  }

  /** Byte `k` of sample `x` in a strip of a plane. */
  lemma StripByte(data: seq<byte>, p: F.PlaneLayout, bytes: nat, row: nat, x: nat, k: nat)
    requires PlaneInside(data, p, 0) && StripIn(PlaneData(data, p, 0), p.rowStride, bytes, row)
    requires x * p.pixelStride + k < bytes
    ensures InData(data, p, x, row, k) && 0 <= x * p.pixelStride
    ensures Strip(PlaneData(data, p, 0), p.rowStride, bytes, row)[x * p.pixelStride + k] == ByteAt(data, p, x, row, k)
  {
    MulLe(0, row, p.rowStride);
    MulLe(0, x, p.pixelStride);
    var from, index := row * p.rowStride, x * p.pixelStride + k;
    SliceOfSlice(data, p.offset, p.offset + p.length, from, bytes, index);
    assert ByteAt(data, p, x, row, k) == data[p.offset + from + index];
  }

  /** The strips of a plane whose samples leave no gaps. */
  lemma TightStrips(l: F.FrameLayout, data: seq<byte>, i: nat)
    requires Ready(l, data) && i < |F.Specs(l.width, l.height, l.format)|
    requires i < |l.planes| && l.planes[i].pixelStride == F.Specs(l.width, l.height, l.format)[i].channels
    ensures PlaneInside(data, l.planes[i], 0)
    ensures var spec := F.Specs(l.width, l.height, l.format)[i];
            StripsOk(PlaneData(data, l.planes[i], 0), l.planes[i].rowStride, spec.cols * spec.channels, spec.rows)
  {
    var spec := F.Specs(l.width, l.height, l.format)[i];
    PlaneIsInside(l, data, i, 0);
    F.SpecsPositive(l.width, l.height, l.format);
    assert F.PlaneFits(l.planes[i], spec, l.format, |data|);
    Distribute(spec.cols - 1, 1, spec.channels);
  }

  /** A semiplanar layout whose luma is contiguous and whose chroma pairs are. */
  predicate TightSemi(l: F.FrameLayout) {
    SemiPlanar(l.format) && |l.planes| == 2 && l.planes[0].pixelStride == 1 && l.planes[1].pixelStride == 2
  }

  function SemiOf(l: F.FrameLayout, data: seq<byte>): Semi
    requires TightSemi(l) && PlaneInside(data, l.planes[0], 0) && PlaneInside(data, l.planes[1], 0)
  {
    Semi(PlaneData(data, l.planes[0], 0), PlaneData(data, l.planes[1], 0), l.planes[0].rowStride, l.planes[1].rowStride,
         l.format.Nv21?)
  }

  lemma SemiOfOk(l: F.FrameLayout, data: seq<byte>)
    requires Ready(l, data) && TightSemi(l)
    ensures PlaneInside(data, l.planes[0], 0) && PlaneInside(data, l.planes[1], 0)
    ensures SemiOk(SemiOf(l, data), l.width, l.height)
  {
    hide StripsOk, PlaneData;
    TightStrips(l, data, 0);
    TightStrips(l, data, 1);
  }

  lemma SemiIsRef(l: F.FrameLayout, data: seq<byte>, c: Coeffs, x: nat, y: nat)
    requires Ready(l, data) && TightSemi(l) && x < l.width && y < l.height
    ensures PlaneInside(data, l.planes[0], 0) && PlaneInside(data, l.planes[1], 0)
    ensures SemiOk(SemiOf(l, data), l.width, l.height)
    ensures RowOf(SemiRows(SemiOf(l, data), l.width, l.height)[y], c, l.width)[x] == RefPixel(l, data, c, x, y)
  {
    hide StripsOk, PlaneData, Strip, StripIn, RowOf, SemiRows, YuvPixel, ByteAt, InData, PlaneInside, F.ValidLayout;
    SemiOfOk(l, data);
    SemiPixel(SemiOf(l, data), l.width, l.height, c, y, x);
    StripByte(data, l.planes[0], l.width, y, x, 0);
    StripByte(data, l.planes[1], 2 * Half(l.width), y / 2, x / 2, 0);
    StripByte(data, l.planes[1], 2 * Half(l.width), y / 2, x / 2, 1);
  }

  lemma PackedPlaneOk(l: F.FrameLayout, data: seq<byte>)
    requires Ready(l, data) && F.Packed422(l.format)
    ensures |l.planes| == 1 && l.planes[0].pixelStride == 2 && l.width % 2 == 0 && PlaneInside(data, l.planes[0], 0)
    ensures PackedOk(PlaneData(data, l.planes[0], 0), l.planes[0].rowStride, l.width, l.height)
  {
    assert F.PlaneFits(l.planes[0], F.Specs(l.width, l.height, l.format)[0], l.format, |data|);
    TightStrips(l, data, 0);
  }

  lemma PackedIsRef(l: F.FrameLayout, data: seq<byte>, c: Coeffs, x: nat, y: nat)
    requires Ready(l, data) && F.Packed422(l.format) && x < l.width && y < l.height
    ensures |l.planes| == 1 && PlaneInside(data, l.planes[0], 0)
    ensures var src, stride := PlaneData(data, l.planes[0], 0), l.planes[0].rowStride;
            && PackedOk(src, stride, l.width, l.height)
            && RowOf(PackedRows(src, stride, l.format.Uyvy?, l.width, l.height)[y], c, l.width)[x] == RefPixel(l, data, c, x, y)
  {
    hide StripsOk, PackedOk, PlaneData, Strip, StripIn, RowOf, PackedRows, YuvPixel, ByteAt, InData, PlaneInside, F.ValidLayout;
    PackedPlaneOk(l, data);
    PackedRowPixel(PlaneData(data, l.planes[0], 0), l.planes[0].rowStride, l.format.Uyvy?, l.width, l.height, c, y, x);
    PackedBytes(l, data, y, x);
  }

  /** The bytes of a packed strip that a pixel is made of. */
  lemma PackedBytes(l: F.FrameLayout, data: seq<byte>, y: nat, x: nat)
    requires |l.planes| == 1 && l.planes[0].pixelStride == 2 && PlaneInside(data, l.planes[0], 0)
    requires StripIn(PlaneData(data, l.planes[0], 0), l.planes[0].rowStride, 2 * l.width, y)
    requires x / 2 * 2 + 1 < l.width
    ensures var p, strip := l.planes[0], Strip(PlaneData(data, l.planes[0], 0), l.planes[0].rowStride, 2 * l.width, y);
            var luma, chroma, pair := if l.format.Uyvy? then 1 else 0, if l.format.Uyvy? then 0 else 1, x / 2 * 2;
            && InData(data, p, x, y, luma) && InData(data, p, pair, y, chroma) && InData(data, p, pair + 1, y, chroma)
            && Luma(strip, l.format.Uyvy?, x) == ByteAt(data, p, x, y, luma)
            && ChromaU(strip, l.format.Uyvy?, x / 2) == ByteAt(data, p, pair, y, chroma)
            && ChromaV(strip, l.format.Uyvy?, x / 2) == ByteAt(data, p, pair + 1, y, chroma)
  {
    hide StripIn, Strip, PlaneData, PlaneInside, ByteAt, InData;
    var luma, chroma, pair := if l.format.Uyvy? then 1 else 0, if l.format.Uyvy? then 0 else 1, x / 2 * 2;
    StripByte(data, l.planes[0], 2 * l.width, y, x, luma);
    StripByte(data, l.planes[0], 2 * l.width, y, pair, chroma);
    StripByte(data, l.planes[0], 2 * l.width, y, pair + 1, chroma);
  }

  /** The channel order of a packed four-byte format. */
  function OrderOf(format: F.PixelFormat): Order {
    if format.Bgra8? then BGRA else if format.Argb8? then ARGB else RGBA
  }

  predicate FourByte(l: F.FrameLayout) {
    (l.format.Rgba8? || l.format.Bgra8? || l.format.Argb8?) && |l.planes| == 1 && l.planes[0].pixelStride == 4
  }

  lemma FourByteIsRef(l: F.FrameLayout, data: seq<byte>, c: Coeffs, x: nat, y: nat)
    requires Ready(l, data) && FourByte(l) && x < l.width && y < l.height
    ensures PlaneInside(data, l.planes[0], 0)
    ensures var src, stride := PlaneData(data, l.planes[0], 0), l.planes[0].rowStride;
            && FourByteOk(src, stride, l.width, l.height)
            && FourByteImage(src, stride, OrderOf(l.format), l.width, l.height)[y][x] == RefPixel(l, data, c, x, y)
  {
    hide StripsOk, PlaneData, Strip, StripIn, FourByteImage, ByteAt, InData, PlaneInside, F.ValidLayout;
    TightStrips(l, data, 0);
    StripFits(PlaneData(data, l.planes[0], 0), l.planes[0].rowStride, 4 * l.width, l.height, y);
    StripByte(data, l.planes[0], 4 * l.width, y, x, 0);
    StripByte(data, l.planes[0], 4 * l.width, y, x, 1);
    StripByte(data, l.planes[0], 4 * l.width, y, x, 2);
    StripByte(data, l.planes[0], 4 * l.width, y, x, 3);
  }

  /** Tightly packed RGB, which rows are copied from as they are. */
  predicate TightRgb(l: F.FrameLayout) {
    l.format.Rgb8? && |l.planes| == 1 && l.planes[0].pixelStride == 3
  }

  lemma RgbIsRef(l: F.FrameLayout, data: seq<byte>, c: Coeffs, y: nat)
    requires Ready(l, data) && TightRgb(l) && y < l.height
    ensures PlaneInside(data, l.planes[0], 0)
    ensures StripIn(PlaneData(data, l.planes[0], 0), l.planes[0].rowStride, 3 * l.width, y)
    ensures Holds(Strip(PlaneData(data, l.planes[0], 0), l.planes[0].rowStride, 3 * l.width, y), 0, RefRow(l, data, c, y))
  {
    hide StripsOk, PlaneData, Strip, StripIn, ByteAt, InData, PlaneInside, F.ValidLayout, RefRow;
    TightStrips(l, data, 0);
    StripFits(PlaneData(data, l.planes[0], 0), l.planes[0].rowStride, 3 * l.width, l.height, y);
    var strip, row := Strip(PlaneData(data, l.planes[0], 0), l.planes[0].rowStride, 3 * l.width, y), RefRow(l, data, c, y);
    forall x | 0 <= x < |row|
      ensures strip[3 * x] == row[x].r && strip[3 * x + 1] == row[x].g && strip[3 * x + 2] == row[x].b
    {
      StripByte(data, l.planes[0], 3 * l.width, y, x, 0);
      StripByte(data, l.planes[0], 3 * l.width, y, x, 1);
      StripByte(data, l.planes[0], 3 * l.width, y, x, 2);
    }
  }
}
