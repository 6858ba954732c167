/** Frame layouts: the layouts that a buffer can hold, and chroma views that overlap. */
module Format {
  import opened Basics

  datatype PixelFormat =
    | Rgb8 | Bgr8 | Bgra8 | Rgba8 | Argb8 | Yuyv | Uyvy | Nv12 | Nv21 | Yuv420p | Gray8 | Mjpeg | H264

  datatype ColorMatrix = UnknownMatrix | Bt601 | Bt709 | Bt2020 | Smpte240M

  datatype ColorRange = UnknownRange | Full | Limited

  datatype ColorInfo = ColorInfo(matrix: ColorMatrix, range: ColorRange)

  datatype PlaneLayout = PlaneLayout(offset: u64, length: u64, rowStride: u64, pixelStride: u64)

  datatype FrameLayout = FrameLayout(
    width: u32, height: u32, format: PixelFormat, planes: seq<PlaneLayout>, color: ColorInfo,
    rotation: nat, bottomUp: bool)

  // ----- Checked machine arithmetic -----

  function CheckedAdd(a: u64, b: u64): (r: Option<u64>)
    ensures r == if a + b < U64_LIMIT then Some(a + b) else None
  {
    if a <= U64_LIMIT - 1 - b then Some(a + b) else None
  }

  /** Rust's `checked_mul` on 64 bits. */
  function CheckedMul(a: u64, b: u64): (r: Option<u64>)
  {
    if a * b < U64_LIMIT then
      assert 0 <= a * b;
      Some(a * b)
    else None
  }

  function HalfUp(n: nat): nat {
    (n + 1) / 2
  }

  // ----- Layout validation -----

  /** Columns, rows and channels of each plane that a format asks for. */
  datatype Spec = Spec(cols: nat, rows: nat, channels: nat)

  function Specs(width: nat, height: nat, format: PixelFormat): seq<Spec> {
    match format
    case Mjpeg | H264 => [Spec(1, 1, 1)]
    case Nv12 | Nv21 => [Spec(width, height, 1), Spec(HalfUp(width), HalfUp(height), 2)]
    case Yuv420p =>
      [Spec(width, height, 1), Spec(HalfUp(width), HalfUp(height), 1), Spec(HalfUp(width), HalfUp(height), 1)]
    case Rgb8 | Bgr8 => [Spec(width, height, 3)]
    case Bgra8 | Rgba8 | Argb8 => [Spec(width, height, 4)]
    case Yuyv | Uyvy => [Spec(width, height, 2)]
    case Gray8 => [Spec(width, height, 1)]
  }

  predicate Encoded(format: PixelFormat) {
    format.Mjpeg? || format.H264?
  }

  predicate Packed422(format: PixelFormat) {
    format.Yuyv? || format.Uyvy?
  }

  /** The bytes from a plane's first sample to its last, without machine limits. */
  function Required(p: PlaneLayout, spec: Spec): int
    requires 0 < spec.cols && 0 < spec.rows
  {
    (spec.rows - 1) * p.rowStride + ((spec.cols - 1) * p.pixelStride + spec.channels)
  }

  /** The plane lies in the frame, its samples and rows do not overlap, and its last sample is inside. */
  predicate PlaneFits(p: PlaneLayout, spec: Spec, format: PixelFormat, length: nat)
    requires 0 < spec.cols && 0 < spec.rows
  {
    && 0 < p.length && p.offset + p.length <= length
    && (!Encoded(format) ==>
          && (Packed422(format) ==> p.pixelStride == 2)
          && spec.channels <= p.pixelStride
          && (spec.cols - 1) * p.pixelStride + spec.channels <= p.rowStride
          && Required(p, spec) <= p.length)
  }

  predicate Rotation(degrees: nat) {
    degrees == 0 || degrees == 90 || degrees == 180 || degrees == 270
  }

  lemma SpecsPositive(width: nat, height: nat, format: PixelFormat)
    requires 0 < width && 0 < height
    ensures forall i :: 0 <= i < |Specs(width, height, format)| ==>
              0 < Specs(width, height, format)[i].cols && 0 < Specs(width, height, format)[i].rows
  {
  }

  /** What a valid layout for `length` bytes is, in plain arithmetic. */
  predicate ValidLayout(l: FrameLayout, length: nat) {
    && 0 < l.width && 0 < l.height && Rotation(l.rotation)
    && (Packed422(l.format) ==> l.width % 2 == 0)
    && (SpecsPositive(l.width, l.height, l.format);
        var specs := Specs(l.width, l.height, l.format);
        |l.planes| == |specs| && forall i :: 0 <= i < |specs| ==> PlaneFits(l.planes[i], specs[i], l.format, length))
  }

  /** One round of the plane loop of `validate`, in checked machine arithmetic. */
  method CheckPlane(p: PlaneLayout, spec: Spec, format: PixelFormat, length: u64) returns (ok: bool)
    requires 0 < spec.cols < U64_LIMIT && 0 < spec.rows < U64_LIMIT && spec.channels < U64_LIMIT
    ensures ok <==> PlaneFits(p, spec, format, length)
  {
    var end := CheckedAdd(p.offset, p.length);
    if p.length == 0 || end.None? || end.value > length {
      return false;
    }
    if Encoded(format) {
      return true;
    }
    var last := CheckedMul(spec.cols - 1, p.pixelStride);
    if last.None? {
      return false;
    }
    var row := CheckedAdd(last.value, spec.channels);
    if row.None? {
      return false;
    }
    var rows := CheckedMul(spec.rows - 1, p.rowStride);
    if rows.None? {
      return false;
    }
    var required := CheckedAdd(rows.value, row.value);
    if required.None? {
      return false;
    }
    ok := !((Packed422(format) && p.pixelStride != 2) || p.pixelStride < spec.channels
            || p.rowStride < row.value || p.length < required.value);
  }

  /** `FrameLayout::validate`: the checked arithmetic never refuses a layout that fits. */
  method Validate(l: FrameLayout, length: u64) returns (ok: bool)
    ensures ok <==> ValidLayout(l, length)
  {
    if l.width == 0 || l.height == 0 || !Rotation(l.rotation) {
      return false;
    }
    if Packed422(l.format) && l.width % 2 != 0 {
      return false;
    }
    var specs := Specs(l.width, l.height, l.format);
    SpecsPositive(l.width, l.height, l.format);
    if |l.planes| != |specs| {
      return false;
    }
    var i := 0;
    while i < |specs|
      invariant 0 <= i <= |specs|
      invariant forall j :: 0 <= j < i ==> PlaneFits(l.planes[j], specs[j], l.format, length)
    {
      var fits := CheckPlane(l.planes[i], specs[i], l.format, length);
      if !fits {
        return false;
      }
      i := i + 1;
    }
    ok := true;
  }

  /** Every byte of every sample of a raw plane lies inside the plane, and distinct samples are apart. */
  lemma SamplesInside(p: PlaneLayout, spec: Spec, format: PixelFormat, length: nat, x: nat, y: nat, c: nat)
    requires 0 < spec.cols && 0 < spec.rows && PlaneFits(p, spec, format, length) && !Encoded(format)
    requires x < spec.cols && y < spec.rows && c < spec.channels
    ensures y * p.rowStride + x * p.pixelStride + c < p.length
    ensures p.offset + y * p.rowStride + x * p.pixelStride + c < length
  {
    MulMono(x, spec.cols - 1, p.pixelStride);
    MulMono(y, spec.rows - 1, p.rowStride);
  }

  lemma MulMono(a: nat, b: nat, c: nat)
    requires a <= b
    ensures a * c <= b * c
  {
  }

  // ----- Layouts without padding -----

  /** `rows` rows of `cols` samples of `size` bytes, without a byte to spare. */
  predicate TightPlane(p: PlaneLayout, size: nat, cols: nat, rows: nat) {
    p.pixelStride == size && p.rowStride == size * cols && p.length == size * cols * rows
  }

  /** The planes of a raw image without padding. Each chroma sample of 4:2:0 serves two columns and two rows, the last
      ones of an odd size alone. */
  predicate Tight(l: FrameLayout) {
    var w, h, cols, rows := l.width, l.height, (l.width + 1) / 2, (l.height + 1) / 2;
    match l.format
    case Gray8 => |l.planes| == 1 && TightPlane(l.planes[0], 1, w, h)
    case Yuyv | Uyvy => |l.planes| == 1 && TightPlane(l.planes[0], 2, w, h)
    case Rgb8 | Bgr8 => |l.planes| == 1 && TightPlane(l.planes[0], 3, w, h)
    case Bgra8 | Rgba8 | Argb8 => |l.planes| == 1 && TightPlane(l.planes[0], 4, w, h)
    case Nv12 | Nv21 => |l.planes| == 2 && TightPlane(l.planes[0], 1, w, h) && TightPlane(l.planes[1], 2, cols, rows)
    case Yuv420p =>
      |l.planes| == 3 && TightPlane(l.planes[0], 1, w, h) && TightPlane(l.planes[1], 1, cols, rows)
      && TightPlane(l.planes[2], 1, cols, rows)
    case Mjpeg | H264 => false
  }

  lemma LastRow(stride: nat, rows: nat)
    requires 0 < rows
    ensures (rows - 1) * stride + stride == stride * rows
  {
  }

  lemma TightPlaneFits(p: PlaneLayout, spec: Spec, format: PixelFormat, length: nat)
    requires 0 < spec.cols && 0 < spec.rows && 1 <= spec.channels <= 4 && TightPlane(p, spec.channels, spec.cols, spec.rows)
    requires !Encoded(format) && (Packed422(format) ==> spec.channels == 2)
    ensures Required(p, spec) == p.length && 0 < p.length
    ensures PlaneFits(p, spec, format, length) <==> p.offset + p.length <= length
  {
    var stride := spec.channels * spec.cols;
    assert (spec.cols - 1) * p.pixelStride + spec.channels == stride;
    LastRow(stride, spec.rows);
    MulMono(1, spec.rows, stride);
  }

  predicate TightFor(p: PlaneLayout, spec: Spec) {
    1 <= spec.channels <= 4 && TightPlane(p, spec.channels, spec.cols, spec.rows)
  }

  lemma TightIsSpecs(l: FrameLayout)
    requires Tight(l)
    ensures !Encoded(l.format)
    ensures |l.planes| == |Specs(l.width, l.height, l.format)|
    ensures forall i :: 0 <= i < |l.planes| ==> TightFor(l.planes[i], Specs(l.width, l.height, l.format)[i])
    ensures Packed422(l.format) ==> Specs(l.width, l.height, l.format)[0].channels == 2
  {
    hide TightPlane;
  }

  /** An image without padding is valid exactly when it has pixels, pairs of them in 4:2:2, and its planes are in the data. */
  lemma TightIsValidIff(l: FrameLayout, length: nat)
    requires Tight(l)
    ensures ValidLayout(l, length)
            <==> && 0 < l.width && 0 < l.height && l.rotation in {0, 90, 180, 270}
                 && (l.format.Yuyv? || l.format.Uyvy? ==> l.width % 2 == 0)
                 && forall i :: 0 <= i < |l.planes| ==> l.planes[i].offset + l.planes[i].length <= length
  {
    TightIsSpecs(l);
    if 0 < l.width && 0 < l.height {
      SpecsPositive(l.width, l.height, l.format);
      var specs := Specs(l.width, l.height, l.format);
      hide Specs, Tight, TightPlane, PlaneFits, Required;
      forall i | 0 <= i < |l.planes|
        ensures PlaneFits(l.planes[i], specs[i], l.format, length) <==> l.planes[i].offset + l.planes[i].length <= length
      {
        TightPlaneFits(l.planes[i], specs[i], l.format, length);
      }
    }
  }

  /** And no plane of it can do with a byte less, in all or in a row. */
  lemma TightHasNothingToSpare(l: FrameLayout, length: nat, i: nat, p: PlaneLayout)
    requires Tight(l) && ValidLayout(l, length) && i < |l.planes|
    requires p.pixelStride == l.planes[i].pixelStride && p.rowStride <= l.planes[i].rowStride
    requires p.rowStride == l.planes[i].rowStride ==> p.length < l.planes[i].length
    ensures !ValidLayout(l.(planes := l.planes[i := p]), length)
  {
    TightIsSpecs(l);
    SpecsPositive(l.width, l.height, l.format);
    var spec := Specs(l.width, l.height, l.format)[i];
    TightPlaneFits(l.planes[i], spec, l.format, length);
    hide Specs, Tight;
    assert l.(planes := l.planes[i := p]).planes[i] == p;
    assert !PlaneFits(p, spec, l.format, length);
  }

  // ----- Interleaved chroma of YUV_420_888 -----

  datatype ChromaSpan = ChromaSpan(start: u64, length: u64, rowStride: u64, pixelStride: u64)

  datatype Interleaved = Interleaved(start: u64, length: u64, rowStride: u64, format: PixelFormat)

  /** `interleaved_chroma_layout`. */
  function InterleavedChroma(width: u64, height: u64, u: ChromaSpan, v: ChromaSpan): Option<Interleaved> {
    if width == 0 || height == 0 || u.pixelStride != 2 || v.pixelStride != 2 || u.rowStride != v.rowStride then None
    else if CheckedAdd(u.start, 1) == Some(v.start) then Adjacent(width, height, u, v, Nv12)
    else if CheckedAdd(v.start, 1) == Some(u.start) then Adjacent(width, height, v, u, Nv21)
    else None
  }

  function Adjacent(width: u64, height: u64, base: ChromaSpan, other: ChromaSpan, format: PixelFormat): Option<Interleaved>
    requires 0 < width && 0 < height
  {
    var baseEnd := CheckedAdd(base.start, base.length);
    var otherEnd := CheckedAdd(other.start, other.length);
    var rowBytes := CheckedMul(HalfUp(width), 2);
    var rows := CheckedMul(HalfUp(height) - 1, base.rowStride);
    if baseEnd.None? || otherEnd.None? || rowBytes.None? || rows.None? then None
    else
      var required := CheckedAdd(rows.value, rowBytes.value);
      if required.None? || otherEnd.value > baseEnd.value || base.rowStride < rowBytes.value || base.length < required.value
      then None
      else Some(Interleaved(base.start, base.length, base.rowStride, format))
  }

  /** The views are one pair of interleaved samples apart, and the lower one covers the visible chroma
      and everything that the upper one describes. Plain arithmetic, within the address space. */
  predicate Overlapping(width: u64, height: u64, base: ChromaSpan, other: ChromaSpan) {
    && 0 < width && 0 < height && base.pixelStride == 2 && other.pixelStride == 2
    && base.rowStride == other.rowStride && other.start == base.start + 1
    && base.start + base.length < U64_LIMIT
    && other.start + other.length <= base.start + base.length
    && 2 * HalfUp(width) <= base.rowStride
    && (HalfUp(height) - 1) * base.rowStride + 2 * HalfUp(width) <= base.length
  }

  lemma AdjacentIffOverlapping(width: u64, height: u64, base: ChromaSpan, other: ChromaSpan, format: PixelFormat)
    requires 0 < width && 0 < height && base.pixelStride == 2 && other.pixelStride == 2
    requires base.rowStride == other.rowStride && other.start == base.start + 1
    ensures Adjacent(width, height, base, other, format).Some? <==> Overlapping(width, height, base, other)
    ensures Adjacent(width, height, base, other, format).Some? ==>
              Adjacent(width, height, base, other, format).value == Interleaved(base.start, base.length, base.rowStride, format)
  {
  }

  /** The views are recognised exactly when one of them covers the other and the visible chroma. */
  lemma InterleavedIffOverlapping(width: u64, height: u64, u: ChromaSpan, v: ChromaSpan)
    ensures var r := InterleavedChroma(width, height, u, v);
            && (r.Some? && r.value.format.Nv12? <==> Overlapping(width, height, u, v))
            && (r.Some? && !r.value.format.Nv12? <==> Overlapping(width, height, v, u))
            && (r.Some? ==> r.value.format.Nv12? || r.value.format.Nv21?)
  {
    if 0 < width && 0 < height && u.pixelStride == 2 && v.pixelStride == 2 && u.rowStride == v.rowStride {
      if v.start == u.start + 1 { AdjacentIffOverlapping(width, height, u, v, Nv12); }
      else if u.start == v.start + 1 { AdjacentIffOverlapping(width, height, v, u, Nv21); }
    }
  }

  /** Sampling the recognised interleaved plane gives the bytes of the two original views, in bounds. */
  lemma InterleavedSamples(width: u64, height: u64, u: ChromaSpan, v: ChromaSpan, x: nat, y: nat)
    requires InterleavedChroma(width, height, u, v).Some? && x < HalfUp(width) && y < HalfUp(height)
    ensures var r := InterleavedChroma(width, height, u, v).value;
            var pair := r.start + y * r.rowStride + x * 2;
            && pair + 1 < r.start + r.length
            && (if r.format.Nv12? then pair else pair + 1) == u.start + y * u.rowStride + x * u.pixelStride
            && (if r.format.Nv12? then pair + 1 else pair) == v.start + y * v.rowStride + x * v.pixelStride
  {
    InterleavedIffOverlapping(width, height, u, v);
    var r := InterleavedChroma(width, height, u, v).value;
    if r.format.Nv12? { AdjacentIffOverlapping(width, height, u, v, Nv12); }
    else { AdjacentIffOverlapping(width, height, v, u, Nv21); }
    MulMono(y, HalfUp(height) - 1, r.rowStride);
  }
}
