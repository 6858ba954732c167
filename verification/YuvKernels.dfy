/** The checked conversions of whole planes: full-size and half-size 4:2:0 and 4:2:2, and packed 8888. */
module YuvKernels {
  import opened Basics
  import opened Pixels
  import opened Kernels
  import opened PackedKernels
  import F = Format

  // ----- Planes -----

  datatype YuvPlane = YuvPlane(data: seq<byte>, rowStride: u64, pixelStride: u64)

  /** Bytes from the first sample of a row to its last. */
  function RowBytes(p: YuvPlane, w: nat): int {
    (w - 1) * p.pixelStride + 1
  }

  predicate PlaneOk(p: YuvPlane, w: nat, h: nat) {
    && 0 < w && 0 < h && 0 < p.pixelStride && RowBytes(p, w) <= p.rowStride
    && (h - 1) * p.rowStride + RowBytes(p, w) <= |p.data|
  }

  /** `YuvPlane::validate`, in checked machine arithmetic. */
  method ValidatePlane(p: YuvPlane, w: u64, h: u64) returns (ok: bool)
    requires |p.data| < U64_LIMIT
    ensures ok <==> PlaneOk(p, w, h)
  {
    if w == 0 || h == 0 || p.pixelStride == 0 {
      return false;
    }
    var last := F.CheckedMul(w - 1, p.pixelStride);
    if last.None? {
      return false;
    }
    var row := F.CheckedAdd(last.value, 1);
    var rows := F.CheckedMul(h - 1, p.rowStride);
    if row.None? || rows.None? {
      return false;
    }
    var required := F.CheckedAdd(rows.value, row.value);
    ok := required.Some? && row.value <= p.rowStride && required.value <= |p.data|;
  }

  predicate RowIn(p: YuvPlane, w: nat, row: nat) {
    0 < w && 0 < p.pixelStride && row * p.rowStride + RowBytes(p, w) <= |p.data|
  }

  lemma RowFits(p: YuvPlane, w: nat, h: nat, row: nat)
    requires PlaneOk(p, w, h) && row < h
    ensures RowIn(p, w, row)
  {
    MulLe(row, h - 1, p.rowStride);
  }

  lemma RowBytesPositive(p: YuvPlane, w: nat)
    requires 0 < w
    ensures 0 < RowBytes(p, w)
  {
    MulLe(0, w - 1, p.pixelStride);
  }

  function PlaneRow(p: YuvPlane, w: nat, row: nat): (r: seq<byte>)
    requires RowIn(p, w, row)
    ensures |r| == RowBytes(p, w)
  {
    RowBytesPositive(p, w);
    MulLe(0, row, p.rowStride);
    p.data[row * p.rowStride..row * p.rowStride + RowBytes(p, w)]
  }

  function RowSamples(p: YuvPlane, w: nat, row: nat): Samples
    requires RowIn(p, w, row)
  {
    Samples(PlaneRow(p, w, row), p.pixelStride, 0)
  }

  lemma RowHas(p: YuvPlane, w: nat, row: nat)
    requires RowIn(p, w, row)
    ensures Has(RowSamples(p, w, row), w)
  {
  }

  /** The byte of sample `(x, row)`. */
  predicate SampleIn(p: YuvPlane, x: nat, row: nat) {
    row * p.rowStride + x * p.pixelStride < |p.data|
  }

  function Sample(p: YuvPlane, x: nat, row: nat): byte
    requires SampleIn(p, x, row)
  {
    p.data[row * p.rowStride + x * p.pixelStride]
  }

  lemma SampleIs(p: YuvPlane, w: nat, row: nat, x: nat)
    requires RowIn(p, w, row) && x < w
    ensures SampleIn(p, x, row) && InRange(RowSamples(p, w, row), x)
    ensures At(RowSamples(p, w, row), x) == Sample(p, x, row)
  {
    MulLe(x, w - 1, p.pixelStride);
  }

  // ----- Planar 4:2:0 -----

  function Half(n: nat): nat {
    (n + 1) / 2
  }

  predicate PlanarOk(y: YuvPlane, u: YuvPlane, v: YuvPlane, w: nat, h: nat) {
    PlaneOk(y, w, h) && PlaneOk(u, Half(w), Half(h)) && PlaneOk(v, Half(w), Half(h))
  }

  function PlanarRow(y: YuvPlane, u: YuvPlane, v: YuvPlane, w: nat, h: nat, row: nat): Row
    requires PlanarOk(y, u, v, w, h) && row < h
  {
    RowFits(y, w, h, row);
    RowFits(u, Half(w), Half(h), row / 2);
    RowFits(v, Half(w), Half(h), row / 2);
    Row(RowSamples(y, w, row), RowSamples(u, Half(w), row / 2), RowSamples(v, Half(w), row / 2), 2)
  }

  lemma PlanarCovers(y: YuvPlane, u: YuvPlane, v: YuvPlane, w: nat, h: nat, row: nat)
    requires PlanarOk(y, u, v, w, h) && row < h
    ensures Covers(PlanarRow(y, u, v, w, h, row), w)
  {
    hide Has, RowIn, PlaneOk;
    RowFits(y, w, h, row);
    RowFits(u, Half(w), Half(h), row / 2);
    RowFits(v, Half(w), Half(h), row / 2);
    RowHas(y, w, row);
    RowHas(u, Half(w), row / 2);
    RowHas(v, Half(w), row / 2);
  }

  function PlanarRows(y: YuvPlane, u: YuvPlane, v: YuvPlane, w: nat, h: nat): (rows: seq<Row>)
    requires PlanarOk(y, u, v, w, h)
    ensures |rows| == h && AllCover(rows, w)
    ensures forall row :: 0 <= row < h ==> rows[row] == PlanarRow(y, u, v, w, h, row)
  {
    var rows := seq(h, row requires 0 <= row < h && PlanarOk(y, u, v, w, h) => PlanarRow(y, u, v, w, h, row));
    assert AllCover(rows, w) by {
      forall row | 0 <= row < h ensures Covers(rows[row], w) { PlanarCovers(y, u, v, w, h, row); }
    }
    rows
  }

  /** The pixels of a planar image, from the samples of its planes. */
  lemma PlanarPixel(y: YuvPlane, u: YuvPlane, v: YuvPlane, w: nat, h: nat, c: Coeffs, row: nat, x: nat)
    requires PlanarOk(y, u, v, w, h) && row < h && x < w
    ensures SampleIn(y, x, row) && SampleIn(u, x / 2, row / 2) && SampleIn(v, x / 2, row / 2)
    ensures RowOf(PlanarRows(y, u, v, w, h)[row], c, w)[x]
         == YuvPixel(c, Sample(y, x, row), Sample(u, x / 2, row / 2), Sample(v, x / 2, row / 2))
  {
    hide RowIn, PlaneOk, At, Sample, SampleIn, InRange, YuvPixel, RowSamples, RowOf, PlanarRows, Covers;
    RowFits(y, w, h, row);
    RowFits(u, Half(w), Half(h), row / 2);
    RowFits(v, Half(w), Half(h), row / 2);
    SampleIs(y, w, row, x);
    SampleIs(u, Half(w), row / 2, x / 2);
    SampleIs(v, Half(w), row / 2, x / 2);
    PlanarCovers(y, u, v, w, h, row);
    assert RowOf(PlanarRows(y, u, v, w, h)[row], c, w)[x] == RowPixel(PlanarRow(y, u, v, w, h, row), c, w, x);
  }

  /** `width * height * 3`, when it fits the machine and the buffer. */
  method RoomForRgb(w: u64, h: u64, room: u64) returns (ok: bool)
    ensures ok <==> RowBase(3 * w, h) <= room
  {
    var pixels := F.CheckedMul(w, h);
    Associate(3, w, h);
    if pixels.None? {
      return false;
    }
    var bytes := F.CheckedMul(pixels.value, 3);
    ok := bytes.Some? && bytes.value <= room;
  }

  /** `yuv420_to_rgb_with_coefficients_into`. `vector` says that the target has the vector kernels, which take
      contiguous planes, two rows at a time; otherwise every row is converted by itself. */
  method Yuv420ToRgb(y: YuvPlane, u: YuvPlane, v: YuvPlane, w: u64, h: u64, c: Coeffs, vector: bool, out: array<byte>)
    returns (ok: bool)
    requires |y.data| < U64_LIMIT && |u.data| < U64_LIMIT && |v.data| < U64_LIMIT && out.Length < U64_LIMIT
    modifies out
    ensures ok <==> PlanarOk(y, u, v, w, h) && RowBase(3 * w, h) <= out.Length
    ensures ok ==> Converted(old(out[..]), out[..], PlanarRows(y, u, v, w, h), c, w, h)
    ensures !ok ==> out[..] == old(out[..])
  {
    hide PlaneOk, RowBase, Converted;
    var a := ValidatePlane(y, w, h);
    var b := ValidatePlane(u, Half(w), Half(h));
    var d := ValidatePlane(v, Half(w), Half(h));
    var room := RoomForRgb(w, h, out.Length);
    if !a || !b || !d || !room {
      return false;
    }
    var rows := PlanarRows(y, u, v, w, h);
    if vector && y.pixelStride == 1 && u.pixelStride == 1 && v.pixelStride == 1 {
      PlanarShares(y, u, v, w, h);
      ConvertPaired(rows, c, w, 16, out);
    } else {
      ConvertImage(rows, c, w, false, 16, out);
    }
    ok := true;
  }

  lemma PairShares(y: YuvPlane, u: YuvPlane, v: YuvPlane, w: nat, h: nat, row: nat)
    requires PlanarOk(y, u, v, w, h) && row % 2 == 0 && row + 1 < h
    ensures var a, b := PlanarRow(y, u, v, w, h, row), PlanarRow(y, u, v, w, h, row + 1); b == a.(y := b.y)
  {
    hide PlanarOk, RowSamples;
    assert (row + 1) / 2 == row / 2;
  }

  /** Rows 2i and 2i + 1 read the same chroma row. */
  lemma PlanarShares(y: YuvPlane, u: YuvPlane, v: YuvPlane, w: nat, h: nat)
    requires PlanarOk(y, u, v, w, h)
    ensures var rows := PlanarRows(y, u, v, w, h);
            forall i :: 0 <= i < |rows| / 2 ==> rows[2 * i + 1] == rows[2 * i].(y := rows[2 * i + 1].y)
  {
    hide PlanarOk, PlanarRow, PlanarRows;
    var rows := PlanarRows(y, u, v, w, h);
    forall i | 0 <= i < |rows| / 2 ensures rows[2 * i + 1] == rows[2 * i].(y := rows[2 * i + 1].y) {
      PairShares(y, u, v, w, h, 2 * i);
    }
  }

  // ----- Strips of bytes -----

  predicate StripIn(data: seq<byte>, stride: nat, bytes: nat, row: nat) {
    row * stride + bytes <= |data|
  }

  /** `&data[row * stride..][..bytes]`. */
  function Strip(data: seq<byte>, stride: nat, bytes: nat, row: nat): (r: seq<byte>)
    requires StripIn(data, stride, bytes, row)
    ensures |r| == bytes
  {
    MulLe(0, row, stride);
    data[row * stride..row * stride + bytes]
  }

  /** `rows` strips of `bytes` bytes, `stride` apart, are in the data. */
  predicate StripsOk(data: seq<byte>, stride: nat, bytes: nat, rows: nat) {
    0 < rows && bytes <= stride && (rows - 1) * stride + bytes <= |data|
  }

  lemma StripFits(data: seq<byte>, stride: nat, bytes: nat, rows: nat, row: nat)
    requires StripsOk(data, stride, bytes, rows) && row < rows
    ensures StripIn(data, stride, bytes, row)
  {
    MulLe(row, rows - 1, stride);
  }

  lemma StripsBounded(data: seq<byte>, stride: u64, bytes: nat, rows: nat)
    ensures StripsOk(data, stride, bytes, rows) ==> bytes < U64_LIMIT
  {
  }

  method ValidateStrips(data: seq<byte>, stride: u64, bytes: u64, rows: u64) returns (ok: bool)
    requires |data| < U64_LIMIT
    ensures ok <==> StripsOk(data, stride, bytes, rows)
  {
    if rows == 0 || stride < bytes {
      return false;
    }
    var last := F.CheckedMul(rows - 1, stride);
    if last.None? {
      return false;
    }
    var required := F.CheckedAdd(last.value, bytes);
    ok := required.Some? && required.value <= |data|;
  }

  // ----- Semiplanar 4:2:0 -----

  /** NV12 has U first in each pair, NV21 has V first. */
  datatype Semi = Semi(y: seq<byte>, uv: seq<byte>, yStride: u64, uvStride: u64, vu: bool)

  predicate SemiOk(s: Semi, w: nat, h: nat) {
    0 < w && 0 < h && StripsOk(s.y, s.yStride, w, h) && StripsOk(s.uv, s.uvStride, 2 * Half(w), Half(h))
  }

  function ShiftU(vu: bool): nat {
    if vu then 1 else 0
  }

  function ShiftV(vu: bool): nat {
    if vu then 0 else 1
  }

  function SemiRow(s: Semi, w: nat, h: nat, row: nat): Row
    requires SemiOk(s, w, h) && row < h
  {
    StripFits(s.y, s.yStride, w, h, row);
    StripFits(s.uv, s.uvStride, 2 * Half(w), Half(h), row / 2);
    var uv := Strip(s.uv, s.uvStride, 2 * Half(w), row / 2);
    Row(Samples(Strip(s.y, s.yStride, w, row), 1, 0), Samples(uv, 2, ShiftU(s.vu)), Samples(uv, 2, ShiftV(s.vu)), 2)
  }

  function SemiRows(s: Semi, w: nat, h: nat): (rows: seq<Row>)
    requires SemiOk(s, w, h)
    ensures |rows| == h && AllCover(rows, w)
    ensures forall row :: 0 <= row < h ==> rows[row] == SemiRow(s, w, h, row)
  {
    seq(h, row requires 0 <= row < h && SemiOk(s, w, h) => SemiRow(s, w, h, row))
  }

  lemma SemiPixel(s: Semi, w: nat, h: nat, c: Coeffs, row: nat, x: nat)
    requires SemiOk(s, w, h) && row < h && x < w
    ensures StripIn(s.y, s.yStride, w, row) && StripIn(s.uv, s.uvStride, 2 * Half(w), row / 2) && x / 2 < Half(w)
    ensures var uv := Strip(s.uv, s.uvStride, 2 * Half(w), row / 2);
            RowOf(SemiRows(s, w, h)[row], c, w)[x]
            == YuvPixel(c, Strip(s.y, s.yStride, w, row)[x], uv[2 * (x / 2) + ShiftU(s.vu)], uv[2 * (x / 2) + ShiftV(s.vu)])
  {
    hide YuvPixel, RowOf, SemiRows, StripsOk, Strip;
    StripFits(s.y, s.yStride, w, h, row);
    StripFits(s.uv, s.uvStride, 2 * Half(w), Half(h), row / 2);
    assert RowOf(SemiRows(s, w, h)[row], c, w)[x] == RowPixel(SemiRow(s, w, h, row), c, w, x);
  }

  /** `yuv420sp_to_rgb_with_coefficients_into`; full-range BT.601 has a kernel of its own where there is no
      vector kernel. */
  method Yuv420spToRgb(s: Semi, w: u64, h: u64, c: Coeffs, vector: bool, out: array<byte>) returns (ok: bool)
    requires |s.y| < U64_LIMIT && |s.uv| < U64_LIMIT && out.Length < U64_LIMIT
    modifies out
    ensures ok <==> SemiOk(s, w, h) && RowBase(3 * w, h) <= out.Length
    ensures ok ==> Converted(old(out[..]), out[..], SemiRows(s, w, h), c, w, h)
    ensures !ok ==> out[..] == old(out[..])
  {
    hide StripsOk, RowBase, Converted, SemiRows;
    if w == 0 || h == 0 {
      return false;
    }
    var pairs := F.CheckedMul(Half(w), 2);
    if pairs.None? {
      StripsBounded(s.uv, s.uvStride, 2 * Half(w), Half(h));
      return false;
    }
    var a := ValidateStrips(s.y, s.yStride, w, h);
    var b := ValidateStrips(s.uv, s.uvStride, pairs.value, Half(h));
    var room := RoomForRgb(w, h, out.Length);
    if !a || !b || !room {
      return false;
    }
    var rows := SemiRows(s, w, h);
    if !vector && c == BT601_FULL && !s.vu {
      Bt601Image(rows, w, out);
    } else if vector {
      SemiShares(s, w, h);
      ConvertPaired(rows, c, w, 16, out);
    } else {
      ConvertImage(rows, c, w, false, 16, out);
    }
    ok := true;
  }

  lemma SemiShares(s: Semi, w: nat, h: nat)
    requires SemiOk(s, w, h)
    ensures var rows := SemiRows(s, w, h);
            forall i :: 0 <= i < |rows| / 2 ==> rows[2 * i + 1] == rows[2 * i].(y := rows[2 * i + 1].y)
  {
    hide StripsOk, Strip;
    var rows := SemiRows(s, w, h);
    forall i | 0 <= i < |rows| / 2 ensures rows[2 * i + 1] == rows[2 * i].(y := rows[2 * i + 1].y) {
      assert (2 * i + 1) / 2 == (2 * i) / 2;
    }
  }

  // ----- Packed 4:2:2 -----

  predicate PackedOk(src: seq<byte>, stride: nat, w: nat, h: nat) {
    0 < w && w % 2 == 0 && StripsOk(src, stride, 2 * w, h)
  }

  function RowOfPacked(src: seq<byte>, uyvy: bool): Row {
    Row(LumaSamples(src, uyvy), USamples(src, uyvy), VSamples(src, uyvy), 2)
  }

  function PackedRowAt(src: seq<byte>, stride: nat, uyvy: bool, w: nat, h: nat, row: nat): Row
    requires PackedOk(src, stride, w, h) && row < h
  {
    StripFits(src, stride, 2 * w, h, row);
    RowOfPacked(Strip(src, stride, 2 * w, row), uyvy)
  }

  lemma PackedCovers(src: seq<byte>, stride: nat, uyvy: bool, w: nat, h: nat, row: nat)
    requires PackedOk(src, stride, w, h) && row < h
    ensures Covers(PackedRowAt(src, stride, uyvy, w, h, row), w)
  {
  }

  function PackedRows(src: seq<byte>, stride: nat, uyvy: bool, w: nat, h: nat): (rows: seq<Row>)
    requires PackedOk(src, stride, w, h)
    ensures |rows| == h && AllCover(rows, w)
    ensures forall row :: 0 <= row < h ==> rows[row] == PackedRowAt(src, stride, uyvy, w, h, row)
  {
    var rows := seq(h, row requires 0 <= row < h && PackedOk(src, stride, w, h) => PackedRowAt(src, stride, uyvy, w, h, row));
    assert AllCover(rows, w) by {
      forall row | 0 <= row < h ensures Covers(rows[row], w) { PackedCovers(src, stride, uyvy, w, h, row); }
    }
    rows
  }

  lemma PackedRowPixel(src: seq<byte>, stride: nat, uyvy: bool, w: nat, h: nat, c: Coeffs, row: nat, x: nat)
    requires PackedOk(src, stride, w, h) && row < h && x < w
    ensures StripIn(src, stride, 2 * w, row)
    ensures var strip := Strip(src, stride, 2 * w, row);
            RowOf(PackedRows(src, stride, uyvy, w, h)[row], c, w)[x]
            == YuvPixel(c, Luma(strip, uyvy, x), ChromaU(strip, uyvy, x / 2), ChromaV(strip, uyvy, x / 2))
  {
    hide YuvPixel, RowOf, PackedRows, StripsOk, Strip, StripIn;
    StripFits(src, stride, 2 * w, h, row);
    var strip := Strip(src, stride, 2 * w, row);
    assert RowOf(PackedRows(src, stride, uyvy, w, h)[row], c, w)[x] == RowPixel(RowOfPacked(strip, uyvy), c, w, x);
  }

  /** One packed row in its vector form is the row pixel by pixel. */
  lemma VectorRowIsRow(src: seq<byte>, uyvy: bool, c: Coeffs, w: nat)
    requires w % 2 == 0 && |src| == 2 * w && Covers(RowOfPacked(src, uyvy), w)
    ensures ModeRow(src, uyvy, c, TEN_BIT, w / 2) == RowOf(RowOfPacked(src, uyvy), c, w)
  {
    hide YuvPixel, LanePixel, Prepare, ModeRow, RowOf;
    var a, b := ModeRow(src, uyvy, c, TEN_BIT, w / 2), RowOf(RowOfPacked(src, uyvy), c, w);
    forall x | 0 <= x < w ensures a[x] == b[x] {
      PreparedIsPixel(c, Luma(src, uyvy, x), ChromaU(src, uyvy, x / 2), ChromaV(src, uyvy, x / 2));
      assert b[x] == RowPixel(RowOfPacked(src, uyvy), c, w, x);
    }
  }

  /** Every row of a packed image by the vector kernel. */
  method PackedVectorImage(src: seq<byte>, stride: u64, uyvy: bool, w: u64, h: u64, c: Coeffs, out: array<byte>)
    requires PackedOk(src, stride, w, h) && RowBase(3 * w, h) <= out.Length
    modifies out
    ensures Converted(old(out[..]), out[..], PackedRows(src, stride, uyvy, w, h), c, w, h)
  {
    hide RowOf, Holds, Outside, RowBase, Covers, ImageOf, Done, PackedRows, ModeRow, StripsOk;
    ghost var rows := PackedRows(src, stride, uyvy, w, h);
    NoneConverted(out[..], rows, c, w);
    var i := 0;
    while i < h
      invariant 0 <= i <= h && Converted(old(out[..]), out[..], rows, c, w, i)
    {
      ghost var before := out[..];
      NextBase(3 * w, i);
      BaseMono(3 * w, i + 1, h);
      StripFits(src, stride, 2 * w, h, i);
      var strip := Strip(src, stride, 2 * w, i);
      assert Covers(rows[i], w);
      VectorRowIsRow(strip, uyvy, c, w);
      PackedVector(strip, uyvy, c, TEN_BIT, out, RowBase(3 * w, i), 3 * w);
      DoneMore(old(out[..]), before, out[..], ImageOf(rows, c, w), 3 * w, i, i + 1);
      i := i + 1;
    }
  }

  /** `yuv422_to_rgb_with_coefficients_into`. */
  method Yuv422ToRgb(src: seq<byte>, w: u64, h: u64, stride: u64, uyvy: bool, c: Coeffs, vector: bool, out: array<byte>)
    returns (ok: bool)
    requires |src| < U64_LIMIT && out.Length < U64_LIMIT
    modifies out
    ensures ok <==> PackedOk(src, stride, w, h) && RowBase(3 * w, h) <= out.Length
    ensures ok ==> Converted(old(out[..]), out[..], PackedRows(src, stride, uyvy, w, h), c, w, h)
    ensures !ok ==> out[..] == old(out[..])
  {
    hide StripsOk, RowBase, Converted, PackedRows;
    if w == 0 || w % 2 != 0 {
      return false;
    }
    var bytes := F.CheckedMul(w, 2);
    if bytes.None? {
      StripsBounded(src, stride, 2 * w, h);
      return false;
    }
    var a := ValidateStrips(src, stride, bytes.value, h);
    var room := RoomForRgb(w, h, out.Length);
    if !a || !room {
      return false;
    }
    if vector {
      PackedVectorImage(src, stride, uyvy, w, h, c, out);
    } else {
      ConvertImage(PackedRows(src, stride, uyvy, w, h), c, w, false, 16, out);
    }
    ok := true;
  }

  // ----- Every second pixel of every second row -----

  predicate EvenSize(w: nat, h: nat) {
    0 < w && 0 < h && w % 2 == 0 && h % 2 == 0
  }

  predicate Contiguous(y: YuvPlane, u: YuvPlane, v: YuvPlane) {
    y.pixelStride == 1 && u.pixelStride == 1 && v.pixelStride == 1
  }

  function HalfPlanarRow(y: YuvPlane, u: YuvPlane, v: YuvPlane, w: nat, h: nat, row: nat): Row
    requires EvenSize(w, h) && PlanarOk(y, u, v, w, h) && row < h / 2
  {
    RowFits(y, w, h, 2 * row);
    RowFits(u, w / 2, h / 2, row);
    RowFits(v, w / 2, h / 2, row);
    Row(Samples(PlaneRow(y, w, 2 * row), 2, 0), RowSamples(u, w / 2, row), RowSamples(v, w / 2, row), 1)
  }

  lemma HalfPlanarCovers(y: YuvPlane, u: YuvPlane, v: YuvPlane, w: nat, h: nat, row: nat)
    requires EvenSize(w, h) && PlanarOk(y, u, v, w, h) && Contiguous(y, u, v) && row < h / 2
    ensures Covers(HalfPlanarRow(y, u, v, w, h, row), w / 2)
  {
    hide RowIn, PlaneOk;
    RowFits(y, w, h, 2 * row);
    RowFits(u, w / 2, h / 2, row);
    RowFits(v, w / 2, h / 2, row);
    RowHas(u, w / 2, row);
    RowHas(v, w / 2, row);
  }

  function HalfPlanarRows(y: YuvPlane, u: YuvPlane, v: YuvPlane, w: nat, h: nat): (rows: seq<Row>)
    requires EvenSize(w, h) && PlanarOk(y, u, v, w, h) && Contiguous(y, u, v)
    ensures |rows| == h / 2 && AllCover(rows, w / 2)
    ensures forall row :: 0 <= row < h / 2 ==> rows[row] == HalfPlanarRow(y, u, v, w, h, row)
  {
    var rows := seq(h / 2, row requires 0 <= row < h / 2 && EvenSize(w, h) && PlanarOk(y, u, v, w, h) =>
      HalfPlanarRow(y, u, v, w, h, row));
    assert AllCover(rows, w / 2) by {
      forall row | 0 <= row < h / 2 ensures Covers(rows[row], w / 2) { HalfPlanarCovers(y, u, v, w, h, row); }
    }
    rows
  }

  /** A half-size planar pixel is the full-size pixel at twice its place. */
  lemma HalfPlanarPixel(y: YuvPlane, u: YuvPlane, v: YuvPlane, w: nat, h: nat, c: Coeffs, row: nat, x: nat)
    requires EvenSize(w, h) && PlanarOk(y, u, v, w, h) && Contiguous(y, u, v) && row < h / 2 && x < w / 2
    ensures RowOf(HalfPlanarRows(y, u, v, w, h)[row], c, w / 2)[x] == RowOf(PlanarRows(y, u, v, w, h)[2 * row], c, w)[2 * x]
  {
    hide RowIn, PlaneOk, YuvPixel, RowOf, PlanarRows, HalfPlanarRows, Covers, PlaneRow;
    RowFits(y, w, h, 2 * row);
    RowFits(u, w / 2, h / 2, row);
    RowFits(v, w / 2, h / 2, row);
    PlanarCovers(y, u, v, w, h, 2 * row);
    HalfPlanarCovers(y, u, v, w, h, row);
    assert 2 * row / 2 == row && 2 * x / 2 == x;
    CoversPixel(PlanarRow(y, u, v, w, h, 2 * row), w, 2 * x);
    CoversPixel(HalfPlanarRow(y, u, v, w, h, row), w / 2, x);
    assert RowPixel(HalfPlanarRow(y, u, v, w, h, row), c, w / 2, x) == RowPixel(PlanarRow(y, u, v, w, h, 2 * row), c, w, 2 * x);
  }

  /** `yuv420_to_rgb_half_with_coefficients_into`. */
  method Yuv420ToRgbHalf(y: YuvPlane, u: YuvPlane, v: YuvPlane, w: u64, h: u64, c: Coeffs, vector: bool, out: array<byte>)
    returns (ok: bool)
    requires |y.data| < U64_LIMIT && |u.data| < U64_LIMIT && |v.data| < U64_LIMIT && out.Length < U64_LIMIT
    modifies out
    ensures ok <==> EvenSize(w, h) && PlanarOk(y, u, v, w, h) && Contiguous(y, u, v)
                    && RowBase(3 * (w / 2), h / 2) <= out.Length
    ensures ok ==> Converted(old(out[..]), out[..], HalfPlanarRows(y, u, v, w, h), c, w / 2, h / 2)
    ensures !ok ==> out[..] == old(out[..])
  {
    hide PlaneOk, RowBase, Converted, HalfPlanarRows;
    if w == 0 || h == 0 || w % 2 != 0 || h % 2 != 0 {
      return false;
    }
    var a := ValidatePlane(y, w, h);
    var b := ValidatePlane(u, w / 2, h / 2);
    var d := ValidatePlane(v, w / 2, h / 2);
    assert Half(w) == w / 2 && Half(h) == h / 2;
    if !a || !b || !d || y.pixelStride != 1 || u.pixelStride != 1 || v.pixelStride != 1 {
      return false;
    }
    var room := RoomForRgb(w / 2, h / 2, out.Length);
    if !room {
      return false;
    }
    ConvertImage(HalfPlanarRows(y, u, v, w, h), c, w / 2, vector, 8, out);
    ok := true;
  }

  function HalfSemiRow(s: Semi, w: nat, h: nat, row: nat): Row
    requires EvenSize(w, h) && SemiOk(s, w, h) && row < h / 2
  {
    StripFits(s.y, s.yStride, w, h, 2 * row);
    StripFits(s.uv, s.uvStride, 2 * Half(w), Half(h), row);
    var uv := Strip(s.uv, s.uvStride, 2 * Half(w), row);
    Row(Samples(Strip(s.y, s.yStride, w, 2 * row), 2, 0), Samples(uv, 2, ShiftU(s.vu)), Samples(uv, 2, ShiftV(s.vu)), 1)
  }

  function HalfSemiRows(s: Semi, w: nat, h: nat): (rows: seq<Row>)
    requires EvenSize(w, h) && SemiOk(s, w, h)
    ensures |rows| == h / 2 && AllCover(rows, w / 2)
    ensures forall row :: 0 <= row < h / 2 ==> rows[row] == HalfSemiRow(s, w, h, row)
  {
    seq(h / 2, row requires 0 <= row < h / 2 && EvenSize(w, h) && SemiOk(s, w, h) => HalfSemiRow(s, w, h, row))
  }

  lemma HalfSemiPixel(s: Semi, w: nat, h: nat, c: Coeffs, row: nat, x: nat)
    requires EvenSize(w, h) && SemiOk(s, w, h) && row < h / 2 && x < w / 2
    ensures RowOf(HalfSemiRows(s, w, h)[row], c, w / 2)[x] == RowOf(SemiRows(s, w, h)[2 * row], c, w)[2 * x]
  {
    hide YuvPixel, RowOf, SemiRows, HalfSemiRows, StripsOk, Strip, StripIn;
    assert 2 * row / 2 == row && 2 * x / 2 == x;
    assert RowPixel(HalfSemiRow(s, w, h, row), c, w / 2, x) == RowPixel(SemiRow(s, w, h, 2 * row), c, w, 2 * x);
  }

  /** `yuv420sp_to_rgb_half_with_coefficients_into`. */
  method Yuv420spToRgbHalf(s: Semi, w: u64, h: u64, c: Coeffs, vector: bool, out: array<byte>) returns (ok: bool)
    requires |s.y| < U64_LIMIT && |s.uv| < U64_LIMIT && out.Length < U64_LIMIT
    modifies out
    ensures ok <==> EvenSize(w, h) && SemiOk(s, w, h) && RowBase(3 * (w / 2), h / 2) <= out.Length
    ensures ok ==> Converted(old(out[..]), out[..], HalfSemiRows(s, w, h), c, w / 2, h / 2)
    ensures !ok ==> out[..] == old(out[..])
  {
    hide StripsOk, RowBase, Converted, HalfSemiRows;
    if w == 0 || h == 0 || w % 2 != 0 || h % 2 != 0 {
      return false;
    }
    assert Half(w) == w / 2 && Half(h) == h / 2;
    var a := ValidateStrips(s.y, s.yStride, w, h);
    var b := ValidateStrips(s.uv, s.uvStride, w, h / 2);
    var room := RoomForRgb(w / 2, h / 2, out.Length);
    if !a || !b || !room {
      return false;
    }
    ConvertImage(HalfSemiRows(s, w, h), c, w / 2, vector, 16, out);
    ok := true;
  }

  function HalfPackedRow(src: seq<byte>, stride: nat, uyvy: bool, w: nat, h: nat, row: nat): Row
    requires EvenSize(w, h) && PackedOk(src, stride, w, h) && row < h / 2
  {
    StripFits(src, stride, 2 * w, h, 2 * row);
    var strip := Strip(src, stride, 2 * w, 2 * row);
    Row(Samples(strip, 4, if uyvy then 1 else 0), USamples(strip, uyvy), VSamples(strip, uyvy), 1)
  }

  function HalfPackedRows(src: seq<byte>, stride: nat, uyvy: bool, w: nat, h: nat): (rows: seq<Row>)
    requires EvenSize(w, h) && PackedOk(src, stride, w, h)
    ensures |rows| == h / 2 && AllCover(rows, w / 2)
    ensures forall row :: 0 <= row < h / 2 ==> rows[row] == HalfPackedRow(src, stride, uyvy, w, h, row)
  {
    seq(h / 2, row requires 0 <= row < h / 2 && EvenSize(w, h) && PackedOk(src, stride, w, h) =>
      HalfPackedRow(src, stride, uyvy, w, h, row))
  }

  lemma HalfPackedPixel(src: seq<byte>, stride: nat, uyvy: bool, w: nat, h: nat, c: Coeffs, row: nat, x: nat)
    requires EvenSize(w, h) && PackedOk(src, stride, w, h) && row < h / 2 && x < w / 2
    ensures RowOf(HalfPackedRows(src, stride, uyvy, w, h)[row], c, w / 2)[x]
            == RowOf(PackedRows(src, stride, uyvy, w, h)[2 * row], c, w)[2 * x]
  {
    hide YuvPixel, RowOf, PackedRows, HalfPackedRows, StripsOk, Strip, StripIn;
    assert 2 * x / 2 == x;
    assert RowPixel(HalfPackedRow(src, stride, uyvy, w, h, row), c, w / 2, x)
        == RowPixel(PackedRowAt(src, stride, uyvy, w, h, 2 * row), c, w, 2 * x);
  }

  /** `yuv422_to_rgb_half_with_coefficients_into`. */
  method Yuv422ToRgbHalf(src: seq<byte>, w: u64, h: u64, stride: u64, uyvy: bool, c: Coeffs, vector: bool, out: array<byte>)
    returns (ok: bool)
    requires |src| < U64_LIMIT && out.Length < U64_LIMIT
    modifies out
    ensures ok <==> EvenSize(w, h) && PackedOk(src, stride, w, h) && RowBase(3 * (w / 2), h / 2) <= out.Length
    ensures ok ==> Converted(old(out[..]), out[..], HalfPackedRows(src, stride, uyvy, w, h), c, w / 2, h / 2)
    ensures !ok ==> out[..] == old(out[..])
  {
    hide StripsOk, RowBase, Converted, HalfPackedRows;
    if w == 0 || h == 0 || w % 2 != 0 || h % 2 != 0 {
      return false;
    }
    var bytes := F.CheckedMul(w, 2);
    if bytes.None? {
      StripsBounded(src, stride, 2 * w, h);
      return false;
    }
    var a := ValidateStrips(src, stride, bytes.value, h);
    var room := RoomForRgb(w / 2, h / 2, out.Length);
    if !a || !room {
      return false;
    }
    ConvertImage(HalfPackedRows(src, stride, uyvy, w, h), c, w / 2, vector, 8, out);
    ok := true;
  }

  // ----- Packed 8888 -----

  predicate FourByteOk(src: seq<byte>, stride: nat, w: nat, h: nat) {
    0 < w && StripsOk(src, stride, 4 * w, h)
  }

  function FourByteRowAt(src: seq<byte>, stride: nat, order: Order, w: nat, h: nat, row: nat): (r: seq<Pixel>)
    requires ValidOrder(order) && FourByteOk(src, stride, w, h) && row < h
    ensures |r| == w
  {
    StripFits(src, stride, 4 * w, h, row);
    ChannelRow(Strip(src, stride, 4 * w, row), order, w)
  }

  function FourByteImage(src: seq<byte>, stride: nat, order: Order, w: nat, h: nat): (image: seq<seq<Pixel>>)
    requires ValidOrder(order) && FourByteOk(src, stride, w, h)
    ensures |image| == h && Even(image, 3 * w)
    ensures forall row :: 0 <= row < h ==> image[row] == FourByteRowAt(src, stride, order, w, h, row)
  {
    seq(h, row requires 0 <= row < h && ValidOrder(order) && FourByteOk(src, stride, w, h) =>
      FourByteRowAt(src, stride, order, w, h, row))
  }

  /** `packed_8888_to_rgb_into`. */
  method FourByteToRgb(src: seq<byte>, w: u64, h: u64, stride: u64, order: Order, lanes: nat, out: array<byte>)
    returns (ok: bool)
    requires ValidOrder(order) && (lanes == 0 || lanes == 4 || lanes == 8)
    requires |src| < U64_LIMIT && out.Length < U64_LIMIT
    modifies out
    ensures ok <==> FourByteOk(src, stride, w, h) && RowBase(3 * w, h) <= out.Length
    ensures ok ==> Done(out[..], FourByteImage(src, stride, order, w, h), 3 * w, h)
                   && Outside(old(out[..]), out[..], 0, RowBase(3 * w, h))
    ensures !ok ==> out[..] == old(out[..])
  {
    hide StripsOk, RowBase, Holds, Outside, FourByteImage, Done;
    if w == 0 {
      return false;
    }
    var bytes := F.CheckedMul(w, 4);
    if bytes.None? {
      StripsBounded(src, stride, 4 * w, h);
      return false;
    }
    var a := ValidateStrips(src, stride, bytes.value, h);
    var room := RoomForRgb(w, h, out.Length);
    if !a || !room {
      return false;
    }
    ghost var image := FourByteImage(src, stride, order, w, h);
    NoneDone(out[..], image, 3 * w);
    var i := 0;
    while i < h
      invariant 0 <= i <= h && Done(out[..], image, 3 * w, i) && Outside(old(out[..]), out[..], 0, RowBase(3 * w, i))
    {
      ghost var before := out[..];
      NextBase(3 * w, i);
      BaseMono(3 * w, i + 1, h);
      StripFits(src, stride, 4 * w, h, i);
      FourByteRow(Strip(src, stride, 4 * w, i), order, w, lanes, out, RowBase(3 * w, i));
      DoneMore(old(out[..]), before, out[..], image, 3 * w, i, i + 1);
      i := i + 1;
    }
    ok := true;
  }

  lemma NoneDone(o: seq<byte>, image: seq<seq<Pixel>>, bytes: nat)
    ensures Done(o, image, bytes, 0) && Outside(o, o, 0, RowBase(bytes, 0))
  {
  }
}
