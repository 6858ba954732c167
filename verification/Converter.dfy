/** `RgbConverter`: the scalar scaling loops, and the choice among the conversion paths. */
module Converter {
  import opened Basics
  import opened Pixels
  import opened Kernels
  import opened YuvKernels
  import opened Nearest
  import opened Reference
  import opened Conversion
  import opened Scaling
  import F = Format

  // ----- One source pixel, by its offsets in the data -----

  /** Where sample `(x, y)` of a plane begins. */
  function OffsetOf(p: F.PlaneLayout, x: nat, y: nat): int {
    p.offset + y * p.rowStride + x * p.pixelStride
  }

  lemma OffsetIsByte(l: F.FrameLayout, data: seq<byte>, i: nat, x: nat, y: nat, k: nat)
    requires Ready(l, data) && HasSample(l, i, x, y, k)
    ensures i < |l.planes| && 0 <= OffsetOf(l.planes[i], x, y) && OffsetOf(l.planes[i], x, y) + k < |data|
    ensures data[OffsetOf(l.planes[i], x, y) + k] == SampleByte(l, data, i, x, y, k)
  {
    hide F.ValidLayout, HasSample;
    SampleInData(l, data, i, x, y, k);
    NonNegative(y, l.planes[i].rowStride, x, l.planes[i].pixelStride);
  }

  /** The body of the inner loop of `scale_yuv_scalar`. */
  method YuvSource(l: F.FrameLayout, data: seq<byte>, c: Coeffs, x: nat, y: nat) returns (p: Pixel)
    requires Ready(l, data) && IsYuv(l.format) && x < l.width && y < l.height
    ensures p == RefPixel(l, data, c, x, y)
  {
    HasPlane(l, data);
    hide F.ValidLayout, YuvPixel, SampleByte, OffsetOf;
    if F.Packed422(l.format) {
      p := PackedSource(l, data, c, x, y);
      return;
    }
    OffsetIsByte(l, data, 0, x, y, 0);
    OffsetIsByte(l, data, 1, x / 2, y / 2, 0);
    var luma, chroma := data[OffsetOf(l.planes[0], x, y)], OffsetOf(l.planes[1], x / 2, y / 2);
    if l.format.Yuv420p? {
      OffsetIsByte(l, data, 2, x / 2, y / 2, 0);
      return YuvPixel(c, luma, data[chroma], data[OffsetOf(l.planes[2], x / 2, y / 2)]);
    }
    OffsetIsByte(l, data, 1, x / 2, y / 2, 1);
    p := if l.format.Nv12? then YuvPixel(c, luma, data[chroma], data[chroma + 1])
         else YuvPixel(c, luma, data[chroma + 1], data[chroma]);
  }

  lemma NonNegative(y: nat, rowStride: nat, x: nat, pixelStride: nat)
    ensures 0 <= y * rowStride && 0 <= x * pixelStride
  {
  }

  method PackedSource(l: F.FrameLayout, data: seq<byte>, c: Coeffs, x: nat, y: nat) returns (p: Pixel)
    requires Ready(l, data) && F.Packed422(l.format) && x < l.width && y < l.height
    ensures p == RefPixel(l, data, c, x, y)
  {
    PackedPlaneOk(l, data);
    PairInside(l, data, x);
    hide F.ValidLayout, YuvPixel;
    var plane := l.planes[0];
    var row := plane.offset + y * plane.rowStride;
    NonNegative(y, plane.rowStride, x, plane.pixelStride);
    var at, pair := row + x * plane.pixelStride, row + (x - x % 2) * 2;
    assert x - x % 2 == x / 2 * 2;
    var luma, chroma := if l.format.Uyvy? then 1 else 0, if l.format.Uyvy? then 0 else 1;
    SampleInData(l, data, 0, x, y, luma);
    SampleInData(l, data, 0, x / 2 * 2, y, chroma);
    SampleInData(l, data, 0, x / 2 * 2 + 1, y, chroma);
    p := if l.format.Uyvy? then YuvPixel(c, data[at + 1], data[pair], data[pair + 2])
         else YuvPixel(c, data[at], data[pair + 1], data[pair + 3]);
  }

  /** The body of the inner loops of `scale_nearest`. */
  method RgbSource(l: F.FrameLayout, data: seq<byte>, ghost c: Coeffs, x: nat, y: nat) returns (p: Pixel)
    requires Ready(l, data) && !IsYuv(l.format) && x < l.width && y < l.height
    ensures p == RefPixel(l, data, c, x, y)
  {
    HasPlane(l, data);
    hide F.ValidLayout;
    var plane := l.planes[0];
    NonNegative(y, plane.rowStride, x, plane.pixelStride);
    var at := plane.offset + y * plane.rowStride + x * plane.pixelStride;
    SampleInData(l, data, 0, x, y, 0);
    if l.format.Gray8? {
      return Pixel(data[at], data[at], data[at]);
    }
    SampleInData(l, data, 0, x, y, 1);
    SampleInData(l, data, 0, x, y, 2);
    if l.format.Argb8? {
      SampleInData(l, data, 0, x, y, 3);
      return Pixel(data[at + 1], data[at + 2], data[at + 3]);
    }
    if l.format.Bgr8? || l.format.Bgra8? {
      return Pixel(data[at + 2], data[at + 1], data[at]);
    }
    p := Pixel(data[at], data[at + 1], data[at + 2]);
  }

  /** One output row, pixel by pixel. */
  method MappedRow(l: F.FrameLayout, data: seq<byte>, c: Coeffs, xs: seq<nat>, y: nat, out: array<byte>, base: nat)
    requires Ready(l, data) && InColumns(l, xs) && y < l.height && base + 3 * |xs| <= out.Length
    modifies out
    ensures Holds(out[..], base, Picked(RefRow(l, data, c, y), xs))
    ensures Outside(old(out[..]), out[..], base, base + 3 * |xs|)
  {
    hide F.ValidLayout, Holds, Outside, RefPixel, RefRow, Picked;
    ghost var row := Picked(RefRow(l, data, c, y), xs);
    NothingYet(out[..], base, row);
    var d := 0;
    while d < |xs|
      invariant 0 <= d <= |xs|
      invariant Holds(out[..], base, row[..d]) && Outside(old(out[..]), out[..], base, base + 3 * d)
    {
      var p: Pixel;
      if IsYuv(l.format) {
        p := YuvSource(l, data, c, xs[d], y);
      } else {
        p := RgbSource(l, data, c, xs[d], y);
      }
      PutNext(p, out, base, d, row, old(out[..]));
      d := d + 1;
    }
    assert row[..|xs|] == row;
  }

  /** `scale_yuv_scalar`, and `scale_nearest`, whose tightly packed RGB rows are resized as rows. */
  method ScaleMapped(l: F.FrameLayout, data: seq<byte>, c: Coeffs, xs: seq<nat>, ys: seq<nat>, out: array<byte>)
    requires Ready(l, data) && MapsFor(l, xs, ys) && out.Length == RowBase(3 * |xs|, |ys|)
    modifies out
    ensures RowsScaled(old(out[..]), out[..], l, data, c, xs, ys, |ys|)
  {
    hide F.ValidLayout, RowBase, RowsScaled, Holds, Outside, RefRow, Picked, RefPixel, StripIn, Strip, PlaneData, PlaneInside,
         Columns, Rows;
    NothingScaled(out[..], l, data, c, xs, ys);
    HasPlane(l, data);
    var i := 0;
    while i < |ys|
      invariant 0 <= i <= |ys| && RowsScaled(old(out[..]), out[..], l, data, c, xs, ys, i)
    {
      if l.format.Rgb8? && l.planes[0].pixelStride == 3 {
        RgbIsRef(l, data, c, ys[i]);
        var strip := Strip(PlaneData(data, l.planes[0], 0), l.planes[0].rowStride, 3 * l.width, ys[i]);
        ResizeInto(strip, l, data, c, xs, ys, i, out, old(out[..]));
      } else {
        ghost var before := out[..];
        NextBase(3 * |xs|, i);
        BaseMono(3 * |xs|, i + 1, |ys|);
        MappedRow(l, data, c, xs, ys[i], out, RowBase(3 * |xs|, i));
        ScaledMore(old(out[..]), before, out[..], l, data, c, xs, ys, i);
      }
      i := i + 1;
    }
  }

  // ----- The converter -----

  datatype Request = Request(width: u32, height: u32, color: Option<F.ColorInfo>)

  /** `output_len`: the positive size of the RGB output, when it fits the machine. */
  function OutputLength(r: Request): (n: Option<u64>)
    ensures n.Some? ==> 0 < n.value == RowBase(3 * r.width, r.height)
    ensures n.None? ==> RowBase(3 * r.width, r.height) == 0 || RowBase(3 * r.width, r.height) >= U64_LIMIT
  {
    Associate(3, r.width, r.height);
    var pixels := F.CheckedMul(r.width, r.height);
    if pixels.None? then None else
      var bytes := F.CheckedMul(pixels.value, 3);
      if bytes.Some? && bytes.value > 0 then bytes else None
  }

  function ColorOf(l: F.FrameLayout, r: Request): F.ColorInfo {
    if r.color.Some? then r.color.value else l.color
  }

  /** The coefficients that a request is converted with; formats without chroma do not use them. */
  function CoeffsOf(l: F.FrameLayout, r: Request): Coeffs {
    var c := Coefficients(ColorOf(l, r));
    if IsYuv(l.format) && c.Ok? then c.value else BT601_FULL
  }

  /** Which error a request meets, if any, in the order of the tests. */
  predicate Malformed(l: F.FrameLayout, data: seq<byte>, r: Request, room: nat) {
    !F.ValidLayout(l, |data|) || room == 0 || RowBase(3 * r.width, r.height) != room
  }

  predicate Unsupported(l: F.FrameLayout, r: Request) {
    F.Encoded(l.format) || (IsYuv(l.format) && !Known(ColorOf(l, r)))
  }

  /** Rust's `saturating_mul(4)` on `usize`. */
  function SatTimes4(n: nat): nat {
    if 4 * n < U64_LIMIT then 4 * n else U64_LIMIT - 1
  }

  class RgbConverter {
    const nearest: NearestMap
    var scratch: array<byte>

    ghost predicate Valid()
      reads this, nearest
    {
      nearest.Valid()
    }

    constructor ()
      ensures Valid() && fresh(nearest) && fresh(scratch)
    {
      nearest := new NearestMap();
      scratch := new byte[0];
    }

    /** The scratch rows, resized when the source width changes. */
    method ResizeScratch(length: nat)
      modifies this`scratch
      ensures scratch.Length == length && (scratch == old(scratch) || fresh(scratch))
    {
      if scratch.Length != length {
        scratch := new byte[length](i => 0);
      }
    }

    /** `convert_layout_into`, in a build without JPEG decoding. `vector` and `lanes` say which vector kernels
        the machine has. */
    method ConvertLayoutInto(l: F.FrameLayout, data: seq<byte>, r: Request, vector: bool, lanes: nat, out: array<byte>)
      returns (e: Option<Error>)
      requires Valid() && |data| < U64_LIMIT && out.Length < U64_LIMIT && out != scratch
      requires lanes == 0 || lanes == 4 || lanes == 8
      modifies this`scratch, nearest, scratch, out
      ensures Valid() && (scratch == old(scratch) || fresh(scratch))
      ensures e == if Malformed(l, data, r, out.Length) then Some(InvalidFrame)
                   else if Unsupported(l, r) then Some(UnsupportedFormat) else None
      ensures e == Some(InvalidFrame) <==> !F.ValidLayout(l, |data|) || out.Length == 0 || out.Length != 3 * r.width * r.height
      ensures e == Some(UnsupportedFormat) ==>
                || l.format.Mjpeg? || l.format.H264?
                || ((l.format.Yuyv? || l.format.Uyvy? || l.format.Nv12? || l.format.Nv21? || l.format.Yuv420p?)
                    && (ColorOf(l, r).matrix.UnknownMatrix? || ColorOf(l, r).range.UnknownRange?))
      ensures e.Some? ==> out[..] == old(out[..])
      ensures e.None? && IsYuv(l.format) ==>
                Coefficients(if r.color.Some? then r.color.value else l.color) == Ok(CoeffsOf(l, r))
      ensures e.None? ==> Ready(l, data) && Written(old(out[..]), out[..], l, data, CoeffsOf(l, r), r.width, r.height)
    {
      var valid := F.Validate(l, |data|);
      if !valid || OutputLength(r) != Some(out.Length) {
        return Some(InvalidFrame);
      }
      if F.Encoded(l.format) || (IsYuv(l.format) && Coefficients(ColorOf(l, r)).Err?) {
        return Some(UnsupportedFormat);
      }
      Convert(l, data, r, CoeffsOf(l, r), vector, lanes, out);
      e := None;
    }

    /** The dispatch among the paths, for a request that passed every test. */
    method Convert(l: F.FrameLayout, data: seq<byte>, r: Request, c: Coeffs, vector: bool, lanes: nat, out: array<byte>)
      requires Valid() && Ready(l, data) && |data| < U64_LIMIT && out.Length < U64_LIMIT && out != scratch
      requires 0 < out.Length == RowBase(3 * r.width, r.height) && (lanes == 0 || lanes == 4 || lanes == 8)
      modifies this`scratch, nearest, scratch, out
      ensures Valid() && (scratch == old(scratch) || fresh(scratch))
      ensures Written(old(out[..]), out[..], l, data, c, r.width, r.height)
    {
      hide F.ValidLayout, RowBase, Written, NearestMap.Valid;
      if !l.bottomUp && l.width % 2 == 0 && l.height % 2 == 0 && r.width == l.width / 2 && r.height == l.height / 2
         && HalfLayout(l) {
        Positive(l, data);
        HalfSize(l, data, c, vector, out);
        return;
      }
      if r.width == l.width && r.height == l.height && !l.bottomUp {
        var done := FullSize(l, data, c, vector, lanes, out);
        if done {
          return;
        }
      }
      Scale(l, data, r, c, vector, out);
    }

    /** The paths through the cached map. */
    method Scale(l: F.FrameLayout, data: seq<byte>, r: Request, c: Coeffs, vector: bool, out: array<byte>)
      requires Valid() && Ready(l, data) && |data| < U64_LIMIT && out.Length < U64_LIMIT && out != scratch
      requires out.Length == RowBase(3 * r.width, r.height)
      modifies this`scratch, nearest, scratch, out
      ensures Valid() && (scratch == old(scratch) || fresh(scratch))
      ensures Written(old(out[..]), out[..], l, data, c, r.width, r.height)
    {
      Positive(l, data);
      hide F.ValidLayout, RowBase, RowsScaled, Outside, Done;
      nearest.Update(Dimensions(l.width, l.height, r.width, r.height, l.bottomUp));
      var xs, ys := nearest.x, nearest.y;
      assert MapsFor(l, xs, ys);
      if IsYuv(l.format) && SupportsRows(l) && SatTimes4(r.width) >= l.width {
        ResizeScratch(6 * l.width);
        NextBase(3 * l.width, 0);
        NextBase(3 * l.width, 1);
        ScaleYuvNearest(l, data, c, vector, xs, ys, out, scratch);
      } else {
        ScaleMapped(l, data, c, xs, ys, out);
      }
      ScaledIsWritten(old(out[..]), out[..], l, data, c, xs, ys);
    }
  }

  lemma ScaledIsWritten(start: seq<byte>, o: seq<byte>, l: F.FrameLayout, data: seq<byte>, c: Coeffs, xs: seq<nat>, ys: seq<nat>)
    requires Ready(l, data) && MapsFor(l, xs, ys) && RowsScaled(start, o, l, data, c, xs, ys, |ys|)
    ensures Written(start, o, l, data, c, |xs|, |ys|)
  {
    hide F.ValidLayout, RowBase, Outside, Done, RefImage;
  }

  /** What a caller sees: output pixel `(column, row)` is the nearest source pixel, at any size and whichever
      path was taken. */
  lemma EveryPixelIsNearest(start: seq<byte>, o: seq<byte>, l: F.FrameLayout, data: seq<byte>, c: Coeffs,
                            width: nat, height: nat, row: nat, column: nat)
    requires Ready(l, data) && Written(start, o, l, data, c, width, height) && row < height && column < width
    ensures NearestOf(l.width, width, column) < l.width
    ensures 0 <= Flip(l.height, l.bottomUp, NearestOf(l.height, height, row)) < l.height
    ensures RowBase(3 * width, row) + 3 * column + 3 <= |o|
    ensures var at := RowBase(3 * width, row) + 3 * column;
            Pixel(o[at], o[at + 1], o[at + 2])
            == RefPixel(l, data, c, NearestOf(l.width, width, column), Flip(l.height, l.bottomUp, NearestOf(l.height, height, row)))
  {
    hide RefPixel, F.ValidLayout, Wanted, RowBase, NearestOf;
    WantedAt(l, data, c, width, height, row, column);
    var image := Wanted(l, data, c, width, height);
    assert Holds(o, RowBase(3 * width, row), image[row]);
    assert o[RowBase(3 * width, row) + 3 * column] == image[row][column].r;
  }

  /** Any two paths that can serve a request leave the same bytes. */
  lemma PathsAgree(start: seq<byte>, m: seq<byte>, n: seq<byte>, l: F.FrameLayout, data: seq<byte>, c: Coeffs,
                   width: nat, height: nat)
    requires Ready(l, data) && |start| == RowBase(3 * width, height)
    requires Written(start, m, l, data, c, width, height) && Written(start, n, l, data, c, width, height)
    ensures m == n
  {
    hide F.ValidLayout, RowBase, Done, Wanted;
    DoneDetermines(m, n, Wanted(l, data, c, width, height), 3 * width);
  }
}
