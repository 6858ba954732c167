/** Packed 4:2:2 and packed four-byte kernels: scalar, batched and vector forms of the same conversion. */
module PackedKernels {
  import opened Basics
  import opened Pixels
  import opened Kernels

  // ----- Packed 4:2:2 with 8-bit coefficients -----

  /** Luma of pixel `x`, and chroma of the pair it is in; YUYV and UYVY differ in byte order. */
  function Luma(src: seq<byte>, uyvy: bool, x: nat): byte
    requires x / 2 < |src| / 4
  {
    src[2 * x + if uyvy then 1 else 0]
  }

  function ChromaU(src: seq<byte>, uyvy: bool, pair: nat): byte
    requires pair < |src| / 4
  {
    src[4 * pair + if uyvy then 0 else 1]
  }

  function ChromaV(src: seq<byte>, uyvy: bool, pair: nat): byte
    requires pair < |src| / 4
  {
    src[4 * pair + if uyvy then 2 else 3]
  }

  /** The first `pairs` pairs, pixel by pixel. */
  function PackedRow(src: seq<byte>, uyvy: bool, pairs: nat): (row: seq<Pixel>)
    requires pairs <= |src| / 4
    ensures |row| == 2 * pairs
    ensures forall x :: 0 <= x < 2 * pairs ==>
              row[x] == PackedPixel(Luma(src, uyvy, x), ChromaU(src, uyvy, x / 2), ChromaV(src, uyvy, x / 2))
  {
    seq(2 * pairs, x requires 0 <= x < 2 * pairs && pairs <= |src| / 4 =>
      PackedPixel(Luma(src, uyvy, x), ChromaU(src, uyvy, x / 2), ChromaV(src, uyvy, x / 2)))
  }

  /** How many pairs both buffers have room for. */
  function Pairs(source: nat, room: nat): nat {
    Min(source / 4, room / 6)
  }

  /** As many pairs as fit are converted, and the rest of the buffer is as before. */
  ghost predicate PackedResult(src: seq<byte>, uyvy: bool, o: seq<byte>, n: seq<byte>) {
    var pairs := Pairs(|src|, |o|);
    Holds(n, 0, PackedRow(src, uyvy, pairs)) && Outside(o, n, 0, 6 * pairs)
  }

  /** One pair, with the shared chroma terms computed once. */
  method PutPair(src: seq<byte>, uyvy: bool, pair: nat, out: array<byte>, ghost pairs: nat, ghost start: seq<byte>)
    requires pair < pairs <= |src| / 4 && 6 * pairs <= out.Length
    requires Holds(out[..], 0, PackedRow(src, uyvy, pairs)[..2 * pair]) && Outside(start, out[..], 0, 6 * pair)
    modifies out
    ensures Holds(out[..], 0, PackedRow(src, uyvy, pairs)[..2 * pair + 2]) && Outside(start, out[..], 0, 6 * pair + 6)
  {
    hide Holds, Outside, PackedRow, Clamp8, Luma, ChromaU, ChromaV;
    ghost var row := PackedRow(src, uyvy, pairs);
    var y0, y1 := Luma(src, uyvy, 2 * pair), Luma(src, uyvy, 2 * pair + 1);
    var u, v := ChromaU(src, uyvy, pair) - 128, ChromaV(src, uyvy, pair) - 128;
    var red, green, blue := (359 * v) / 256, (88 * u + 183 * v) / 256, (454 * u) / 256;
    PutNext(Pixel(Clamp8(y0 + red), Clamp8(y0 - green), Clamp8(y0 + blue)), out, 0, 2 * pair, row, start);
    PutNext(Pixel(Clamp8(y1 + red), Clamp8(y1 - green), Clamp8(y1 + blue)), out, 0, 2 * pair + 1, row, start);
  }

  /** The scalar loop from one pair on: `yuyv_to_rgb_scalar_into` and its UYVY twin start at the first. */
  method PackedLoop(src: seq<byte>, uyvy: bool, from: nat, out: array<byte>, ghost start: seq<byte>)
    requires |start| == out.Length && from <= Pairs(|src|, out.Length)
    requires Holds(out[..], 0, PackedRow(src, uyvy, Pairs(|src|, out.Length))[..2 * from]) && Outside(start, out[..], 0, 6 * from)
    modifies out
    ensures PackedResult(src, uyvy, start, out[..])
  {
    hide Holds, Outside, PackedRow;
    ghost var pairs := Pairs(|src|, out.Length);
    var at, to := 4 * from, 6 * from;
    while at + 3 < |src| && to + 5 < out.Length
      invariant from <= at / 4 <= pairs && at == 4 * (at / 4) && to == 6 * (at / 4)
      invariant Holds(out[..], 0, PackedRow(src, uyvy, pairs)[..2 * (at / 4)]) && Outside(start, out[..], 0, to)
      decreases |src| - at
    {
      PutPair(src, uyvy, at / 4, out, pairs, start);
      at, to := at + 4, to + 6;
    }
    assert PackedRow(src, uyvy, pairs)[..2 * pairs] == PackedRow(src, uyvy, pairs);
  }

  method PackedScalar(src: seq<byte>, uyvy: bool, out: array<byte>)
    modifies out
    ensures PackedResult(src, uyvy, old(out[..]), out[..])
  {
    NothingYet(out[..], 0, PackedRow(src, uyvy, Pairs(|src|, out.Length)));
    PackedLoop(src, uyvy, 0, out, old(out[..]));
  }

  /** The portable form: batches of four pairs while the buffer has room, then the scalar loop. */
  method PackedBatched(src: seq<byte>, uyvy: bool, out: array<byte>)
    modifies out
    ensures PackedResult(src, uyvy, old(out[..]), out[..])
  {
    hide Holds, Outside, PackedRow;
    ghost var pairs := Pairs(|src|, out.Length);
    NothingYet(out[..], 0, PackedRow(src, uyvy, pairs));
    var batch := 0;
    while batch < |src| / 16
      invariant 0 <= batch <= |src| / 16 && 4 * batch <= pairs
      invariant Holds(out[..], 0, PackedRow(src, uyvy, pairs)[..8 * batch]) && Outside(old(out[..]), out[..], 0, 24 * batch)
    {
      if 24 * batch + 24 > out.Length {
        break;
      }
      PutPair(src, uyvy, 4 * batch, out, pairs, old(out[..]));
      PutPair(src, uyvy, 4 * batch + 1, out, pairs, old(out[..]));
      PutPair(src, uyvy, 4 * batch + 2, out, pairs, old(out[..]));
      PutPair(src, uyvy, 4 * batch + 3, out, pairs, old(out[..]));
      batch := batch + 1;
    }
    PackedLoop(src, uyvy, 4 * batch, out, old(out[..]));
  }

  // ----- The vector form, for both coefficient widths -----

  /** The first `pairs` pairs, each converted with its prepared chroma. */
  function ModeRow(src: seq<byte>, uyvy: bool, c: Coeffs, m: Mode, pairs: nat): (row: seq<Pixel>)
    requires pairs <= |src| / 4 && 0 < m.divisor
    ensures |row| == 2 * pairs
    ensures forall x :: 0 <= x < 2 * pairs ==>
              row[x] == LanePixel(c, m, Luma(src, uyvy, x), Prepare(c, m, ChromaU(src, uyvy, x / 2), ChromaV(src, uyvy, x / 2)))
  {
    seq(2 * pairs, x requires 0 <= x < 2 * pairs && pairs <= |src| / 4 && 0 < m.divisor =>
      LanePixel(c, m, Luma(src, uyvy, x), Prepare(c, m, ChromaU(src, uyvy, x / 2), ChromaV(src, uyvy, x / 2))))
  }

  function LumaSamples(src: seq<byte>, uyvy: bool): Samples {
    Samples(src, 2, if uyvy then 1 else 0)
  }

  function USamples(src: seq<byte>, uyvy: bool): Samples {
    Samples(src, 4, if uyvy then 0 else 1)
  }

  function VSamples(src: seq<byte>, uyvy: bool): Samples {
    Samples(src, 4, if uyvy then 2 else 3)
  }

  /** The sixteen lanes from pixel `x` on. */
  function SixteenLanes(src: seq<byte>, uyvy: bool, c: Coeffs, m: Mode, x: nat): (lanes: seq<Pixel>)
    requires x % 2 == 0 && 2 * x + 32 <= |src| && 0 < m.divisor
    ensures |lanes| == 16
  {
    LanePixels(c, m, Lanes(LumaSamples(src, uyvy), x, 16, 1),
               PrepareLanes(c, m, Lanes(USamples(src, uyvy), x / 2, 16, 2), Lanes(VSamples(src, uyvy), x / 2, 16, 2)))
  }

  lemma SixteenAreRow(src: seq<byte>, uyvy: bool, c: Coeffs, m: Mode, pairs: nat, x: nat)
    requires pairs <= |src| / 4 && Instantiated(m) && x % 2 == 0 && x + 16 <= 2 * pairs
    ensures SixteenLanes(src, uyvy, c, m, x) == ModeRow(src, uyvy, c, m, pairs)[x..x + 16]
  {
    hide LanePixel, Prepare, MachinePixel, MachineChroma, LanePixels, PrepareLanes, Lanes, ModeRow;
    var lanes, row := SixteenLanes(src, uyvy, c, m, x), ModeRow(src, uyvy, c, m, pairs);
    forall j | 0 <= j < 16 ensures lanes[j] == row[x..x + 16][j] {
      LaneIs(LumaSamples(src, uyvy), x, 16, 1, j);
      LaneIs(USamples(src, uyvy), x / 2, 16, 2, j);
      LaneIs(VSamples(src, uyvy), x / 2, 16, 2, j);
      assert x / 2 + j / 2 == (x + j) / 2;
      var pair := (x + j) / 2;
      MachineLaneIsExact(c, m, Luma(src, uyvy, x + j), ChromaU(src, uyvy, pair), ChromaV(src, uyvy, pair));
    }
  }

  /** One group of eight pairs. */
  method PackedGroup(src: seq<byte>, uyvy: bool, c: Coeffs, m: Mode, pairs: nat, x: nat, out: array<byte>, base: nat,
                     ghost start: seq<byte>)
    requires Instantiated(m) && pairs <= |src| / 4 && base + 6 * pairs <= out.Length && x % 2 == 0 && x + 16 <= 2 * pairs
    requires Holds(out[..], base, ModeRow(src, uyvy, c, m, pairs)[..x]) && Outside(start, out[..], base, base + 3 * x)
    modifies out
    ensures Holds(out[..], base, ModeRow(src, uyvy, c, m, pairs)[..x + 16])
    ensures Outside(start, out[..], base, base + 3 * (x + 16))
  {
    hide Holds, Outside, ModeRow, LanePixels, PrepareLanes, Lanes;
    SixteenAreRow(src, uyvy, c, m, pairs, x);
    ghost var before := out[..];
    var chroma := PrepareLanes(c, m, Lanes(USamples(src, uyvy), x / 2, 16, 2), Lanes(VSamples(src, uyvy), x / 2, 16, 2));
    ConvertLanes(c, m, Lanes(LumaSamples(src, uyvy), x, 16, 1), chroma, out, base + 3 * x);
    Extend(start, before, out[..], base, ModeRow(src, uyvy, c, m, pairs), x, x + 16);
  }

  /** Groups of eight pairs, while there are as many. */
  method PackedGroups(src: seq<byte>, uyvy: bool, c: Coeffs, m: Mode, pairs: nat, out: array<byte>, base: nat) returns (pair: nat)
    requires Instantiated(m) && pairs <= |src| / 4 && base + 6 * pairs <= out.Length
    modifies out
    ensures pair <= pairs && Holds(out[..], base, ModeRow(src, uyvy, c, m, pairs)[..2 * pair])
    ensures Outside(old(out[..]), out[..], base, base + 3 * (2 * pair))
  {
    hide Holds, Outside, ModeRow;
    NothingYet(out[..], base, ModeRow(src, uyvy, c, m, pairs));
    var groups, group := pairs / 8, 0;
    while group < groups
      invariant 0 <= group <= groups
      invariant Holds(out[..], base, ModeRow(src, uyvy, c, m, pairs)[..16 * group])
      invariant Outside(old(out[..]), out[..], base, base + 3 * (16 * group))
    {
      PackedGroup(src, uyvy, c, m, pairs, 16 * group, out, base, old(out[..]));
      group := group + 1;
    }
    pair := 8 * groups;
  }

  /** The pairs that are left, one by one. */
  method PackedTail(src: seq<byte>, uyvy: bool, c: Coeffs, m: Mode, pairs: nat, from: nat, out: array<byte>, base: nat,
                    ghost start: seq<byte>)
    requires Instantiated(m) && from <= pairs <= |src| / 4 && base + 6 * pairs <= out.Length
    requires Holds(out[..], base, ModeRow(src, uyvy, c, m, pairs)[..2 * from])
    requires Outside(start, out[..], base, base + 3 * (2 * from))
    modifies out
    ensures Holds(out[..], base, ModeRow(src, uyvy, c, m, pairs)) && Outside(start, out[..], base, base + 6 * pairs)
  {
    hide Holds, Outside, ModeRow, LanePixel, Prepare, Luma, ChromaU, ChromaV;
    ghost var row := ModeRow(src, uyvy, c, m, pairs);
    var pair := from;
    while pair < pairs
      invariant from <= pair <= pairs
      invariant Holds(out[..], base, row[..2 * pair]) && Outside(start, out[..], base, base + 3 * (2 * pair))
    {
      var x := 2 * pair;
      var chroma := Prepare(c, m, ChromaU(src, uyvy, pair), ChromaV(src, uyvy, pair));
      PutNext(LanePixel(c, m, Luma(src, uyvy, x), chroma), out, base, x, row, start);
      PutNext(LanePixel(c, m, Luma(src, uyvy, x + 1), chroma), out, base, x + 1, row, start);
      pair := pair + 1;
    }
    assert row[..2 * pairs] == row;
  }

  /** `packed422_avx2` on one row whose part of the buffer has `room` bytes from `base` on. */
  method PackedVector(src: seq<byte>, uyvy: bool, c: Coeffs, m: Mode, out: array<byte>, base: nat, room: nat)
    requires Instantiated(m) && base + room <= out.Length
    modifies out
    ensures Holds(out[..], base, ModeRow(src, uyvy, c, m, Pairs(|src|, room)))
    ensures Outside(old(out[..]), out[..], base, base + 6 * Pairs(|src|, room))
  {
    var pairs := Pairs(|src|, room);
    ghost var start := out[..];
    var pair := PackedGroups(src, uyvy, c, m, pairs, out, base);
    PackedTail(src, uyvy, c, m, pairs, pair, out, base, start);
  }

  lemma EightBitRow(src: seq<byte>, uyvy: bool, pairs: nat)
    requires pairs <= |src| / 4
    ensures ModeRow(src, uyvy, EIGHT_BIT_COEFFS, EIGHT_BIT, pairs) == PackedRow(src, uyvy, pairs)
  {
    hide LanePixel, Prepare, PackedPixel;
    forall x | 0 <= x < 2 * pairs
      ensures ModeRow(src, uyvy, EIGHT_BIT_COEFFS, EIGHT_BIT, pairs)[x] == PackedRow(src, uyvy, pairs)[x]
    {
      EightBitIsPacked(Luma(src, uyvy, x), ChromaU(src, uyvy, x / 2), ChromaV(src, uyvy, x / 2));
    }
  }

  /** The vector form of the 8-bit kernels. */
  method PackedEightBit(src: seq<byte>, uyvy: bool, out: array<byte>)
    modifies out
    ensures PackedResult(src, uyvy, old(out[..]), out[..])
  {
    hide Holds, Outside, ModeRow, PackedRow;
    EightBitRow(src, uyvy, Pairs(|src|, out.Length));
    PackedVector(src, uyvy, EIGHT_BIT_COEFFS, EIGHT_BIT, out, 0, out.Length);
  }

  /** The three forms leave the same bytes, for all buffer lengths. */
  lemma PackedFormsAgree(src: seq<byte>, uyvy: bool, o: seq<byte>, m: seq<byte>, n: seq<byte>)
    requires PackedResult(src, uyvy, o, m) && PackedResult(src, uyvy, o, n)
    ensures m == n
  {
    var pairs := Pairs(|src|, |o|);
    var row := PackedRow(src, uyvy, pairs);
    forall k | 0 <= k < |m| ensures m[k] == n[k] {
      if k < 6 * pairs {
        var x := k / 3;
        assert m[0 + 3 * x] == row[x].r && n[0 + 3 * x] == row[x].r;
        assert k == 3 * x || k == 3 * x + 1 || k == 3 * x + 2;
      }
    }
  }

  // ----- Packed four-byte pixels -----

  /** Which byte of a packed pixel is which channel. */
  datatype Order = Order(r: nat, g: nat, b: nat)

  const RGBA := Order(0, 1, 2)
  const BGRA := Order(2, 1, 0)
  const ARGB := Order(1, 2, 3)

  predicate ValidOrder(order: Order) {
    order.r < 4 && order.g < 4 && order.b < 4
  }

  function PixelAt(src: seq<byte>, order: Order, at: nat): Pixel
    requires ValidOrder(order) && at + 4 <= |src|
  {
    Pixel(src[at + order.r], src[at + order.g], src[at + order.b])
  }

  function ChannelRow(src: seq<byte>, order: Order, width: nat): (row: seq<Pixel>)
    requires ValidOrder(order) && 4 * width <= |src|
    ensures |row| == width && forall x :: 0 <= x < width ==> row[x] == PixelAt(src, order, 4 * x)
  {
    seq(width, x requires 0 <= x < width && ValidOrder(order) && 4 * width <= |src| => PixelAt(src, order, 4 * x))
  }

  /** One row: shuffled groups of `lanes` pixels, none when that is 0, then pixel by pixel. */
  method FourByteRow(src: seq<byte>, order: Order, width: nat, lanes: nat, out: array<byte>, base: nat)
    requires ValidOrder(order) && 4 * width <= |src| && (lanes == 0 || lanes == 4 || lanes == 8)
    requires base + 3 * width <= out.Length
    modifies out
    ensures Holds(out[..], base, ChannelRow(src, order, width))
    ensures Outside(old(out[..]), out[..], base, base + 3 * width)
  {
    hide Holds, Outside, ChannelRow;
    ghost var row := ChannelRow(src, order, width);
    NothingYet(out[..], base, row);
    var x := 0;
    while lanes > 0 && x + lanes <= width
      invariant 0 <= x <= width
      invariant Holds(out[..], base, row[..x]) && Outside(old(out[..]), out[..], base, base + 3 * x)
      decreases width - x
    {
      var load, j, first := src[4 * x..4 * x + 4 * lanes], 0, x;
      while j < lanes
        invariant 0 <= j <= lanes && x == first + j <= width && first + lanes <= width
        invariant Holds(out[..], base, row[..x]) && Outside(old(out[..]), out[..], base, base + 3 * x)
      {
        PutNext(PixelAt(load, order, 4 * j), out, base, x, row, old(out[..]));
        j, x := j + 1, x + 1;
      }
    }
    while x < width
      invariant 0 <= x <= width
      invariant Holds(out[..], base, row[..x]) && Outside(old(out[..]), out[..], base, base + 3 * x)
    {
      PutNext(PixelAt(src, order, 4 * x), out, base, x, row, old(out[..]));
      x := x + 1;
    }
    assert row[..width] == row;
  }
}
