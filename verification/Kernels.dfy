/** Row kernels that write RGB pixels in place, and the images they make row by row. */
module Kernels {
  import opened Basics
  import opened Pixels

  // ----- Pixels in a buffer -----

  /** The pixels of `row` are in the buffer, tightly packed from `base` on. */
  ghost predicate Holds(o: seq<byte>, base: nat, row: seq<Pixel>) {
    && base + 3 * |row| <= |o|
    && forall i :: 0 <= i < |row| ==>
         o[base + 3 * i] == row[i].r && o[base + 3 * i + 1] == row[i].g && o[base + 3 * i + 2] == row[i].b
  }

  /** Nothing changed below `lo` or from `hi` on. */
  ghost predicate Outside(o: seq<byte>, n: seq<byte>, lo: nat, hi: nat) {
    |o| == |n| && forall k :: 0 <= k < |o| && (k < lo || hi <= k) ==> n[k] == o[k]
  }

  lemma HoldsKept(o: seq<byte>, n: seq<byte>, base: nat, row: seq<Pixel>, lo: nat, hi: nat)
    requires Holds(o, base, row) && Outside(o, n, lo, hi)
    requires base + 3 * |row| <= lo || hi <= base
    ensures Holds(n, base, row)
  {
  }

  /** A row that holds up to pixel `a` holds up to `b` once the pixels between have been written. */
  lemma Extend(start: seq<byte>, o: seq<byte>, n: seq<byte>, base: nat, row: seq<Pixel>, a: nat, b: nat)
    requires a <= b <= |row| && Holds(o, base, row[..a]) && Outside(start, o, base, base + 3 * a)
    requires Outside(o, n, base + 3 * a, base + 3 * b) && Holds(n, base + 3 * a, row[a..b])
    ensures Holds(n, base, row[..b]) && Outside(start, n, base, base + 3 * b)
  {
    forall i | 0 <= i < b
      ensures n[base + 3 * i] == row[i].r && n[base + 3 * i + 1] == row[i].g && n[base + 3 * i + 2] == row[i].b
    {
      if i < a {
        assert row[..a][i] == row[i];
      } else {
        assert row[a..b][i - a] == row[i];
      }
    }
  }

  lemma NothingYet(o: seq<byte>, base: nat, row: seq<Pixel>)
    requires base <= |o|
    ensures Holds(o, base, row[..0]) && Outside(o, o, base, base)
  {
  }

  method Put(p: Pixel, out: array<byte>, at: nat)
    requires at + 3 <= out.Length
    modifies out
    ensures Holds(out[..], at, [p]) && Outside(old(out[..]), out[..], at, at + 3)
  {
    out[at], out[at + 1], out[at + 2] := p.r, p.g, p.b;
  }

  /** Writes the next pixel of a row. */
  method PutNext(p: Pixel, out: array<byte>, base: nat, x: nat, ghost row: seq<Pixel>, ghost start: seq<byte>)
    requires x < |row| && p == row[x] && base + 3 * |row| <= out.Length
    requires Holds(out[..], base, row[..x]) && Outside(start, out[..], base, base + 3 * x)
    modifies out
    ensures Holds(out[..], base, row[..x + 1]) && Outside(start, out[..], base, base + 3 * x + 3)
  {
    hide Holds, Outside;
    ghost var before := out[..];
    Put(p, out, base + 3 * x);
    assert row[x..x + 1] == [row[x]];
    Extend(start, before, out[..], base, row, x, x + 1);
  }

  // ----- One source row -----

  /** Samples at `step` apart, the first at `shift`. */
  datatype Samples = Samples(bytes: seq<byte>, step: nat, shift: nat)

  ghost predicate Has(s: Samples, n: nat) {
    s.shift < s.step && (n > 0 ==> (n - 1) * s.step + s.shift < |s.bytes|)
  }

  predicate InRange(s: Samples, i: nat) {
    i * s.step + s.shift < |s.bytes|
  }

  function At(s: Samples, i: nat): byte
    requires InRange(s, i)
  {
    s.bytes[i * s.step + s.shift]
  }

  lemma HasAt(s: Samples, n: nat, i: nat)
    requires Has(s, n) && i < n
    ensures InRange(s, i)
  {
    MulLe(i, n - 1, s.step);
  }

  lemma MulLe(a: nat, b: nat, c: nat)
    requires a <= b
    ensures a * c <= b * c
  {
  }

  /** One row to convert; each chroma sample serves `shared` pixels, one or two. */
  datatype Row = Row(y: Samples, u: Samples, v: Samples, shared: nat)

  /** The chroma column of pixel `x`: `x / shared`. */
  function Share(shared: nat, x: nat): nat {
    if shared == 2 then x / 2 else x
  }

  ghost predicate Covers(r: Row, width: nat) {
    && (r.shared == 1 || r.shared == 2)
    && Has(r.y, width) && Has(r.u, Share(r.shared, width + r.shared - 1)) && Has(r.v, Share(r.shared, width + r.shared - 1))
  }

  lemma CoversPixel(r: Row, width: nat, x: nat)
    requires Covers(r, width) && x < width
    ensures InRange(r.y, x) && InRange(r.u, Share(r.shared, x)) && InRange(r.v, Share(r.shared, x))
  {
    hide Has, InRange;
    HasAt(r.y, width, x);
    HasAt(r.u, Share(r.shared, width + r.shared - 1), Share(r.shared, x));
    HasAt(r.v, Share(r.shared, width + r.shared - 1), Share(r.shared, x));
  }

  ghost function RowPixel(r: Row, c: Coeffs, width: nat, x: nat): Pixel
    requires Covers(r, width) && x < width
  {
    CoversPixel(r, width, x);
    YuvPixel(c, At(r.y, x), At(r.u, Share(r.shared, x)), At(r.v, Share(r.shared, x)))
  }

  /** What converting the row pixel by pixel gives. */
  ghost function RowOf(r: Row, c: Coeffs, width: nat): (row: seq<Pixel>)
    requires Covers(r, width)
    ensures |row| == width && forall x :: 0 <= x < width ==> row[x] == RowPixel(r, c, width, x)
  {
    seq(width, x requires 0 <= x < width && Covers(r, width) => RowPixel(r, c, width, x))
  }

  // ----- Groups of lanes -----

  /** The bytes hold `k` whole samples. */
  predicate Fits(s: Samples, k: nat) {
    k * s.step <= |s.bytes|
  }

  lemma Distribute(a: nat, b: nat, c: nat)
    ensures (a + b) * c == a * c + b * c
  {
  }

  /** A load of `k` whole samples, from number `first` on. */
  function Window(s: Samples, first: nat, k: nat): (w: seq<byte>)
    requires Fits(s, first + k)
    ensures |w| == k * s.step
  {
    Distribute(first, k, s.step);
    s.bytes[first * s.step..first * s.step + k * s.step]
  }

  lemma LaneInside(q: nat, k: nat, step: nat, shift: nat)
    requires q < k && shift < step
    ensures q * step + shift < k * step
  {
    Distribute(q, 1, step);
    MulLe(q + 1, k, step);
  }

  /** Shuffles a load into `n` lanes; each sample goes to `shared` neighbouring lanes. */
  function Lanes(s: Samples, first: nat, n: nat, shared: nat): (lanes: seq<byte>)
    requires n % 2 == 0 && s.shift < s.step && Fits(s, first + Share(shared, n))
    ensures |lanes| == n
  {
    var w := Window(s, first, Share(shared, n));
    seq(n, j requires 0 <= j < n && n % 2 == 0 && s.shift < s.step && |w| == Share(shared, n) * s.step =>
      LaneInside(Share(shared, j), Share(shared, n), s.step, s.shift);
      w[Share(shared, j) * s.step + s.shift])
  }

  lemma WindowAt(s: Samples, first: nat, k: nat, q: nat)
    requires q < k && s.shift < s.step && Fits(s, first + k)
    ensures InRange(s, first + q)
    ensures q * s.step + s.shift < k * s.step
    ensures Window(s, first, k)[q * s.step + s.shift] == At(s, first + q)
  {
    Distribute(first, k, s.step);
    Distribute(first, q, s.step);
    LaneInside(q, k, s.step, s.shift);
  }

  lemma LaneIs(s: Samples, first: nat, n: nat, shared: nat, j: nat)
    requires n % 2 == 0 && s.shift < s.step && Fits(s, first + Share(shared, n)) && j < n
    ensures InRange(s, first + Share(shared, j))
    ensures Lanes(s, first, n, shared)[j] == At(s, first + Share(shared, j))
  {
    hide At, InRange, Fits, Window;
    WindowAt(s, first, Share(shared, n), Share(shared, j));
  }

  function PrepareLanes(c: Coeffs, m: Mode, u: seq<byte>, v: seq<byte>): (r: seq<Chroma>)
    requires |u| == |v|
    ensures |r| == |u| && forall j :: 0 <= j < |u| ==> r[j] == MachineChroma(c, m, u[j], v[j])
  {
    seq(|u|, j requires 0 <= j < |u| && |u| == |v| => MachineChroma(c, m, u[j], v[j]))
  }

  function LanePixels(c: Coeffs, m: Mode, y: seq<byte>, chroma: seq<Chroma>): (r: seq<Pixel>)
    requires |y| == |chroma| && 0 < m.divisor
    ensures |r| == |y| && forall j :: 0 <= j < |y| ==> r[j] == MachinePixel(c, m, y[j], chroma[j])
  {
    seq(|y|, j requires 0 <= j < |y| && |y| == |chroma| => MachinePixel(c, m, y[j], chroma[j]))
  }

  /** `convert_eight_with_chroma`: all lanes of a group. */
  method ConvertLanes(c: Coeffs, m: Mode, y: seq<byte>, chroma: seq<Chroma>, out: array<byte>, base: nat)
    requires |y| == |chroma| && 0 < m.divisor && base + 3 * |y| <= out.Length
    modifies out
    ensures Holds(out[..], base, LanePixels(c, m, y, chroma))
    ensures Outside(old(out[..]), out[..], base, base + 3 * |y|)
  {
    hide LanePixels, MachinePixel, Holds, Outside;
    NothingYet(out[..], base, LanePixels(c, m, y, chroma));
    ghost var lanes := LanePixels(c, m, y, chroma);
    var j := 0;
    while j < |y|
      invariant 0 <= j <= |y|
      invariant Holds(out[..], base, lanes[..j]) && Outside(old(out[..]), out[..], base, base + 3 * j)
    {
      PutNext(MachinePixel(c, m, y[j], chroma[j]), out, base, j, lanes, old(out[..]));
      j := j + 1;
    }
    assert lanes[..|y|] == lanes;
  }

  /** Whole samples for the `n` pixels from `x` on. */
  ghost predicate RoomFor(r: Row, width: nat, x: nat, n: nat) {
    && x % 2 == 0 && n % 2 == 0 && x + n <= width
    && Fits(r.y, x + n) && Fits(r.u, Share(r.shared, x) + Share(r.shared, n)) && Fits(r.v, Share(r.shared, x) + Share(r.shared, n))
  }

  /** The lanes of the group that starts at pixel `x`. */
  function GroupLuma(r: Row, x: nat, n: nat): (y: seq<byte>)
    requires n % 2 == 0 && r.y.shift < r.y.step && Fits(r.y, x + n)
    ensures |y| == n
  {
    Lanes(r.y, x, n, 1)
  }

  function GroupChroma(r: Row, c: Coeffs, x: nat, n: nat): (chroma: seq<Chroma>)
    requires n % 2 == 0 && r.u.shift < r.u.step && r.v.shift < r.v.step
    requires Fits(r.u, Share(r.shared, x) + Share(r.shared, n)) && Fits(r.v, Share(r.shared, x) + Share(r.shared, n))
    ensures |chroma| == n
  {
    PrepareLanes(c, TEN_BIT, Lanes(r.u, Share(r.shared, x), n, r.shared), Lanes(r.v, Share(r.shared, x), n, r.shared))
  }

  lemma GroupPixel(r: Row, c: Coeffs, width: nat, x: nat, n: nat, j: nat)
    requires Covers(r, width) && RoomFor(r, width, x, n) && j < n
    ensures MachinePixel(c, TEN_BIT, GroupLuma(r, x, n)[j], GroupChroma(r, c, x, n)[j]) == RowPixel(r, c, width, x + j)
  {
    hide At, InRange, MachinePixel, MachineChroma, YuvPixel, Lanes, Fits;
    LaneIs(r.y, x, n, 1, j);
    LaneIs(r.u, Share(r.shared, x), n, r.shared, j);
    LaneIs(r.v, Share(r.shared, x), n, r.shared, j);
    assert Share(r.shared, x) + Share(r.shared, j) == Share(r.shared, x + j);
    CoversPixel(r, width, x + j);
    MachineArithmeticIsExact(c, At(r.y, x + j), At(r.u, Share(r.shared, x + j)), At(r.v, Share(r.shared, x + j)));
  }

  /** The lanes of a group are the pixels of the row. */
  lemma GroupIsRow(r: Row, c: Coeffs, width: nat, x: nat, n: nat)
    requires Covers(r, width) && RoomFor(r, width, x, n)
    ensures LanePixels(c, TEN_BIT, GroupLuma(r, x, n), GroupChroma(r, c, x, n)) == RowOf(r, c, width)[x..x + n]
  {
    hide MachinePixel, GroupLuma, GroupChroma, LanePixels, RowOf, RowPixel, Fits;
    var pixels, row := LanePixels(c, TEN_BIT, GroupLuma(r, x, n), GroupChroma(r, c, x, n)), RowOf(r, c, width);
    forall j | 0 <= j < n ensures pixels[j] == row[x..x + n][j] {
      GroupPixel(r, c, width, x, n, j);
    }
  }

  /** `|bytes| / (k * step)` groups of `k` samples. */
  function GroupsIn(s: Samples, k: nat): (g: nat)
    requires 0 < k && 0 < s.step
    ensures Fits(s, g * k)
  {
    PositiveProduct(k, s.step);
    QuotientFits(|s.bytes|, k, s.step);
    |s.bytes| / (k * s.step)
  }

  lemma Associate(a: nat, b: nat, c: nat)
    ensures a * (b * c) == a * b * c
  {
  }

  lemma QuotientTimes(total: nat, unit: nat)
    requires 0 < unit
    ensures total / unit * unit <= total
  {
  }

  lemma QuotientFits(total: nat, k: nat, step: nat)
    requires 0 < k * step
    ensures total / (k * step) * k * step <= total
  {
    QuotientTimes(total, k * step);
    Associate(total / (k * step), k, step);
  }

  lemma PositiveProduct(a: nat, b: nat)
    requires 0 < a && 0 < b
    ensures 0 < a * b
  {
  }

  /** How many whole groups of `n` lanes a row's buffers allow: the `min` chains of the vector kernels. */
  function Groups(r: Row, width: nat, n: nat): nat
    requires 2 <= n && 0 < r.y.step && 0 < r.u.step && 0 < r.v.step
  {
    Min(Min(GroupsIn(r.y, n), width / n), Min(GroupsIn(r.u, Share(r.shared, n)), GroupsIn(r.v, Share(r.shared, n))))
  }

  lemma NextGroupFits(s: Samples, g: nat, k: nat)
    requires 0 < k && 0 < s.step && g < GroupsIn(s, k)
    ensures Fits(s, g * k + k)
  {
    var all := GroupsIn(s, k);
    Distribute(g, 1, k);
    MulLe(g + 1, all, k);
    MulLe(g * k + k, all * k, s.step);
  }

  ghost function GroupStart(n: nat, g: nat): nat {
    g * n
  }

  lemma NextStart(n: nat, g: nat)
    ensures GroupStart(n, 0) == 0 && GroupStart(n, g + 1) == GroupStart(n, g) + n
  {
    Distribute(g, 1, n);
  }

  lemma GroupFits(r: Row, width: nat, n: nat, g: nat)
    requires Covers(r, width) && (n == 8 || n == 16) && g < Groups(r, width, n)
    ensures RoomFor(r, width, GroupStart(n, g), n)
  {
    hide GroupsIn, Fits;
    var k := Share(r.shared, n);
    NextGroupFits(r.y, g, n);
    NextGroupFits(r.u, g, k);
    NextGroupFits(r.v, g, k);
    assert Share(r.shared, g * n) == g * k;
  }

  method ConvertGroup(r: Row, c: Coeffs, width: nat, n: nat, out: array<byte>, base: nat, x: nat)
    requires Covers(r, width) && RoomFor(r, width, x, n) && base + 3 * width <= out.Length
    modifies out
    ensures Holds(out[..], base + 3 * x, RowOf(r, c, width)[x..x + n])
    ensures Outside(old(out[..]), out[..], base + 3 * x, base + 3 * x + 3 * n)
  {
    hide LanePixels, GroupLuma, GroupChroma, RowOf, Fits;
    GroupIsRow(r, c, width, x, n);
    ConvertLanes(c, TEN_BIT, GroupLuma(r, x, n), GroupChroma(r, c, x, n), out, base + 3 * x);
  }

  /** Converts whole groups of `n` pixels with vector lanes; returns the first pixel left. */
  method VectorGroups(r: Row, c: Coeffs, width: nat, n: nat, out: array<byte>, base: nat) returns (start: nat)
    requires Covers(r, width) && (n == 8 || n == 16) && base + 3 * width <= out.Length
    modifies out
    ensures start <= width && start % 2 == 0
    ensures Holds(out[..], base, RowOf(r, c, width)[..start])
    ensures Outside(old(out[..]), out[..], base, base + 3 * start)
  {
    hide Groups, RowOf, Fits, Holds, Outside, GroupStart, Share;
    ghost var row := RowOf(r, c, width);
    var groups, g := Groups(r, width, n), 0;
    start := 0;
    NextStart(n, 0);
    NothingYet(out[..], base, row);
    while g < groups
      invariant 0 <= g <= groups && start == GroupStart(n, g) <= width && start % 2 == 0
      invariant Holds(out[..], base, row[..start]) && Outside(old(out[..]), out[..], base, base + 3 * start)
    {
      GroupFits(r, width, n, g);
      NextStart(n, g);
      ghost var before := out[..];
      ConvertGroup(r, c, width, n, out, base, start);
      Extend(old(out[..]), before, out[..], base, row, start, start + n);
      start, g := start + n, g + 1;
    }
  }

  /** The pixels that share the chroma sample of `column`. */
  method SharedPixels(r: Row, c: Coeffs, width: nat, column: nat, out: array<byte>, base: nat, ghost start: seq<byte>)
    returns (end: nat)
    requires Covers(r, width) && column < width && column % r.shared == 0 && base + 3 * width <= out.Length
    requires Holds(out[..], base, RowOf(r, c, width)[..column]) && Outside(start, out[..], base, base + 3 * column)
    modifies out
    ensures end == Min(column + r.shared, width)
    ensures Holds(out[..], base, RowOf(r, c, width)[..end]) && Outside(start, out[..], base, base + 3 * end)
  {
    hide RowOf, YuvPixel, At, InRange, Has, Holds, Outside;
    ghost var row := RowOf(r, c, width);
    var chroma := Share(r.shared, column);
    CoversPixel(r, width, column);
    var u, v, x := At(r.u, chroma), At(r.v, chroma), column;
    end := Min(column + r.shared, width);
    while x < end
      invariant column <= x <= end
      invariant Holds(out[..], base, row[..x]) && Outside(start, out[..], base, base + 3 * x)
    {
      CoversPixel(r, width, x);
      assert Share(r.shared, x) == chroma;
      assert row[x] == RowPixel(r, c, width, x);
      PutNext(YuvPixel(c, At(r.y, x), u, v), out, base, x, row, start);
      x := x + 1;
    }
  }

  /** The scalar loop of a row, from an even pixel on; one chroma sample is read for `shared` pixels. */
  method ScalarTail(r: Row, c: Coeffs, width: nat, from: nat, out: array<byte>, base: nat, ghost start: seq<byte>)
    requires Covers(r, width) && from <= width && from % 2 == 0 && base + 3 * width <= out.Length
    requires Holds(out[..], base, RowOf(r, c, width)[..from]) && Outside(start, out[..], base, base + 3 * from)
    modifies out
    ensures Holds(out[..], base, RowOf(r, c, width)) && Outside(start, out[..], base, base + 3 * width)
  {
    hide RowOf, Has, Holds, Outside;
    ghost var row := RowOf(r, c, width);
    var column := from;
    while column < width
      invariant from <= column <= width && (column < width ==> column % r.shared == 0)
      invariant Holds(out[..], base, row[..column]) && Outside(start, out[..], base, base + 3 * column)
    {
      column := SharedPixels(r, c, width, column, out, base, start);
    }
    assert row[..width] == row;
  }

  method ConvertRow(r: Row, c: Coeffs, width: nat, vector: bool, n: nat, out: array<byte>, base: nat)
    requires Covers(r, width) && (n == 8 || n == 16) && base + 3 * width <= out.Length
    modifies out
    ensures Holds(out[..], base, RowOf(r, c, width))
    ensures Outside(old(out[..]), out[..], base, base + 3 * width)
  {
    hide RowOf, Holds, Outside;
    ghost var before := out[..];
    NothingYet(before, base, RowOf(r, c, width));
    var start := 0;
    if vector {
      start := VectorGroups(r, c, width, n, out, base);
    }
    ScalarTail(r, c, width, start, out, base, before);
  }

  // ----- Two rows that share their chroma -----

  ghost predicate TwoHold(start: seq<byte>, o: seq<byte>, base: nat, width: nat, row0: seq<Pixel>, row1: seq<Pixel>, x: nat)
    requires x <= |row0| && x <= |row1|
  {
    && Holds(o, base, row0[..x]) && Holds(o, base + 3 * width, row1[..x])
    && Outside(start, o, base, base + 6 * width)
  }

  lemma ExtendTwo(start: seq<byte>, o: seq<byte>, m: seq<byte>, n: seq<byte>, base: nat, width: nat,
                  row0: seq<Pixel>, row1: seq<Pixel>, a: nat, b: nat)
    requires a <= b <= width == |row0| == |row1| && TwoHold(start, o, base, width, row0, row1, a)
    requires Outside(o, m, base + 3 * a, base + 3 * b) && Holds(m, base + 3 * a, row0[a..b])
    requires Outside(m, n, base + 3 * width + 3 * a, base + 3 * width + 3 * b) && Holds(n, base + 3 * width + 3 * a, row1[a..b])
    ensures TwoHold(start, n, base, width, row0, row1, b)
  {
    hide Holds;
    Extend(o, o, m, base, row0, a, b);
    HoldsKept(o, m, base + 3 * width, row1[..a], base + 3 * a, base + 3 * b);
    Extend(m, m, n, base + 3 * width, row1, a, b);
    HoldsKept(m, n, base, row0[..b], base + 3 * width + 3 * a, base + 3 * width + 3 * b);
  }

  lemma NothingOfTwo(o: seq<byte>, base: nat, width: nat, row0: seq<Pixel>, row1: seq<Pixel>)
    requires base + 6 * width <= |o|
    ensures TwoHold(o, o, base, width, row0, row1, 0)
  {
  }

  /** One group of both rows; the chroma is prepared once. */
  method ConvertTwoGroups(r: Row, y1: Samples, c: Coeffs, width: nat, n: nat, out: array<byte>, base: nat, x: nat, ghost start: seq<byte>)
    requires Covers(r, width) && Has(y1, width) && RoomFor(r, width, x, n) && Fits(y1, x + n) && base + 6 * width <= out.Length
    requires TwoHold(start, out[..], base, width, RowOf(r, c, width), RowOf(r.(y := y1), c, width), x)
    modifies out
    ensures TwoHold(start, out[..], base, width, RowOf(r, c, width), RowOf(r.(y := y1), c, width), x + n)
  {
    hide LanePixels, GroupLuma, Lanes, PrepareLanes, RowOf, Fits, Holds, Outside, TwoHold;
    ghost var row0, row1 := RowOf(r, c, width), RowOf(r.(y := y1), c, width);
    GroupIsRow(r, c, width, x, n);
    GroupIsRow(r.(y := y1), c, width, x, n);
    var chroma := GroupChroma(r, c, x, n);
    ghost var before := out[..];
    ConvertLanes(c, TEN_BIT, GroupLuma(r, x, n), chroma, out, base + 3 * x);
    ghost var between := out[..];
    ConvertLanes(c, TEN_BIT, GroupLuma(r.(y := y1), x, n), chroma, out, base + 3 * width + 3 * x);
    ExtendTwo(start, before, between, out[..], base, width, row0, row1, x, x + n);
  }

  method TwoRowGroups(r: Row, y1: Samples, c: Coeffs, width: nat, n: nat, out: array<byte>, base: nat) returns (x: nat)
    requires Covers(r, width) && Has(y1, width) && (n == 8 || n == 16) && base + 6 * width <= out.Length
    modifies out
    ensures x <= width && x % 2 == 0
    ensures TwoHold(old(out[..]), out[..], base, width, RowOf(r, c, width), RowOf(r.(y := y1), c, width), x)
  {
    hide Groups, RowOf, Fits, Holds, Outside, TwoHold, GroupStart, Share;
    var groups, g := Min(Groups(r, width, n), Groups(r.(y := y1), width, n)), 0;
    x := 0;
    NextStart(n, 0);
    NothingOfTwo(out[..], base, width, RowOf(r, c, width), RowOf(r.(y := y1), c, width));
    while g < groups
      invariant 0 <= g <= groups && x == GroupStart(n, g) <= width && x % 2 == 0
      invariant TwoHold(old(out[..]), out[..], base, width, RowOf(r, c, width), RowOf(r.(y := y1), c, width), x)
    {
      GroupFits(r, width, n, g);
      GroupFits(r.(y := y1), width, n, g);
      NextStart(n, g);
      ConvertTwoGroups(r, y1, c, width, n, out, base, x, old(out[..]));
      x, g := x + n, g + 1;
    }
  }

  /** The scalar tail of two rows, one chroma sample for up to four pixels. */
  method TwoRowTail(r: Row, y1: Samples, c: Coeffs, width: nat, from: nat, out: array<byte>, base: nat, ghost start: seq<byte>)
    requires Covers(r, width) && Has(y1, width) && from <= width && from % 2 == 0 && base + 6 * width <= out.Length
    requires TwoHold(start, out[..], base, width, RowOf(r, c, width), RowOf(r.(y := y1), c, width), from)
    modifies out
    ensures TwoHold(start, out[..], base, width, RowOf(r, c, width), RowOf(r.(y := y1), c, width), width)
  {
    hide RowOf, YuvPixel, At, InRange, Has, Holds, Outside, TwoHold;
    ghost var row0, row1 := RowOf(r, c, width), RowOf(r.(y := y1), c, width);
    var column := from;
    while column < width
      invariant from <= column <= width && (column < width ==> column % r.shared == 0)
      invariant TwoHold(start, out[..], base, width, row0, row1, column)
    {
      var chroma := Share(r.shared, column);
      CoversPixel(r, width, column);
      var u, v, x, end := At(r.u, chroma), At(r.v, chroma), column, Min(column + r.shared, width);
      while x < end
        invariant column <= x <= end
        invariant TwoHold(start, out[..], base, width, row0, row1, x)
      {
        CoversPixel(r, width, x);
        CoversPixel(r.(y := y1), width, x);
        assert Share(r.shared, x) == chroma;
        assert row0[x..x + 1] == [RowPixel(r, c, width, x)] && row1[x..x + 1] == [RowPixel(r.(y := y1), c, width, x)];
        ghost var before := out[..];
        Put(YuvPixel(c, At(r.y, x), u, v), out, base + 3 * x);
        ghost var between := out[..];
        Put(YuvPixel(c, At(y1, x), u, v), out, base + 3 * width + 3 * x);
        ExtendTwo(start, before, between, out[..], base, width, row0, row1, x, x + 1);
        x := x + 1;
      }
      column := x;
    }
  }

  /** Two image rows with the same chroma row, written one after the other. */
  method ConvertTwoRows(r: Row, y1: Samples, c: Coeffs, width: nat, n: nat, out: array<byte>, base: nat)
    requires Covers(r, width) && Has(y1, width) && (n == 8 || n == 16) && base + 6 * width <= out.Length
    modifies out
    ensures Holds(out[..], base, RowOf(r, c, width)) && Holds(out[..], base + 3 * width, RowOf(r.(y := y1), c, width))
    ensures Outside(old(out[..]), out[..], base, base + 6 * width)
  {
    hide RowOf, Holds, Outside;
    ghost var row0, row1 := RowOf(r, c, width), RowOf(r.(y := y1), c, width);
    var x := TwoRowGroups(r, y1, c, width, n, out, base);
    TwoRowTail(r, y1, c, width, x, out, base, old(out[..]));
    assert row0[..width] == row0 && row1[..width] == row1;
  }

  /** One row of the kernel specialised to full-range BT.601, which prepares the chroma of each pair. */
  method Bt601Row(r: Row, width: nat, out: array<byte>, base: nat)
    requires Covers(r, width) && r.shared == 2 && base + 3 * width <= out.Length
    modifies out
    ensures Holds(out[..], base, RowOf(r, BT601_FULL, width))
    ensures Outside(old(out[..]), out[..], base, base + 3 * width)
  {
    hide RowOf, YuvPixel, LanePixel, Prepare, At, InRange, Has, Holds, Outside;
    ghost var row, start := RowOf(r, BT601_FULL, width), out[..];
    NothingYet(start, base, row);
    var column := 0;
    while column < width
      invariant 0 <= column <= width && (column < width ==> column % 2 == 0)
      invariant Holds(out[..], base, row[..column]) && Outside(start, out[..], base, base + 3 * column)
    {
      CoversPixel(r, width, column);
      var u, v := At(r.u, column / 2), At(r.v, column / 2);
      var chroma := Prepare(BT601_FULL, TEN_BIT, u, v);
      PreparedIsPixel(BT601_FULL, At(r.y, column), u, v);
      assert row[column] == RowPixel(r, BT601_FULL, width, column);
      PutNext(LanePixel(BT601_FULL, TEN_BIT, At(r.y, column), chroma), out, base, column, row, start);
      column := column + 1;
      if column < width {
        CoversPixel(r, width, column);
        PreparedIsPixel(BT601_FULL, At(r.y, column), u, v);
        assert row[column] == RowPixel(r, BT601_FULL, width, column);
        PutNext(LanePixel(BT601_FULL, TEN_BIT, At(r.y, column), chroma), out, base, column, row, start);
        column := column + 1;
      }
    }
    assert row[..width] == row;
  }

  // ----- Images -----

  /** Where row `r` of an image begins. */
  function RowBase(bytes: nat, r: nat): nat {
    bytes * r
  }

  lemma NextBase(bytes: nat, r: nat)
    ensures RowBase(bytes, 0) == 0 && RowBase(bytes, r + 1) == RowBase(bytes, r) + bytes
  {
    Distribute(r, 1, bytes);
  }

  lemma BaseMono(bytes: nat, a: nat, b: nat)
    requires a <= b
    ensures RowBase(bytes, a) <= RowBase(bytes, b)
  {
    MulLe(a, b, bytes);
  }

  /** The first `n` rows of an image are in the buffer, each in its place. */
  ghost predicate Done(o: seq<byte>, rows: seq<seq<Pixel>>, bytes: nat, n: nat) {
    n <= |rows| && forall r :: 0 <= r < n ==> Holds(o, RowBase(bytes, r), rows[r])
  }

  ghost predicate Even(rows: seq<seq<Pixel>>, bytes: nat) {
    forall r :: 0 <= r < |rows| ==> 3 * |rows[r]| == bytes
  }

  /** Rows `a` to `b` were written, and nothing else. */
  lemma DoneMore(start: seq<byte>, o: seq<byte>, n: seq<byte>, rows: seq<seq<Pixel>>, bytes: nat, a: nat, b: nat)
    requires a <= b <= |rows| && Even(rows, bytes) && Done(o, rows, bytes, a) && Outside(start, o, 0, RowBase(bytes, a))
    requires Outside(o, n, RowBase(bytes, a), RowBase(bytes, b))
    requires forall r :: a <= r < b ==> Holds(n, RowBase(bytes, r), rows[r])
    ensures Done(n, rows, bytes, b) && Outside(start, n, 0, RowBase(bytes, b))
  {
    hide RowBase;
    BaseMono(bytes, a, b);
    forall r | 0 <= r < a ensures Holds(n, RowBase(bytes, r), rows[r]) {
      NextBase(bytes, r);
      BaseMono(bytes, r + 1, a);
      HoldsKept(o, n, RowBase(bytes, r), rows[r], RowBase(bytes, a), RowBase(bytes, b));
    }
  }

  /** The row that a byte of an image is in. */
  lemma {:induction false} RowOfByte(bytes: nat, h: nat, k: nat) returns (r: nat)
    requires k < RowBase(bytes, h)
    ensures r < h && RowBase(bytes, r) <= k < RowBase(bytes, r) + bytes
  {
    hide RowBase;
    NextBase(bytes, 0);
    assert 0 < h;
    NextBase(bytes, h - 1);
    if RowBase(bytes, h - 1) <= k {
      r := h - 1;
    } else {
      r := RowOfByte(bytes, h - 1, k);
    }
  }

  lemma HoldsByte(m: seq<byte>, n: seq<byte>, base: nat, row: seq<Pixel>, k: nat)
    requires Holds(m, base, row) && Holds(n, base, row) && base <= k < base + 3 * |row|
    ensures m[k] == n[k]
  {
    var x := (k - base) / 3;
    assert m[base + 3 * x] == row[x].r && n[base + 3 * x] == row[x].r;
    assert k == base + 3 * x || k == base + 3 * x + 1 || k == base + 3 * x + 2;
  }

  /** An image fills its buffer in one way only. */
  lemma DoneDetermines(m: seq<byte>, n: seq<byte>, rows: seq<seq<Pixel>>, bytes: nat)
    requires Even(rows, bytes) && Done(m, rows, bytes, |rows|) && Done(n, rows, bytes, |rows|)
    requires |m| == |n| == RowBase(bytes, |rows|)
    ensures m == n
  {
    hide Holds, RowBase;
    forall k | 0 <= k < |m| ensures m[k] == n[k] {
      var r := RowOfByte(bytes, |rows|, k);
      HoldsByte(m, n, RowBase(bytes, r), rows[r], k);
    }
  }

  ghost predicate AllCover(rows: seq<Row>, width: nat) {
    forall i :: 0 <= i < |rows| ==> Covers(rows[i], width)
  }

  ghost function ImageOf(rows: seq<Row>, c: Coeffs, width: nat): (image: seq<seq<Pixel>>)
    requires AllCover(rows, width)
    ensures |image| == |rows| && Even(image, 3 * width)
    ensures forall i :: 0 <= i < |rows| ==> image[i] == RowOf(rows[i], c, width)
  {
    seq(|rows|, i requires 0 <= i < |rows| && AllCover(rows, width) => RowOf(rows[i], c, width))
  }

  /** The buffer holds the converted image from its start on, and is unchanged after it. */
  ghost predicate Converted(start: seq<byte>, o: seq<byte>, rows: seq<Row>, c: Coeffs, width: nat, n: nat)
    requires AllCover(rows, width)
  {
    Done(o, ImageOf(rows, c, width), 3 * width, n) && Outside(start, o, 0, RowBase(3 * width, n))
  }

  lemma NoneConverted(o: seq<byte>, rows: seq<Row>, c: Coeffs, width: nat)
    requires AllCover(rows, width)
    ensures Converted(o, o, rows, c, width, 0)
  {
  }

  /** Row by row: the loops of the single-row kernels. */
  method ConvertImage(rows: seq<Row>, c: Coeffs, width: nat, vector: bool, n: nat, out: array<byte>)
    requires AllCover(rows, width) && (n == 8 || n == 16) && RowBase(3 * width, |rows|) <= out.Length
    modifies out
    ensures Converted(old(out[..]), out[..], rows, c, width, |rows|)
  {
    hide Converted, Covers, RowBase;
    NoneConverted(out[..], rows, c, width);
    var i := 0;
    while i < |rows|
      invariant 0 <= i <= |rows| && Converted(old(out[..]), out[..], rows, c, width, i)
    {
      ConvertOne(rows, c, width, vector, n, out, i, old(out[..]));
      i := i + 1;
    }
  }

  method ConvertOne(rows: seq<Row>, c: Coeffs, width: nat, vector: bool, n: nat, out: array<byte>, i: nat, ghost start: seq<byte>)
    requires AllCover(rows, width) && (n == 8 || n == 16) && RowBase(3 * width, |rows|) <= out.Length && i < |rows|
    requires Converted(start, out[..], rows, c, width, i)
    modifies out
    ensures Converted(start, out[..], rows, c, width, i + 1)
  {
    hide RowOf, Holds, Outside, RowBase, Covers, ImageOf, Done;
    ghost var before := out[..];
    NextBase(3 * width, i);
    BaseMono(3 * width, i + 1, |rows|);
    ConvertRow(rows[i], c, width, vector, n, out, RowBase(3 * width, i));
    DoneMore(start, before, out[..], ImageOf(rows, c, width), 3 * width, i, i + 1);
  }

  /** Rows in pairs that share a chroma row; an odd last row goes alone. */
  method ConvertPaired(rows: seq<Row>, c: Coeffs, width: nat, n: nat, out: array<byte>)
    requires AllCover(rows, width) && (n == 8 || n == 16) && RowBase(3 * width, |rows|) <= out.Length
    requires forall i :: 0 <= i < |rows| / 2 ==> rows[2 * i + 1] == rows[2 * i].(y := rows[2 * i + 1].y)
    modifies out
    ensures Converted(old(out[..]), out[..], rows, c, width, |rows|)
  {
    hide Converted, Covers, RowBase;
    NoneConverted(out[..], rows, c, width);
    var paired, i := |rows| / 2 * 2, 0;
    while i < paired
      invariant 0 <= i <= paired && i % 2 == 0 && Converted(old(out[..]), out[..], rows, c, width, i)
    {
      assert rows[2 * (i / 2) + 1] == rows[2 * (i / 2)].(y := rows[2 * (i / 2) + 1].y);
      ConvertPair(rows, c, width, n, out, i, old(out[..]));
      i := i + 2;
    }
    if paired != |rows| {
      ConvertOne(rows, c, width, true, n, out, paired, old(out[..]));
    }
  }

  method ConvertPair(rows: seq<Row>, c: Coeffs, width: nat, n: nat, out: array<byte>, i: nat, ghost start: seq<byte>)
    requires AllCover(rows, width) && (n == 8 || n == 16) && RowBase(3 * width, |rows|) <= out.Length && i + 1 < |rows|
    requires Converted(start, out[..], rows, c, width, i) && rows[i + 1] == rows[i].(y := rows[i + 1].y)
    modifies out
    ensures Converted(start, out[..], rows, c, width, i + 2)
  {
    hide RowOf, Holds, Outside, RowBase, Has, ImageOf, Done;
    ghost var before := out[..];
    NextBase(3 * width, i);
    NextBase(3 * width, i + 1);
    BaseMono(3 * width, i + 2, |rows|);
    assert Covers(rows[i + 1], width);
    ConvertTwoRows(rows[i], rows[i + 1].y, c, width, n, out, RowBase(3 * width, i));
    DoneMore(start, before, out[..], ImageOf(rows, c, width), 3 * width, i, i + 2);
  }

  method Bt601Image(rows: seq<Row>, width: nat, out: array<byte>)
    requires AllCover(rows, width) && RowBase(3 * width, |rows|) <= out.Length
    requires forall i :: 0 <= i < |rows| ==> rows[i].shared == 2
    modifies out
    ensures Converted(old(out[..]), out[..], rows, BT601_FULL, width, |rows|)
  {
    hide RowOf, Holds, Outside, RowBase, Covers, ImageOf, Done;
    NoneConverted(out[..], rows, BT601_FULL, width);
    var i := 0;
    while i < |rows|
      invariant 0 <= i <= |rows| && Converted(old(out[..]), out[..], rows, BT601_FULL, width, i)
    {
      ghost var before := out[..];
      NextBase(3 * width, i);
      BaseMono(3 * width, i + 1, |rows|);
      Bt601Row(rows[i], width, out, RowBase(3 * width, i));
      DoneMore(old(out[..]), before, out[..], ImageOf(rows, BT601_FULL, width), 3 * width, i, i + 1);
      i := i + 1;
    }
  }
}
