/** The nearest-neighbour map: cached, monotone, in range, and a group copy at two exact ratios. */
module Nearest {
  import opened Basics
  import opened Pixels
  import opened Kernels

  function Quotient(n: nat, d: nat): nat
    requires 0 < d
  {
    n / d
  }

  /** The source index of destination index `d`. */
  function NearestOf(source: nat, destination: nat, d: nat): nat
    requires d < destination
  {
    Quotient(d * source, destination)
  }

  function XMap(source: nat, destination: nat): (m: seq<nat>)
    ensures |m| == destination
    ensures forall d :: 0 <= d < destination ==> m[d] == NearestOf(source, destination, d)
  {
    seq(destination, d requires 0 <= d < destination => NearestOf(source, destination, d))
  }

  /** Bottom-up layouts count rows from the last one. */
  function Flip(source: nat, bottomUp: bool, row: nat): int {
    if bottomUp then source - row - 1 else row
  }

  lemma MulCancel(a: nat, b: nat, n: nat)
    requires a * n < b * n
    ensures a < b
  {
    if b <= a { MulLe(b, a, n); }
  }

  lemma QuotientBounds(n: nat, d: nat)
    requires 0 < d
    ensures Quotient(n, d) * d <= n < (Quotient(n, d) + 1) * d
  {
    Distribute(n / d, 1, d);
  }

  lemma NearestInRange(source: nat, destination: nat, d: nat)
    requires d < destination && 0 < source
    ensures NearestOf(source, destination, d) < source
  {
    QuotientBounds(d * source, destination);
    MulLe(d + 1, destination, source);
    Distribute(d, 1, source);
    MulCancel(NearestOf(source, destination, d), source, destination);
  }

  /** It is the place of the destination index in the source, rounded down. */
  lemma NearestIsFloor(source: nat, destination: nat, d: nat)
    requires d < destination
    ensures NearestOf(source, destination, d) * destination <= d * source < (NearestOf(source, destination, d) + 1) * destination
  {
    QuotientBounds(d * source, destination);
  }

  function RowFor(source: nat, destination: nat, bottomUp: bool, d: nat): (row: nat)
    requires d < destination && 0 < source
    ensures row == Flip(source, bottomUp, NearestOf(source, destination, d)) < source
  {
    NearestInRange(source, destination, d);
    Flip(source, bottomUp, NearestOf(source, destination, d))
  }

  function YMap(source: nat, destination: nat, bottomUp: bool): (m: seq<nat>)
    requires 0 < source || destination == 0
    ensures |m| == destination
    ensures forall d :: 0 <= d < destination ==> m[d] == RowFor(source, destination, bottomUp, d)
  {
    seq(destination, d requires 0 <= d < destination && 0 < source => RowFor(source, destination, bottomUp, d))
  }

  lemma XMapInRange(source: nat, destination: nat)
    requires 0 < source
    ensures forall d :: 0 <= d < destination ==> XMap(source, destination)[d] < source
  {
    forall d | 0 <= d < destination ensures XMap(source, destination)[d] < source {
      NearestInRange(source, destination, d);
    }
  }

  lemma QuotientMono(a: nat, b: nat, n: nat)
    requires a <= b && 0 < n
    ensures Quotient(a, n) <= Quotient(b, n)
  {
    hide Quotient;
    QuotientBounds(a, n);
    QuotientBounds(b, n);
    MulCancel(Quotient(a, n), Quotient(b, n) + 1, n);
  }

  /** Columns never go back; rows never go back top-down, and never forward bottom-up. */
  lemma MapsAreMonotone(source: nat, destination: nat, bottomUp: bool, a: nat, b: nat)
    requires 0 < source && a <= b < destination
    ensures XMap(source, destination)[a] <= XMap(source, destination)[b]
    ensures var y := YMap(source, destination, bottomUp); if bottomUp then y[b] <= y[a] else y[a] <= y[b]
  {
    MulLe(a, b, source);
    QuotientMono(a * source, b * source, destination);
  }

  lemma QuotientIs(n: nat, d: nat, q: nat)
    requires 0 < d && q * d <= n < (q + 1) * d
    ensures Quotient(n, d) == q
  {
    hide Quotient;
    QuotientBounds(n, d);
    MulCancel(Quotient(n, d), q + 1, d);
    MulCancel(q, Quotient(n, d) + 1, d);
  }

  lemma MulLess(a: nat, b: nat, k: nat)
    requires a < b && 0 < k
    ensures a * k < b * k
  {
    MulLe(a + 1, b, k);
    Distribute(a, 1, k);
  }

  /** The same factor on both sides of a ratio does not matter. */
  lemma RatioCancels(n: nat, q: nat, k: nat)
    requires 0 < q && 0 < k
    ensures 0 < q * k && Quotient(n * k, q * k) == Quotient(n, q)
  {
    hide Quotient;
    var r := Quotient(n, q);
    PositiveProduct(q, k);
    QuotientBounds(n, q);
    MulLe(r * q, n, k);
    MulLess(n, (r + 1) * q, k);
    Associate(r, q, k);
    Associate(r + 1, q, k);
    QuotientIs(n * k, q * k, r);
  }

  /** The map at the ratio `q:p` in groups. */
  lemma NearestAtRatio(p: nat, q: nat, k: nat, d: nat)
    requires 0 < q && d < q * k
    ensures NearestOf(p * k, q * k, d) == Quotient(d * p, q)
  {
    Associate(d, p, k);
    RatioCancels(d * p, q, k);
  }

  /** At the same size the map is the identity, and at half size it takes every second sample. */
  lemma WholeRatios(n: nat, d: nat)
    requires d < n
    ensures NearestOf(n, n, d) == d && NearestOf(2 * n, n, d) == 2 * d
  {
    NearestAtRatio(1, 1, n, d);
    NearestAtRatio(2, 1, n, d);
  }

  /** At 2:3 and 3:4 the map keeps all but the last sample of each group. */
  lemma GroupRatios(k: nat, g: nat, j: nat)
    requires g < k
    ensures j < 2 ==> 2 * g + j < 2 * k && NearestOf(3 * k, 2 * k, 2 * g + j) == 3 * g + j
    ensures j < 3 ==> 3 * g + j < 3 * k && NearestOf(4 * k, 3 * k, 3 * g + j) == 4 * g + j
  {
    if j < 2 { NearestAtRatio(3, 2, k, 2 * g + j); }
    if j < 3 { NearestAtRatio(4, 3, k, 3 * g + j); }
  }

  datatype Dimensions = Dimensions(sourceWidth: nat, sourceHeight: nat, width: nat, height: nat, bottomUp: bool)

  predicate Mappable(d: Dimensions) {
    (0 < d.sourceWidth || d.width == 0) && (0 < d.sourceHeight || d.height == 0)
  }

  class NearestMap {
    var dimensions: Dimensions
    var x: seq<nat>
    var y: seq<nat>

    /** The cached map is what a fresh computation for the stored dimensions would give. */
    ghost predicate Valid()
      reads this
    {
      && Mappable(dimensions)
      && x == XMap(dimensions.sourceWidth, dimensions.width)
      && y == YMap(dimensions.sourceHeight, dimensions.height, dimensions.bottomUp)
    }

    constructor ()
      ensures Valid()
    {
      dimensions, x, y := Dimensions(0, 0, 0, 0, false), [], [];
    }

    method Update(d: Dimensions)
      requires Valid() && Mappable(d)
      modifies this
      ensures Valid() && dimensions == d
    {
      if dimensions == d {
        return;
      }
      dimensions := d;
      x := FillX(d.sourceWidth, d.width);
      y := FillY(d.sourceHeight, d.height, d.bottomUp);
    }
  }

  method FillX(source: nat, destination: nat) returns (xs: seq<nat>)
    ensures xs == XMap(source, destination)
  {
    xs := [];
    var d := 0;
    while d < destination
      invariant 0 <= d <= destination && xs == XMap(source, destination)[..d]
    {
      xs := xs + [d * source / destination];
      d := d + 1;
    }
  }

  method FillY(source: nat, destination: nat, bottomUp: bool) returns (ys: seq<nat>)
    requires 0 < source || destination == 0
    ensures ys == YMap(source, destination, bottomUp)
  {
    ys := [];
    var d := 0;
    while d < destination
      invariant 0 <= d <= destination && ys == YMap(source, destination, bottomUp)[..d]
    {
      NearestInRange(source, destination, d);
      var row := d * source / destination;
      ys := ys + [if bottomUp then source - row - 1 else row];
      d := d + 1;
    }
  }

  // ----- Resizing one row -----

  /** The pixels of `source` that the map picks. */
  function Picked(source: seq<Pixel>, map': seq<nat>): (row: seq<Pixel>)
    requires forall d :: 0 <= d < |map'| ==> map'[d] < |source|
    ensures |row| == |map'| && forall d :: 0 <= d < |map'| ==> row[d] == source[map'[d]]
  {
    seq(|map'|, d requires 0 <= d < |map'| && map'[d] < |source| => source[map'[d]])
  }

  /** The tightly packed pixel number `i`. */
  function PixelOf(bytes: seq<byte>, i: nat): Pixel
    requires 3 * i + 3 <= |bytes|
  {
    Pixel(bytes[3 * i], bytes[3 * i + 1], bytes[3 * i + 2])
  }

  lemma PixelHeld(bytes: seq<byte>, source: seq<Pixel>, i: nat)
    requires Holds(bytes, 0, source) && i < |source|
    ensures PixelOf(bytes, i) == source[i]
  {
    assert bytes[0 + 3 * i] == source[i].r;
  }

  /** One group of `keep` pixels. */
  method CopyGroup(bytes: seq<byte>, from: nat, keep: nat, out: array<byte>, base: nat, to: nat,
                   ghost source: seq<Pixel>, ghost row: seq<Pixel>, ghost start: seq<byte>)
    requires Holds(bytes, 0, source) && from + keep <= |source| && to + keep <= |row|
    requires row[to..to + keep] == source[from..from + keep] && base + 3 * |row| <= out.Length
    requires Holds(out[..], base, row[..to]) && Outside(start, out[..], base, base + 3 * to)
    modifies out
    ensures Holds(out[..], base, row[..to + keep]) && Outside(start, out[..], base, base + 3 * (to + keep))
  {
    hide Holds, Outside;
    var j := 0;
    while j < keep
      invariant 0 <= j <= keep
      invariant Holds(out[..], base, row[..to + j]) && Outside(start, out[..], base, base + 3 * (to + j))
    {
      HoldsLength(bytes, source);
      PixelHeld(bytes, source, from + j);
      assert row[to..to + keep][j] == source[from..from + keep][j];
      PutNext(PixelOf(bytes, from + j), out, base, to + j, row, start);
      j := j + 1;
    }
  }

  /** `groups` copies of the first `keep` pixels of each group of `keep + 1`. */
  method CopyGroups(bytes: seq<byte>, map': seq<nat>, keep: nat, groups: nat, out: array<byte>, base: nat,
                    ghost source: seq<Pixel>)
    requires Holds(bytes, 0, source) && (keep == 2 || keep == 3) && 0 < groups
    requires |source| == (keep + 1) * groups && |map'| == keep * groups
    requires map' == XMap(|source|, |map'|) && (forall d :: 0 <= d < |map'| ==> map'[d] < |source|)
    requires base + 3 * |map'| <= out.Length
    modifies out
    ensures Holds(out[..], base, Picked(source, map')) && Outside(old(out[..]), out[..], base, base + 3 * |map'|)
  {
    hide Holds, Outside, Picked, XMap;
    ghost var row := Picked(source, map');
    NothingYet(out[..], base, row);
    var g, from, to := 0, 0, 0;
    while g < groups
      invariant 0 <= g <= groups && from == (keep + 1) * g && to == keep * g
      invariant Holds(out[..], base, row[..to]) && Outside(old(out[..]), out[..], base, base + 3 * to)
    {
      GroupPicked(source, map', keep, groups, g);
      CopyGroup(bytes, from, keep, out, base, to, source, row, old(out[..]));
      NextGroup(keep, g);
      g, from, to := g + 1, from + keep + 1, to + keep;
    }
    assert row[..to] == row;
  }

  lemma NextGroup(keep: nat, g: nat)
    ensures keep * (g + 1) == keep * g + keep && (keep + 1) * (g + 1) == (keep + 1) * g + keep + 1
  {
  }

  lemma TwoPicked(source: seq<Pixel>, map': seq<nat>, groups: nat, g: nat)
    requires g < groups && |source| == 3 * groups && |map'| == 2 * groups
    requires map' == XMap(|source|, |map'|) && (forall d :: 0 <= d < |map'| ==> map'[d] < |source|)
    ensures Picked(source, map')[2 * g..2 * g + 2] == source[3 * g..3 * g + 2]
  {
    hide NearestOf, Picked, XMap;
    GroupRatios(groups, g, 0);
    GroupRatios(groups, g, 1);
    var row := Picked(source, map');
    assert row[2 * g] == source[3 * g] && row[2 * g + 1] == source[3 * g + 1];
  }

  lemma ThreePicked(source: seq<Pixel>, map': seq<nat>, groups: nat, g: nat)
    requires g < groups && |source| == 4 * groups && |map'| == 3 * groups
    requires map' == XMap(|source|, |map'|) && (forall d :: 0 <= d < |map'| ==> map'[d] < |source|)
    ensures Picked(source, map')[3 * g..3 * g + 3] == source[4 * g..4 * g + 3]
  {
    hide NearestOf, Picked, XMap;
    GroupRatios(groups, g, 0);
    GroupRatios(groups, g, 1);
    GroupRatios(groups, g, 2);
    var row := Picked(source, map');
    assert row[3 * g] == source[4 * g] && row[3 * g + 1] == source[4 * g + 1] && row[3 * g + 2] == source[4 * g + 2];
  }

  lemma GroupPicked(source: seq<Pixel>, map': seq<nat>, keep: nat, groups: nat, g: nat)
    requires (keep == 2 || keep == 3) && g < groups
    requires |source| == (keep + 1) * groups && |map'| == keep * groups
    requires map' == XMap(|source|, |map'|) && (forall d :: 0 <= d < |map'| ==> map'[d] < |source|)
    ensures keep * g + keep <= |map'| && (keep + 1) * g + keep <= |source|
    ensures Picked(source, map')[keep * g..keep * g + keep] == source[(keep + 1) * g..(keep + 1) * g + keep]
  {
    hide Picked, XMap;
    if keep == 2 {
      TwoPicked(source, map', groups, g);
    } else {
      ThreePicked(source, map', groups, g);
    }
  }

  lemma HoldsLength(bytes: seq<byte>, source: seq<Pixel>)
    requires Holds(bytes, 0, source)
    ensures 3 * |source| <= |bytes|
  {
  }

  /** `resize_rgb_row_nearest`: group copies at 2:3 and 3:4, the map otherwise. */
  method ResizeRow(bytes: seq<byte>, map': seq<nat>, out: array<byte>, base: nat, ghost source: seq<Pixel>)
    requires Holds(bytes, 0, source) && |bytes| == 3 * |source| && 0 < |source| && map' == XMap(|source|, |map'|)
    requires base + 3 * |map'| <= out.Length && forall d :: 0 <= d < |map'| ==> map'[d] < |source|
    modifies out
    ensures Holds(out[..], base, Picked(source, map'))
    ensures Outside(old(out[..]), out[..], base, base + 3 * |map'|)
  {
    hide Holds, Outside, Picked, XMap;
    var sourceWidth, width := |bytes| / 3, |map'|;
    if sourceWidth % 3 == 0 && width * 3 == sourceWidth * 2 {
      CopyGroups(bytes, map', 2, width / 2, out, base, source);
    } else if sourceWidth % 4 == 0 && width * 4 == sourceWidth * 3 {
      CopyGroups(bytes, map', 3, width / 3, out, base, source);
    } else {
      ghost var row := Picked(source, map');
      NothingYet(out[..], base, row);
      var d := 0;
      while d < width
        invariant 0 <= d <= width
        invariant Holds(out[..], base, row[..d]) && Outside(old(out[..]), out[..], base, base + 3 * d)
      {
        PixelHeld(bytes, source, map'[d]);
        PutNext(PixelOf(bytes, map'[d]), out, base, d, row, old(out[..]));
        d := d + 1;
      }
      assert row[..width] == row;
    }
  }
}
