/** One pixel: fixed-point YUV to RGB conversion, its tables, and how far it is from the exact matrix. */
module Pixels {
  import opened Basics
  import opened Format

  datatype Table = Table(cy: int, cr: int, gu: int, gv: int, cb: int, offset: int)

  /** What every table of the program keeps, so that the vector lanes cannot overflow. */
  predicate Moderate(c: Table) {
    && 0 <= c.cy <= 2500 && 0 <= c.cr <= 2500 && 0 <= c.gu <= 2500 && 0 <= c.gv <= 2500 && 0 <= c.cb <= 2500
    && 0 <= c.offset <= 16
  }

  type Coeffs = c: Table | Moderate(c) witness Table(1024, 1436, 352, 731, 1815, 0)

  datatype Pixel = Pixel(r: byte, g: byte, b: byte)

  const BT601_FULL: Coeffs := Table(1024, 1436, 352, 731, 1815, 0)

  /** `color_coefficients`, with its floating-point results as tables. */
  function Coefficients(color: ColorInfo): Result<Coeffs> {
    match (color.matrix, color.range)
    case (UnknownMatrix, _) => Err(UnsupportedFormat)
    case (_, UnknownRange) => Err(UnsupportedFormat)
    case (Bt601, Full) => Ok(BT601_FULL)
    case (Bt601, Limited) => Ok(Table(1192, 1634, 401, 832, 2066, 16))
    case (Bt709, Full) => Ok(Table(1024, 1613, 192, 479, 1900, 0))
    case (Bt709, Limited) => Ok(Table(1192, 1836, 218, 546, 2163, 16))
    case (Bt2020, Full) => Ok(Table(1024, 1510, 169, 585, 1927, 0))
    case (Bt2020, Limited) => Ok(Table(1192, 1719, 192, 666, 2193, 16))
    case (Smpte240M, Full) => Ok(Table(1024, 1614, 232, 488, 1870, 0))
    case (Smpte240M, Limited) => Ok(Table(1192, 1837, 264, 556, 2129, 16))
  }

  predicate Known(color: ColorInfo) {
    !color.matrix.UnknownMatrix? && !color.range.UnknownRange?
  }

  /** `clamp(0, 255) as u8`. */
  function Clamp8(n: int): byte {
    if n < 0 then 0 else if n > 255 then 255 else n
  }

  /** The pixel from its five products; the arithmetic shift by 10 is a floor division. */
  function FromTerms(luma: int, red: int, gu: int, gv: int, blue: int): Pixel {
    Pixel(Clamp8((luma + red + 512) / 1024), Clamp8((luma - gu - gv + 512) / 1024), Clamp8((luma + blue + 512) / 1024))
  }

  function Times(a: int, b: int): int {
    a * b
  }

  function Centred(c: Coeffs, y: int, u: int, v: int): Pixel {
    FromTerms(Times(y, c.cy), Times(v, c.cr), Times(u, c.gu), Times(v, c.gv), Times(u, c.cb))
  }

  /** `yuv_pixel`. */
  function YuvPixel(c: Coeffs, y: byte, u: byte, v: byte): Pixel {
    Centred(c, y - c.offset, u - 128, v - 128)
  }

  // ----- Chroma prepared once for several pixels -----

  /** The const parameters of the vector kernels: shift, rounding and green rounding. */
  datatype Mode = Mode(divisor: nat, rounding: int, greenRounding: int)

  const TEN_BIT := Mode(1024, 512, 512)
  const EIGHT_BIT := Mode(256, 0, 255)

  /** The two instantiations that the program has. */
  predicate Instantiated(m: Mode) {
    m == TEN_BIT || m == EIGHT_BIT
  }

  const EIGHT_BIT_COEFFS: Coeffs := Table(256, 359, 88, 183, 454, 0)

  datatype Chroma = Chroma(red: int, green: int, blue: int)

  /** Chroma prepared by scalar code. */
  function Prepare(c: Coeffs, m: Mode, u: byte, v: byte): Chroma {
    Chroma((v - 128) * c.cr + m.rounding,
           0 - (u - 128) * c.gu - (v - 128) * c.gv + m.greenRounding,
           (u - 128) * c.cb + m.rounding)
  }

  /** A pixel of scalar code with prepared chroma. */
  function LanePixel(c: Coeffs, m: Mode, y: byte, chroma: Chroma): Pixel
    requires 0 < m.divisor
  {
    var luma := (y - c.offset) * c.cy;
    Pixel(Clamp8((luma + chroma.red) / m.divisor),
          Clamp8((luma + chroma.green) / m.divisor),
          Clamp8((luma + chroma.blue) / m.divisor))
  }

  /** Preparing the chroma does not change the pixel. */
  lemma PreparedIsPixel(c: Coeffs, y: byte, u: byte, v: byte)
    ensures LanePixel(c, TEN_BIT, y, Prepare(c, TEN_BIT, u, v)) == YuvPixel(c, y, u, v)
  {
  }

  /** The pixel of the 8-bit scalar loops. */
  function PackedPixel(y: byte, u: byte, v: byte): Pixel {
    Pixel(Clamp8(y + (359 * (v - 128)) / 256),
          Clamp8(y - (88 * (u - 128) + 183 * (v - 128)) / 256),
          Clamp8(y + (454 * (u - 128)) / 256))
  }

  /** A shift of a negated sum rounds up, which the green rounding of 255 undoes. */
  lemma GreenRounding(y: int, n: int)
    ensures (256 * y - n + 255) / 256 == y - n / 256
  {
  }

  /** The vector instantiation for 8-bit coefficients agrees with the scalar loop on every byte triple. */
  lemma EightBitIsPacked(y: byte, u: byte, v: byte)
    ensures LanePixel(EIGHT_BIT_COEFFS, EIGHT_BIT, y, Prepare(EIGHT_BIT_COEFFS, EIGHT_BIT, u, v)) == PackedPixel(y, u, v)
  {
    GreenRounding(y, 88 * (u - 128) + 183 * (v - 128));
  }

  // ----- Machine widths -----

  function Wrap32(n: int): int {
    (n + 0x8000_0000) % 0x1_0000_0000 - 0x8000_0000
  }

  function Wrap16(n: int): int {
    (n + 0x8000) % 0x1_0000 - 0x8000
  }

  /** The prepared chroma of one lane, from its products, in 32-bit wrapping arithmetic. */
  function WrappedChroma(red: int, gu: int, gv: int, blue: int, m: Mode): Chroma {
    Chroma(Wrap32(Wrap32(red) + m.rounding),
           Wrap32(Wrap32(Wrap32(0 - Wrap32(gu)) - Wrap32(gv)) + m.greenRounding),
           Wrap32(Wrap32(blue) + m.rounding))
  }

  /** The pixel of one lane: the sums wrap at 32 bits, are shifted, narrowed to 16 bits by truncation and then
      saturated. */
  function WrappedPixel(luma: int, chroma: Chroma, m: Mode): Pixel
    requires 0 < m.divisor
  {
    Pixel(Clamp8(Wrap16(Wrap32(Wrap32(luma) + chroma.red) / m.divisor)),
          Clamp8(Wrap16(Wrap32(Wrap32(luma) + chroma.green) / m.divisor)),
          Clamp8(Wrap16(Wrap32(Wrap32(luma) + chroma.blue) / m.divisor)))
  }

  /** `prepare_chroma`, one lane. */
  function MachineChroma(c: Coeffs, m: Mode, u: byte, v: byte): Chroma {
    WrappedChroma((v - 128) * c.cr, (u - 128) * c.gu, (v - 128) * c.gv, (u - 128) * c.cb, m)
  }

  /** `convert_eight_with_chroma`, one lane. */
  function MachinePixel(c: Coeffs, m: Mode, y: byte, chroma: Chroma): Pixel
    requires 0 < m.divisor
  {
    WrappedPixel((y - c.offset) * c.cy, chroma, m)
  }

  lemma ProductBounds(a: int, k: int)
    requires -255 <= a <= 255 && 0 <= k <= 2500
    ensures -637500 <= a * k <= 637500
  {
    ProductAtMost(a, 255, k);
    ProductAtMost(-255, a, k);
  }

  lemma ProductAtMost(a: int, b: int, k: int)
    requires a <= b && 0 <= k
    ensures a * k <= b * k
  {
    assert (b - a) * k == b * k - a * k;
    NonNegativeProduct(b - a, k);
  }

  lemma NonNegativeProduct(a: int, b: int)
    requires 0 <= a && 0 <= b
    ensures 0 <= a * b
  {
  }

  lemma Wraps(n: int)
    ensures -0x8000_0000 <= n < 0x8000_0000 ==> Wrap32(n) == n
    ensures -0x8000 <= n < 0x8000 ==> Wrap16(n) == n
  {
  }

  lemma ShiftBounds(n: int)
    requires -3_000_000 <= n <= 3_000_000
    ensures -0x8000 <= n / 1024 < 0x8000 && -0x8000 <= n / 256 < 0x8000
  {
  }

  predicate Small(n: int) {
    -637500 <= n <= 637500
  }

  lemma MachineSumsAreExact(luma: int, red: int, gu: int, gv: int, blue: int, m: Mode)
    requires Small(luma) && Small(red) && Small(gu) && Small(gv) && Small(blue)
    requires Instantiated(m)
    ensures WrappedPixel(luma, WrappedChroma(red, gu, gv, blue, m), m)
         == Pixel(Clamp8((luma + (red + m.rounding)) / m.divisor),
                  Clamp8((luma + (0 - gu - gv + m.greenRounding)) / m.divisor),
                  Clamp8((luma + (blue + m.rounding)) / m.divisor))
  {
    hide Clamp8, Wrap32, Wrap16;
    Wraps(luma); Wraps(red); Wraps(blue); Wraps(gu); Wraps(gv); Wraps(0 - gu); Wraps(0 - gu - gv);
    Wraps(red + m.rounding); Wraps(0 - gu - gv + m.greenRounding); Wraps(blue + m.rounding);
    SumIsExact(luma + (red + m.rounding), m);
    SumIsExact(luma + (0 - gu - gv + m.greenRounding), m);
    SumIsExact(luma + (blue + m.rounding), m);
  }

  /** No product or sum overflows 32 bits, and no shifted value overflows 16: for every table, narrowing
      and then saturating gives the clamped pixel of the scalar code. */
  lemma MachineLaneIsExact(c: Coeffs, m: Mode, y: byte, u: byte, v: byte)
    requires Instantiated(m)
    ensures MachinePixel(c, m, y, MachineChroma(c, m, u, v)) == LanePixel(c, m, y, Prepare(c, m, u, v))
  {
    hide Clamp8, WrappedChroma, WrappedPixel;
    ProductBounds(y - c.offset, c.cy);
    ProductBounds(v - 128, c.cr);
    ProductBounds(u - 128, c.gu);
    ProductBounds(v - 128, c.gv);
    ProductBounds(u - 128, c.cb);
    MachineSumsAreExact((y - c.offset) * c.cy, (v - 128) * c.cr, (u - 128) * c.gu, (v - 128) * c.gv, (u - 128) * c.cb, m);
  }

  lemma SumIsExact(n: int, m: Mode)
    requires -3_000_000 <= n <= 3_000_000 && Instantiated(m)
    ensures Wrap16(Wrap32(n) / m.divisor) == n / m.divisor
  {
    Wraps(n);
    ShiftBounds(n);
    Wraps(n / m.divisor);
  }

  /** So the lanes of the vector kernels compute the scalar pixel, for every table. */
  lemma MachineArithmeticIsExact(c: Coeffs, y: byte, u: byte, v: byte)
    ensures MachinePixel(c, TEN_BIT, y, MachineChroma(c, TEN_BIT, u, v)) == YuvPixel(c, y, u, v)
  {
    hide MachinePixel, MachineChroma, LanePixel, Prepare, YuvPixel;
    MachineLaneIsExact(c, TEN_BIT, y, u, v);
    PreparedIsPixel(c, y, u, v);
  }

  // ----- Distance from the exact matrix -----

  /** Luma weights of red and blue. */
  function Kr(m: ColorMatrix): real {
    match m case Bt709 => 0.2126 case Bt2020 => 0.2627 case Smpte240M => 0.212 case _ => 0.299
  }

  function Kb(m: ColorMatrix): real {
    match m case Bt709 => 0.0722 case Bt2020 => 0.0593 case Smpte240M => 0.087 case _ => 0.114
  }

  /** The exact matrix: black level, luma gain, red from V, green from U and V, blue from U. */
  datatype Matrix = Matrix(black: int, y: real, rv: real, gu: real, gv: real, bu: real)

  function Exact(color: ColorInfo): Matrix {
    var kr, kb := Kr(color.matrix), Kb(color.matrix);
    var kg := 1.0 - kr - kb;
    var sy := if color.range.Limited? then 255.0 / 219.0 else 1.0;
    var sc := if color.range.Limited? then 255.0 / 224.0 else 1.0;
    assert kg > 0.5;
    Matrix(if color.range.Limited? then 16 else 0, sy, (2.0 - 2.0 * kr) * sc, (2.0 - 2.0 * kb) * kb / kg * sc, (2.0 - 2.0 * kr) * kr / kg * sc,
           (2.0 - 2.0 * kb) * sc)
  }

  predicate Within(n: int, exact: real, eps: real) {
    -eps <= n as real - 1024.0 * exact <= eps
  }

  /** Every table entry is its exact coefficient times 1024, rounded to the nearest integer. */
  lemma TablesAreRounded(color: ColorInfo)
    requires Known(color)
    ensures var c, e := Coefficients(color).value, Exact(color);
            && Within(c.cy, e.y, 0.5) && Within(c.cr, e.rv, 0.5) && Within(c.gu, e.gu, 0.5)
            && Within(c.gv, e.gv, 0.5) && Within(c.cb, e.bu, 0.5) && c.offset == e.black
  {
  }

  function ClampReal(x: real): real {
    if x < 0.0 then 0.0 else if x > 255.0 then 255.0 else x
  }

  predicate Near(a: byte, x: real, eps: real) {
    -eps <= a as real - ClampReal(x) <= eps
  }

  /** Rounding to the nearest integer and clamping adds at most one half to the error. */
  lemma RoundedNear(n: int, x: real, eps: real)
    requires 0.0 <= eps && -1024.0 * eps <= n as real - 1024.0 * x <= 1024.0 * eps
    ensures Near(Clamp8((n + 512) / 1024), x, 0.5 + eps)
  {
    var q := (n + 512) / 1024;
    assert 1024 * q <= n + 512 < 1024 * q + 1024;
    assert 1024.0 * q as real <= n as real + 512.0 <= 1024.0 * q as real + 1024.0;
  }

  /** `n / 1024` is off from `x` by at most `eps / 1024`. */
  predicate Off(n: int, x: real, eps: real) {
    -eps <= n as real - 1024.0 * x <= eps
  }

  function Scaled(a: int, x: real): real {
    a as real * x
  }

  /** A product of something of size at most `b` with a coefficient that is off by at most `eps`. */
  predicate ScaledOff(n: int, x: real, b: real, eps: real) {
    Off(n, x, b * eps)
  }

  lemma ScaledWithin(a: int, b: real, n: int, exact: real, eps: real)
    requires -b <= a as real <= b && Within(n, exact, eps)
    ensures ScaledOff(Times(a, n), Scaled(a, exact), b, eps)
  {
    var d, r := n as real - 1024.0 * exact, a as real;
    assert (a * n) as real - 1024.0 * (r * exact) == r * d;
    ProductWithin(r, b, d, eps);
  }

  lemma ProductWithin(r: real, b: real, d: real, eps: real)
    requires -b <= r <= b && -eps <= d <= eps
    ensures -(b * eps) <= r * d <= b * eps
  {
    assert (b - r) * (eps + d) >= 0.0 && (b + r) * (eps - d) >= 0.0;
    assert (b - r) * (eps - d) >= 0.0 && (b + r) * (eps + d) >= 0.0;
  }

  predicate PixelWithin(p: Pixel, luma: real, red: real, gu: real, gv: real, blue: real, eps: real) {
    Near(p.r, luma + red, eps) && Near(p.g, luma - gu - gv, eps) && Near(p.b, luma + blue, eps)
  }

  lemma TermsNear(luma: int, lx: real, red: int, rx: real, gu: int, gux: real, gv: int, gvx: real, blue: int, bx: real,
                  dl: real, dc: real, dg: real, eps: real)
    requires ScaledOff(luma, lx, 255.0, dl) && ScaledOff(red, rx, 128.0, dc) && ScaledOff(blue, bx, 128.0, dc)
    requires ScaledOff(gu, gux, 128.0, dg) && ScaledOff(gv, gvx, 128.0, dg)
    requires OffBudget(dl, dc, dg, eps)
    ensures PixelWithin(FromTerms(luma, red, gu, gv, blue), lx, rx, gux, gvx, bx, 0.5 + eps)
  {
    hide Near, Clamp8;
    RoundedNear(luma + red, lx + rx, eps);
    RoundedNear(luma - gu - gv, lx - gux - gvx, eps);
    RoundedNear(luma + blue, lx + bx, eps);
  }

  /** Coefficient errors that add up to at most `eps` in each channel. */
  predicate OffBudget(luma: real, chroma: real, green: real, eps: real) {
    && 0.0 <= luma && 0.0 <= chroma && 0.0 <= green
    && 255.0 * luma + 128.0 * chroma <= 1024.0 * eps && 255.0 * luma + 256.0 * green <= 1024.0 * eps
  }

  predicate CentredClose(p: Pixel, e: Matrix, y: int, u: int, v: int, eps: real) {
    PixelWithin(p, Scaled(y, e.y), Scaled(v, e.rv), Scaled(u, e.gu), Scaled(v, e.gv), Scaled(u, e.bu), eps)
  }

  /** The pixel is within `eps` of the exact matrix in every channel. */
  predicate CloseTo(p: Pixel, e: Matrix, y: byte, u: byte, v: byte, eps: real) {
    CentredClose(p, e, y - e.black, u - 128, v - 128, eps)
  }

  /** A pixel whose coefficients are off by little is off by little. */
  lemma PixelNear(c: Coeffs, e: Matrix, luma: real, chroma: real, green: real, y: int, u: int, v: int, eps: real)
    requires OffBudget(luma, chroma, green, eps) && -255 <= y <= 255 && -128 <= u <= 128 && -128 <= v <= 128
    requires Within(c.cy, e.y, luma) && Within(c.cr, e.rv, chroma) && Within(c.gu, e.gu, green)
    requires Within(c.gv, e.gv, green) && Within(c.cb, e.bu, chroma)
    ensures CentredClose(Centred(c, y, u, v), e, y, u, v, 0.5 + eps)
  {
    hide ScaledOff, Within, PixelWithin, FromTerms, OffBudget, Times, Scaled;
    assert -255.0 <= y as real <= 255.0 && -128.0 <= u as real <= 128.0 && -128.0 <= v as real <= 128.0;
    ScaledWithin(y, 255.0, c.cy, e.y, luma);
    ScaledWithin(v, 128.0, c.cr, e.rv, chroma);
    ScaledWithin(u, 128.0, c.gu, e.gu, green);
    ScaledWithin(v, 128.0, c.gv, e.gv, green);
    ScaledWithin(u, 128.0, c.cb, e.bu, chroma);
    TermsNear(Times(y, c.cy), Scaled(y, e.y), Times(v, c.cr), Scaled(v, e.rv), Times(u, c.gu), Scaled(u, e.gu),
              Times(v, c.gv), Scaled(v, e.gv), Times(u, c.cb), Scaled(u, e.bu), luma, chroma, green, eps);
  }

  /** Every supported conversion is within three quarters of a code value of its exact matrix. */
  lemma PixelIsClose(color: ColorInfo, y: byte, u: byte, v: byte)
    requires Known(color)
    ensures var c := Coefficients(color).value;
            CloseTo(YuvPixel(c, y, u, v), Exact(color), y, u, v, 0.75)
  {
    hide CentredClose, Exact, Centred, Within;
    TablesAreRounded(color);
    var c := Coefficients(color).value;
    PixelNear(c, Exact(color), 0.5, 0.5, 0.5, y - c.offset, u - 128, v - 128, 0.25);
  }

  lemma Bt601Within()
    ensures var e := Exact(ColorInfo(Bt601, Full));
            && Within(1024, e.y, 0.0) && Within(1436, e.rv, 0.5) && Within(352, e.gu, 0.4)
            && Within(731, e.gv, 0.4) && Within(1815, e.bu, 0.5) && e.black == 0
  {
  }

  /** Full-range BT.601 output is within 0.6 of the matrix of Recommendation ITU-R BT.601-7. */
  lemma Bt601IsClose(y: byte, u: byte, v: byte)
    ensures CloseTo(YuvPixel(BT601_FULL, y, u, v), Exact(ColorInfo(Bt601, Full)), y, u, v, 0.6)
  {
    hide CentredClose, Exact, Centred, Within;
    Bt601Within();
    PixelNear(BT601_FULL, Exact(ColorInfo(Bt601, Full)), 0.0, 0.5, 0.4, y, u - 128, v - 128, 0.1);
  }

  lemma WholeNear(n: int, x: real, eps: real)
    requires -eps <= n as real - x <= eps
    ensures Near(Clamp8(n), x, eps)
  {
  }

  lemma Bt601Exact()
    ensures var e := Exact(ColorInfo(Bt601, Full));
            && e.black == 0 && e.y == 1.0 && e.rv == 1.402 && e.bu == 1.772
            && 0.3441 < e.gu < 0.3442 && 0.7141 < e.gv < 0.7142
  {
  }

  lemma GreenNear(y: int, u: int, v: int, gu: real, gv: real)
    requires -128 <= u < 128 && -128 <= v < 128 && 0.3441 < gu < 0.3442 && 0.7141 < gv < 0.7142
    ensures Near(Clamp8(y - (88 * u + 183 * v) / 256), y as real - Scaled(u, gu) - Scaled(v, gv), 1.25)
  {
    var q := (88 * u + 183 * v) / 256;
    assert 256 * q <= 88 * u + 183 * v < 256 * q + 256;
    assert 256.0 * q as real <= 88.0 * u as real + 183.0 * v as real <= 256.0 * q as real + 256.0;
    ProductWithin(u as real, 128.0, gu - 0.34375, 0.00045);
    ProductWithin(v as real, 128.0, gv - 0.71484375, 0.00075);
    assert Scaled(u, gu) == u as real * (gu - 0.34375) + 0.34375 * u as real;
    assert Scaled(v, gv) == v as real * (gv - 0.71484375) + 0.71484375 * v as real;
    WholeNear(y - q, y as real - Scaled(u, gu) - Scaled(v, gv), 1.25);
  }

  /** The 8-bit scalar pixel, which rounds down, is within 1.25 of the matrix of Recommendation ITU-R BT.601-7. */
  lemma PackedIsClose(y: byte, u: byte, v: byte)
    ensures CloseTo(PackedPixel(y, u, v), Exact(ColorInfo(Bt601, Full)), y, u, v, 1.25)
  {
    hide Exact, Near, Clamp8;
    Bt601Exact();
    var e, a, b := Exact(ColorInfo(Bt601, Full)), u - 128, v - 128;
    var red, blue := (359 * b) / 256, (454 * a) / 256;
    assert 256 * red <= 359 * b < 256 * red + 256 && 256 * blue <= 454 * a < 256 * blue + 256;
    assert 256.0 * red as real <= 359.0 * b as real <= 256.0 * red as real + 256.0;
    assert 256.0 * blue as real <= 454.0 * a as real <= 256.0 * blue as real + 256.0;
    WholeNear(y + red, y as real + 1.402 * b as real, 1.25);
    WholeNear(y + blue, y as real + 1.772 * a as real, 1.25);
    GreenNear(y, a, b, e.gu, e.gv);
    assert Scaled(y, e.y) == y as real && Scaled(b, e.rv) == 1.402 * b as real && Scaled(a, e.bu) == 1.772 * a as real;
  }

  /** Nominal black and white come out as black and white, in every matrix and range. */
  lemma BlackAndWhite(color: ColorInfo)
    requires Known(color)
    ensures var c := Coefficients(color).value;
            && YuvPixel(c, if color.range.Limited? then 16 else 0, 128, 128) == Pixel(0, 0, 0)
            && YuvPixel(c, if color.range.Limited? then 235 else 255, 128, 128) == Pixel(255, 255, 255)
  {
  }
}
