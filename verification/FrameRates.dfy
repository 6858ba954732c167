/** Frame rates: normalised positive fractions, compared by cross-multiplication. */
module FrameRates {
  import opened Basics

  datatype FrameRate = FrameRate(numerator: u32, denominator: u32)

  predicate Divides(d: int, n: int) {
    d != 0 && n % d == 0
  }

  /** No common divisor but 1. */
  ghost predicate LowestTerms(a: int, b: int) {
    forall d :: 1 < d && Divides(d, a) ==> !Divides(d, b)
  }

  ghost predicate Constructed(r: FrameRate) {
    0 < r.numerator && 0 < r.denominator && LowestTerms(r.numerator, r.denominator)
  }

  lemma DivMulti(d: int, a: int, k: int)
    requires d != 0 && a == d * k
    ensures Divides(d, a)
  {
    MultipleMod(d, k);
  }

  lemma MultipleMod(d: int, k: int)
    requires d != 0
    ensures (d * k) % d == 0
  {
    var q, r := (d * k) / d, (d * k) % d;
    assert d * k == d * q + r;
    assert d * (k - q) == r;
    if k - q != 0 {
      SmallMultiple(d, k - q, r);
    }
  }

  lemma SmallMultiple(d: int, m: int, r: int)
    requires d * m == r && m != 0 && d != 0
    ensures r >= Abs(d) || r <= -Abs(d)
  {
    if m > 0 { assert d > 0 ==> d * m >= d; assert d < 0 ==> d * m <= d; }
    else { assert d > 0 ==> d * m <= -d; assert d < 0 ==> d * m >= -d; }
  }

  function Abs(n: int): int {
    if n < 0 then -n else n
  }

  /** A common divisor divides every combination. */
  lemma DividesCombination(d: int, a: int, b: int, s: int, t: int)
    requires Divides(d, a) && Divides(d, b)
    ensures Divides(d, s * a + t * b)
  {
    var p, q := a / d, b / d;
    assert a == d * p && b == d * q;
    assert s * a + t * b == d * (s * p + t * q);
    DivMulti(d, s * a + t * b, s * p + t * q);
  }

  /** One round of Euclid's loop keeps the common divisors. */
  lemma SameDivisors(a: nat, b: nat, d: int)
    requires 0 < b
    ensures Divides(d, a) && Divides(d, b) <==> Divides(d, b) && Divides(d, a % b)
  {
    var q := a / b;
    assert a == q * b + a % b;
    if Divides(d, a) && Divides(d, b) {
      DividesCombination(d, a, b, 1, -q);
      assert 1 * a + -q * b == a % b;
    }
    if Divides(d, b) && Divides(d, a % b) {
      DividesCombination(d, b, a % b, q, 1);
      assert q * b + 1 * (a % b) == a;
    }
  }

  /** The result of Euclid's loop, with the combination that makes it: every common divisor divides it. */
  lemma Bezout(a: nat, b: nat) returns (g: nat, s: int, t: int)
    requires 0 < a || 0 < b
    ensures 0 < g && Divides(g, a) && Divides(g, b) && s * a + t * b == g
    decreases b
  {
    if b == 0 {
      g, s, t := a, 1, 0;
      MultipleMod(a, 1);
      MultipleMod(a, 0);
    } else {
      var s', t';
      g, s', t' := Bezout(b, a % b);
      SameDivisors(a, b, g);
      s, t := t', s' - t' * (a / b);
      assert a == a / b * b + a % b;
      assert s * a + t * b == s' * b + t' * (a - a / b * b);
    }
  }

  /** `FrameRate::new`: a positive fraction of the same value in lowest terms, or an error. */
  method New(numerator: u32, denominator: u32) returns (r: Result<FrameRate>)
    ensures numerator == 0 || denominator == 0 <==> r.Err?
    ensures r.Ok? ==> Constructed(r.value) && r.value.numerator * denominator == numerator * r.value.denominator
  {
    if numerator == 0 || denominator == 0 {
      return Err(InvalidConfig);
    }
    var a, b := numerator, denominator;
    while b != 0
      invariant 0 < a && 0 <= b
      invariant forall d :: Divides(d, a) && Divides(d, b) <==> Divides(d, numerator) && Divides(d, denominator)
      decreases b
    {
      forall d ensures Divides(d, b) && Divides(d, a % b) <==> Divides(d, numerator) && Divides(d, denominator) {
        SameDivisors(a, b, d);
      }
      a, b := b, a % b;
    }
    MultipleMod(a, 0);
    MultipleMod(a, 1);
    assert Divides(a, a) && Divides(a, 0);
    Reduced(numerator, denominator, a);
    r := Ok(FrameRate(numerator / a, denominator / a));
  }

  /** Dividing by the greatest common divisor gives lowest terms of the same value. */
  lemma Reduced(n: nat, m: nat, g: nat)
    requires 0 < n && 0 < m && 0 < g
    requires forall d :: Divides(d, n) && Divides(d, m) <==> Divides(d, g) && Divides(d, 0)
    requires Divides(g, n) && Divides(g, m)
    ensures 0 < n / g <= n && 0 < m / g <= m && LowestTerms(n / g, m / g)
    ensures (n / g) * m == n * (m / g)
  {
    var p, q := n / g, m / g;
    Factor(n, g);
    Factor(m, g);
    Regroup(p, q, g);
    forall d | 1 < d && Divides(d, p) ensures !Divides(d, q) {
      if Divides(d, q) {
        CommonFactor(p, q, g, d);
        LargerFactor(d, g);
      }
    }
  }

  lemma Factor(n: nat, g: nat)
    requires 0 < n && Divides(g, n) && 0 < g
    ensures n == n / g * g && 0 < n / g <= n
  {
    assert n == n / g * g + n % g;
    FactorBounds(n / g, g);
  }

  lemma FactorBounds(p: nat, g: nat)
    requires 0 < g
    ensures p <= p * g && (0 < p * g ==> 0 < p)
  {
    assert p * (g - 1) >= 0;
  }

  lemma Regroup(p: nat, q: nat, g: nat)
    ensures p * (q * g) == (p * g) * q
  {
  }

  lemma CommonFactor(p: nat, q: nat, g: nat, d: int)
    requires 1 < d && 0 < g && Divides(d, p) && Divides(d, q)
    ensures 0 < d * g && Divides(d * g, p * g) && Divides(d * g, q * g)
  {
    assert 0 < d * g;
    var i, j := p / d, q / d;
    assert p * g == (d * g) * i && q * g == (d * g) * j;
    DivMulti(d * g, p * g, i);
    DivMulti(d * g, q * g, j);
  }

  /** A positive number has no larger divisor. */
  lemma LargerFactor(d: int, g: nat)
    requires 1 < d && 0 < g
    ensures !Divides(d * g, g)
  {
    assert g < d * g;
  }

  // ----- Order -----

  datatype Ordering = Less | Equal | Greater

  /** `cmp` on the products, which fit 64 bits. */
  function Compare(a: FrameRate, b: FrameRate): (o: Ordering)
    ensures 0 <= a.numerator * b.denominator < U64_LIMIT && 0 <= b.numerator * a.denominator < U64_LIMIT
  {
    ProductFits(a.numerator, b.denominator);
    ProductFits(b.numerator, a.denominator);
    var x, y := a.numerator * b.denominator, b.numerator * a.denominator;
    if x < y then Less else if x == y then Equal else Greater
  }

  lemma ProductBelow(a: nat, b: nat, m: nat)
    requires a <= m && b <= m
    ensures 0 <= a * b <= m * m
  {
    assert (m - a) * b >= 0 && m * (m - b) >= 0;
  }

  lemma ProductFits(a: u32, b: u32)
    ensures 0 <= a * b < U64_LIMIT
  {
    ProductBelow(a, b, U32_LIMIT - 1);
  }

  /** A number coprime to `b` that divides a product with `b` divides the other factor. */
  lemma Coprime(a: nat, b: nat, c: nat)
    requires 0 < a && LowestTerms(a, b) && Divides(a, b * c)
    ensures Divides(a, c)
  {
    var g, s, t := Bezout(a, b);
    assert Divides(g, a) && Divides(g, b);
    assert g == 1;
    var k := b * c / a;
    assert b * c == a * k;
    assert c == (s * a + t * b) * c == a * (s * c) + t * (b * c) == a * (s * c + t * k);
    DivMulti(a, c, s * c + t * k);
  }

  lemma DividesOrder(a: nat, b: nat)
    requires 0 < a && 0 < b && Divides(a, b) && Divides(b, a)
    ensures a == b
  {
    var k, l := b / a, a / b;
    assert b == a * k && a == b * l;
    assert k >= 1 && l >= 1;
    assert b >= a && a >= b;
  }

  /** Equal rates have equal fields: the order agrees with `==` and with hashing. */
  lemma EqualIffSame(a: FrameRate, b: FrameRate)
    requires Constructed(a) && Constructed(b)
    ensures Compare(a, b) == Equal <==> a == b
  {
    if Compare(a, b) == Equal {
      var n: nat, d: nat, m: nat, e: nat := a.numerator, a.denominator, b.numerator, b.denominator;
      assert n * e == m * d;
      SwapTerms(n, d);
      SwapTerms(m, e);
      DivMulti(n, d * m, e);
      Coprime(n, d, m);
      DivMulti(m, e * n, d);
      Coprime(m, e, n);
      DividesOrder(n, m);
      SameFactor(n, e, d);
    }
  }

  lemma SameFactor(n: nat, e: nat, d: nat)
    requires 0 < n && n * e == n * d
    ensures e == d
  {
    assert n * (e - d) == 0;
  }

  lemma SwapTerms(a: nat, b: nat)
    requires LowestTerms(a, b)
    ensures LowestTerms(b, a)
  {
  }

  /** Cross-multiplication is a total order on positive rates. */
  lemma CompareIsTotal(a: FrameRate, b: FrameRate)
    ensures Compare(a, b) == Less <==> Compare(b, a) == Greater
    ensures Compare(a, b) == Equal <==> Compare(b, a) == Equal
    ensures Compare(a, a) == Equal
  {
  }

  lemma RatioOrder(n: nat, d: nat, m: nat, e: nat)
    requires 0 < d && 0 < e
    ensures n * e < m * d <==> n as real / d as real < m as real / e as real
    ensures n * e == m * d <==> n as real / d as real == m as real / e as real
  {
    var p, q := n as real / d as real, m as real / e as real;
    var de := d as real * e as real;
    assert p * d as real == n as real && q * e as real == m as real;
    assert p * de == (n * e) as real && q * de == (m * d) as real;
    assert de > 0.0;
    assert (q - p) * de == (m * d - n * e) as real;
    if p < q { assert (q - p) * de > 0.0; }
    if q < p { assert (p - q) * de > 0.0; }
  }

  /** It is the order of the rates as real numbers. */
  lemma CompareIsByValue(a: FrameRate, b: FrameRate)
    requires 0 < a.denominator && 0 < b.denominator
    ensures var x, y := a.numerator as real / a.denominator as real, b.numerator as real / b.denominator as real;
            && (Compare(a, b) == Less <==> x < y) && (Compare(a, b) == Equal <==> x == y) && (Compare(a, b) == Greater <==> x > y)
  {
    RatioOrder(a.numerator, a.denominator, b.numerator, b.denominator);
  }

  lemma CompareIsTransitive(a: FrameRate, b: FrameRate, c: FrameRate)
    requires 0 < a.denominator && 0 < b.denominator && 0 < c.denominator
    requires Compare(a, b) != Greater && Compare(b, c) != Greater
    ensures Compare(a, c) != Greater
  {
    Chain(a.numerator, a.denominator, b.numerator, b.denominator, c.numerator, c.denominator);
  }

  lemma Chain(an: nat, ad: nat, bn: nat, bd: nat, cn: nat, cd: nat)
    requires 0 < ad && 0 < bd && 0 < cd && an * bd <= bn * ad && bn * cd <= cn * bd
    ensures an * cd <= cn * ad
  {
    assert an * bd * cd <= bn * ad * cd;
    assert bn * cd * ad <= cn * bd * ad;
    assert (an * cd) * bd <= (cn * ad) * bd;
  }
}
