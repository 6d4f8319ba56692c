/**
 * Facts of real arithmetic that the statistics rely on, each proved on its
 * own so that the nonlinear reasoning stays small.
 */
module RealFacts {

  /** Multiplying by a positive number keeps the sign. */
  lemma ProductSign(x: real, n: real)
    requires n > 0.0
    ensures x * n > 0.0 <==> x > 0.0
    ensures x * n >= 0.0 <==> x >= 0.0
  {
  }

  /** Dividing bounds n·lo <= s <= n·hi by n > 0. */
  lemma DivisionBetween(s: real, n: real, lo: real, hi: real)
    requires n > 0.0 && n * lo <= s <= n * hi
    ensures lo <= s / n <= hi
  {
    var q := s / n;
    assert q * n == s;
    assert (q - lo) * n >= 0.0 && (hi - q) * n >= 0.0;
    ProductSign(q - lo, n);
    ProductSign(hi - q, n);
  }

  /** nr / dr > 0.8 is the integer-free comparison 5·nr > 4·dr. */
  lemma RatioAboveFourFifths(nr: real, dr: real)
    requires dr > 0.0
    ensures nr / dr > 0.8 <==> 5.0 * nr > 4.0 * dr
  {
    var q := nr / dr;
    assert q * dr == nr;
    assert (q - 0.8) * dr == nr - 0.8 * dr;
    ProductSign(q - 0.8, dr);
  }

  lemma PositiveProduct(x: real, y: real)
    requires x > 0.0 && y > 0.0
    ensures x * y > 0.0
  {
  }

  /*
   * Facts about x·x compared with 0 are stated about `Square(x)`: the solver
   * rewrites such comparisons of x·x itself into forms it then cannot use.
   */
  function Square(x: real): real
  {
    x * x
  }

  lemma SquareOfPositive(x: real, y: real)
    requires x > 0.0 && y > 0.0
    ensures x == y ==> Square(x) > 0.0
  {
    PositiveProduct(x, y);
    if x == y {
      assert Square(x) == x * y;
    }
  }

  lemma SquarePositive(d: real)
    requires d != 0.0
    ensures Square(d) > 0.0
  {
    var a := if d > 0.0 then d else -d;
    SquareOfPositive(a, a);
    assert Square(a) == Square(d);
  }

  lemma SquareNonNegative(x: real)
    ensures x * x >= 0.0
  {
    assert Square(x) >= 0.0;
  }

  /** A sum of a non-negative s and a square d² is 0 only when both are. */
  lemma SumWithSquareZero(s: real, d: real)
    requires s >= 0.0
    ensures s + d * d == 0.0 ==> d == 0.0 && s == 0.0
  {
    if d != 0.0 {
      SquarePositive(d);
    }
    assert Square(d) == d * d;
  }

  lemma MulMonotone(p: real, q: real, r: real)
    requires p >= q && r >= 0.0
    ensures p * r >= q * r
  {
    assert p * r - q * r == (p - q) * r;
  }

  /** For u >= 0, u² >= v² gives u >= v. */
  lemma RootMonotone(u: real, v: real)
    ensures u >= 0.0 && u * u >= v * v ==> u >= v
  {
    if u >= 0.0 && v > u {
      PositiveProduct(v - u, v + u);
      assert Square(v) - Square(u) == (v - u) * (v + u);
    }
  }

  /** (X + Y)² >= 4·X·Y. */
  lemma SquareOfSumBound(X: real, Y: real)
    ensures (X + Y) * (X + Y) >= 4.0 * (X * Y)
  {
    assert (X + Y) * (X + Y) == (X - Y) * (X - Y) + 4.0 * (X * Y);
    SquareNonNegative(X - Y);
  }

  /** (A·b²)·(a²·B) = (A·B)·(ab)². */
  lemma RegroupProduct(A: real, B: real, a: real, b: real)
    ensures (A * (b * b)) * ((a * a) * B) == (A * B) * ((a * b) * (a * b))
  {
  }

  /** C²·(ab)² = (C·ab)², and (2·C·ab)² = 4·(C·ab)². */
  lemma RegroupSquares(C: real, ab: real)
    ensures (C * C) * (ab * ab) == (C * ab) * (C * ab)
    ensures (2.0 * C * ab) * (2.0 * C * ab) == 4.0 * ((C * ab) * (C * ab))
  {
  }

  /** The cross term: 2·C·ab <= A·b² + a²·B when C² <= A·B. */
  lemma CrossTermBound(A: real, B: real, C: real, a: real, b: real)
    requires A >= 0.0 && B >= 0.0 && C * C <= A * B
    ensures 2.0 * C * (a * b) <= A * (b * b) + (a * a) * B
  {
    var ab := a * b;
    var X := A * (b * b);
    var Y := (a * a) * B;
    var Z := 2.0 * C * ab;
    SquareNonNegative(a);
    SquareNonNegative(b);
    SquareNonNegative(ab);
    MulMonotone(A, 0.0, b * b);
    MulMonotone(B, 0.0, a * a);
    RegroupProduct(A, B, a, b);
    MulMonotone(A * B, C * C, ab * ab);
    RegroupSquares(C, ab);
    SquareOfSumBound(X, Y);
    RootMonotone(X + Y, Z);
  }

  /**
   * The inductive step of Cauchy–Schwarz: if C² <= A·B then adding the pair
   * (a, b) keeps (C + ab)² <= (A + a²)(B + b²). It reduces to 2Cab <= Ab² + a²B,
   * which follows from (Ab² + a²B)² >= 4·Ab²·a²B >= (2Cab)².
   */
  lemma CauchySchwarzStep(A: real, B: real, C: real, a: real, b: real)
    requires A >= 0.0 && B >= 0.0 && C * C <= A * B
    ensures (C + a * b) * (C + a * b) <= (A + a * a) * (B + b * b)
  {
    CrossTermBound(A, B, C, a, b);
    assert (C + a * b) * (C + a * b) == C * C + 2.0 * C * (a * b) + (a * b) * (a * b);
    assert (A + a * a) * (B + b * b) == A * B + A * (b * b) + (a * a) * B + (a * a) * (b * b);
    assert (a * a) * (b * b) == (a * b) * (a * b);
  }
}
