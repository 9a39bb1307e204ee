/** Moves of the unit disc, with which the hyperbolic view places its nodes, in exact
    real arithmetic. Points are complex numbers; angles and polar coordinates, which
    the program converts from and to, are not part of this model. */
module Moebius {

  datatype Complex = Complex(x: real, y: real) {
    function Add(a: Complex): Complex {
      Complex(x + a.x, y + a.y)
    }

    function Prod(a: Complex): Complex {
      Complex(x * a.x - y * a.y, y * a.x + x * a.y)
    }

    function Conjugate(): Complex {
      Complex(x, -y)
    }

    function Scale(k: real): Complex {
      Complex(x * k, y * k)
    }

    function SquaredNorm(): real {
      Square(x) + Square(y)
    }
  }

  const ZERO := Complex(0.0, 0.0)

  /** Strictly inside the unit disc. */
  predicate Inside(z: Complex) {
    z.SquaredNorm() < 1.0
  }

  function Numerator(z: Complex, f: Complex): Complex {
    z.Add(f.Scale(-1.0))
  }

  function Denominator(z: Complex, f: Complex): Complex {
    Complex(1.0, 0.0).Add(f.Conjugate().Prod(z).Scale(-1.0))
  }

  /** Complex.moebiusTransformation; its first argument is not used. */
  function Move(z: Complex, f: Complex): Complex
    requires Denominator(z, f).SquaredNorm() != 0.0
  {
    var e := Denominator(z, f);
    Numerator(z, f).Prod(e.Conjugate()).Scale(1.0 / e.SquaredNorm())
  }

  // ---------------------------------------------------------------- complex arithmetic

  /** The norm of a product is the product of the norms, part by part. */
  lemma ProductOfSquares(a: real, b: real, c: real, d: real, p: real, q: real, m: real, n: real)
    requires p == a * c - b * d && q == b * c + a * d
    requires m == a * a + b * b && n == c * c + d * d
    ensures p * p + q * q == m * n
  {
  }

  function Square(a: real): (r: real)
    ensures r >= 0.0 && (r == 0.0 <==> a == 0.0)
  {
    Times(a, a)
  }

  function Times(a: real, b: real): (r: real)
    ensures (a > 0.0 && b > 0.0) || (a < 0.0 && b < 0.0) ==> r > 0.0
    ensures a == 0.0 ==> r == 0.0
  {
    a * b
  }

  lemma NormNotNegative(z: Complex)
    ensures z.SquaredNorm() >= 0.0
    ensures z.SquaredNorm() == 0.0 ==> z == ZERO
  {
  }

  lemma ZeroTimes(a: real, b: real)
    requires a == 0.0
    ensures a * b == 0.0
  {
  }

  lemma NormOf(z: Complex, x: real, y: real)
    requires z == Complex(x, y)
    ensures z.SquaredNorm() == x * x + y * y
  {
  }

  /** The identity behind the moves of the disc; `p` and `q` tell how far inside the
      two points are. */
  lemma DenominatorNorm(z: Complex, f: Complex, p: real, q: real)
    requires p == 1.0 - f.SquaredNorm() && q == 1.0 - z.SquaredNorm()
    ensures Denominator(z, f).SquaredNorm() == Numerator(z, f).SquaredNorm() + p * q
  {
    DenominatorParts(z, f);
    NumeratorParts(z, f);
    NormsFit(z, f, Denominator(z, f), Numerator(z, f), p, q);
  }

  lemma NumeratorParts(z: Complex, f: Complex)
    ensures Numerator(z, f) == Complex(z.x - f.x, z.y - f.y)
  {
  }

  lemma NormsFit(z: Complex, f: Complex, e: Complex, n: Complex, p: real, q: real)
    requires e.x == 1.0 - (f.x * z.x + f.y * z.y) && e.y == f.y * z.x - f.x * z.y
    requires n.x == z.x - f.x && n.y == z.y - f.y
    requires p == 1.0 - f.SquaredNorm() && q == 1.0 - z.SquaredNorm()
    ensures e.SquaredNorm() == n.SquaredNorm() + p * q
  {
  }

  lemma Positive(a: real, b: real)
    requires a > 0.0 && b > 0.0
    ensures a * b > 0.0
  {
  }

  lemma DenominatorLarger(z: Complex, f: Complex)
    requires Inside(z) && Inside(f)
    ensures Denominator(z, f).SquaredNorm() > Numerator(z, f).SquaredNorm()
  {
    var p, q := 1.0 - f.SquaredNorm(), 1.0 - z.SquaredNorm();
    DenominatorNorm(z, f, p, q);
    Positive(p, q);
  }

  /** The move is the quotient of numerator and denominator. */
  lemma MoveIsQuotient(z: Complex, f: Complex)
    requires Denominator(z, f).SquaredNorm() != 0.0
    ensures Move(z, f).Prod(Denominator(z, f)) == Numerator(z, f)
  {
    Cancelled(Numerator(z, f), Denominator(z, f));
  }

  lemma Cancelled(n: Complex, e: Complex)
    requires e.SquaredNorm() != 0.0
    ensures n.Prod(e.Conjugate()).Scale(1.0 / e.SquaredNorm()).Prod(e) == n
  {
    Inverse(e.SquaredNorm());
    DividedAndMultiplied(n.x, n.y, e.x, e.y, 1.0 / e.SquaredNorm());
  }

  lemma Inverse(c: real)
    requires c != 0.0
    ensures 1.0 / c * c == 1.0
  {
  }

  lemma DividedAndMultiplied(a: real, b: real, c: real, d: real, k: real)
    requires k * (c * c + d * d) == 1.0
    ensures (a * c - b * -d) * k * c - (b * c + a * -d) * k * d == a
    ensures (b * c + a * -d) * k * c + (a * c - b * -d) * k * d == b
  {
    assert (a * c - b * -d) * k * c - (b * c + a * -d) * k * d == a * (k * (c * c + d * d));
    assert (b * c + a * -d) * k * c + (a * c - b * -d) * k * d == b * (k * (c * c + d * d));
  }

  lemma QuotientIsUnique(v: Complex, w: Complex, e: Complex)
    requires e.SquaredNorm() != 0.0 && v.Prod(e) == w.Prod(e)
    ensures v == w
  {
    DividedBack(v, e);
    DividedBack(w, e);
  }

  lemma DividedBack(v: Complex, e: Complex)
    requires e.SquaredNorm() != 0.0
    ensures v.Prod(e).Prod(e.Conjugate()).Scale(1.0 / e.SquaredNorm()) == v
  {
    Inverse(e.SquaredNorm());
    MultipliedAndDivided(v.x, v.y, e.x, e.y, 1.0 / e.SquaredNorm());
  }

  lemma MultipliedAndDivided(a: real, b: real, c: real, d: real, k: real)
    requires k * (c * c + d * d) == 1.0
    ensures ((a * c - b * d) * c - (b * c + a * d) * -d) * k == a
    ensures ((b * c + a * d) * c + (a * c - b * d) * -d) * k == b
  {
    assert ((a * c - b * d) * c - (b * c + a * d) * -d) * k == a * (k * (c * c + d * d));
    assert ((b * c + a * d) * c + (a * c - b * d) * -d) * k == b * (k * (c * c + d * d));
  }

  // ---------------------------------------------------------------- moves of the disc

  /** Main result: a move by a point of the disc keeps the disc. */
  lemma MoveStaysInside(z: Complex, f: Complex)
    requires Inside(z) && Inside(f)
    ensures Denominator(z, f).SquaredNorm() > 0.0 && Inside(Move(z, f))
  {
    DenominatorLarger(z, f);
    NumeratorNotNegative(z, f);
    MoveIsQuotient(z, f);
    QuotientInside(Move(z, f), Denominator(z, f), Numerator(z, f));
  }

  lemma NumeratorNotNegative(z: Complex, f: Complex)
    ensures Numerator(z, f).SquaredNorm() >= 0.0
  {
    NormNotNegative(Numerator(z, f));
  }

  lemma QuotientInside(w: Complex, e: Complex, n: Complex)
    requires w.Prod(e) == n && 0.0 <= n.SquaredNorm() < e.SquaredNorm()
    ensures Inside(w)
  {
    NormOf(w, w.x, w.y);
    NormOf(e, e.x, e.y);
    NormOf(n, n.x, n.y);
    QuotientBelowOne(w.x, w.y, e.x, e.y, n.x, n.y, w.SquaredNorm(), e.SquaredNorm(), n.SquaredNorm());
  }

  lemma QuotientBelowOne(a: real, b: real, c: real, d: real, p: real, q: real, m: real, n: real, k: real)
    requires p == a * c - b * d && q == b * c + a * d
    requires m == a * a + b * b && n == c * c + d * d && k == p * p + q * q && 0.0 <= k < n
    ensures m < 1.0
  {
    ProductOfSquares(a, b, c, d, p, q, m, n);
    BelowOne(m, n, k);
  }

  lemma BelowOne(w: real, e: real, n: real)
    requires w * e == n && n < e && 0.0 < e
    ensures w < 1.0
  {
    if w >= 1.0 {
      Scaled(w, 1.0, e);
    }
  }

  lemma Scaled(a: real, b: real, c: real)
    requires a >= b && c > 0.0
    ensures a * c >= b * c
  {
  }

  /** Main result: the move by the opposite point undoes a move. */
  lemma MoveBack(z: Complex, f: Complex)
    requires Inside(z) && Inside(f)
    ensures Denominator(z, f).SquaredNorm() > 0.0
    ensures Denominator(Move(z, f), f.Scale(-1.0)).SquaredNorm() > 0.0
    ensures Move(Move(z, f), f.Scale(-1.0)) == z
  {
    MoveStaysInside(z, f);
    var w, g := Move(z, f), f.Scale(-1.0);
    OppositeInside(f);
    MoveStaysInside(w, g);
    MoveIsQuotient(z, f);
    MoveIsQuotient(w, g);
    Exchange(z, w, f);
    QuotientIsUnique(Move(w, g), z, Denominator(w, g));
  }

  lemma OppositeInside(f: Complex)
    requires Inside(f)
    ensures Inside(f.Scale(-1.0))
    ensures f.Scale(-1.0).Scale(-1.0) == f
  {
  }

  /** If `w` is the quotient for `z` and `f`, then `z` is the one for `w` and `-f`. */
  lemma Exchange(z: Complex, w: Complex, f: Complex)
    requires w.Prod(Denominator(z, f)) == Numerator(z, f)
    ensures z.Prod(Denominator(w, f.Scale(-1.0))) == Numerator(w, f.Scale(-1.0))
  {
    ProdDenominator(w, z, f);
    ProdOpposite(z, w, f);
    TripleProd(z, f.Conjugate(), w);
    NumeratorParts(z, f);
    NumeratorParts(w, f.Scale(-1.0));
  }

  lemma ProdDenominator(w: Complex, z: Complex, f: Complex)
    ensures w.Prod(Denominator(z, f))
      == Complex(w.x - w.Prod(f.Conjugate().Prod(z)).x, w.y - w.Prod(f.Conjugate().Prod(z)).y)
  {
  }

  lemma ProdOpposite(z: Complex, w: Complex, f: Complex)
    ensures z.Prod(Denominator(w, f.Scale(-1.0)))
      == Complex(z.x + z.Prod(f.Conjugate().Prod(w)).x, z.y + z.Prod(f.Conjugate().Prod(w)).y)
  {
  }

  lemma TripleProd(a: Complex, b: Complex, c: Complex)
    ensures a.Prod(b.Prod(c)) == c.Prod(b.Prod(a))
  {
  }

  lemma DenominatorParts(z: Complex, f: Complex)
    ensures Denominator(z, f) == Complex(1.0 - (f.x * z.x + f.y * z.y), f.y * z.x - f.x * z.y)
  {
  }

  lemma ZeroProd(a: Complex, z: Complex)
    requires a == ZERO
    ensures a.Prod(z) == ZERO
  {
    ZeroTimes(a.x, z.x);
    ZeroTimes(a.y, z.y);
    ZeroTimes(a.y, z.x);
    ZeroTimes(a.x, z.y);
  }

  lemma ZeroScale(a: Complex)
    requires a == ZERO
    ensures a.Scale(-1.0) == ZERO && a.Conjugate() == ZERO
  {
  }

  lemma AddZero(a: Complex, b: Complex)
    requires b == ZERO
    ensures a.Add(b) == a
  {
  }

  lemma AtOrigin(z: Complex)
    ensures Denominator(z, ZERO) == Complex(1.0, 0.0) && Numerator(z, ZERO) == z
  {
    ZeroScale(ZERO);
    AddZero(z, ZERO.Scale(-1.0));
    var p := ZERO.Conjugate().Prod(z);
    ZeroProd(ZERO.Conjugate(), z);
    ZeroScale(p);
    AddZero(Complex(1.0, 0.0), p.Scale(-1.0));
  }

  lemma QuotientByOne(w: Complex, e: Complex)
    requires e == Complex(1.0, 0.0)
    ensures w.Prod(e) == w
  {
  }

  /** The point that the move by the origin reaches is the point itself. */
  lemma MoveByOrigin(z: Complex)
    ensures Denominator(z, ZERO).SquaredNorm() != 0.0 && Move(z, ZERO) == z
  {
    AtOrigin(z);
    NormOf(Denominator(z, ZERO), 1.0, 0.0);
    MoveIsQuotient(z, ZERO);
    QuotientByOne(Move(z, ZERO), Denominator(z, ZERO));
  }

  lemma MoveToOrigin(f: Complex)
    requires Inside(f)
    ensures Denominator(f, f).SquaredNorm() > 0.0 && Move(f, f) == ZERO
  {
    MoveStaysInside(f, f);
  }
}
