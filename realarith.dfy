/** Facts about real arithmetic that the length and sphere proofs rest on.
    Squares are written through `Square`, so that every fact about a square
    reaches the solver as a fact about one term. */
module RealArith {

  function Square(a: real): real
  {
    a * a
  }

  lemma ProductOfPositives(a: real, b: real)
    requires a > 0.0 && b > 0.0
    ensures a * b > 0.0
  {
  }

  lemma NegativeSquarePositive(a: real)
    requires a < 0.0
    ensures Square(a) > 0.0
  {
    var c := -a;
    var d := -a;
    ProductOfPositives(c, d);
    assert c * d == a * a;
  }

  /** The square of a non-zero number is positive. */
  lemma SquarePositive(a: real)
    requires a != 0.0
    ensures Square(a) > 0.0
  {
    if a < 0.0 {
      NegativeSquarePositive(a);
    } else {
      NegativeSquarePositive(-a);
      assert Square(-a) == Square(a);
    }
  }

  lemma SquareNonNegative(a: real)
    ensures Square(a) >= 0.0
  {
    if a != 0.0 {
      SquarePositive(a);
    }
  }

  /** A sum of three squares is never negative ... */
  lemma SumOfSquaresNonNegative(x: real, y: real, z: real)
    ensures Square(x) + Square(y) + Square(z) >= 0.0
  {
    SquareNonNegative(x);
    SquareNonNegative(y);
    SquareNonNegative(z);
  }

  /** ... and is positive as soon as one of the three numbers is not zero. */
  lemma SumOfSquaresPositive(x: real, y: real, z: real)
    requires x != 0.0 || y != 0.0 || z != 0.0
    ensures Square(x) + Square(y) + Square(z) > 0.0
  {
    SquareNonNegative(x);
    SquareNonNegative(y);
    SquareNonNegative(z);
    if x != 0.0 {
      SquarePositive(x);
    } else if y != 0.0 {
      SquarePositive(y);
    } else {
      SquarePositive(z);
    }
  }

  /** `root` is a non-negative square root of `x`. */
  predicate IsSquareRoot(x: real, root: real)
  {
    root >= 0.0 && Square(root) == x
  }

  /** The non-negative square root of zero is zero ... */
  lemma RootOfZero(x: real, root: real)
    requires IsSquareRoot(x, root) && x == 0.0
    ensures root == 0.0
  {
    if root != 0.0 {
      SquarePositive(root);
    }
  }

  /** ... and that of a positive number is positive. */
  lemma RootOfPositive(x: real, root: real)
    requires IsSquareRoot(x, root) && x > 0.0
    ensures root > 0.0
  {
  }

  lemma DifferenceOfSquares(a: real, b: real)
    ensures (a - b) * (a + b) == Square(a) - Square(b)
  {
  }

  lemma ZeroFactor(x: real, c: real)
    requires c > 0.0 && x * c == 0.0
    ensures x == 0.0
  {
  }

  /** Two non-negative square roots of the same number are equal. */
  lemma SquareRootUnique(x: real, r1: real, r2: real)
    requires IsSquareRoot(x, r1) && IsSquareRoot(x, r2)
    ensures r1 == r2
  {
    if r1 + r2 > 0.0 {
      DifferenceOfSquares(r1, r2);
      ZeroFactor(r1 - r2, r1 + r2);
    }
  }

  lemma MulDivCancel(x: real, y: real)
    requires y != 0.0
    ensures (x * y) / y == x
  {
  }

  lemma DivByReciprocal(s: real, y: real)
    requires y != 0.0
    ensures s / y == (1.0 / y) * s
    ensures y * (1.0 / y) == 1.0
  {
  }

  lemma SquareOfProduct(a: real, i: real)
    ensures Square(a * i) == Square(a) * Square(i)
  {
    assert (a * i) * (a * i) == (a * a) * (i * i);
  }

  lemma Distribute(p: real, q: real, r: real, k: real)
    ensures p * k + q * k + r * k == (p + q + r) * k
  {
  }

  lemma InverseSquared(l: real, i: real)
    requires l * i == 1.0
    ensures Square(l) * Square(i) == 1.0
  {
    SquareOfProduct(l, i);
  }

  /** Dividing (x, y, z) by a positive square root of the sum of their squares
      gives three numbers whose squares sum to 1, and multiplying back by it
      restores them. */
  lemma UnitScaling(x: real, y: real, z: real, l: real)
    requires l > 0.0 && Square(l) == Square(x) + Square(y) + Square(z)
    ensures Square(x / l) + Square(y / l) + Square(z / l) == 1.0
    ensures (x / l) * l == x && (y / l) * l == y && (z / l) * l == z
  {
    var i := 1.0 / l;
    assert x / l == x * i;
    assert y / l == y * i;
    assert z / l == z * i;
    SquareOfProduct(x, i);
    SquareOfProduct(y, i);
    SquareOfProduct(z, i);
    Distribute(Square(x), Square(y), Square(z), Square(i));
    InverseSquared(l, i);
  }

  /** A number whose square is at most one lies between -1 and 1. */
  lemma SquareAtMostOne(a: real)
    requires Square(a) <= 1.0
    ensures -1.0 <= a <= 1.0
  {
    if a > 1.0 {
      ProductOfPositives(a - 1.0, a + 1.0);
      DifferenceOfSquares(a, 1.0);
    } else if a < -1.0 {
      ProductOfPositives(-a - 1.0, -a + 1.0);
      DifferenceOfSquares(-a, 1.0);
    }
  }

  lemma ProductOfNonNegatives(a: real, b: real)
    requires a >= 0.0 && b >= 0.0
    ensures a * b >= 0.0
  {
    if a > 0.0 && b > 0.0 {
      ProductOfPositives(a, b);
    }
  }

  /** Squaring is monotone on the non-negative numbers. */
  lemma SquareMonotone(a: real, b: real)
    requires 0.0 <= a <= b
    ensures Square(a) <= Square(b)
  {
    ProductOfNonNegatives(b - a, b + a);
    DifferenceOfSquares(b, a);
  }

  /** `(o + t*d)^2`, multiplied out. */
  lemma ExpandSquare(o: real, d: real, t: real)
    ensures Square(o + t * d) == Square(o) + t * (2.0 * (o * d)) + Square(d) * (t * t)
  {
  }

  /** The quadratic `a t^2 + b t + c`. */
  function Quadratic(a: real, b: real, c: real, t: real): real
  {
    a * (t * t) + b * t + c
  }

  /** Completing the square: `4a (a t^2 + b t + c) = (2at + b)^2 - (b^2 - 4ac)`. */
  lemma CompleteSquare(a: real, b: real, c: real, t: real)
    ensures 4.0 * a * Quadratic(a, b, c, t) == Square(2.0 * a * t + b) - (b * b - 4.0 * a * c)
  {
  }

  /** An upward parabola that dips below zero somewhere has a positive
      discriminant ... */
  lemma NegativeValueGivesPositiveDiscriminant(a: real, b: real, c: real, t: real)
    requires a > 0.0 && Quadratic(a, b, c, t) < 0.0
    ensures b * b - 4.0 * a * c > 0.0
  {
    var q := Quadratic(a, b, c, t);
    ProductOfPositives(a, -q);
    CompleteSquare(a, b, c, t);
    SquareNonNegative(2.0 * a * t + b);
  }

  /** ... and one with a positive discriminant is negative at its vertex
      `-b / 2a`. */
  lemma PositiveDiscriminantGivesNegativeValue(a: real, b: real, c: real)
    requires a > 0.0 && b * b - 4.0 * a * c > 0.0
    ensures Quadratic(a, b, c, -b / (2.0 * a)) < 0.0
  {
    var t := -b / (2.0 * a);
    MulDivCancel(-b, 2.0 * a);
    assert 2.0 * a * t + b == 0.0;
    CompleteSquare(a, b, c, t);
    var q := Quadratic(a, b, c, t);
    if q >= 0.0 {
      ProductOfNonNegatives(a, q);
    }
  }

  /** The squared distance from the line `o + t*d` to the origin, minus `r2`,
      as a quadratic in `t`. */
  lemma SquaredDistanceAlongLine(ox: real, oy: real, oz: real, dx: real, dy: real, dz: real, t: real, r2: real)
    ensures Square(ox + t * dx) + Square(oy + t * dy) + Square(oz + t * dz) - r2
         == Quadratic(Square(dx) + Square(dy) + Square(dz), 2.0 * (ox * dx + oy * dy + oz * dz),
                      Square(ox) + Square(oy) + Square(oz) - r2, t)
  {
    ExpandSquare(ox, dx, t);
    ExpandSquare(oy, dy, t);
    ExpandSquare(oz, dz, t);
    var a := Square(dx) + Square(dy) + Square(dz);
    var p := ox * dx + oy * dy + oz * dz;
    assert t * (2.0 * (ox * dx)) + t * (2.0 * (oy * dy)) + t * (2.0 * (oz * dz)) == (2.0 * p) * t;
    assert Square(dx) * (t * t) + Square(dy) * (t * t) + Square(dz) * (t * t) == a * (t * t);
  }

  /** Lagrange's identity for the cross product of `(a1, a2, a3)` and
      `(b1, b2, b3)`, and the triple product `a · (b × c)` with `c` that cross
      product, which equals its squared length. */
  lemma Lagrange(a1: real, a2: real, a3: real, b1: real, b2: real, b3: real)
    ensures var c1, c2, c3 := a2 * b3 - a3 * b2, a3 * b1 - a1 * b3, a1 * b2 - a2 * b1;
      && c1 * c1 + c2 * c2 + c3 * c3
         == (a1 * a1 + a2 * a2 + a3 * a3) * (b1 * b1 + b2 * b2 + b3 * b3) - Square(a1 * b1 + a2 * b2 + a3 * b3)
      && a1 * (b2 * c3 - b3 * c2) - a2 * (b1 * c3 - b3 * c1) + a3 * (b1 * c2 - b2 * c1)
         == c1 * c1 + c2 * c2 + c3 * c3
  {
  }
}
