/** The three-vector helpers that both autopilot/transfer.py and
    autopilot/align_planets.py define, identically: length, angle between
    two vectors, and componentwise difference. */
module VectorMath {
  import opened Numerics

  /** A Python 3-tuple of one element type. */
  datatype Triple<T> = Triple(x: T, y: T, z: T)

  /** A position or velocity as kRPC returns it: a 3-tuple of floats. */
  type Vec3 = Triple<real>

  /** The zero vector, the one vector the source cannot take an angle with. */
  predicate IsZero(v: Vec3) {
    v.x == 0.0 && v.y == 0.0 && v.z == 0.0
  }

  function Dot(a: Vec3, b: Vec3): real {
    a.x * b.x + a.y * b.y + a.z * b.z
  }

  /** The sum of the squared components, under the root of `calculate_vector_length`. */
  function SquaredLength(v: Vec3): real {
    Dot(v, v)
  }

  /** `calculate_vector_length` */
  function Length(m: Libm, v: Vec3): real {
    m.sqrt(SquaredLength(v))
  }

  function Negate(v: Vec3): Vec3 {
    Triple(-v.x, -v.y, -v.z)
  }

  /** `subtract_vectors`: the difference is the zero vector exactly when the
      two vectors coincide. */
  function Subtract(a: Vec3, b: Vec3): (r: Vec3)
    ensures IsZero(r) <==> a == b
  {
    Triple(a.x - b.x, a.y - b.y, a.z - b.z)
  }

  /** `magnitude1 * magnitude2` in `calculate_angle_between_vectors`. */
  function Magnitudes(m: Libm, a: Vec3, b: Vec3): real {
    Length(m, a) * Length(m, b)
  }

  /** `dot_product / (magnitude1 * magnitude2)`, where the divisor is non-zero. */
  function Cosine(m: Libm, a: Vec3, b: Vec3): real
    requires Magnitudes(m, a, b) != 0.0
  {
    Dot(a, b) / Magnitudes(m, a, b)
  }

  /** `calculate_angle_between_vectors`: the arc cosine of the normalised dot
      product. The source has no guard: a zero vector makes Python divide by
      zero, and a cosine outside [-1, 1] makes `math.acos` raise. */
  function AngleBetween(m: Libm, a: Vec3, b: Vec3): Result<real> {
    if Magnitudes(m, a, b) == 0.0 then Failure(ZeroDivision)
    else if Cosine(m, a, b) < -1.0 || 1.0 < Cosine(m, a, b) then Failure(MathDomain)
    else Success(m.acos(Cosine(m, a, b)))
  }

  // ---------------------------------------------------------------------
  // Lemmas

  /** The dot product of a vector with itself is never negative and is
      positive exactly off the origin. */
  lemma DotSelf(a: Vec3, b: Vec3)
    requires a == b
    ensures !(Dot(a, b) < 0.0)
    ensures 0.0 < Dot(a, b) <==> !IsZero(a)
  {
    SelfProduct(a.x, b.x);
    SelfProduct(a.y, b.y);
    SelfProduct(a.z, b.z);
    if IsZero(a) {
      assert Dot(a, b) == 0.0;
    } else {
      assert a.x < 0.0 || 0.0 < a.x || a.y < 0.0 || 0.0 < a.y || a.z < 0.0 || 0.0 < a.z;
      SumOfNonNegatives(Dot(a, b), a.x * b.x, a.y * b.y, a.z * b.z);
    }
  }

  /** Only the origin has squared length zero. */
  lemma SquaredLengthSign(v: Vec3)
    ensures !(SquaredLength(v) < 0.0)
    ensures 0.0 < SquaredLength(v) <==> !IsZero(v)
  {
    DotSelf(v, v);
  }

  /** A length is never negative and is positive exactly off the origin. */
  lemma LengthSign(m: Libm, v: Vec3)
    requires Lawful(m)
    ensures !(Length(m, v) < 0.0)
    ensures 0.0 < Length(m, v) <==> !IsZero(v)
  {
    if IsZero(v) {
      LengthOfZero(m, v);
    } else {
      SquaredLengthSign(v);
      SqrtNonNegative(m, SquaredLength(v));
    }
  }

  lemma LengthOfZero(m: Libm, v: Vec3)
    requires Lawful(m) && IsZero(v)
    ensures Length(m, v) == 0.0
  {
    assert SquaredLength(v) == 0.0;
  }

  /** The square of a 2x2 determinant `e`, expanded. */
  lemma CrossSquare(a: real, b: real, c: real, d: real, e: real)
    requires e == a * d - b * c
    ensures e * e == a * a * (d * d) + b * b * (c * c) - 2.0 * ((a * c) * (b * d))
  {
  }

  /** The square of a product is the product of the squares. */
  lemma ProductSquare(a: real, b: real)
    ensures (a * b) * (a * b) == a * a * (b * b)
  {
  }

  /** The square of a sum `s` of three terms, expanded. */
  lemma SumSquare(x: real, y: real, z: real, s: real)
    requires s == x + y + z
    ensures s * s == x * x + y * y + z * z + 2.0 * (x * y) + 2.0 * (x * z) + 2.0 * (y * z)
  {
  }

  /** The product of two sums `s` and `t` of three terms, expanded. */
  lemma ProductOfSums(x1: real, x2: real, x3: real, y1: real, y2: real, y3: real, s: real, t: real)
    requires s == x1 + x2 + x3 && t == y1 + y2 + y3
    ensures s * t == x1 * y1 + x1 * y2 + x1 * y3 + x2 * y1 + x2 * y2 + x2 * y3 + x3 * y1 + x3 * y2 + x3 * y3
  {
  }

  /** The squared dot product, expanded into named products. */
  lemma DotSquareExpanded(a1: real, a2: real, a3: real, b1: real, b2: real, b3: real, d: real)
    requires d == a1 * b1 + a2 * b2 + a3 * b3
    ensures d * d == a1 * a1 * (b1 * b1) + a2 * a2 * (b2 * b2) + a3 * a3 * (b3 * b3)
      + 2.0 * ((a1 * b1) * (a2 * b2)) + 2.0 * ((a1 * b1) * (a3 * b3)) + 2.0 * ((a2 * b2) * (a3 * b3))
  {
    SumSquare(a1 * b1, a2 * b2, a3 * b3, d);
    ProductSquare(a1, b1);
    ProductSquare(a2, b2);
    ProductSquare(a3, b3);
  }

  /** Lagrange's identity once every product is named: the nine products of
      squares `m`, the three mixed products `x`, the squared norms' product
      `pq`, the squared dot product `dd` and the three squared components of
      the cross product `e`, which are never negative. */
  lemma LagrangeTerms(pq: real, dd: real, e1: real, e2: real, e3: real,
                      m11: real, m12: real, m13: real, m21: real, m22: real, m23: real,
                      m31: real, m32: real, m33: real, x12: real, x13: real, x23: real)
    requires pq == m11 + m12 + m13 + m21 + m22 + m23 + m31 + m32 + m33
    requires dd == m11 + m22 + m33 + 2.0 * x12 + 2.0 * x13 + 2.0 * x23
    requires e1 == m23 + m32 - 2.0 * x23 && !(e1 < 0.0)
    requires e2 == m13 + m31 - 2.0 * x13 && !(e2 < 0.0)
    requires e3 == m12 + m21 - 2.0 * x12 && !(e3 < 0.0)
    ensures dd <= pq
  {
  }

  /** Lagrange's identity written out on coordinates: the squared norms'
      product exceeds the squared dot product by the squared cross product. */
  lemma Lagrange(a1: real, a2: real, a3: real, b1: real, b2: real, b3: real, d: real, p: real, q: real)
    requires d == a1 * b1 + a2 * b2 + a3 * b3
    requires p == a1 * a1 + a2 * a2 + a3 * a3 && q == b1 * b1 + b2 * b2 + b3 * b3
    ensures d * d <= p * q
  {
    var c1, c2, c3 := a2 * b3 - a3 * b2, a1 * b3 - a3 * b1, a1 * b2 - a2 * b1;
    ProductOfSums(a1 * a1, a2 * a2, a3 * a3, b1 * b1, b2 * b2, b3 * b3, p, q);
    DotSquareExpanded(a1, a2, a3, b1, b2, b3, d);
    CrossSquare(a2, a3, b2, b3, c1);
    CrossSquare(a1, a3, b1, b3, c2);
    CrossSquare(a1, a2, b1, b2, c3);
    SelfProduct(c1, c1);
    SelfProduct(c2, c2);
    SelfProduct(c3, c3);
    LagrangeTerms(p * q, d * d, c1 * c1, c2 * c2, c3 * c3,
                  a1 * a1 * (b1 * b1), a1 * a1 * (b2 * b2), a1 * a1 * (b3 * b3),
                  a2 * a2 * (b1 * b1), a2 * a2 * (b2 * b2), a2 * a2 * (b3 * b3),
                  a3 * a3 * (b1 * b1), a3 * a3 * (b2 * b2), a3 * a3 * (b3 * b3),
                  (a1 * b1) * (a2 * b2), (a1 * b1) * (a3 * b3), (a2 * b2) * (a3 * b3));
  }

  /** Cauchy-Schwarz. */
  lemma CauchySchwarz(a: Vec3, b: Vec3)
    ensures Dot(a, b) * Dot(a, b) <= SquaredLength(a) * SquaredLength(b)
  {
    Lagrange(a.x, a.y, a.z, b.x, b.y, b.z, Dot(a, b), SquaredLength(a), SquaredLength(b));
  }

  /** If `d * d <= p * q` and `la`, `lb` are non-negative square roots of
      `p` and `q`, then `|d| <= la * lb`. */
  lemma BoundFromSquares(d: real, p: real, q: real, la: real, lb: real)
    requires d * d <= p * q && la * la == p && lb * lb == q
    requires !(la < 0.0) && !(lb < 0.0)
    ensures Abs(d) <= la * lb
  {
    var l, e := la * lb, Abs(d);
    assert l * l == (la * la) * (lb * lb);
    MulCongruence(la * la, lb * lb, p, q);
    assert e * e == d * d by {
      if d < 0.0 { assert e == -d; }
    }
    if !(la < 0.0) && !(lb < 0.0) {
      if 0.0 < la && 0.0 < lb { PosMul(la, lb); }
    }
    SquareOrder(l, e);
  }

  /** A length is a non-negative root of the squared length. */
  lemma LengthSquared(m: Libm, v: Vec3)
    requires Lawful(m) && SqrtSquares(m.sqrt)
    ensures !(Length(m, v) < 0.0) && !(SquaredLength(v) < 0.0)
    ensures Length(m, v) * Length(m, v) == SquaredLength(v)
  {
    SquaredLengthSign(v);
    LengthSign(m, v);
    assert Squared(Length(m, v)) == SquaredLength(v);
  }

  /** The product of the two lengths bounds the dot product. */
  lemma DotBound(m: Libm, a: Vec3, b: Vec3)
    requires Lawful(m) && SqrtSquares(m.sqrt)
    ensures Abs(Dot(a, b)) <= Length(m, a) * Length(m, b)
  {
    CauchySchwarz(a, b);
    LengthSquared(m, a);
    LengthSquared(m, b);
    BoundFromSquares(Dot(a, b), SquaredLength(a), SquaredLength(b), Length(m, a), Length(m, b));
  }

  /** A quotient whose magnitude the positive divisor bounds lies in [-1, 1]. */
  lemma DivWithinUnit(d: real, l: real)
    requires 0.0 < l && Abs(d) <= l
    ensures !(d / l < -1.0) && !(1.0 < d / l)
  {
    if d < l { DivLess(d, l, l); }
    if -l < d { DivLess(-l, d, l); }
    DivSelf(l);
  }

  /** Swapping the operands negates the difference. */
  lemma SubtractAntisymmetric(a: Vec3, b: Vec3)
    ensures Subtract(b, a) == Negate(Subtract(a, b))
  {
  }

  /** The product of the two lengths is never negative, and is positive
      exactly when neither vector is zero. */
  lemma MagnitudesSign(m: Libm, a: Vec3, b: Vec3)
    requires Lawful(m)
    ensures !(Magnitudes(m, a, b) < 0.0)
    ensures 0.0 < Magnitudes(m, a, b) <==> !IsZero(a) && !IsZero(b)
  {
    LengthSign(m, a);
    LengthSign(m, b);
    NonNegativeProduct(Length(m, a), Length(m, b));
    assert Magnitudes(m, a, b) == Length(m, a) * Length(m, b);
    assert 0.0 < Magnitudes(m, a, b) ==> !IsZero(a) && !IsZero(b);
  }

  /** Off the origin the cosine lies in [-1, 1]. */
  lemma CosineWithinUnit(m: Libm, a: Vec3, b: Vec3)
    requires Lawful(m) && SqrtSquares(m.sqrt) && !IsZero(a) && !IsZero(b)
    ensures 0.0 < Magnitudes(m, a, b)
    ensures -1.0 <= Cosine(m, a, b) <= 1.0
  {
    MagnitudesSign(m, a, b);
    DotBound(m, a, b);
    DivWithinUnit(Dot(a, b), Magnitudes(m, a, b));
  }

  /** The source's formula raises only for a zero vector, and then raises
      `ZeroDivisionError`: over the reals the cosine always lies in [-1, 1],
      so `math.acos` never sees a bad argument. */
  lemma AngleBetweenDefined(m: Libm, a: Vec3, b: Vec3)
    requires Lawful(m) && SqrtSquares(m.sqrt)
    ensures AngleBetween(m, a, b) == Failure(ZeroDivision) <==> IsZero(a) || IsZero(b)
    ensures AngleBetween(m, a, b).Success? <==> !IsZero(a) && !IsZero(b)
  {
    MagnitudesSign(m, a, b);
    if !IsZero(a) && !IsZero(b) {
      CosineWithinUnit(m, a, b);
    }
  }

  /** Between two non-zero vectors the angle lies in [0, PI]. */
  lemma AngleRange(m: Libm, a: Vec3, b: Vec3)
    requires Lawful(m) && SqrtSquares(m.sqrt) && !IsZero(a) && !IsZero(b)
    ensures AngleBetween(m, a, b).Success?
    ensures 0.0 <= AngleBetween(m, a, b).value <= PI
  {
    CosineWithinUnit(m, a, b);
    AcosRange(m, Cosine(m, a, b));
  }

  /** The angle does not depend on the order of the two vectors. */
  lemma AngleBetweenSymmetric(m: Libm, a: Vec3, b: Vec3)
    ensures AngleBetween(m, a, b) == AngleBetween(m, b, a)
  {
    assert Dot(a, b) == Dot(b, a);
    MulCommutes(Length(m, a), Length(m, b));
  }

  /** A non-zero vector's length is the positive root of its squared length. */
  lemma LengthRoot(m: Libm, v: Vec3)
    requires Lawful(m) && SqrtSquares(m.sqrt) && !IsZero(v)
    ensures 0.0 < Length(m, v) && Squared(Length(m, v)) == Dot(v, v)
  {
    LengthSign(m, v);
    SquaredLengthSign(v);
  }

  /** Negating both operands keeps the dot product; negating one negates it. */
  lemma DotNegate(a: Vec3, b: Vec3)
    ensures Dot(Negate(a), Negate(b)) == Dot(a, b)
    ensures Dot(a, Negate(b)) == -Dot(a, b)
  {
    NegProducts(a.x, b.x);
    NegProducts(a.y, b.y);
    NegProducts(a.z, b.z);
  }

  /** The cosine is the dot product over the magnitudes, whatever terms
      name them. */
  lemma CosineIs(m: Libm, a: Vec3, b: Vec3, d: real, p: real)
    requires Magnitudes(m, a, b) == p && p != 0.0 && Dot(a, b) == d
    ensures Cosine(m, a, b) == d / p
  {
    QuotientCongruence(Dot(a, b), Magnitudes(m, a, b), d, p);
  }

  /** A non-zero vector makes angle 0 with itself... */
  lemma AngleWithItself(m: Libm, v: Vec3)
    requires Lawful(m) && SqrtSquares(m.sqrt) && !IsZero(v)
    ensures AngleBetween(m, v, v) == Success(0.0)
  {
    LengthRoot(m, v);
    MagnitudesSign(m, v, v);
    var l := Magnitudes(m, v, v);
    assert l == Squared(Length(m, v));
    DivSelf(l);
    CosineIs(m, v, v, l, l);
    AcosAt(m.acos, Cosine(m, v, v), 1.0);
  }

  /** ... and angle PI with its opposite. */
  lemma AngleWithOpposite(m: Libm, v: Vec3)
    requires Lawful(m) && SqrtSquares(m.sqrt) && !IsZero(v)
    ensures AngleBetween(m, v, Negate(v)) == Success(PI)
  {
    LengthRoot(m, v);
    DotNegate(v, v);
    assert Length(m, Negate(v)) == Length(m, v);
    MagnitudesSign(m, v, Negate(v));
    var l := Magnitudes(m, v, Negate(v));
    MulCongruence(Length(m, v), Length(m, Negate(v)), Length(m, v), Length(m, v));
    assert l == Squared(Length(m, v));
    DivSelf(l);
    CosineIs(m, v, Negate(v), -l, l);
    AcosAt(m.acos, Cosine(m, v, Negate(v)), -1.0);
  }
}
